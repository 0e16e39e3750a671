/** Bounded responses that a caller pages through: file snapshots, evidence and path lists. The size
    of a serialized response is an arbitrary function of where its page starts and ends. */
module Paging {
  import opened Options
  import opened Utf8

  const RESPONSE_LIMIT := 16 * 1024
  const SNAPSHOT_TARGET := 8192
  const EVIDENCE_TARGET := 4096

  /** A page covers the positions from its offset up to end. */
  datatype Reply = Page(end: nat, next: Option<nat>) | Failed

  // ---------------------------------------------------------------- characters

  predicate Boundary(bytes: seq<Byte>, k: nat) {
    k == |bytes| || (k < |bytes| && !Continues(bytes[k]))
  }

  /** What the test of one byte means: the text before it consists of whole characters. */
  lemma {:induction false} BoundarySplits(chars: seq<seq<Byte>>, k: nat) returns (j: nat)
    requires AllEncoded(chars) && Boundary(Join(chars), k)
    ensures j <= |chars| && Join(chars)[..k] == Join(chars[..j]) && Join(chars)[k..] == Join(chars[j..])
  {
    if k == 0 {
      j := 0;
      assert chars[..0] == [] && chars[0..] == chars;
    } else {
      var first, bytes := chars[0], Join(chars);
      assert bytes == first + Join(chars[1..]);
      assert k >= |first| by {
        assert forall i | 0 < i < |first| :: bytes[i] == first[i];
      }
      var rest := chars[1..];
      assert k < |bytes| ==> Join(rest)[k - |first|] == bytes[k];
      var i := BoundarySplits(rest, k - |first|);
      j := i + 1;
      assert chars[..j][1..] == rest[..i] && chars[j..] == rest[i..];
      assert bytes[..k] == first + Join(rest)[..k - |first|];
      assert bytes[k..] == Join(rest)[k - |first|..];
    }
  }

  // ---------------------------------------------------------------- one page

  /** A page of a byte resource: whole characters, at least one unless the end is reached. */
  predicate IsPage(bytes: seq<Byte>, offset: nat, r: Reply) {
    && r.Page? && offset <= r.end <= |bytes| && Boundary(bytes, r.end)
    && (offset < |bytes| ==> offset < r.end)
    && r.next == if r.end < |bytes| then Some(r.end) else None
  }

  /** Back to the start of the character that contains position end. */
  method Retreat(bytes: seq<Byte>, offset: nat, end: nat) returns (k: nat)
    requires offset <= end <= |bytes| && Boundary(bytes, offset)
    ensures offset <= k <= end && Boundary(bytes, k)
    ensures forall i | k < i <= end :: !Boundary(bytes, i)
  {
    k := end;
    while k < |bytes| && Continues(bytes[k])
      invariant offset <= k <= end && forall i | k < i <= end :: !Boundary(bytes, i)
      decreases k
    {
      k := k - 1;
    }
  }

  /** The largest page that fits: nothing longer, up to the target size, would have. */
  method ReadSnapshotChunk(bytes: seq<Byte>, cursor: nat, size: (nat, nat) -> nat) returns (r: Reply)
    ensures !Boundary(bytes, cursor) ==> r == Failed
    ensures r.Page? ==> IsPage(bytes, cursor, r)
    ensures r.Page? && cursor < |bytes| ==> r.end <= cursor + SNAPSHOT_TARGET && size(cursor, r.end) <= RESPONSE_LIMIT
    ensures Boundary(bytes, cursor) ==>
              forall e | (if r.Page? then r.end else cursor) < e <= |bytes| && e <= cursor + SNAPSHOT_TARGET && Boundary(bytes, e) ::
                size(cursor, e) > RESPONSE_LIMIT
    ensures r == Failed && Boundary(bytes, cursor) ==> cursor < |bytes|
  {
    if !Boundary(bytes, cursor) {
      return Failed;
    }
    var end := if |bytes| < cursor + SNAPSHOT_TARGET then |bytes| else cursor + SNAPSHOT_TARGET;
    end := Retreat(bytes, cursor, end);
    while end > cursor
      invariant cursor <= end <= |bytes| && end <= cursor + SNAPSHOT_TARGET && Boundary(bytes, end)
      invariant forall e | end < e <= |bytes| && e <= cursor + SNAPSHOT_TARGET && Boundary(bytes, e) :: size(cursor, e) > RESPONSE_LIMIT
    {
      if size(cursor, end) <= RESPONSE_LIMIT {
        return Page(end, if end < |bytes| then Some(end) else None);
      }
      end := Retreat(bytes, cursor, end - 1);
    }
    r := if cursor == |bytes| then Page(cursor, None) else Failed;
  }

  /** The last end of a character up to a limit. */
  predicate LastUpTo(bytes: seq<Byte>, end: nat, limit: nat) {
    end <= limit && forall i | end < i <= limit :: !Boundary(bytes, i)
  }

  /** A page would have been too large, and this one goes half as far. */
  predicate HalfOf(bytes: seq<Byte>, cursor: nat, end: nat, failed: nat, size: (nat, nat) -> nat) {
    cursor <= failed && size(cursor, failed) > RESPONSE_LIMIT && LastUpTo(bytes, end, cursor + (failed - cursor) / 2)
  }

  /** A page of evidence: the target size is halved until the response fits. */
  method ReadEvidence(bytes: seq<Byte>, cursor: nat, size: (nat, nat) -> nat) returns (r: Reply)
    ensures !Boundary(bytes, cursor) ==> r == Failed
    ensures r.Page? ==> IsPage(bytes, cursor, r) && r.end <= cursor + EVIDENCE_TARGET && size(cursor, r.end) <= RESPONSE_LIMIT
    ensures r.Page? ==>
              || LastUpTo(bytes, r.end, if |bytes| < cursor + 0x1000 then |bytes| else cursor + 0x1000)
              || exists failed | r.end < failed <= |bytes| && Boundary(bytes, failed) :: HalfOf(bytes, cursor, r.end, failed, size)
    ensures r.Failed? && Boundary(bytes, cursor) ==>
              (exists e :: size(cursor, e) > RESPONSE_LIMIT) ||
              (cursor < |bytes| && forall e | cursor < e <= |bytes| && e <= cursor + EVIDENCE_TARGET :: !Boundary(bytes, e))
  {
    if !Boundary(bytes, cursor) {
      return Failed;
    }
    var end := if |bytes| < cursor + EVIDENCE_TARGET then |bytes| else cursor + EVIDENCE_TARGET;
    ghost var first, failed := end, cursor;
    while true
      invariant cursor <= end <= |bytes| && end <= cursor + EVIDENCE_TARGET
      invariant end == first || (cursor < failed <= |bytes| && Boundary(bytes, failed) && size(cursor, failed) > RESPONSE_LIMIT &&
                                 end == cursor + (failed - cursor) / 2)
      decreases end
    {
      ghost var target := end;
      end := Retreat(bytes, cursor, end);
      if end == cursor && cursor != |bytes| {
        return Failed;
      }
      if size(cursor, end) <= RESPONSE_LIMIT {
        assert target != first ==> HalfOf(bytes, cursor, end, failed, size);
        return Page(end, if end < |bytes| then Some(end) else None);
      }
      if end == cursor {
        return Failed;
      }
      failed := end;
      end := cursor + (end - cursor) / 2;
    }
  }

  /** A page of a list: as many entries as the limit and the response size allow. */
  method ListSnapshot<T>(files: seq<T>, cursor: nat, limit: nat, size: (nat, nat) -> nat) returns (r: Reply)
    requires limit >= 1
    ensures cursor > |files| ==> r == Failed
    ensures r.Page? ==> cursor <= r.end <= |files| && (cursor < |files| ==> cursor < r.end) && r.end <= cursor + limit
    ensures r.Page? ==> r.next == if r.end < |files| then Some(r.end) else None
    ensures r.Page? ==> forall e | cursor < e <= r.end :: size(cursor, e) <= RESPONSE_LIMIT
    ensures r.Page? && r.end < |files| && r.end < cursor + limit ==> size(cursor, r.end + 1) > RESPONSE_LIMIT
    ensures r == Failed && cursor <= |files| ==> cursor < |files| && size(cursor, cursor + 1) > RESPONSE_LIMIT
  {
    if cursor > |files| {
      return Failed;
    }
    var end := cursor;
    while end < |files| && end - cursor < limit
      invariant cursor <= end <= |files| && end <= cursor + limit
      invariant forall e | cursor < e <= end :: size(cursor, e) <= RESPONSE_LIMIT
    {
      if size(cursor, end + 1) > RESPONSE_LIMIT {
        break;
      }
      end := end + 1;
    }
    if cursor < |files| && end == cursor {
      return Failed;
    }
    r := Page(end, if end < |files| then Some(end) else None);
  }

  // ---------------------------------------------------------------- following the cursor

  /** A page starts where the one before it ends. */
  function Start(ends: seq<nat>, i: nat): nat
    requires i <= |ends|
  {
    if i == 0 then 0 else ends[i - 1]
  }

  predicate Increasing(ends: seq<nat>) {
    forall i, j | 0 <= i < j < |ends| :: ends[i] < ends[j]
  }

  /** Pages that cover a resource from its start, each one right after the one before. */
  ghost predicate Cover<T>(items: seq<T>, ends: seq<nat>, upTo: nat) {
    && (forall i | 0 <= i < |ends| :: ends[i] <= |items|)
    && Increasing(ends)
    && upTo == Start(ends, |ends|) <= |items|
  }

  function PagesOf<T>(items: seq<T>, ends: seq<nat>): seq<seq<T>>
    requires forall i | 0 <= i < |ends| :: ends[i] <= |items|
    requires Increasing(ends)
  {
    seq(|ends|, i requires 0 <= i < |ends| => items[Start(ends, i)..ends[i]])
  }

  lemma PagesOfNext<T>(items: seq<T>, ends: seq<nat>)
    requires ends != []
    requires forall i | 0 <= i < |ends| :: ends[i] <= |items|
    requires Increasing(ends)
    ensures var n := |ends| - 1;
            PagesOf(items, ends) == PagesOf(items, ends[..n]) + [items[Start(ends, n)..ends[n]]]
  {
    var shorter := ends[..|ends| - 1];
    assert forall i | 0 <= i <= |shorter| :: Start(shorter, i) == Start(ends, i);
  }

  /** Nothing is lost or repeated: the pages concatenate to what they cover. */
  lemma {:induction false} PagesConcatenate<T>(items: seq<T>, ends: seq<nat>, upTo: nat)
    requires Cover(items, ends, upTo)
    ensures Join(PagesOf(items, ends)) == items[..upTo]
    decreases |ends|
  {
    if ends != [] {
      var n := |ends| - 1;
      var shorter := ends[..n];
      var last := Start(ends, n);
      assert last == Start(shorter, n);
      PagesConcatenate(items, shorter, last);
      PagesOfNext(items, ends);
      JoinConcat(PagesOf(items, shorter), [items[last..ends[n]]]);
      JoinOne(items[last..ends[n]]);
      assert items[..last] + items[last..ends[n]] == items[..upTo];
    }
  }

  lemma CoverNext<T>(items: seq<T>, ends: seq<nat>, cursor: nat, end: nat)
    requires Cover(items, ends, cursor) && cursor < end <= |items|
    ensures Cover(items, ends + [end], end)
  {
    var more, n := ends + [end], |ends|;
    assert more[n] == end && forall i | 0 <= i < n :: more[i] == ends[i];
  }

  /** The sizes of the pages follow from where they end. */
  ghost predicate Bounded(ends: seq<nat>, limit: nat) {
    forall i | 0 <= i < |ends| :: SizedAt(ends, i, limit)
  }

  predicate SizedAt(ends: seq<nat>, i: nat, limit: nat)
    requires i < |ends|
  {
    1 <= ends[i] - Start(ends, i) <= limit
  }

  lemma BoundedNext<T>(items: seq<T>, ends: seq<nat>, cursor: nat, end: nat, limit: nat)
    requires Cover(items, ends, cursor) && cursor < end <= cursor + limit && Bounded(ends, limit)
    ensures Bounded(ends + [end], limit)
  {
    var more := ends + [end];
    forall i | 0 <= i < |more|
      ensures SizedAt(more, i, limit)
    {
      if i < |ends| {
        assert SizedAt(ends, i, limit);
      }
    }
  }

  lemma JoinOne<T>(part: seq<T>)
    ensures Join([part]) == part
  {
  }

  datatype Kind = Snapshot | Evidence

  ghost predicate AllFit(size: (nat, nat) -> nat) {
    forall a, b :: size(a, b) <= 0x4000
  }

  /** A character ends within four bytes. */
  lemma NextBoundary(chars: seq<seq<Byte>>, k: nat)
    requires AllEncoded(chars) && Boundary(Join(chars), k) && k < |Join(chars)|
    ensures exists e :: k < e <= |Join(chars)| && e <= k + 4 && Boundary(Join(chars), e)
  {
    var bytes := Join(chars);
    var j := BoundarySplits(chars, k);
    var rest := chars[j..];
    assert bytes[k..] == rest[0] + Join(rest[1..]);
    var e := k + |rest[0]|;
    if e < |bytes| {
      assert bytes[e] == Join(rest[1..])[0];
      StartsAtBoundary(rest[1..]);
    }
    assert Boundary(bytes, e);
  }

  method ReadPage(kind: Kind, bytes: seq<Byte>, cursor: nat, size: (nat, nat) -> nat) returns (r: Reply)
    ensures !Boundary(bytes, cursor) ==> r == Failed
    ensures r.Page? ==> IsPage(bytes, cursor, r)
    ensures kind == Snapshot && Boundary(bytes, cursor) ==>
              forall e | (if r.Page? then r.end else cursor) < e <= |bytes| && e <= cursor + 0x2000 && Boundary(bytes, e) ::
                size(cursor, e) > 0x4000
    ensures r.Page? ==> r.end <= cursor + if kind == Snapshot then 0x2000 else 0x1000
    ensures r.Page? && cursor < |bytes| ==> size(cursor, r.end) <= 0x4000
    ensures r.Failed? && Boundary(bytes, cursor) && AllFit(size) ==>
              cursor < |bytes| && forall e | cursor < e <= |bytes| && e <= cursor + 4 :: !Boundary(bytes, e)
  {
    if kind == Snapshot {
      r := ReadSnapshotChunk(bytes, cursor, size);
    } else {
      r := ReadEvidence(bytes, cursor, size);
    }
  }

  /** Following nextCursor from the start ends; it splits only between characters; and if no call
      failed, the pages concatenate to the resource. */
  method ReadAll(kind: Kind, chars: seq<seq<Byte>>, size: (nat, nat) -> nat) returns (pages: seq<seq<Byte>>, complete: bool)
    requires AllEncoded(chars)
    ensures complete ==> Join(pages) == Join(chars)
    ensures AllFit(size) ==> complete
    ensures Join(pages) <= Join(chars)
    ensures forall i | 0 <= i < |pages| :: WholeCharacters(chars, pages[i])
  {
    var bytes := Join(chars);
    var cursor: nat, ends: seq<nat> := 0, [];
    StartsAtBoundary(chars);
    complete := false;
    while !complete
      invariant cursor <= |bytes| && Cover(bytes, ends, cursor) && Boundary(bytes, cursor)
      invariant if complete then cursor == |bytes| else ends == [] || cursor < |bytes|
      invariant forall i | 0 <= i < |ends| :: Boundary(bytes, ends[i])
      decreases !complete, |bytes| - cursor
    {
      var r := ReadPage(kind, bytes, cursor, size);
      if r.Failed? {
        if cursor < |bytes| {
          NextBoundary(chars, cursor);
        }
        break;
      }
      if r.end > cursor {
        CoverNext(bytes, ends, cursor, r.end);
        ends := ends + [r.end];
      }
      complete := r.next.None?;
      cursor := r.end;
    }
    PagesConcatenate(bytes, ends, cursor);
    pages := PagesOf(bytes, ends);
    forall i | 0 <= i < |pages|
      ensures WholeCharacters(chars, pages[i])
    {
      BetweenBoundaries(chars, Start(ends, i), ends[i]);
    }
  }

  ghost predicate WholeCharacters(chars: seq<seq<Byte>>, page: seq<Byte>) {
    exists i, j :: 0 <= i <= j <= |chars| && page == Join(chars[i..j])
  }

  lemma StartsAtBoundary(chars: seq<seq<Byte>>)
    requires AllEncoded(chars)
    ensures Boundary(Join(chars), 0)
  {
  }

  lemma {:induction false} JoinLength(chars: seq<seq<Byte>>, i: nat, j: nat)
    requires AllEncoded(chars) && i <= |chars| && j <= |chars| && i < j
    ensures |Join(chars[..i])| < |Join(chars[..j])|
  {
    assert chars[..j] == chars[..i] + chars[i..j];
    JoinConcat(chars[..i], chars[i..j]);
    assert chars[i..j][0] == chars[i];
  }

  lemma BetweenBoundaries(chars: seq<seq<Byte>>, a: nat, b: nat)
    requires AllEncoded(chars) && a <= b <= |Join(chars)| && Boundary(Join(chars), a) && Boundary(Join(chars), b)
    ensures WholeCharacters(chars, Join(chars)[a..b])
  {
    var bytes := Join(chars);
    var i := BoundarySplits(chars, a);
    var j := BoundarySplits(chars, b);
    if j < i {
      JoinLength(chars, j, i);
    }
    assert chars[..j] == chars[..i] + chars[i..j];
    JoinConcat(chars[..i], chars[i..j]);
    assert bytes[..b] == bytes[..a] + bytes[a..b];
    assert bytes[a..b] == Join(chars[i..j]);
  }

  /** The same for a list. */
  method ListAll<T>(files: seq<T>, limit: nat, size: (nat, nat) -> nat) returns (pages: seq<seq<T>>, complete: bool)
    requires limit >= 1
    ensures complete ==> Join(pages) == files
    ensures AllFit(size) ==> complete
    ensures Join(pages) <= files && forall i | 0 <= i < |pages| :: 1 <= |pages[i]| <= limit
  {
    hide Cover, Bounded;
    var cursor: nat, ends: seq<nat> := 0, [];
    complete := false;
    Uncovered(files, limit);
    while !complete
      invariant cursor <= |files| && Cover(files, ends, cursor) && Bounded(ends, limit)
      invariant if complete then cursor == |files| else ends == [] || cursor < |files|
      decreases !complete, |files| - cursor
    {
      var r := ListSnapshot(files, cursor, limit, size);
      if r.Failed? {
        break;
      }
      if r.end > cursor {
        CoverNext(files, ends, cursor, r.end);
        BoundedNext(files, ends, cursor, r.end, limit);
        ends := ends + [r.end];
      }
      complete := r.next.None?;
      cursor := r.end;
    }
    PagesConcatenate(files, ends, cursor);
    PageSizes(files, ends, cursor, limit);
    pages := PagesOf(files, ends);
  }

  lemma Uncovered<T>(items: seq<T>, limit: nat)
    ensures Cover(items, [], 0) && Bounded([], limit)
  {
  }

  lemma PageSizes<T>(items: seq<T>, ends: seq<nat>, upTo: nat, limit: nat)
    requires Cover(items, ends, upTo) && Bounded(ends, limit)
    ensures (forall i | 0 <= i < |ends| :: ends[i] <= |items|) && Increasing(ends)
    ensures forall i | 0 <= i < |ends| :: 1 <= |PagesOf(items, ends)[i]| <= limit
  {
    forall i | 0 <= i < |ends|
      ensures 1 <= |PagesOf(items, ends)[i]| <= limit
    {
      assert SizedAt(ends, i, limit);
    }
  }
}
