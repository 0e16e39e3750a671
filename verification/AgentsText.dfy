/** AGENTS.md with one managed block: appended at installation, recognised and replaced by an
    upgrade, which also has to recover the text from before the installation. */
module AgentsText {
  import opened Options

  function BeginMarker(): string { "<!-- opencode-android-orchestrator:begin -->" }

  function EndMarker(): string { "<!-- opencode-android-orchestrator:end -->" }

  const LF := "\n"
  const CRLF := "\r\n"

  datatype Problem = MarkersInvalid | BlockConflict
  datatype Merged = Merged(content: string) | Failed(why: Problem)
  datatype Upgrade = Upgraded(content: string, previous: Option<string>) | Refused(why: Problem)
  datatype Range = NoBlock | Block(begin: nat, end: nat) | Invalid

  // ---------------------------------------------------------------- searching

  predicate OccursAt(s: string, m: string, i: nat) {
    i + |m| <= |s| && s[i..i + |m|] == m
  }

  function IndexOf(s: string, m: string, from: nat): (r: Option<nat>)
    ensures r.Some? ==> from <= r.value && OccursAt(s, m, r.value) && forall i: nat | from <= i < r.value :: !OccursAt(s, m, i)
    ensures r.None? ==> forall i: nat | from <= i :: !OccursAt(s, m, i)
    decreases |s| - from
  {
    if from > |s| then None
    else if OccursAt(s, m, from) then Some(from)
    else if from == |s| then None
    else IndexOf(s, m, from + 1)
  }

  /** Occurrences counted from the left without overlap. */
  function Count(s: string, m: string, from: nat): nat
    requires m != ""
    decreases |s| - from
  {
    var i := IndexOf(s, m, from);
    if i.None? then 0 else 1 + Count(s, m, i.value + |m|)
  }

  lemma CountStep(s: string, m: string, from: nat)
    requires m != ""
    ensures var i := IndexOf(s, m, from);
            && Count(s, m, from) == (if i.None? then 0 else 1 + Count(s, m, i.value + |m|))
            && (i.Some? ==> from <= i.value && i.value + |m| <= |s|)
  {
  }

  method MarkerCount(content: string, marker: string) returns (count: nat)
    requires marker != ""
    ensures count == Count(content, marker, 0)
  {
    hide Count, IndexOf, OccursAt;
    count := 0;
    var offset := 0;
    while true
      invariant offset <= |content| && count + Count(content, marker, offset) == Count(content, marker, 0)
      decreases |content| - offset
    {
      var index := IndexOf(content, marker, offset);
      CountStep(content, marker, offset);
      if index.None? {
        return;
      }
      count := count + 1;
      offset := index.value + |marker|;
    }
  }

  ghost predicate Absent(s: string, m: string) {
    forall i: nat :: !OccursAt(s, m, i)
  }

  ghost predicate OnlyAt(s: string, m: string, p: nat) {
    OccursAt(s, m, p) && forall i: nat | OccursAt(s, m, i) :: i == p
  }

  /** Both markers start with the only '<' they contain and span no line break. */
  predicate Marker(m: string) {
    m != "" && m[0] == '<' && m[|m| - 1] == '>' && forall i | 0 < i < |m| :: m[i] != '<' && m[i] != '\n' && m[i] != '\r'
  }

  lemma BeginIsMarker()
    ensures Marker(BeginMarker())
  {
  }

  lemma EndIsMarker()
    ensures Marker(EndMarker())
  {
  }

  lemma MarkersAreMarkers()
    ensures Marker(BeginMarker()) && Marker(EndMarker()) && BeginMarker() != EndMarker()
  {
    BeginIsMarker();
    EndIsMarker();
  }

  lemma OccurrenceAt(s: string, m: string, i: nat, k: nat)
    requires OccursAt(s, m, i) && k < |m|
    ensures i + k < |s| && s[i + k] == m[k]
  {
  }

  lemma NoOverlap(s: string, m: string, i: nat, j: nat)
    requires Marker(m) && OccursAt(s, m, i) && OccursAt(s, m, j) && i < j
    ensures i + |m| <= j
  {
    OccurrenceAt(s, m, j, 0);
    if j < i + |m| {
      OccurrenceAt(s, m, i, j - i);
    }
  }

  lemma CountsNone(s: string, m: string, from: nat)
    requires m != ""
    ensures Count(s, m, from) == 0 <==> forall i: nat | from <= i :: !OccursAt(s, m, i)
  {
  }

  lemma CountsOne(s: string, m: string, p: nat)
    requires Marker(m) && OccursAt(s, m, p)
    ensures Count(s, m, 0) == 1 <==> OnlyAt(s, m, p)
    ensures OnlyAt(s, m, p) ==> IndexOf(s, m, 0) == Some(p)
  {
    var first := IndexOf(s, m, 0).value;
    CountsNone(s, m, first + |m|);
    if Count(s, m, 0) == 1 {
      forall i: nat | OccursAt(s, m, i)
        ensures i == first
      {
        if first < i {
          NoOverlap(s, m, first, i);
        }
      }
    }
  }

  // ---------------------------------------------------------------- line endings

  predicate HasCrlf(s: string) {
    IndexOf(s, CRLF, 0).Some?
  }

  function StripCrlf(s: string): string {
    if s == "" then ""
    else if |s| >= 2 && s[0] == '\r' && s[1] == '\n' then StripCrlf(s[2..])
    else [s[0]] + StripCrlf(s[1..])
  }

  function LineEnding(s: string): (ending: string)
    ensures ending == LF || ending == CRLF
  {
    if HasCrlf(s) && '\n' !in StripCrlf(s) then CRLF else LF
  }

  /** A line feed that no carriage return precedes. */
  predicate BareAt(s: string, i: nat) {
    i < |s| && s[i] == '\n' && (i == 0 || s[i - 1] != '\r')
  }

  ghost predicate NoBare(s: string) {
    forall i: nat :: !BareAt(s, i)
  }

  lemma {:induction false} StripFindsBare(s: string)
    ensures '\n' in StripCrlf(s) <==> !NoBare(s)
  {
    if s == "" {
    } else if |s| >= 2 && s[0] == '\r' && s[1] == '\n' {
      StripFindsBare(s[2..]);
      forall i: nat
        ensures BareAt(s[2..], i) <==> BareAt(s, i + 2)
      {
      }
      if !NoBare(s) {
        var i: nat :| BareAt(s, i);
        assert i >= 2;
        assert BareAt(s[2..], i - 2);
      }
    } else {
      StripFindsBare(s[1..]);
      if s[0] == '\n' {
        assert BareAt(s, 0);
        assert StripCrlf(s)[0] == '\n';
      } else {
        forall i: nat
          ensures BareAt(s[1..], i) <==> BareAt(s, i + 1)
        {
          if i == 0 && |s| >= 2 && s[1] == '\n' {
            assert s[0] != '\r';
          }
        }
        if !NoBare(s) {
          var i: nat :| BareAt(s, i);
          assert i >= 1;
          assert BareAt(s[1..], i - 1);
        }
        assert StripCrlf(s) == [s[0]] + StripCrlf(s[1..]);
      }
    }
  }

  /** replaceAll of every line feed. */
  function ToCrlf(s: string): (r: string)
    ensures |r| >= |s|
  {
    if s == "" then "" else (if s[0] == '\n' then CRLF else [s[0]]) + ToCrlf(s[1..])
  }

  function ConvertLineEndings(s: string, ending: string): string {
    if ending == LF then s else ToCrlf(s)
  }

  lemma {:induction false} ToCrlfConcat(a: string, b: string)
    ensures ToCrlf(a + b) == ToCrlf(a) + ToCrlf(b)
  {
    if a == "" {
      assert a + b == b;
    } else {
      assert (a + b)[1..] == a[1..] + b;
      ToCrlfConcat(a[1..], b);
    }
  }

  lemma {:induction false} ToCrlfNoLf(a: string)
    requires '\n' !in a
    ensures ToCrlf(a) == a
  {
    if a != "" {
      ToCrlfNoLf(a[1..]);
      assert a == [a[0]] + a[1..];
    }
  }

  lemma {:induction false} ToCrlfNoBare(a: string)
    ensures NoBare(ToCrlf(a))
  {
    if a != "" {
      ToCrlfNoBare(a[1..]);
      NoBareConcat(if a[0] == '\n' then CRLF else [a[0]], ToCrlf(a[1..]));
    }
  }

  lemma NoBareConcat(a: string, b: string)
    requires NoBare(a) && NoBare(b)
    ensures NoBare(a + b)
  {
    forall i: nat
      ensures !BareAt(a + b, i)
    {
      assert !BareAt(a, i);
      if i >= |a| {
        assert !BareAt(b, i - |a|);
      }
    }
  }

  /** Converting twice is not converting once, for any text with a line in it. */
  lemma {:induction false} ToCrlfGrows(a: string)
    ensures '\n' in a ==> |ToCrlf(a)| > |a|
  {
    if a != "" {
      ToCrlfGrows(a[1..]);
      assert a == [a[0]] + a[1..];
    }
  }

  lemma {:induction false} ToCrlfKeepsLf(a: string)
    requires '\n' in a
    ensures '\n' in ToCrlf(a)
  {
    var head := if a[0] == '\n' then CRLF else [a[0]];
    if a[0] == '\n' {
      assert head[1] == '\n' && ToCrlf(a)[1] == '\n';
    } else {
      assert a == [a[0]] + a[1..];
      ToCrlfKeepsLf(a[1..]);
      assert ToCrlf(a) == head + ToCrlf(a[1..]);
    }
  }

  // ---------------------------------------------------------------- the source's functions

  predicate StartsWith(s: string, m: string, from: nat) {
    OccursAt(s, m, from)
  }

  predicate EndsWith(s: string, m: string) {
    |m| <= |s| && s[|s| - |m|..] == m
  }

  function Separator(original: string, ending: string): string {
    if EndsWith(original, ending + ending) then "" else if EndsWith(original, ending) then ending else ending + ending
  }

  function AppendManagedBlock(original: string, fragment: string): string {
    if original == "" then fragment
    else
      var ending := LineEnding(original);
      original + Separator(original, ending) + ConvertLineEndings(fragment, ending)
  }

  function ManagedBlockRange(content: string): Range {
    var begins, ends := Count(content, BeginMarker(), 0), Count(content, EndMarker(), 0);
    if begins == 0 && ends == 0 then NoBlock
    else if begins != 1 || ends != 1 then Invalid
    else
      var begin, end := IndexOf(content, BeginMarker(), 0), IndexOf(content, EndMarker(), 0);
      if begin.None? || end.None? || end.value < begin.value then Invalid
      else Block(begin.value, end.value + |EndMarker()|)
  }

  /** The white space of trimEnd, as far as it occurs in a packaged fragment. */
  function TrimEnd(s: string): (r: string)
    ensures r <= s
  {
    if s != "" && s[|s| - 1] in " \t\r\n" then TrimEnd(s[..|s| - 1]) else s
  }

  function MergeAgentsContent(original: string, fragment: string): Merged {
    match ManagedBlockRange(original)
    case NoBlock => Merged(AppendManagedBlock(original, fragment))
    case Invalid => Failed(MarkersInvalid)
    case Block(begin, end) =>
      if begin <= end <= |original| && original[begin..end] == ConvertLineEndings(TrimEnd(fragment), LineEnding(original)) then Merged(original)
      else Failed(BlockConflict)
  }

  function FromMerged(m: Merged, previous: Option<string>): Upgrade {
    match m case Merged(content) => Upgraded(content, previous) case Failed(why) => Refused(why)
  }

  function MergeForUpgrade(current: string, original: Option<string>, fragment: string): Upgrade {
    match ManagedBlockRange(current)
    case NoBlock => FromMerged(MergeAgentsContent(current, fragment), Some(current))
    case Invalid => Refused(MarkersInvalid)
    case Block(begin, end) =>
      var ending := LineEnding(current);
      var blockEnd := if StartsWith(current, ending, end) then end + |ending| else end;
      if !(begin <= blockEnd <= |current|) then Refused(MarkersInvalid)
      else
        var text := if original.Some? then original.value else "";
        if current == AppendManagedBlock(text, current[begin..blockEnd]) then
          FromMerged(MergeAgentsContent(text, fragment), original)
        else
          var previous := current[..begin] + current[blockEnd..];
          FromMerged(MergeAgentsContent(previous, fragment), Some(previous))
  }

  /** A block is where its two markers are, each of which occurs once, the one that begins it first; text without
      any marker has no block, and everything else is invalid. */
  lemma BlockRangeIs(content: string)
    ensures var range := ManagedBlockRange(content);
            && (range.NoBlock? <==> Absent(content, BeginMarker()) && Absent(content, EndMarker()))
            && (forall p: nat, q: nat :: range == Block(p, q + |EndMarker()|) <==>
                  OnlyAt(content, BeginMarker(), p) && OnlyAt(content, EndMarker(), q) && p <= q)
  {
    hide BeginMarker, EndMarker, Marker, OccursAt;
    MarkersAreMarkers();
    MarkersAreLong();
    CountIs(content, BeginMarker());
    CountIs(content, EndMarker());
  }

  lemma CountIs(s: string, m: string)
    requires Marker(m) && m != ""
    ensures Count(s, m, 0) == 0 <==> Absent(s, m)
    ensures Count(s, m, 0) == 1 <==> exists p: nat :: OnlyAt(s, m, p)
    ensures forall p: nat | OnlyAt(s, m, p) :: IndexOf(s, m, 0) == Some(p)
    ensures Count(s, m, 0) == 1 ==> IndexOf(s, m, 0).Some? && OnlyAt(s, m, IndexOf(s, m, 0).value)
  {
    hide Count, OccursAt;
    CountsNone(s, m, 0);
    forall p: nat | OccursAt(s, m, p)
      ensures Count(s, m, 0) == 1 <==> OnlyAt(s, m, p)
      ensures OnlyAt(s, m, p) ==> IndexOf(s, m, 0) == Some(p)
    {
      CountsOne(s, m, p);
    }
  }

  /** An upgrade of a text that lost its block appends it again, and remembers the text as it is. */
  lemma UpgradeWithoutBlock(current: string, original: Option<string>, f: string)
    requires Absent(current, BeginMarker()) && Absent(current, EndMarker())
    ensures MergeForUpgrade(current, original, f) == Upgraded(AppendManagedBlock(current, f), Some(current))
  {
    hide AppendManagedBlock, OccursAt, BeginMarker, EndMarker;
    UnmarkedMerge(current, f);
    BlockRangeIs(current);
  }

  /** An upgrade of a text that was edited around its block takes out the block, with the end of its line, and
      nothing else, and remembers what is left. */
  lemma UpgradeKeepsEdits(a: string, block: string, b: string, original: Option<string>, f: string)
    requires |EndMarker()| <= |block| && OnlyAt(a + block + b, BeginMarker(), |a|)
    requires OnlyAt(a + block + b, EndMarker(), |a| + |block| - |EndMarker()|)
    requires var ending := LineEnding(a + block + b);
             var cut := if ending <= b then |ending| else 0;
             && Absent(a + b[cut..], BeginMarker()) && Absent(a + b[cut..], EndMarker())
             && a + block + b != AppendManagedBlock(TextOrNone(original), block + b[..cut])
    ensures var ending := LineEnding(a + block + b);
            var left := a + if ending <= b then b[|ending|..] else b;
            MergeForUpgrade(a + block + b, original, f) == Upgraded(AppendManagedBlock(left, f), Some(left))
  {
    hide AppendManagedBlock, OccursAt, BeginMarker, EndMarker, LineEnding, MergeAgentsContent, ManagedBlockRange, MergeForUpgrade,
         StartsWith, Absent;
    var current := a + block + b;
    var ending := LineEnding(current);
    var cut := if ending <= b then |ending| else 0;
    var end := |a| + |block|;
    BlockRangeIs(current);
    var q: nat := end - |EndMarker()|;
    assert OnlyAt(current, BeginMarker(), |a|) && OnlyAt(current, EndMarker(), q);
    assert ManagedBlockRange(current) == Block(|a|, q + |EndMarker()|);
    assert current[end..] == b;
    StartsAt(current, ending, end);
    assert current[|a|..end + cut] == block + b[..cut];
    assert current[..|a|] + current[end + cut..] == a + b[cut..];
    CutsOut(current, original, f);
    UnmarkedMerge(a + b[cut..], f);
  }

  lemma CutsOut(current: string, original: Option<string>, f: string)
    ensures var range, ending := ManagedBlockRange(current), LineEnding(current);
            range.Block? && range.begin <= range.end ==>
              var blockEnd := if StartsWith(current, ending, range.end) then range.end + |ending| else range.end;
              blockEnd <= |current| && current != AppendManagedBlock(TextOrNone(original), current[range.begin..blockEnd]) ==>
                var left := current[..range.begin] + current[blockEnd..];
                MergeForUpgrade(current, original, f) == FromMerged(MergeAgentsContent(left, f), Some(left))
  {
    hide AppendManagedBlock, LineEnding, MergeAgentsContent, ManagedBlockRange, StartsWith, FromMerged;
  }

  function TextOrNone(t: Option<string>): string {
    if t.Some? then t.value else ""
  }

  lemma StartsAt(s: string, m: string, from: nat)
    requires from <= |s|
    ensures StartsWith(s, m, from) <==> m <= s[from..]
  {
    if m <= s[from..] {
      assert s[from..from + |m|] == s[from..][..|m|] == m;
    }
    if StartsWith(s, m, from) {
      assert s[from..][..|m|] == s[from..from + |m|] == m;
    }
  }

  /** A packaged fragment is one block, on lines of its own. */
  predicate Fragment(f: string) {
    && Count(f, BeginMarker(), 0) == 1 && Count(f, EndMarker(), 0) == 1
    && StartsWith(f, BeginMarker() + LF, 0) && EndsWith(f, EndMarker() + LF)
  }

  // ---------------------------------------------------------------- markers survive conversion

  lemma {:induction false} ToCrlfPrefix(s: string, m: string)
    requires '\n' !in m && '\r' !in m
    ensures m <= ToCrlf(s) <==> m <= s
  {
    if m != "" && s != "" {
      assert s == [s[0]] + s[1..] && m == [m[0]] + m[1..];
      if s[0] == '\n' {
        assert ToCrlf(s)[0] == '\r' && m[0] in m;
      } else {
        ToCrlfPrefix(s[1..], m[1..]);
        assert ToCrlf(s) == [s[0]] + ToCrlf(s[1..]);
        assert m <= ToCrlf(s) <==> m[0] == s[0] && m[1..] <= ToCrlf(s[1..]);
        assert m <= s <==> m[0] == s[0] && m[1..] <= s[1..];
      }
    }
  }

  lemma OccursAsPrefix(s: string, m: string, i: nat)
    ensures OccursAt(s, m, i) <==> i <= |s| && m <= s[i..]
  {
  }

  lemma OccursLater(s: string, m: string, cut: nat, i: nat)
    requires cut <= |s|
    ensures OccursAt(s[cut..], m, i) <==> OccursAt(s, m, cut + i)
  {
  }

  /** Conversion moves every occurrence of a marker, and makes no new one. */
  lemma {:induction false} ToCrlfOccurs(s: string, m: string, i: nat) returns (j: nat)
    requires m != "" && '\n' !in m && '\r' !in m && OccursAt(ToCrlf(s), m, i)
    ensures OccursAt(s, m, j) && i == |ToCrlf(s[..j])|
    decreases |s|
  {
    hide OccursAt, ToCrlf;
    OccurrenceAt(ToCrlf(s), m, i, 0);
    ToCrlfStep(s);
    if i == 0 {
      j := 0;
      ToCrlfPrefix(s, m);
      OccursAsPrefix(ToCrlf(s), m, 0);
      OccursAsPrefix(s, m, 0);
    } else {
      var head := if s[0] == '\n' then CRLF else s[..1];
      assert m[0] in m && i >= |head|;
      assert ToCrlf(s)[|head|..] == ToCrlf(s[1..]);
      OccursLater(ToCrlf(s), m, |head|, i - |head|);
      var k := ToCrlfOccurs(s[1..], m, i - |head|);
      j := k + 1;
      OccursLater(s, m, 1, k);
      OccurrenceAt(s, m, j, 0);
      ToCrlfTake(s, j);
    }
  }

  lemma ToCrlfStep(s: string)
    ensures if s == "" then ToCrlf(s) == "" else ToCrlf(s) == (if s[0] == '\n' then CRLF else s[..1]) + ToCrlf(s[1..])
    ensures |ToCrlf(s[..0])| == 0
  {
  }

  lemma ToCrlfTake(s: string, j: nat)
    requires 0 < j <= |s|
    ensures |ToCrlf(s[..j])| == (if s[0] == '\n' then 2 else 1) + |ToCrlf(s[1..][..j - 1])|
  {
    assert s[..j][1..] == s[1..][..j - 1];
  }

  // ---------------------------------------------------------------- where the markers of a merged text are

  predicate LineBreaks(sep: string) {
    forall i | 0 <= i < |sep| :: sep[i] == '\n' || sep[i] == '\r'
  }

  /** No marker straddles the cut between the two parts. */
  predicate Cut(head: string, sep: string) {
    LineBreaks(sep) && (sep == "" && head != "" ==> head[|head| - 1] == '\n')
  }

  lemma EarlierOccurrence(a: string, b: string, m: string, i: nat)
    requires i + |m| <= |a| && OccursAt(a + b, m, i)
    ensures OccursAt(a, m, i)
  {
  }

  /** A marker cannot reach from one part into another: there is a line break, or nothing, in between. */
  lemma NotAcross(head: string, sep: string, block: string, m: string, i: nat)
    requires Marker(m) && Cut(head, sep) && |head| < i + |m| && i < |head + sep|
    ensures !OccursAt(head + sep + block, m, i)
  {
    var s := head + sep + block;
    if OccursAt(s, m, i) {
      OccurrenceAt(s, m, i, if i >= |head| then 0 else if sep != "" then |head| - i else |head| - 1 - i);
    }
  }

  lemma JoinedOccurrence(head: string, sep: string, block: string, m: string, i: nat)
    requires Marker(m) && Absent(head, m) && Cut(head, sep) && OccursAt(head + sep + block, m, i)
    ensures |head + sep| <= i && OccursAt(block, m, i - |head + sep|)
  {
    var s, cut := head + sep + block, |head + sep|;
    assert s == head + (sep + block);
    if i + |m| <= |head| {
      EarlierOccurrence(head, sep + block, m, i);
    } else if i < cut {
      NotAcross(head, sep, block, m, i);
    } else {
      OccursLater(s, m, cut, i - cut);
      assert s[cut..] == block;
    }
  }

  lemma JoinedOnlyAt(head: string, sep: string, block: string, m: string, p: nat)
    requires Marker(m) && Absent(head, m) && Cut(head, sep) && OnlyAt(block, m, p)
    ensures OnlyAt(head + sep + block, m, |head + sep| + p)
  {
    var s, cut := head + sep + block, |head + sep|;
    assert s[cut..] == block;
    OccursLater(s, m, cut, p);
    forall i: nat | OccursAt(s, m, i)
      ensures i == cut + p
    {
      JoinedOccurrence(head, sep, block, m, i);
    }
  }

  lemma JoinedMarker(content: string, head: string, sep: string, block: string, m: string, p: nat)
    requires Marker(m) && Absent(head, m) && Cut(head, sep) && OnlyAt(block, m, p) && content == head + sep + block
    ensures Count(content, m, 0) == 1 && IndexOf(content, m, 0) == Some(|head + sep| + p)
  {
    JoinedOnlyAt(head, sep, block, m, p);
    CountsOne(content, m, |head + sep| + p);
  }

  lemma JoinedAbsent(head: string, sep: string, m: string)
    requires Marker(m) && Absent(head, m) && Cut(head, sep)
    ensures Absent(head + sep, m)
  {
    forall i: nat
      ensures !OccursAt(head + sep, m, i)
    {
      assert head + sep + "" == head + sep;
      if OccursAt(head + sep, m, i) {
        JoinedOccurrence(head, sep, "", m, i);
      }
    }
  }

  lemma StartsLine(f: string, m: string)
    requires m != "" && StartsWith(f, m + LF, 0)
    ensures |f| > |m| && OccursAt(f, m, 0) && f[|m|] == '\n' && f[|m| - 1] == m[|m| - 1]
  {
    var line := m + LF;
    assert f[..|line|] == line && line[|m|] == '\n' && line[|m| - 1] == m[|m| - 1];
    assert f[0..|m|] == line[..|m|] == m;
  }

  lemma EndsLine(f: string, m: string)
    requires EndsWith(f, m + LF)
    ensures |f| > |m| && OccursAt(f, m, |f| - |m| - 1) && f == f[..|f| - |m| - 1] + m + LF
  {
    var line, end := m + LF, |f| - |m| - 1;
    assert f[end..] == line;
    assert f[end..end + |m|] == line[..|m|] == m;
    assert f == f[..end] + line;
  }

  lemma FragmentShape(f: string)
    requires Fragment(f)
    ensures |f| > |EndMarker()| && OnlyAt(f, BeginMarker(), 0) && OnlyAt(f, EndMarker(), |f| - |EndMarker()| - 1)
    ensures f == f[..|f| - |EndMarker()| - 1] + EndMarker() + LF && f[|BeginMarker()|] == '\n' && f[|BeginMarker()| - 1] == '>'
  {
    hide BeginMarker, EndMarker, StartsWith, EndsWith, OccursAt, Count, IndexOf;
    MarkersAreMarkers();
    StartsLine(f, BeginMarker());
    CountsOne(f, BeginMarker(), 0);
    EndsLine(f, EndMarker());
    CountsOne(f, EndMarker(), |f| - |EndMarker()| - 1);
  }

  lemma ConvertedOnlyAt(f: string, m: string, p: nat)
    requires Marker(m) && OnlyAt(f, m, p)
    ensures OnlyAt(ToCrlf(f), m, |ToCrlf(f[..p])|)
  {
    hide ToCrlf;
    var b, e, rest := ToCrlf(f), |ToCrlf(f[..p])|, f[p + |m|..];
    assert f == f[..p] + (m + rest);
    ToCrlfConcat(f[..p], m + rest);
    ToCrlfConcat(m, rest);
    ToCrlfNoLf(m);
    assert b == ToCrlf(f[..p]) + (m + ToCrlf(rest));
    assert b[e..] == m + ToCrlf(rest);
    OccursAsPrefix(b, m, e);
    forall i: nat | OccursAt(b, m, i)
      ensures i == e
    {
      var j := ToCrlfOccurs(f, m, i);
    }
  }

  lemma ToCrlfLine(g: string, m: string)
    requires '\n' !in m
    ensures ToCrlf(g + m + LF) == ToCrlf(g) + m + CRLF
  {
    ToCrlfConcat(g + m, LF);
    ToCrlfConcat(g, m);
    ToCrlfNoLf(m);
    assert ToCrlf(LF) == CRLF;
  }

  /** A converted block still has one marker at each end. */
  lemma BlockShape(f: string, ending: string)
    requires Fragment(f) && ending in {LF, CRLF}
    ensures var b := ConvertLineEndings(f, ending);
            && |b| >= |EndMarker()| + |ending|
            && OnlyAt(b, BeginMarker(), 0) && OnlyAt(b, EndMarker(), |b| - |EndMarker()| - |ending|)
            && b[|b| - |ending|..] == ending
  {
    hide BeginMarker, EndMarker, ToCrlf, OccursAt, Count, IndexOf;
    FragmentShape(f);
    MarkersAreMarkers();
    if ending == CRLF {
      var b, g := ToCrlf(f), f[..|f| - |EndMarker()| - 1];
      ConvertedOnlyAt(f, BeginMarker(), 0);
      ConvertedOnlyAt(f, EndMarker(), |g|);
      assert f[..0] == "";
      EmptyToCrlf();
      ToCrlfLine(g, EndMarker());
    }
  }

  lemma EmptyToCrlf()
    ensures ToCrlf("") == ""
  {
  }

  lemma SeparatorCuts(original: string)
    ensures var sep := Separator(original, LineEnding(original)); Cut(original, sep) && LineBreaks(sep)
  {
  }

  // ---------------------------------------------------------------- the line ending of a merged text

  lemma CrlfText(s: string)
    requires LineEnding(s) == CRLF
    ensures NoBare(s) && s != "" && HasCrlf(s)
  {
    StripFindsBare(s);
  }

  lemma CrlfOf(s: string, i: nat)
    requires NoBare(s) && OccursAt(s, CRLF, i)
    ensures LineEnding(s) == CRLF
  {
    StripFindsBare(s);
  }

  lemma LfOf(s: string, i: nat)
    requires BareAt(s, i)
    ensures LineEnding(s) == LF
  {
    StripFindsBare(s);
  }

  lemma SeparatorNoBare(original: string)
    ensures NoBare(Separator(original, CRLF))
  {
    assert CRLF + CRLF == ['\r', '\n', '\r', '\n'];
  }

  lemma StillOccurs(a: string, b: string, m: string, i: nat)
    requires OccursAt(a, m, i)
    ensures OccursAt(a + b, m, i)
  {
    assert (a + b)[i..i + |m|] == a[i..i + |m|];
  }

  lemma SeparatedCrlf(original: string)
    requires LineEnding(original) == CRLF
    ensures var head := original + Separator(original, CRLF);
            LineEnding(head) == CRLF && NoBare(head) && EndsWith(head, CRLF + CRLF)
  {
    hide StripCrlf, LineEnding, NoBare, Separator, EndsWith, OccursAt;
    CrlfText(original);
    var sep := Separator(original, CRLF);
    SeparatorNoBare(original);
    NoBareConcat(original, sep);
    var i := IndexOf(original, CRLF, 0).value;
    StillOccurs(original, sep, CRLF, i);
    CrlfOf(original + sep, i);
    EndsTwice(original);
  }

  lemma EndsTwice(original: string)
    ensures EndsWith(original + Separator(original, CRLF), CRLF + CRLF)
  {
  }

  lemma MergedLineEnding(original: string, f: string)
    requires Fragment(f)
    ensures LineEnding(AppendManagedBlock(original, f)) == LineEnding(original)
  {
    hide BeginMarker, EndMarker, StripCrlf, IndexOf, Count, ToCrlf, Fragment, Separator;
    FragmentShape(f);
    MarkersAreMarkers();
    var ending := LineEnding(original);
    var head := original + Separator(original, ending);
    if original == "" {
      LfOf(f, |BeginMarker()|);
    } else if ending == LF {
      assert (head + f)[|head| + |BeginMarker()|] == f[|BeginMarker()|] && (head + f)[|head| + |BeginMarker()| - 1] == f[|BeginMarker()| - 1];
      LfOf(head + f, |head| + |BeginMarker()|);
    } else {
      SeparatedCrlf(original);
      ToCrlfNoBare(f);
      NoBareConcat(head, ToCrlf(f));
      assert (head + ToCrlf(f))[|head| - 2..|head|] == CRLF;
      CrlfOf(head + ToCrlf(f), |head| - 2);
    }
  }

  // ---------------------------------------------------------------- the theorems

  lemma MergedParts(original: string, f: string)
    ensures var ending := LineEnding(original);
            var sep := if original == "" then "" else Separator(original, ending);
            AppendManagedBlock(original, f) == original + sep + ConvertLineEndings(f, ending)
    ensures original == "" ==> LineEnding(original) == LF
  {
  }

  lemma TailOfConcat(a: string, b: string, n: nat)
    requires n <= |b|
    ensures (a + b)[|a| + |b| - n..|a| + |b|] == b[|b| - n..]
  {
  }

  /** The block of a merged text is found again, with everything that was inserted with it but the
      separator. */
  lemma MergedShape(original: string, f: string)
    requires Fragment(f) && Absent(original, BeginMarker()) && Absent(original, EndMarker())
    ensures var ending := LineEnding(original);
            var head := if original == "" then "" else original + Separator(original, ending);
            var b := ConvertLineEndings(f, ending);
            var content := AppendManagedBlock(original, f);
            && content == head + b && |b| > |ending|
            && ManagedBlockRange(content) == Block(|head|, |head| + |b| - |ending|)
            && StartsWith(content, ending, |head| + |b| - |ending|)
  {
    hide BeginMarker, EndMarker, ToCrlf, Count, IndexOf, StripCrlf, LineEnding, Fragment, ConvertLineEndings, Separator,
      AppendManagedBlock, Cut, LineBreaks, Absent, OnlyAt, Marker;
    MarkersAreMarkers();
    var ending := LineEnding(original);
    var sep := if original == "" then "" else Separator(original, ending);
    var b := ConvertLineEndings(f, ending);
    var content := AppendManagedBlock(original, f);
    SeparatorCuts(original);
    BlockShape(f, ending);
    MergedParts(original, f);
    JoinedMarker(content, original, sep, b, BeginMarker(), 0);
    JoinedMarker(content, original, sep, b, EndMarker(), |b| - |EndMarker()| - |ending|);
    TailOfConcat(original + sep, b, |ending|);
  }

  lemma UnmarkedMerge(original: string, f: string)
    requires Absent(original, BeginMarker()) && Absent(original, EndMarker())
    ensures MergeAgentsContent(original, f) == Merged(AppendManagedBlock(original, f))
  {
  }

  /** What was there before the installation is recovered exactly. */
  predicate Recoverable(original: string) {
    LineEnding(original) == LF || EndsWith(original, CRLF + CRLF)
  }

  /** The text before the installation, with the separator. */
  function Head(original: string): string {
    if original == "" then "" else original + Separator(original, LineEnding(original))
  }

  /** An upgrade cuts out exactly the block, and compares with a second conversion of it. */
  lemma UpgradeCuts(original: Option<string>, text: string, f1: string, f2: string)
    requires Fragment(f1) && text == (if original.Some? then original.value else "")
    requires Absent(text, BeginMarker()) && Absent(text, EndMarker())
    ensures var content, block := AppendManagedBlock(text, f1), ConvertLineEndings(f1, LineEnding(text));
            && content == Head(text) + block
            && MergeForUpgrade(content, original, f2) ==
                 if content == AppendManagedBlock(text, block) then FromMerged(MergeAgentsContent(text, f2), original)
                 else FromMerged(MergeAgentsContent(Head(text), f2), Some(Head(text)))
  {
    hide BeginMarker, EndMarker, ToCrlf, Count, IndexOf, StripCrlf, LineEnding, Separator, MergeAgentsContent, OccursAt,
      ManagedBlockRange, AppendManagedBlock;
    MergedShape(text, f1);
    MergedLineEnding(text, f1);
    var content, block, head := AppendManagedBlock(text, f1), ConvertLineEndings(f1, LineEnding(text)), Head(text);
    assert content == head + block;
    assert content[|head|..|head| + |block|] == block;
    assert content[..|head|] + content[|head| + |block|..] == head;
  }

  lemma UpgradeCrlf(text: string, f1: string, f2: string)
    requires Fragment(f1) && Fragment(f2) && LineEnding(text) == CRLF
    requires Absent(text, BeginMarker()) && Absent(text, EndMarker())
    ensures MergeForUpgrade(AppendManagedBlock(text, f1), Some(text), f2) == Upgraded(AppendManagedBlock(text, f2), Some(Head(text)))
  {
    hide BeginMarker, EndMarker, ToCrlf, Count, IndexOf, StripCrlf, LineEnding, MergeAgentsContent, MergeForUpgrade;
    CrlfText(text);
    UpgradeCuts(Some(text), text, f1, f2);
    var head, block := Head(text), ToCrlf(f1);
    FragmentShape(f1);
    assert f1[|BeginMarker()|] in f1;
    ToCrlfKeepsLf(f1);
    ToCrlfGrows(block);
    assert |AppendManagedBlock(text, block)| == |head| + |ToCrlf(block)|;
    SeparatedCrlf(text);
    MarkersAreMarkers();
    SeparatorCuts(text);
    JoinedAbsent(text, Separator(text, CRLF), BeginMarker());
    JoinedAbsent(text, Separator(text, CRLF), EndMarker());
    UnmarkedMerge(head, f2);
    AppendAgain(text, f2);
  }

  /** The separator is not added twice. */
  lemma AppendAgain(text: string, f: string)
    requires LineEnding(text) == CRLF
    ensures AppendManagedBlock(Head(text), f) == AppendManagedBlock(text, f)
  {
    hide ToCrlf, IndexOf, StripCrlf;
    SeparatedCrlf(text);
    CrlfText(text);
    var head := Head(text);
    assert Separator(head, CRLF) == "";
    assert head + "" == head;
  }

  /** An upgrade of an installed AGENTS.md always ends with the text that a fresh installation of
      the new block would give. It recovers the text from before the installation if and only if
      that text is Recoverable; otherwise the separator stays in it. */
  lemma UpgradeRoundTrip(original: Option<string>, f1: string, f2: string)
    requires Fragment(f1) && Fragment(f2)
    requires var text := if original.Some? then original.value else "";
             Absent(text, BeginMarker()) && Absent(text, EndMarker())
    ensures var text := if original.Some? then original.value else "";
            var r := MergeForUpgrade(AppendManagedBlock(text, f1), original, f2);
            && r.Upgraded? && r.content == AppendManagedBlock(text, f2)
            && (r.previous == original <==> Recoverable(text))
            && (!Recoverable(text) ==> r.previous == Some(text + Separator(text, CRLF)))
  {
    hide BeginMarker, EndMarker, ToCrlf, Count, IndexOf, StripCrlf, MergeAgentsContent, MergeForUpgrade;
    var text := if original.Some? then original.value else "";
    if LineEnding(text) == LF {
      UpgradeCuts(original, text, f1, f2);
      UnmarkedMerge(text, f2);
    } else {
      CrlfText(text);
      UpgradeCrlf(text, f1, f2);
      assert text + "" == text;
    }
  }

  lemma OneCrlfLine()
    ensures var text := "x\r\n"; LineEnding(text) == CRLF && Separator(text, CRLF) == CRLF && !EndsWith(text, CRLF + CRLF)
  {
  }

  lemma TooShort(text: string, m: string)
    requires |text| < |m|
    ensures Absent(text, m)
  {
  }

  lemma MarkersAreLong()
    ensures |BeginMarker()| > 3 && |EndMarker()| > 3
  {
  }

  /** The concrete case: one line that ends in a carriage return and a line feed comes back with
      an empty line added. */
  lemma CrlfTextDrifts(f1: string, f2: string)
    requires Fragment(f1) && Fragment(f2)
    ensures MergeForUpgrade(AppendManagedBlock("x\r\n", f1), Some("x\r\n"), f2) ==
              Upgraded(AppendManagedBlock("x\r\n", f2), Some("x\r\n\r\n"))
  {
    hide BeginMarker, EndMarker, Fragment, MergeForUpgrade, AppendManagedBlock, LineEnding, Separator;
    MarkersAreLong();
    TooShort("x\r\n", BeginMarker());
    TooShort("x\r\n", EndMarker());
    OneCrlfLine();
    UpgradeRoundTrip(Some("x\r\n"), f1, f2);
    assert "x\r\n" + CRLF == "x\r\n\r\n";
  }

  lemma MergesBlock(content: string, begin: nat, end: nat, g: string)
    requires ManagedBlockRange(content) == Block(begin, end) && begin <= end <= |content|
    ensures MergeAgentsContent(content, g) ==
              if content[begin..end] == ConvertLineEndings(TrimEnd(g), LineEnding(content)) then Merged(content) else Failed(BlockConflict)
  {
    hide ManagedBlockRange, ConvertLineEndings, TrimEnd, LineEnding;
  }

  lemma BlockOfConcat(a: string, b: string, n: nat)
    requires n <= |b|
    ensures (a + b)[|a|..|a| + |b| - n] == b[..|b| - n]
  {
  }

  lemma ReinstallCompares(original: string, f: string, g: string)
    requires Fragment(f) && Absent(original, BeginMarker()) && Absent(original, EndMarker())
    ensures var content, ending := AppendManagedBlock(original, f), LineEnding(original);
            MergeAgentsContent(content, g) ==
              if ConvertLineEndings(TrimEnd(f), ending) == ConvertLineEndings(TrimEnd(g), ending) then Merged(content) else Failed(BlockConflict)
  {
    hide BeginMarker, EndMarker, ToCrlf, Count, IndexOf, StripCrlf, Fragment, AppendManagedBlock, LineEnding,
      ManagedBlockRange, TrimEnd, OccursAt, MergeAgentsContent, ConvertLineEndings, Separator, Absent;
    MergedShape(original, f);
    MergedLineEnding(original, f);
    var ending := LineEnding(original);
    TrimmedFragment(f, ending);
    var b := ConvertLineEndings(f, ending);
    var head := if original == "" then "" else original + Separator(original, ending);
    BlockOfConcat(head, b, |ending|);
    MergesBlock(head + b, |head|, |head| + |b| - |ending|, g);
  }

  /** Installing again changes nothing, whatever the line endings; installing another block over
      it is refused. */
  lemma ReinstallIdempotent(original: string, f: string, g: string)
    requires Fragment(f) && Fragment(g) && Absent(original, BeginMarker()) && Absent(original, EndMarker())
    ensures MergeAgentsContent(AppendManagedBlock(original, f), g) ==
              if f == g then Merged(AppendManagedBlock(original, f)) else Failed(BlockConflict)
  {
    hide BeginMarker, EndMarker, ToCrlf, Count, IndexOf, StripCrlf, Fragment, AppendManagedBlock, LineEnding, MergeAgentsContent, TrimEnd;
    ReinstallCompares(original, f, g);
    TrimmedFragment(f, LF);
    TrimmedFragment(g, LF);
    if ToCrlf(TrimEnd(f)) == ToCrlf(TrimEnd(g)) {
      ToCrlfInjective(TrimEnd(f), TrimEnd(g));
    }
  }

  lemma TrimmedFragment(f: string, ending: string)
    requires Fragment(f) && ending in {LF, CRLF}
    ensures TrimEnd(f) == f[..|f| - 1] && f == TrimEnd(f) + LF
    ensures var b := ConvertLineEndings(f, ending); |b| > |ending| && b[..|b| - |ending|] == ConvertLineEndings(TrimEnd(f), ending)
  {
    hide BeginMarker, EndMarker, Fragment, Count, IndexOf, OccursAt;
    MarkersAreMarkers();
    FragmentShape(f);
    var t := f[..|f| - 1];
    assert t == f[..|f| - |EndMarker()| - 1] + EndMarker();
    assert t[|t| - 1] == EndMarker()[|EndMarker()| - 1] == '>';
    assert TrimEnd(t) == t;
    assert f == t + LF;
    ToCrlfConcat(t, LF);
    assert ToCrlf(LF) == CRLF;
  }

  lemma ToCrlfStart(a: string)
    ensures ToCrlf(a) != "" ==> ToCrlf(a)[0] != '\n'
  {
  }

  lemma {:induction false} ToCrlfInjective(a: string, b: string)
    requires ToCrlf(a) == ToCrlf(b)
    ensures a == b
  {
    if a == "" || b == "" {
    } else {
      ToCrlfStart(a[1..]);
      ToCrlfStart(b[1..]);
      var x, y := ToCrlf(a), ToCrlf(b);
      assert x[0] == y[0] && (|x| > 1 ==> x[1] == y[1]);
      assert a[0] == b[0];
      var n := if a[0] == '\n' then 2 else 1;
      assert x[n..] == ToCrlf(a[1..]) && y[n..] == ToCrlf(b[1..]);
      ToCrlfInjective(a[1..], b[1..]);
      assert a == [a[0]] + a[1..] && b == [b[0]] + b[1..];
    }
  }
}
