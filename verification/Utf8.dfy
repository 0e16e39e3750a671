/** UTF-8 as the repository relies on it: which bytes continue a character, and a decoder that is fed
    piece by piece. What a group of bytes decodes to is an arbitrary function of the group. */
module Utf8 {
  type Byte = b: int | 0 <= b < 256

  /** A byte that continues a character (section 3 of RFC 3629). */
  predicate Continues(b: Byte) {
    0x80 <= b < 0xC0
  }

  /** The encoding of one character: a leading byte and up to three that continue it. */
  predicate Encoded(c: seq<Byte>) {
    1 <= |c| <= 4 && !Continues(c[0]) && forall i | 0 < i < |c| :: Continues(c[i])
  }

  predicate AllEncoded(chars: seq<seq<Byte>>) {
    forall i | 0 <= i < |chars| :: Encoded(chars[i])
  }

  function Join<T>(parts: seq<seq<T>>): seq<T> {
    if parts == [] then [] else parts[0] + Join(parts[1..])
  }

  lemma {:induction false} JoinConcat<T>(x: seq<seq<T>>, y: seq<seq<T>>)
    ensures Join(x + y) == Join(x) + Join(y)
  {
    if x == [] {
      assert x + y == y;
    } else {
      assert (x + y)[1..] == x[1..] + y;
      JoinConcat(x[1..], y);
    }
  }

  // ---------------------------------------------------------------- groups

  /** How many bytes a character that starts with this byte has; one for a byte that starts none. */
  function Needed(b: Byte): (n: nat)
    ensures 1 <= n <= 4
  {
    if 0xC0 <= b < 0xE0 then 2 else if 0xE0 <= b < 0xF0 then 3 else if 0xF0 <= b < 0xF8 then 4 else 1
  }

  /** Both by the leading bits: 10, 110, 1110 and 11110. */
  lemma LeadingBits(b: Byte)
    ensures Continues(b) <==> b / 64 == 2
    ensures Needed(b) == if b / 32 == 6 then 2 else if b / 16 == 14 then 3 else if b / 8 == 30 then 4 else 1
  {
  }

  /** How many of the next n bytes continue a character. */
  function Continuing(s: seq<Byte>, n: nat): (k: nat)
    ensures k <= n && k <= |s| && (forall i | 0 <= i < k :: Continues(s[i])) && (k < n && k < |s| ==> !Continues(s[k]))
  {
    if n == 0 || s == [] || !Continues(s[0]) then 0
    else
      var k := Continuing(s[1..], n - 1);
      assert forall i | 0 < i < k + 1 :: s[i] == s[1..][i - 1];
      k + 1
  }

  /** The first byte, and those after it that continue its character. */
  function Extent(s: seq<Byte>): (n: nat)
    requires s != []
    ensures 1 <= n <= |s|
  {
    1 + Continuing(s[1..], Needed(s[0]) - 1)
  }

  /** Nothing but the beginning of a character. */
  predicate Partial(s: seq<Byte>) {
    s != [] && Extent(s) == |s| && |s| < Needed(s[0])
  }

  lemma ExtentIs(s: seq<Byte>, n: nat)
    requires 1 <= n <= |s| && n <= Needed(s[0]) && (forall i | 0 < i < n :: Continues(s[i]))
    requires n == Needed(s[0]) || n == |s| || !Continues(s[n])
    ensures Extent(s) == n
  {
    assert forall i | 0 < i < |s| :: s[i] == s[1..][i - 1];
  }

  /** More bytes do not change a group that is not partial. */
  lemma ExtentOfConcat(a: seq<Byte>, b: seq<Byte>)
    requires a != [] && !Partial(a)
    ensures Extent(a + b) == Extent(a) && !Partial(a + b)
  {
    var n := Extent(a);
    assert forall i | 0 < i < n :: a[i] == a[1..][i - 1];
    if n < |a| {
      assert a[n] == a[1..][n - 1];
    }
    ExtentIs(a + b, n);
  }

  // ---------------------------------------------------------------- decoding

  /** The text of the complete groups. */
  function Decoded(s: seq<Byte>, decode: seq<Byte> -> string): string
    decreases |s|
  {
    if s == [] || Partial(s) then "" else decode(s[..Extent(s)]) + Decoded(s[Extent(s)..], decode)
  }

  /** The beginning of a character that is left over. */
  function Held(s: seq<Byte>): (h: seq<Byte>)
    ensures h == [] || Partial(h)
    decreases |s|
  {
    if s == [] || Partial(s) then s else Held(s[Extent(s)..])
  }

  /** What is left over at the end is decoded as it is. */
  function Flushed(held: seq<Byte>, decode: seq<Byte> -> string): string {
    if held == [] then "" else decode(held)
  }

  /** The text of the whole. */
  function Whole(s: seq<Byte>, decode: seq<Byte> -> string): string {
    Decoded(s, decode) + Flushed(Held(s), decode)
  }

  lemma DecodeGroup(s: seq<Byte>, decode: seq<Byte> -> string)
    requires s != [] && !Partial(s)
    ensures Decoded(s, decode) == decode(s[..Extent(s)]) + Decoded(s[Extent(s)..], decode)
    ensures Held(s) == Held(s[Extent(s)..])
  {
    hide Partial;
  }

  lemma DecodeNothing(s: seq<Byte>, decode: seq<Byte> -> string)
    requires s == [] || Partial(s)
    ensures Decoded(s, decode) == "" && Held(s) == s
  {
    hide Partial;
  }

  /** Cutting the bytes anywhere, inside a character too, and carrying over what is left of one
      gives the same text. */
  lemma {:induction false} DecodedInPieces(a: seq<Byte>, b: seq<Byte>, decode: seq<Byte> -> string)
    ensures Decoded(a + b, decode) == Decoded(a, decode) + Decoded(Held(a) + b, decode)
    ensures Held(a + b) == Held(Held(a) + b)
    decreases |a|
  {
    hide Decoded, Held, Partial, Extent;
    if a == [] || Partial(a) {
      DecodeNothing(a, decode);
      assert "" + Decoded(a + b, decode) == Decoded(a + b, decode);
    } else {
      var n := Extent(a);
      ExtentOfConcat(a, b);
      DecodeGroup(a, decode);
      DecodeGroup(a + b, decode);
      assert (a + b)[..n] == a[..n] && (a + b)[n..] == a[n..] + b;
      DecodedInPieces(a[n..], b, decode);
    }
  }

  /** As many bytes as its first one asks for. */
  predicate Character(c: seq<Byte>) {
    Encoded(c) && |c| == Needed(c[0])
  }

  /** Whole characters are decoded one by one, and nothing is left over. */
  lemma {:induction false} DecodesCharacters(chars: seq<seq<Byte>>, decode: seq<Byte> -> string)
    requires forall i | 0 <= i < |chars| :: Character(chars[i])
    ensures Whole(Join(chars), decode) == Join(seq(|chars|, i requires 0 <= i < |chars| => decode(chars[i])))
    ensures Held(Join(chars)) == []
  {
    hide Decoded, Held, Extent;
    if chars == [] {
      DecodeNothing([], decode);
    } else {
      var c, rest, s := chars[0], chars[1..], Join(chars);
      DecodesCharacters(rest, decode);
      ExtentIs(s, |c|);
      DecodeGroup(s, decode);
      assert s[..|c|] == c && s[|c|..] == Join(rest);
      var texts := seq(|chars|, i requires 0 <= i < |chars| => decode(chars[i]));
      assert texts[1..] == seq(|rest|, i requires 0 <= i < |rest| => decode(rest[i]));
    }
  }
}
