/** Text as the program sees it: sequences of UTF-16 code units. */
module Text {

  newtype Unit = u: int | 0 <= u < 0x1_0000

  type Text = seq<Unit>

  const NEWLINE: Unit := 10
  const RETURN: Unit := 13

  predicate HighSurrogate(u: Unit) {
    0xD800 <= u < 0xDC00
  }

  predicate LowSurrogate(u: Unit) {
    0xDC00 <= u < 0xE000
  }

  function UnitBytes(u: Unit): nat {
    if u < 0x80 then 1 else if u < 0x800 then 2 else 3
  }

  /** Length of the UTF-8 encoding: a surrogate pair takes four bytes, a lone surrogate the three of its replacement. */
  function Utf8Bytes(t: Text): nat {
    if t == [] then 0
    else if |t| >= 2 && HighSurrogate(t[0]) && LowSurrogate(t[1]) then 4 + Utf8Bytes(t[2..])
    else UnitBytes(t[0]) + Utf8Bytes(t[1..])
  }

  /** A prefix never takes more bytes, even one that cuts a surrogate pair. */
  lemma {:induction false} PrefixBytes(t: Text, k: nat)
    requires k <= |t|
    ensures Utf8Bytes(t[..k]) <= Utf8Bytes(t)
    decreases |t|
  {
    if k == 0 {
    } else if |t| >= 2 && HighSurrogate(t[0]) && LowSurrogate(t[1]) {
      if k >= 2 {
        PrefixBytes(t[2..], k - 2);
        assert t[..k][2..] == t[2..][..k - 2];
      } else {
        assert t[..k] == [t[0]];
      }
    } else {
      PrefixBytes(t[1..], k - 1);
      assert t[..k][1..] == t[1..][..k - 1];
    }
  }

  /** Position of the first newline, or the length. */
  function NewlineIndex(t: Text): (i: nat)
    ensures i <= |t| && NEWLINE !in t[..i]
    ensures i < |t| ==> t[i] == NEWLINE
  {
    if t == [] || t[0] == NEWLINE then 0
    else
      var rest := NewlineIndex(t[1..]);
      assert t[..1 + rest] == [t[0]] + t[1..][..rest];
      1 + rest
  }

  lemma {:induction false} NewlineIndexIs(t: Text, i: nat)
    requires i <= |t| && NEWLINE !in t[..i] && (i < |t| ==> t[i] == NEWLINE)
    ensures NewlineIndex(t) == i
  {
    if t != [] && t[0] != NEWLINE {
      assert t[1..][..i - 1] == t[..i][1..];
      NewlineIndexIs(t[1..], i - 1);
    }
  }

  /** What follows a text does not move its first newline. */
  lemma FirstNewlineStays(a: Text, b: Text)
    requires NewlineIndex(a) < |a|
    ensures var i := NewlineIndex(a);
      NewlineIndex(a + b) == i < |a + b| && (a + b)[..i] == a[..i] && (a + b)[i + 1..] == a[i + 1..] + b
  {
    var i := NewlineIndex(a);
    assert (a + b)[..i] == a[..i];
    NewlineIndexIs(a + b, i);
  }

  function Concat(chunks: seq<Text>): Text {
    if chunks == [] then [] else chunks[0] + Concat(chunks[1..])
  }
}
