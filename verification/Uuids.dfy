/** UUIDs and their hyphenated lower-case text form. */
module Uuids {

  newtype Byte = n: int | 0 <= n < 256

  type Uuid = b: seq<Byte> | |b| == 16 witness seq(16, _ => 0)

  const DIGITS: string := "0123456789abcdef"

  function Hex(bytes: seq<Byte>): (s: string)
    ensures |s| == 2 * |bytes|
    ensures forall c | c in s :: c in DIGITS
  {
    if bytes == [] then ""
    else [DIGITS[bytes[0] / 16], DIGITS[bytes[0] % 16]] + Hex(bytes[1..])
  }

  function ToText(u: Uuid): (s: string)
    ensures |s| == 36
    ensures forall c | c in s :: c in DIGITS || c == '-'
  {
    Hex(u[..4]) + "-" + Hex(u[4..6]) + "-" + Hex(u[6..8]) + "-" + Hex(u[8..10]) + "-" + Hex(u[10..])
  }

  lemma DigitsDiffer(i: nat, j: nat)
    requires i < 16 && j < 16 && DIGITS[i] == DIGITS[j]
    ensures i == j
  {
  }

  lemma {:induction false} HexInjective(a: seq<Byte>, b: seq<Byte>)
    requires Hex(a) == Hex(b)
    ensures a == b
  {
    assert |a| == |b|;
    if a != [] {
      var s := Hex(a);
      assert s[0] == DIGITS[a[0] / 16] == DIGITS[b[0] / 16];
      assert s[1] == DIGITS[a[0] % 16] == DIGITS[b[0] % 16];
      DigitsDiffer((a[0] / 16) as nat, (b[0] / 16) as nat);
      DigitsDiffer((a[0] % 16) as nat, (b[0] % 16) as nat);
      assert s[2..] == Hex(a[1..]) == Hex(b[1..]);
      HexInjective(a[1..], b[1..]);
      assert a == [a[0]] + a[1..] && b == [b[0]] + b[1..];
    }
  }

  lemma TextInjective(u: Uuid, v: Uuid)
    requires ToText(u) == ToText(v)
    ensures u == v
  {
    Parts(u);
    Parts(v);
    HexInjective(u[..4], v[..4]);
    HexInjective(u[4..6], v[4..6]);
    HexInjective(u[6..8], v[6..8]);
    HexInjective(u[8..10], v[8..10]);
    HexInjective(u[10..], v[10..]);
    Slices(u);
    Slices(v);
  }

  lemma Parts(u: Uuid)
    ensures var s := ToText(u);
            s[..8] == Hex(u[..4]) && s[9..13] == Hex(u[4..6]) && s[14..18] == Hex(u[6..8]) &&
            s[19..23] == Hex(u[8..10]) && s[24..] == Hex(u[10..])
  {
    Joined(Hex(u[..4]), Hex(u[4..6]), Hex(u[6..8]), Hex(u[8..10]), Hex(u[10..]));
  }

  lemma Joined(a: string, b: string, c: string, d: string, e: string)
    requires |a| == 8 && |b| == |c| == |d| == 4
    ensures var s := a + "-" + b + "-" + c + "-" + d + "-" + e;
            s[..8] == a && s[9..13] == b && s[14..18] == c && s[19..23] == d && s[24..] == e
  {
  }

  lemma Slices(u: Uuid)
    ensures u == u[..4] + u[4..6] + u[6..8] + u[8..10] + u[10..]
  {
  }

  /** Where the digits of byte `i` stand: behind a hyphen each after 4, 6, 8 and 10 bytes. */
  function DigitAt(i: nat): nat {
    2 * i + if i < 4 then 0 else if i < 6 then 1 else if i < 8 then 2 else if i < 10 then 3 else 4
  }

  lemma {:induction false} HexDigits(bytes: seq<Byte>, i: nat)
    requires i < |bytes|
    ensures Hex(bytes)[2 * i] == DIGITS[bytes[i] / 16] && Hex(bytes)[2 * i + 1] == DIGITS[bytes[i] % 16]
  {
    if i > 0 {
      HexDigits(bytes[1..], i - 1);
      assert Hex(bytes)[2..] == Hex(bytes[1..]);
      assert Hex(bytes)[2 * i] == Hex(bytes[1..])[2 * (i - 1)];
      assert Hex(bytes)[2 * i + 1] == Hex(bytes[1..])[2 * (i - 1) + 1];
    }
  }

  /** The digits of a group of bytes inside a text. */
  lemma DigitsInside(t: string, at: nat, bytes: seq<Byte>, i: nat)
    requires at + 2 * |bytes| <= |t| && t[at..at + 2 * |bytes|] == Hex(bytes) && i < |bytes|
    ensures t[at + 2 * i] == DIGITS[bytes[i] / 16] && t[at + 2 * i + 1] == DIGITS[bytes[i] % 16]
  {
    HexDigits(bytes, i);
    var h := t[at..at + 2 * |bytes|];
    assert h[2 * i] == t[at + 2 * i] && h[2 * i + 1] == t[at + 2 * i + 1];
  }

  /** The digits of each byte, given the five groups. */
  lemma TextGroups(t: string, u: Uuid, i: nat)
    requires |t| == 36 && i < 16
    requires t[..8] == Hex(u[..4]) && t[9..13] == Hex(u[4..6]) && t[14..18] == Hex(u[6..8])
    requires t[19..23] == Hex(u[8..10]) && t[24..] == Hex(u[10..])
    ensures t[DigitAt(i)] == DIGITS[u[i] / 16] && t[DigitAt(i) + 1] == DIGITS[u[i] % 16]
  {
    if i < 4 {
      DigitsInside(t, 0, u[..4], i);
    } else if i < 6 {
      DigitsInside(t, 9, u[4..6], i - 4);
    } else if i < 8 {
      DigitsInside(t, 14, u[6..8], i - 6);
    } else if i < 10 {
      DigitsInside(t, 19, u[8..10], i - 8);
    } else {
      assert t[24..36] == t[24..];
      DigitsInside(t, 24, u[10..], i - 10);
    }
  }

  /** The text is two hexadecimal digits per byte, in groups of 8, 4, 4, 4 and 12. */
  lemma TextDigits(u: Uuid, i: nat)
    requires i < 16
    ensures var t, p := ToText(u), DigitAt(i);
            t[p] == DIGITS[u[i] / 16] && t[p + 1] == DIGITS[u[i] % 16]
    ensures forall p | p in [8, 13, 18, 23] :: ToText(u)[p] == '-'
  {
    Parts(u);
    Hyphens(u);
    TextGroups(ToText(u), u, i);
  }

  lemma Hyphens(u: Uuid)
    ensures forall p | p in [8, 13, 18, 23] :: ToText(u)[p] == '-'
  {
    JoinedHyphens(Hex(u[..4]), Hex(u[4..6]), Hex(u[6..8]), Hex(u[8..10]), Hex(u[10..]));
  }

  lemma JoinedHyphens(a: string, b: string, c: string, d: string, e: string)
    requires |a| == 8 && |b| == |c| == |d| == 4
    ensures var s := a + "-" + b + "-" + c + "-" + d + "-" + e;
            s[8] == s[13] == s[18] == s[23] == '-'
  {
  }
}
