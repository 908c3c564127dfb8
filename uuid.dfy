/**
 * The text form of a random (version 4) UUID, which the registered email
 * service uses as its verification token: 16 random bytes with the version
 * and variant bits set, written as 32 lower-case hex digits in groups
 * 8-4-4-4-12 separated by '-'.
 */
module Uuid {
  import opened Wrappers

  newtype byte = x: int | 0 <= x < 256

  /** Sets the version nibble to 4 and the variant bits to 10 (`b & 0x0f | 0x40`, `b & 0x3f | 0x80`). */
  function NewRandom(raw: seq<byte>): (u: seq<byte>)
    requires |raw| == 16
    ensures |u| == 16 && u[6] / 16 == 4 && u[8] / 64 == 2
    ensures forall k :: 0 <= k < 16 && k != 6 && k != 8 ==> u[k] == raw[k]
    ensures u[6] % 16 == raw[6] % 16 && u[8] % 64 == raw[8] % 64
  {
    raw[6 := raw[6] % 16 + 64][8 := raw[8] % 64 + 128]
  }

  /** The lower-case hex digit of a nibble (the table "0123456789abcdef"). */
  function HexDigit(n: nat): (c: char)
    requires n < 16
  {
    if n < 10 then ('0' as int + n) as char else ('a' as int + n - 10) as char
  }

  function DigitValue(c: char): (r: Option<nat>)
    ensures r.Some? ==> r.value < 16 && HexDigit(r.value) == c
  {
    if '0' <= c <= '9' then Some(c as int - '0' as int)
    else if 'a' <= c <= 'f' then Some(c as int - 'a' as int + 10)
    else None
  }

  function Hex(bs: seq<byte>): (s: string)
    ensures |s| == 2 * |bs|
    decreases |bs|
  {
    if bs == [] then [] else [HexDigit(bs[0] as nat / 16), HexDigit(bs[0] as nat % 16)] + Hex(bs[1..])
  }

  function Unhex(s: string): (r: Option<seq<byte>>)
    decreases |s|
  {
    if s == [] then Some([])
    else if |s| == 1 then None
    else
      match (DigitValue(s[0]), DigitValue(s[1]), Unhex(s[2..]))
      case (Some(hi), Some(lo), Some(rest)) => Some([(hi * 16 + lo) as byte] + rest)
      case _ => None
  }

  lemma {:induction false} HexRoundTrip(bs: seq<byte>)
    ensures Unhex(Hex(bs)) == Some(bs)
    decreases |bs|
  {
    if bs != [] {
      var b := bs[0] as nat;
      var s := Hex(bs);
      assert s[2..] == Hex(bs[1..]);
      assert DigitValue(HexDigit(b / 16)) == Some(b / 16);
      assert DigitValue(HexDigit(b % 16)) == Some(b % 16);
      HexRoundTrip(bs[1..]);
      assert bs == [bs[0]] + bs[1..];
    }
  }

  lemma {:induction false} HexAppend(a: seq<byte>, b: seq<byte>)
    ensures Hex(a + b) == Hex(a) + Hex(b)
    decreases |a|
  {
    if a == [] {
      assert a + b == b;
    } else {
      assert (a + b)[0] == a[0];
      assert (a + b)[1..] == a[1..] + b;
      HexAppend(a[1..], b);
    }
  }

  /** `uuid.UUID.String()`: the canonical 36-character form. */
  function Format(u: seq<byte>): (s: string)
    requires |u| == 16
    ensures |s| == 36 && s[8] == '-' && s[13] == '-' && s[18] == '-' && s[23] == '-'
  {
    Hex(u[..4]) + "-" + Hex(u[4..6]) + "-" + Hex(u[6..8]) + "-" + Hex(u[8..10]) + "-" + Hex(u[10..])
  }

  /** Reads the canonical form back into the 16 bytes. */
  function ParseCanonical(s: string): (r: Option<seq<byte>>)
  {
    if |s| != 36 || s[8] != '-' || s[13] != '-' || s[18] != '-' || s[23] != '-' then None
    else Unhex(s[..8] + s[9..13] + s[14..18] + s[19..23] + s[24..])
  }

  lemma FormatRoundTrip(u: seq<byte>)
    requires |u| == 16
    ensures ParseCanonical(Format(u)) == Some(u)
  {
    var s := Format(u);
    assert s[..8] == Hex(u[..4]);
    assert s[9..13] == Hex(u[4..6]);
    assert s[14..18] == Hex(u[6..8]);
    assert s[19..23] == Hex(u[8..10]);
    assert s[24..] == Hex(u[10..]);
    HexAppend(u[..4], u[4..6]);
    HexAppend(u[..4] + u[4..6], u[6..8]);
    HexAppend(u[..4] + u[4..6] + u[6..8], u[8..10]);
    HexAppend(u[..4] + u[4..6] + u[6..8] + u[8..10], u[10..]);
    assert u[..4] + u[4..6] + u[6..8] + u[8..10] + u[10..] == u;
    HexRoundTrip(u);
  }

  /** Distinct UUIDs have distinct text forms. */
  lemma FormatInjective(u: seq<byte>, v: seq<byte>)
    requires |u| == 16 && |v| == 16 && u != v
    ensures Format(u) != Format(v)
  {
    FormatRoundTrip(u);
    FormatRoundTrip(v);
  }
}
