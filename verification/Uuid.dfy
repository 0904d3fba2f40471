// Player ids on the wire: 16 raw bytes for the 36-character text form.
module Uuid {
  import opened Wire

  type Raw = b: seq<byte> | |b| == 16 witness seq(16, _ => 0)

  const DASHES: set<int> := {8, 13, 18, 23}

  predicate IsHex(c: char) {
    '0' <= c <= '9' || 'a' <= c <= 'f' || 'A' <= c <= 'F'
  }

  function Lower(c: char): char {
    if 'A' <= c <= 'Z' then (c as int + 32) as char else c
  }

  function HexValue(c: char): (v: int)
    requires IsHex(c)
    ensures 0 <= v < 16
  {
    if c <= '9' then c as int - '0' as int else if c <= 'F' then c as int - 'A' as int + 10 else c as int - 'a' as int + 10
  }

  function HexDigit(v: int): (c: char)
    requires 0 <= v < 16
    ensures IsHex(c)
  {
    if v < 10 then ('0' as int + v) as char else ('a' as int + v - 10) as char
  }

  lemma DigitRoundTrip(c: char)
    requires IsHex(c)
    ensures HexDigit(HexValue(c)) == Lower(c)
  {
  }

  predicate Valid(id: string) {
    |id| == 36 && forall i :: 0 <= i < 36 ==> if i in DASHES then id[i] == '-' else IsHex(id[i])
  }

  function LowerAll(s: string): string {
    seq(|s|, i requires 0 <= i < |s| => Lower(s[i]))
  }

  // The text without its dashes.
  function Stripped(s: string): string {
    if s == "" then "" else (if s[0] == '-' then "" else [s[0]]) + Stripped(s[1..])
  }

  lemma {:induction false} StripsParts(s: string, t: string)
    ensures Stripped(s + t) == Stripped(s) + Stripped(t)
    decreases |s|
  {
    if s == "" {
      assert s + t == t;
    } else {
      var rest := s[1..] + t;
      assert (s + t)[1..] == rest && (s + t)[0] == s[0];
      StripsParts(s[1..], t);
      var first := if s[0] == '-' then "" else [s[0]];
      assert Stripped(s + t) == first + Stripped(rest);
      assert Stripped(s) == first + Stripped(s[1..]);
      hide Stripped;
      assert first + (Stripped(s[1..]) + Stripped(t)) == first + Stripped(s[1..]) + Stripped(t);
    }
  }

  lemma {:induction false} StripsNothing(s: string)
    requires '-' !in s
    ensures Stripped(s) == s
  {
    if s != "" { StripsNothing(s[1..]); }
  }

  // A valid id keeps its five groups of digits.
  lemma StrippedId(id: string)
    requires Valid(id)
    ensures Stripped(id) == id[..8] + id[9..13] + id[14..18] + id[19..23] + id[24..]
  {
    assert forall i :: 0 <= i < 36 ==> (i in DASHES <==> id[i] == '-');
    hide IsHex, Valid, Stripped;
    StripGroup(id, 0, 8);
    StripGroup(id, 9, 13);
    StripGroup(id, 14, 18);
    StripGroup(id, 19, 23);
    assert '-' !in id[24..];
    StripsNothing(id[24..]);
    assert id[0..] == id && id[0..8] == id[..8];
  }

  lemma StripGroup(id: string, from: nat, to: nat)
    requires from <= to < |id| && id[to] == '-' && forall i :: from <= i < to ==> id[i] != '-'
    ensures Stripped(id[from..]) == id[from..to] + Stripped(id[to + 1..])
  {
    assert id[from..] == id[from..to] + ([id[to]] + id[to + 1..]);
    StripsParts(id[from..to], [id[to]] + id[to + 1..]);
    assert '-' !in id[from..to];
    StripsNothing(id[from..to]);
    assert ([id[to]] + id[to + 1..])[1..] == id[to + 1..];
  }

  lemma HexDigits(id: string)
    requires Valid(id)
    ensures |Stripped(id)| == 32 && forall k :: 0 <= k < 32 ==> IsHex(Stripped(id)[k])
  {
    StrippedId(id);
  }

  function ByteOf(hex: string, i: nat): byte
    requires 2 * i + 1 < |hex| && IsHex(hex[2 * i]) && IsHex(hex[2 * i + 1])
  {
    16 * HexValue(hex[2 * i]) + HexValue(hex[2 * i + 1])
  }

  function ToBytes(id: string): (bytes: Raw)
    requires Valid(id)
  {
    HexDigits(id);
    seq(16, i requires 0 <= i < 16 => ByteOf(Stripped(id), i))
  }

  function HexOf(bytes: seq<byte>): (hex: string)
    ensures |hex| == 2 * |bytes|
    ensures forall i :: 0 <= i < |bytes| ==> hex[2 * i] == HexDigit(bytes[i] / 16) && hex[2 * i + 1] == HexDigit(bytes[i] % 16)
  {
    if bytes == [] then ""
    else
      var last := bytes[|bytes| - 1];
      HexOf(bytes[..|bytes| - 1]) + [HexDigit(last / 16), HexDigit(last % 16)]
  }

  function Dashed(hex: string): string
    requires |hex| == 32
  {
    hex[..8] + "-" + hex[8..12] + "-" + hex[12..16] + "-" + hex[16..20] + "-" + hex[20..]
  }

  // Bytes past the end read as zero.
  function RawAt(b: seq<byte>, at: nat): Raw {
    seq(16, i requires 0 <= i < 16 => if at + i < |b| then b[at + i] else 0)
  }

  function FromBytes(bytes: Raw): string {
    Dashed(HexOf(bytes))
  }

  // An id survives the wire up to letter case.
  lemma RoundTrip(id: string)
    requires Valid(id)
    ensures FromBytes(ToBytes(id)) == LowerAll(id)
  {
    var bytes, hex := ToBytes(id), Stripped(id);
    HexDigits(id);
    forall k | 0 <= k < 32 ensures HexOf(bytes)[k] == Lower(hex[k]) { DigitBack(id, k / 2); }
    assert HexOf(bytes) == LowerAll(hex);
    DashesBack(id);
  }

  lemma DashesBack(id: string)
    requires Valid(id)
    ensures |Stripped(id)| == 32 && Dashed(LowerAll(Stripped(id))) == LowerAll(id)
  {
    StrippedId(id);
    var raw, hex, back := Stripped(id), LowerAll(Stripped(id)), LowerAll(id);
    hide Lower, IsHex, Stripped;
    assert raw[..8] == id[..8] && raw[8..12] == id[9..13] && raw[12..16] == id[14..18];
    assert raw[16..20] == id[19..23] && raw[20..] == id[24..];
    LowerSlice(raw, 0, 8);
    LowerSlice(raw, 8, 12);
    LowerSlice(raw, 12, 16);
    LowerSlice(raw, 16, 20);
    LowerSlice(raw, 20, 32);
    LowerSlice(id, 0, 8);
    LowerSlice(id, 9, 13);
    LowerSlice(id, 14, 18);
    LowerSlice(id, 19, 23);
    LowerSlice(id, 24, 36);
    assert back[8] == Lower('-') && back[13] == Lower('-') && back[18] == Lower('-') && back[23] == Lower('-');
    hide LowerAll;
    assert raw[0..8] == raw[..8] && id[0..8] == id[..8] && raw[20..32] == raw[20..] && id[24..36] == id[24..];
    assert hex[0..8] == hex[..8] && back[0..8] == back[..8] && hex[20..32] == hex[20..] && back[24..36] == back[24..];
    LowerDash();
    hide Dashed;
    DashedGroups(hex, back);
  }

  lemma LowerSlice(s: string, from: nat, to: nat)
    requires from <= to <= |s|
    ensures LowerAll(s)[from..to] == LowerAll(s[from..to])
  {
  }

  lemma DashedGroups(hex: string, back: string)
    requires |hex| == 32 && |back| == 36
    requires hex[..8] == back[..8] && hex[8..12] == back[9..13] && hex[12..16] == back[14..18]
    requires hex[16..20] == back[19..23] && hex[20..] == back[24..]
    requires back[8] == back[13] == back[18] == back[23] == '-'
    ensures Dashed(hex) == back
  {
    assert back[..8] + "-" + back[9..13] == back[..13];
    assert back[..13] + "-" + back[14..18] == back[..18];
    assert back[..18] + "-" + back[19..23] == back[..23];
    assert back[..23] + "-" + back[24..] == back;
  }

  lemma LowerDash()
    ensures Lower('-') == '-'
  {
  }

  lemma DigitBack(id: string, i: nat)
    requires Valid(id) && i < 16
    ensures var hex, back := Stripped(id), HexOf(ToBytes(id));
            |hex| == |back| == 32 && back[2 * i] == Lower(hex[2 * i]) && back[2 * i + 1] == Lower(hex[2 * i + 1])
  {
    HexDigits(id);
    var b, hex := ToBytes(id)[i], Stripped(id);
    hide Stripped, HexOf;
    assert b == ByteOf(hex, i);
    var high, low := HexValue(hex[2 * i]), HexValue(hex[2 * i + 1]);
    assert b == 16 * high + low && b / 16 == high && b % 16 == low;
    DigitRoundTrip(hex[2 * i]);
    DigitRoundTrip(hex[2 * i + 1]);
  }

  lemma HeldRaw(b: seq<byte>, at: nat, bytes: Raw)
    requires Holds(b, at, bytes)
    ensures RawAt(b, at) == bytes
  {
    var held := b[at..at + 16];
    assert forall i :: 0 <= i < 16 ==> RawAt(b, at)[i] == held[i];
  }

  method Write(id: string, buffer: array<byte>, at: nat)
    requires Valid(id) && at + 16 <= buffer.Length
    modifies buffer
    ensures buffer[..at + 16] == old(buffer[..at]) + ToBytes(id)
  {
    HexDigits(id);
    var hex := Stripped(id);
    for i := 0 to 16
      invariant buffer[..at + i] == old(buffer[..at]) + ToBytes(id)[..i]
    {
      buffer[at + i] := ByteOf(hex, i);
      assert buffer[..at + i + 1] == buffer[..at + i] + [ToBytes(id)[i]];
    }
  }

  lemma HexNext(bytes: seq<byte>, i: nat)
    requires i < |bytes|
    ensures HexOf(bytes[..i + 1]) == HexOf(bytes[..i]) + [HexDigit(bytes[i] / 16), HexDigit(bytes[i] % 16)]
  {
    assert bytes[..i + 1][..i] == bytes[..i];
  }

  method Read(buffer: array<byte>, at: nat) returns (id: string)
    ensures id == FromBytes(RawAt(buffer[..], at))
  {
    var hex := "";
    ghost var raw := RawAt(buffer[..], at);
    assert HexOf(raw[..0]) == "";
    hide HexOf, HexDigit;
    for i := 0 to 16
      invariant hex == HexOf(raw[..i])
    {
      var b: byte := if at + i < buffer.Length then buffer[at + i] else 0;
      assert b == raw[i];
      HexNext(raw, i);
      hex := hex + [HexDigit(b / 16), HexDigit(b % 16)];
    }
    assert raw[..16] == raw;
    id := hex[..8] + "-" + hex[8..12] + "-" + hex[12..16] + "-" + hex[16..20] + "-" + hex[20..];
  }
}
