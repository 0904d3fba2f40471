// Little-endian fields and counted lists over a byte buffer.
module Wire {
  import opened Options

  type byte = b: int | 0 <= b < 256

  const WORD16: int := 65536
  const WORD32: int := 0x1_0000_0000

  // ---- Fields --------------------------------------------------------------

  function Low(n: int): byte { n % 256 }

  function U8(n: int): (b: seq<byte>)
    ensures |b| == 1
  {
    [Low(n)]
  }

  function U16(n: int): (b: seq<byte>)
    ensures |b| == 2
  {
    [Low(n), Low(n / 256)]
  }

  function U32(n: int): (b: seq<byte>)
    ensures |b| == 4
  {
    U16(n % WORD16) + U16(n / WORD16)
  }

  function GetU16(b: seq<byte>, at: nat): int
    requires at + 2 <= |b|
  {
    var low: int, high: int := b[at], b[at + 1];
    low + 256 * high
  }

  function GetI16(b: seq<byte>, at: nat): int
    requires at + 2 <= |b|
  {
    var n := GetU16(b, at);
    if n < 32768 then n else n - WORD16
  }

  function GetU32(b: seq<byte>, at: nat): int
    requires at + 4 <= |b|
  {
    GetU16(b, at) + WORD16 * GetU16(b, at + 2)
  }

  // The bytes lie in the buffer at this offset.
  predicate Holds(b: seq<byte>, at: nat, bytes: seq<byte>) {
    at + |bytes| <= |b| && b[at..at + |bytes|] == bytes
  }

  lemma HoldsParts(b: seq<byte>, at: nat, x: seq<byte>, y: seq<byte>)
    ensures Holds(b, at, x + y) <==> Holds(b, at, x) && Holds(b, at + |x|, y)
  {
    if Holds(b, at, x) && Holds(b, at + |x|, y) {
      assert b[at..at + |x + y|] == b[at..at + |x|] + b[at + |x|..at + |x| + |y|];
    }
    if Holds(b, at, x + y) {
      assert x == (x + y)[..|x|] == b[at..at + |x|];
      assert y == (x + y)[|x|..] == b[at + |x|..at + |x| + |y|];
    }
  }

  lemma ReadsU8(b: seq<byte>, at: nat, n: int)
    requires Holds(b, at, U8(n))
    ensures at + 1 <= |b| && b[at] == n % 256
  {
    assert b[at] == b[at..at + 1][0];
  }

  lemma ReadsU16(b: seq<byte>, at: nat, n: int)
    requires Holds(b, at, U16(n))
    ensures at + 2 <= |b| && GetU16(b, at) == n % WORD16
    ensures -32768 <= n < 32768 ==> GetI16(b, at) == n
  {
    var two := b[at..at + 2];
    assert b[at] == two[0] && b[at + 1] == two[1];
  }

  lemma HalvesMakeWord(n: int)
    ensures n % WORD16 + WORD16 * (n / WORD16 % WORD16) == n % WORD32
  {
    var r, q := n % WORD16, n / WORD16;
    var k, low := q / WORD16, r + WORD16 * (q % WORD16);
    assert n == WORD32 * k + low && 0 <= low < WORD32;
    Remainder(n, WORD32, k, low);
  }

  lemma Remainder(n: int, m: int, k: int, low: int)
    requires 0 <= low < m && n == m * k + low
    ensures n % m == low && n / m == k
  {
    var d := n / m - k;
    assert m * d == low - n % m;
    if d > 0 { Grows(m, d); } else if d < 0 { Grows(m, -d); }
  }

  lemma Grows(m: int, d: int)
    requires m > 0 && d > 0
    ensures m * d >= m
  {
  }

  lemma ReadsU32(b: seq<byte>, at: nat, n: int)
    requires Holds(b, at, U32(n))
    ensures at + 4 <= |b| && GetU32(b, at) == n % WORD32
  {
    HoldsParts(b, at, U16(n % WORD16), U16(n / WORD16));
    ReadsU16(b, at, n % WORD16);
    ReadsU16(b, at + 2, n / WORD16);
    HalvesMakeWord(n);
    assert n % WORD16 % WORD16 == n % WORD16;
  }

  // ---- Counted lists -------------------------------------------------------

  function SerList<T>(xs: seq<T>, ser: T -> seq<byte>): seq<byte> {
    if xs == [] then [] else SerList(xs[..|xs| - 1], ser) + ser(xs[|xs| - 1])
  }

  // Reads `count` items, each from where the one before ended.
  function ParseList<T>(b: seq<byte>, at: nat, count: nat, parse: (seq<byte>, nat) -> Option<(T, nat)>): Option<(seq<T>, nat)> {
    if count == 0 then Some(([], at))
    else
      match ParseList(b, at, count - 1, parse)
      case None => None
      case Some(done) =>
        match parse(b, done.1)
        case None => None
        case Some(item) => Some((done.0 + [item.0], item.1))
  }

  // The parser reads back what the printer wrote, wherever it lies.
  ghost predicate Inverts<T(!new)>(parse: (seq<byte>, nat) -> Option<(T, nat)>, ser: T -> seq<byte>, x: T) {
    forall b: seq<byte>, at: nat :: Holds(b, at, ser(x)) ==> parse(b, at) == Some((x, at + |ser(x)|))
  }

  lemma {:induction false} ListInverts<T(!new)>(b: seq<byte>, at: nat, xs: seq<T>, ser: T -> seq<byte>,
                                               parse: (seq<byte>, nat) -> Option<(T, nat)>)
    requires Holds(b, at, SerList(xs, ser)) && forall x :: x in xs ==> Inverts(parse, ser, x)
    ensures ParseList(b, at, |xs|, parse) == Some((xs, at + |SerList(xs, ser)|))
    decreases |xs|
  {
    if xs != [] {
      var front, last := xs[..|xs| - 1], xs[|xs| - 1];
      HoldsParts(b, at, SerList(front, ser), ser(last));
      ListInverts(b, at, front, ser, parse);
      assert Inverts(parse, ser, last);
      assert front + [last] == xs;
    }
  }

  lemma Regroup(x: seq<byte>, y: seq<byte>, z: seq<byte>)
    ensures x + y + z == x + (y + z)
  {
  }

  lemma SerListNext<T>(xs: seq<T>, i: nat, ser: T -> seq<byte>)
    requires i < |xs|
    ensures SerList(xs[..i + 1], ser) == SerList(xs[..i], ser) + ser(xs[i])
  {
    assert xs[..i + 1][..i] == xs[..i];
  }

  // Cutting the buffer inside the item makes the parser fail.
  ghost predicate Breaks<T(!new)>(parse: (seq<byte>, nat) -> Option<(T, nat)>, ser: T -> seq<byte>, x: T) {
    forall b: seq<byte>, at: nat, n: nat ::
      Holds(b, at, ser(x)) && at <= n < at + |ser(x)| ==> parse(b[..n], at).None?
  }

  lemma HoldsCut(b: seq<byte>, at: nat, bytes: seq<byte>, n: nat)
    requires Holds(b, at, bytes) && at + |bytes| <= n <= |b|
    ensures Holds(b[..n], at, bytes)
  {
    assert b[..n][at..at + |bytes|] == b[at..at + |bytes|];
  }

  // A list cut short of its end cannot be read.
  lemma {:induction false} ListBreaks<T(!new)>(b: seq<byte>, at: nat, xs: seq<T>, ser: T -> seq<byte>,
                                              parse: (seq<byte>, nat) -> Option<(T, nat)>, n: nat)
    requires Holds(b, at, SerList(xs, ser)) && at <= n < at + |SerList(xs, ser)|
    requires forall x :: x in xs ==> Inverts(parse, ser, x) && Breaks(parse, ser, x)
    ensures ParseList(b[..n], at, |xs|, parse).None?
    decreases |xs|
  {
    var front, last := xs[..|xs| - 1], xs[|xs| - 1];
    HoldsParts(b, at, SerList(front, ser), ser(last));
    var end := at + |SerList(front, ser)|;
    if n < end {
      ListBreaks(b, at, front, ser, parse, n);
    } else {
      HoldsCut(b, at, SerList(front, ser), n);
      ListInverts(b[..n], at, front, ser, parse);
      assert Breaks(parse, ser, last);
      assert parse(b[..n], end).None?;
    }
  }

  // Once an item cannot be read, no longer list can.
  lemma {:induction false} ListFails<T>(b: seq<byte>, at: nat, few: nat, many: nat, parse: (seq<byte>, nat) -> Option<(T, nat)>)
    requires few <= many && ParseList(b, at, few, parse).None?
    ensures ParseList(b, at, many, parse).None?
    decreases many
  {
    if few < many { ListFails(b, at, few, many - 1, parse); }
  }

  // ---- Writing -------------------------------------------------------------

  method PutU8(buffer: array<byte>, at: nat, n: int)
    requires at < buffer.Length
    modifies buffer
    ensures buffer[..at + 1] == old(buffer[..at]) + U8(n)
  {
    buffer[at] := Low(n);
  }

  method PutU16(buffer: array<byte>, at: nat, n: int)
    requires at + 2 <= buffer.Length
    modifies buffer
    ensures buffer[..at + 2] == old(buffer[..at]) + U16(n)
  {
    buffer[at] := Low(n);
    buffer[at + 1] := Low(n / 256);
  }

  method PutU32(buffer: array<byte>, at: nat, n: int)
    requires at + 4 <= buffer.Length
    modifies buffer
    ensures buffer[..at + 4] == old(buffer[..at]) + U32(n)
  {
    PutU16(buffer, at, n % WORD16);
    PutU16(buffer, at + 2, n / WORD16);
    assert buffer[..at + 4] == old(buffer[..at]) + U16(n % WORD16) + U16(n / WORD16);
  }

  method PutBytes(buffer: array<byte>, at: nat, bytes: seq<byte>)
    requires at + |bytes| <= buffer.Length
    modifies buffer
    ensures buffer[..at + |bytes|] == old(buffer[..at]) + bytes
  {
    for i := 0 to |bytes|
      invariant buffer[..at + i] == old(buffer[..at]) + bytes[..i]
    {
      buffer[at + i] := bytes[i];
      assert buffer[..at + i + 1] == buffer[..at + i] + [bytes[i]];
    }
  }
}
