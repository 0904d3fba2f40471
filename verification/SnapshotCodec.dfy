// Writing and reading snapshots in place, proved against the format.
module SnapshotCodec {
  import opened Geometry
  import opened Options
  import opened Snapshots
  import opened Wire
  import Q = Quantise
  import Uuid

  // ---- Sizing --------------------------------------------------------------

  function SizeOf(s: SnakeState): nat {
    16 + 1 + |s.nickname| * 3 + 2 + 2 + 2 + 1 + 2 + |s.points| * 4
  }

  // What the snakes from i on are estimated to need.
  function Room(snakes: seq<SnakeState>, i: nat): nat
    requires i <= |snakes|
    decreases |snakes| - i
  {
    if i == |snakes| then 0 else SizeOf(snakes[i]) + Room(snakes, i + 1)
  }

  function TailRoom(s: Snapshot): nat {
    |s.food| * 9 + |s.removedSnakes| * 16 + |s.removedFood| * 4
  }

  method EstimateSize(s: Snapshot) returns (size: nat)
    ensures size == HEADER_BYTES + Room(s.snakes, 0) + TailRoom(s)
  {
    size := HEADER_BYTES;
    for i := 0 to |s.snakes|
      invariant size + Room(s.snakes, i) == HEADER_BYTES + Room(s.snakes, 0)
    {
      size := size + (16 + 1 + |s.snakes[i].nickname| * 3 + 2 + 2 + 2 + 1 + 2);
      size := size + |s.snakes[i].points| * 4;
    }
    size := size + |s.food| * 9;
    size := size + |s.removedSnakes| * 16;
    size := size + |s.removedFood| * 4;
  }

  // Three bytes a character is enough for every name in the snapshot.
  ghost predicate NamesFit(s: Snapshot, text: Text) {
    forall i :: 0 <= i < |s.snakes| ==> |text.encode(s.snakes[i].nickname)| <= |s.snakes[i].nickname| * 3
  }

  // ---- Encoding ------------------------------------------------------------

  method EncodePoint(p: Point, origin: Point, buffer: array<byte>, at: nat)
    requires at + 4 <= buffer.Length
    modifies buffer
    ensures buffer[..at + 4] == old(buffer[..at]) + SerPoint(PackPoint(p, origin))
  {
    hide U16, Q.PackPosition;
    ghost var before := buffer[..at];
    PutU16(buffer, at, Q.PackPosition(p.x, origin.x));
    PutU16(buffer, at + 2, Q.PackPosition(p.y, origin.y));
    Regroup(before, U16(Q.PackPosition(p.x, origin.x)), U16(Q.PackPosition(p.y, origin.y)));
  }

  method EncodePoints(s: SnakeState, origin: Point, buffer: array<byte>, at: nat, ghost packed: seq<(int, int)>) returns (next: nat)
    requires at + |s.points| * 4 <= buffer.Length && |packed| == |s.points|
    requires forall i :: 0 <= i < |s.points| ==> packed[i] == PackPoint(s.points[i], origin)
    modifies buffer
    ensures next == at + |s.points| * 4 <= buffer.Length
    ensures buffer[..next] == old(buffer[..at]) + SerList(packed, SerPoint)
  {
    ghost var before := buffer[..at];
    assert packed[..0] == [] && SerList(packed[..0], SerPoint) == [];
    hide SerPoint, PackPoint, SerList;
    next := at;
    for i := 0 to |s.points|
      invariant next == at + i * 4 <= buffer.Length
      invariant buffer[..next] == before + SerList(packed[..i], SerPoint)
    {
      EncodePoint(s.points[i], origin, buffer, next);
      SerListNext(packed, i, SerPoint);
      Regroup(before, SerList(packed[..i], SerPoint), SerPoint(packed[i]));
      next := next + 4;
    }
    assert packed[..|packed|] == packed;
  }

  method EncodeTail(s: SnakeState, buffer: array<byte>, at: nat, ghost packed: PackedSnake)
    requires at + 9 <= buffer.Length
    requires packed.angle == Q.PackAngle(s.angle) && packed.mass == Q.PackMass(s.mass) && packed.radius == Q.PackRadius(s.radius)
    requires packed.flags == Flags(s) && |packed.points| == |s.points|
    modifies buffer
    ensures buffer[..at + 9] == old(buffer[..at]) + SerTail(packed)
  {
    hide U8, U16, Q.PackAngle, Q.PackMass, Q.PackRadius;
    ghost var before := buffer[..at];
    PutU16(buffer, at, Q.PackAngle(s.angle));
    PutU16(buffer, at + 2, Q.PackMass(s.mass));
    PutU16(buffer, at + 4, Q.PackRadius(s.radius));
    PutU8(buffer, at + 6, (if s.boosting then 1 else 0) + (if s.isBot then 2 else 0));
    PutU16(buffer, at + 7, |s.points|);
    assert buffer[..at + 9] == before + U16(packed.angle) + U16(packed.mass) + U16(packed.radius) + U8(packed.flags) + U16(|packed.points|);
    assert buffer[..at + 9] == before + SerTail(packed);
  }

  // The packed form of a snake whose id and name can be written.
  ghost predicate Ready(s: SnakeState, packed: PackedSnake, origin: Point, text: Text) {
    Uuid.Valid(s.id) && packed == PackSnake(s, origin, text) && |text.encode(s.nickname)| <= |s.nickname| * 3
  }

  method EncodeSnake(s: SnakeState, origin: Point, text: Text, buffer: array<byte>, at: nat, ghost packed: PackedSnake)
    returns (next: nat)
    requires Ready(s, packed, origin, text) && at + SizeOf(s) <= buffer.Length
    modifies buffer
    ensures at <= next <= at + SizeOf(s)
    ensures buffer[..next] == old(buffer[..at]) + SerSnake(packed)
  {
    hide U8, SerTail, SerList, Uuid.ToBytes, Uuid.Valid, Q.PackAngle, Q.PackMass, Q.PackRadius, Flags;
    ghost var before := buffer[..at];
    Uuid.Write(s.id, buffer, at);
    next := at + 16;
    var nickname := text.encode(s.nickname);
    PutU8(buffer, next, |nickname|);
    next := next + 1;
    PutBytes(buffer, next, nickname);
    next := next + |nickname|;
    EncodeTail(s, buffer, next, packed);
    next := next + 9;
    next := EncodePoints(s, origin, buffer, next, packed.points);
    assert buffer[..next] == before + packed.id + U8(|nickname|) + nickname + SerTail(packed) + SerList(packed.points, SerPoint);
    assert buffer[..next] == before + SerSnake(packed);
  }

  method EncodePellet(food: FoodState, origin: Point, buffer: array<byte>, at: nat)
    requires at + 9 <= buffer.Length
    modifies buffer
    ensures buffer[..at + 9] == old(buffer[..at]) + SerFood(PackFood(food, origin))
  {
    hide U8, U16, U32, Q.PackPosition, Q.PackPellet;
    ghost var before, packed := buffer[..at], PackFood(food, origin);
    PutU32(buffer, at, food.id);
    PutU16(buffer, at + 4, Q.PackPosition(food.position.x, origin.x));
    PutU16(buffer, at + 6, Q.PackPosition(food.position.y, origin.y));
    PutU8(buffer, at + 8, Q.PackPellet(food.mass));
    assert buffer[..at + 9] == before + U32(packed.id) + U16(packed.x) + U16(packed.y) + U8(packed.mass);
    assert buffer[..at + 9] == before + SerFood(packed);
  }

  method EncodeFood(s: Snapshot, origin: Point, buffer: array<byte>, at: nat, ghost packed: seq<PackedFood>) returns (next: nat)
    requires at + |s.food| * 9 <= buffer.Length
    requires |packed| == |s.food| && forall i :: 0 <= i < |s.food| ==> packed[i] == PackFood(s.food[i], origin)
    modifies buffer
    ensures next == at + |s.food| * 9
    ensures buffer[..next] == old(buffer[..at]) + SerList(packed, SerFood)
  {
    ghost var before := buffer[..at];
    assert packed[..0] == [] && SerList(packed[..0], SerFood) == [];
    hide SerFood, PackFood, SerList;
    next := at;
    for i := 0 to |s.food|
      invariant next == at + i * 9 <= buffer.Length
      invariant buffer[..next] == before + SerList(packed[..i], SerFood)
    {
      EncodePellet(s.food[i], origin, buffer, next);
      SerListNext(packed, i, SerFood);
      Regroup(before, SerList(packed[..i], SerFood), SerFood(packed[i]));
      next := next + 9;
    }
    assert packed[..|packed|] == packed;
  }

  method EncodeRemovedSnakes(ids: seq<string>, buffer: array<byte>, at: nat, ghost packed: seq<Uuid.Raw>) returns (next: nat)
    requires at + |ids| * 16 <= buffer.Length && |packed| == |ids|
    requires forall i :: 0 <= i < |ids| ==> RawReady(ids[i], packed[i])
    modifies buffer
    ensures next == at + |ids| * 16
    ensures buffer[..next] == old(buffer[..at]) + SerList(packed, SerRaw)
  {
    ghost var before := buffer[..at];
    assert packed[..0] == [] && SerList(packed[..0], SerRaw) == [];
    hide Uuid.ToBytes, Uuid.Valid, SerList;
    next := at;
    for i := 0 to |ids|
      invariant next == at + i * 16 <= buffer.Length
      invariant buffer[..next] == before + SerList(packed[..i], SerRaw)
    {
      Uuid.Write(ids[i], buffer, next);
      SerListNext(packed, i, SerRaw);
      Regroup(before, SerList(packed[..i], SerRaw), SerRaw(packed[i]));
      next := next + 16;
    }
    assert packed[..|packed|] == packed;
  }

  method EncodeRemovedFood(ids: seq<int>, buffer: array<byte>, at: nat) returns (next: nat)
    requires at + |ids| * 4 <= buffer.Length
    modifies buffer
    ensures next == at + |ids| * 4
    ensures buffer[..next] == old(buffer[..at]) + SerList(ids, SerId)
  {
    ghost var before := buffer[..at];
    assert ids[..0] == [] && SerList(ids[..0], SerId) == [];
    hide U32, SerList;
    next := at;
    for i := 0 to |ids|
      invariant next == at + i * 4 <= buffer.Length
      invariant buffer[..next] == before + SerList(ids[..i], SerId)
    {
      PutU32(buffer, next, ids[i]);
      SerListNext(ids, i, SerId);
      Regroup(before, SerList(ids[..i], SerId), SerId(ids[i]));
      next := next + 4;
    }
    assert ids[..|ids|] == ids;
  }

  method EncodeHeader(s: Snapshot, full: bool, buffer: array<byte>, ghost packed: Packed)
    requires buffer.Length >= HEADER_BYTES && packed.tick == s.tick && packed.serverTime == s.serverTime && packed.ackSeq == s.ackSeq
    requires |packed.snakes| == |s.snakes| && |packed.food| == |s.food|
    requires |packed.removedSnakes| == |s.removedSnakes| && |packed.removedFood| == |s.removedFood|
    modifies buffer
    ensures buffer[..HEADER_BYTES] == SerHeader(packed, full)
  {
    hide U8, U16, U32;
    PutU8(buffer, 0, SNAPSHOT);
    PutU8(buffer, 1, if full then 1 else 0);
    PutU16(buffer, 2, |s.snakes|);
    PutU16(buffer, 4, |s.food|);
    PutU16(buffer, 6, |s.removedSnakes|);
    PutU16(buffer, 8, |s.removedFood|);
    PutU32(buffer, 10, s.tick);
    PutU32(buffer, 14, s.serverTime);
    PutU32(buffer, 18, s.ackSeq);
  }

  method EncodeSnakes(s: Snapshot, origin: Point, text: Text, buffer: array<byte>, at: nat, ghost packed: seq<PackedSnake>)
    returns (next: nat)
    requires at + Room(s.snakes, 0) <= buffer.Length && |packed| == |s.snakes|
    requires forall i :: 0 <= i < |s.snakes| ==> Ready(s.snakes[i], packed[i], origin, text)
    modifies buffer
    ensures at <= next <= at + Room(s.snakes, 0)
    ensures buffer[..next] == old(buffer[..at]) + SerList(packed, SerSnake)
  {
    ghost var before := buffer[..at];
    assert packed[..0] == [] && SerList(packed[..0], SerSnake) == [];
    hide SerSnake, Ready, SerList, SizeOf;
    next := at;
    for i := 0 to |s.snakes|
      invariant at <= next && next + Room(s.snakes, i) <= at + Room(s.snakes, 0)
      invariant buffer[..next] == before + SerList(packed[..i], SerSnake)
    {
      next := EncodeSnake(s.snakes[i], origin, text, buffer, next, packed[i]);
      SerListNext(packed, i, SerSnake);
      Regroup(before, SerList(packed[..i], SerSnake), SerSnake(packed[i]));
    }
    assert packed[..|packed|] == packed;
  }

  method Slice(scratch: array<byte>, n: nat) returns (buffer: array<byte>)
    requires n <= scratch.Length
    ensures fresh(buffer) && buffer[..] == scratch[..n]
  {
    buffer := new byte[n](i requires 0 <= i < n && n <= scratch.Length reads scratch => scratch[i]);
  }

  lemma Concatenated(a: seq<byte>, b: seq<byte>, c: seq<byte>, d: seq<byte>, e: seq<byte>)
    ensures a + b + c + d + e == a + (b + (c + (d + e)))
  {
  }

  lemma PackReady(s: Snapshot, origin: Point, text: Text)
    requires IdsValid(s) && NamesFit(s, text)
    ensures var w := Pack(s, origin, text);
            && w.tick == s.tick && w.serverTime == s.serverTime && w.ackSeq == s.ackSeq && |w.snakes| == |s.snakes|
            && (forall i :: 0 <= i < |s.snakes| ==> Ready(s.snakes[i], w.snakes[i], origin, text))
            && |w.food| == |s.food| && (forall i :: 0 <= i < |s.food| ==> w.food[i] == PackFood(s.food[i], origin))
            && |w.removedSnakes| == |s.removedSnakes| && w.removedFood == s.removedFood
            && forall i :: 0 <= i < |s.removedSnakes| ==> RawReady(s.removedSnakes[i], w.removedSnakes[i])
  {
  }

  ghost predicate RawReady(id: string, raw: Uuid.Raw) {
    Uuid.Valid(id) && raw == Uuid.ToBytes(id)
  }

  // Every write stays inside the estimate, and what is kept is the format.
  method EncodeSnapshot(s: Snapshot, origin: Point, full: bool, text: Text) returns (buffer: array<byte>)
    requires IdsValid(s) && NamesFit(s, text)
    ensures fresh(buffer) && buffer[..] == Serialise(Pack(s, origin, text), full)
  {
    var size := EstimateSize(s);
    var scratch := new byte[size];
    ghost var packed := Pack(s, origin, text);
    PackReady(s, origin, text);
    hide Pack, Ready, SerSnake, SerFood, SerRaw, SerId, SerHeader, PackSnake, PackFood, Uuid.Valid, Uuid.ToBytes, SerList, Room;
    EncodeHeader(s, full, scratch, packed);
    var offset := EncodeSnakes(s, origin, text, scratch, HEADER_BYTES, packed.snakes);
    offset := EncodeFood(s, origin, scratch, offset, packed.food);
    offset := EncodeRemovedSnakes(s.removedSnakes, scratch, offset, packed.removedSnakes);
    offset := EncodeRemovedFood(s.removedFood, scratch, offset);
    Concatenated(SerHeader(packed, full), SerList(packed.snakes, SerSnake), SerList(packed.food, SerFood),
                 SerList(packed.removedSnakes, SerRaw), SerList(packed.removedFood, SerId));
    buffer := Slice(scratch, offset);
  }

  // ---- Decoding ------------------------------------------------------------

  function ReadI16(buffer: array<byte>, at: nat): int
    requires at + 2 <= buffer.Length
    reads buffer
  {
    GetI16(buffer[..], at)
  }

  method DecodePoints(buffer: array<byte>, at: nat, count: nat, origin: Point) returns (r: Option<(seq<Point>, nat)>)
    ensures match ParseList(buffer[..], at, count, ParsePoint)
            case None => r.None?
            case Some(p) => r.Some? && r.value.1 == p.1 && |r.value.0| == |p.0| &&
                            forall k :: 0 <= k < |p.0| ==> r.value.0[k] == UnpackPoint(p.0[k], origin)
  {
    hide GetI16, UnpackPoint;
    var points: seq<Point> := [];
    var offset: nat := at;
    for i := 0 to count
      invariant var p := ParseList(buffer[..], at, i, ParsePoint);
                && p.Some? && p.value.1 == offset && |p.value.0| == |points|
                && forall k :: 0 <= k < |points| ==> points[k] == UnpackPoint(p.value.0[k], origin)
    {
      if offset + 4 > buffer.Length {
        assert ParseList(buffer[..], at, i + 1, ParsePoint).None?;
        ListFails(buffer[..], at, i + 1, count, ParsePoint);
        return None;
      }
      points := points + [UnpackPoint((ReadI16(buffer, offset), ReadI16(buffer, offset + 2)), origin)];
      offset := offset + 4;
    }
    return Some((points, offset));
  }

  method DecodeSnake(buffer: array<byte>, at: nat, origin: Point, text: Text) returns (r: Option<(SnakeState, nat)>)
    ensures match ParseSnake(buffer[..], at)
            case None => r.None?
            case Some(p) => r == Some((UnpackSnake(p.0, origin, text), p.1))
  {
    hide GetI16, UnpackPoint, Uuid.FromBytes, Uuid.RawAt;
    var id := Uuid.Read(buffer, at);
    var offset := at + 16;
    if offset + 1 > buffer.Length { return None; }
    var nicknameLength: int := buffer[offset];
    offset := offset + 1;
    var end := if offset + nicknameLength <= buffer.Length then offset + nicknameLength else buffer.Length;
    var nickname := text.decode(buffer[offset..end]);
    offset := offset + nicknameLength;
    if offset + 9 > buffer.Length { return None; }
    assert buffer[..][at + 17..offset] == buffer[at + 17..offset];
    var angle := Q.UnpackAngle(GetU16(buffer[..], offset));
    var mass := GetU16(buffer[..], offset + 2);
    var radius := GetU16(buffer[..], offset + 4) as real / 4.0;
    var flags: int := buffer[offset + 6];
    var pointCount := GetU16(buffer[..], offset + 7);
    offset := offset + 9;
    var points := DecodePoints(buffer, offset, pointCount, origin);
    if points.None? { return None; }
    r := Some((SnakeState(id, nickname, points.value.0, angle, mass as real, radius, flags % 2 == 1, flags / 2 % 2 == 1),
               points.value.1));
    ghost var p := ParseSnake(buffer[..], at).value.0;
    assert r.value.0.points == UnpackSnake(p, origin, text).points;
  }

  // What the loops below build: the unpacked items, or the first failure.
  ghost predicate Reads<T, U>(got: Option<(seq<U>, nat)>, parsed: Option<(seq<T>, nat)>, unpack: T -> U) {
    match parsed
    case None => got.None?
    case Some(p) => got.Some? && got.value.1 == p.1 && |got.value.0| == |p.0| &&
                    forall k :: 0 <= k < |p.0| ==> got.value.0[k] == unpack(p.0[k])
  }

  method DecodeSnakes(buffer: array<byte>, at: nat, count: nat, origin: Point, text: Text) returns (r: Option<(seq<SnakeState>, nat)>)
    ensures Reads(r, ParseList(buffer[..], at, count, ParseSnake), p => UnpackSnake(p, origin, text))
  {
    hide ParseSnake, UnpackSnake;
    var snakes: seq<SnakeState> := [];
    var offset: nat := at;
    for i := 0 to count
      invariant Reads(Some((snakes, offset)), ParseList(buffer[..], at, i, ParseSnake), p => UnpackSnake(p, origin, text))
    {
      var snake := DecodeSnake(buffer, offset, origin, text);
      if snake.None? {
        assert ParseList(buffer[..], at, i + 1, ParseSnake).None?;
        ListFails(buffer[..], at, i + 1, count, ParseSnake);
        return None;
      }
      snakes := snakes + [snake.value.0];
      offset := snake.value.1;
    }
    return Some((snakes, offset));
  }

  method DecodeFood(buffer: array<byte>, at: nat, count: nat, origin: Point) returns (r: Option<(seq<FoodState>, nat)>)
    ensures Reads(r, ParseList(buffer[..], at, count, ParseFood), p => UnpackFood(p, origin))
  {
    hide GetI16, GetU32, UnpackPoint;
    var food: seq<FoodState> := [];
    var offset: nat := at;
    for i := 0 to count
      invariant Reads(Some((food, offset)), ParseList(buffer[..], at, i, ParseFood), p => UnpackFood(p, origin))
    {
      if offset + 9 > buffer.Length {
        assert ParseList(buffer[..], at, i + 1, ParseFood).None?;
        ListFails(buffer[..], at, i + 1, count, ParseFood);
        return None;
      }
      var id := GetU32(buffer[..], offset);
      food := food + [FoodState(id, UnpackPoint((ReadI16(buffer, offset + 4), ReadI16(buffer, offset + 6)), origin),
                                buffer[offset + 8] as real, id % 360)];
      offset := offset + 9;
    }
    return Some((food, offset));
  }

  method DecodeIds(buffer: array<byte>, at: nat, count: nat) returns (r: Option<(seq<int>, nat)>)
    ensures r == ParseList(buffer[..], at, count, ParseId)
  {
    hide GetU32;
    var ids: seq<int> := [];
    var offset: nat := at;
    for i := 0 to count
      invariant ParseList(buffer[..], at, i, ParseId) == Some((ids, offset))
    {
      if offset + 4 > buffer.Length {
        assert ParseList(buffer[..], at, i + 1, ParseId).None?;
        ListFails(buffer[..], at, i + 1, count, ParseId);
        return None;
      }
      ids := ids + [GetU32(buffer[..], offset)];
      offset := offset + 4;
    }
    return Some((ids, offset));
  }

  method DecodeRemoved(buffer: array<byte>, at: nat, count: nat) returns (ids: seq<string>, next: nat)
    ensures Reads(Some((ids, next)), ParseList(buffer[..], at, count, ParseRaw), p => Uuid.FromBytes(p))
  {
    hide Uuid.RawAt, Uuid.FromBytes;
    ids, next := [], at;
    for i := 0 to count
      invariant Reads(Some((ids, next)), ParseList(buffer[..], at, i, ParseRaw), p => Uuid.FromBytes(p))
    {
      var id := Uuid.Read(buffer, next);
      ids := ids + [id];
      next := next + 16;
    }
  }

  // Any buffer at all is read in bounds, to the snapshot the format assigns it
  // or to the error it deserves.
  method DecodeSnapshot(buffer: array<byte>, origin: Point, text: Text) returns (r: Result<Snapshot, Error>)
    ensures r == Decoded(buffer[..], origin, text)
  {
    if buffer.Length < HEADER_BYTES { return Err(TooShort); }
    if buffer[0] != SNAPSHOT { return Err(WrongType(buffer[0])); }
    ghost var b := buffer[..];
    var snakeCount, foodCount := GetU16(buffer[..], 2), GetU16(buffer[..], 4);
    var removedSnakeCount, removedFoodCount := GetU16(buffer[..], 6), GetU16(buffer[..], 8);
    var tick, serverTime, ackSeq := GetU32(buffer[..], 10), GetU32(buffer[..], 14), GetU32(buffer[..], 18);
    hide ParseList, GetU16, GetU32, ParseSnake, ParseFood, ParseRaw, ParseId, UnpackSnake, UnpackFood, Uuid.FromBytes;
    var snakes := DecodeSnakes(buffer, HEADER_BYTES, snakeCount, origin, text);
    if snakes.None? { return Err(OutOfBounds); }
    var food := DecodeFood(buffer, snakes.value.1, foodCount, origin);
    if food.None? { return Err(OutOfBounds); }
    var removed, next := DecodeRemoved(buffer, food.value.1, removedSnakeCount);
    var ids := DecodeIds(buffer, next, removedFoodCount);
    if ids.None? { return Err(OutOfBounds); }
    r := Ok(Snapshot(tick, serverTime, ackSeq, snakes.value.0, food.value.0, removed, ids.value.0));
    ghost var w := Parse(b).value;
    assert r.value.snakes == Unpack(w, origin, text).snakes;
    assert r.value.food == Unpack(w, origin, text).food;
    assert r.value.removedSnakes == Unpack(w, origin, text).removedSnakes;
  }

  // A cut-off list of removed snakes is not noticed: the missing ids read as zero.
  lemma CutRemovalsAccepted(b: seq<byte>, text: Text, origin: Point)
    requires |b| == HEADER_BYTES && b[0] == SNAPSHOT
    requires GetU16(b, 2) == GetU16(b, 4) == GetU16(b, 8) == 0
    ensures Decoded(b, origin, text).Ok?
    ensures var ids := Decoded(b, origin, text).value.removedSnakes;
            |ids| == GetU16(b, 6) && forall i :: 0 <= i < |ids| ==> ids[i] == Uuid.FromBytes(seq(16, _ => 0))
  {
    ZeroIds(b, GetU16(b, 6));
  }

  lemma {:induction false} ZeroIds(b: seq<byte>, n: nat)
    requires |b| == HEADER_BYTES
    ensures var r := ParseList(b, HEADER_BYTES, n, ParseRaw);
            r.Some? && |r.value.0| == n && r.value.1 >= HEADER_BYTES && forall i :: 0 <= i < n ==> r.value.0[i] == seq(16, _ => 0)
  {
    if n > 0 {
      ZeroIds(b, n - 1);
      var at := ParseList(b, HEADER_BYTES, n - 1, ParseRaw).value.1;
      assert Uuid.RawAt(b, at) == seq(16, _ => 0);
    }
  }
}
