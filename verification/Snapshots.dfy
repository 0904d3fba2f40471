// The snapshot format: printer, parser, and what a round trip recovers.
module Snapshots {
  import opened Geometry
  import opened Numbers
  import opened Options
  import opened Wire
  import Q = Quantise
  import Uuid

  const HEADER_BYTES: nat := 22
  const SNAPSHOT: int := 1

  datatype SnakeState = SnakeState(id: string, nickname: string, points: seq<Point>, angle: real, mass: real, radius: real,
                                   boosting: bool, isBot: bool)
  datatype FoodState = FoodState(id: int, position: Point, mass: real, hue: int)
  datatype Snapshot = Snapshot(tick: int, serverTime: int, ackSeq: int, snakes: seq<SnakeState>, food: seq<FoodState>,
                               removedSnakes: seq<string>, removedFood: seq<int>)

  datatype Error = TooShort | WrongType(found: int) | OutOfBounds

  // The platform's text codec.
  datatype Text = Text(encode: string -> seq<byte>, decode: seq<byte> -> string)

  // ---- Packed entities -----------------------------------------------------

  datatype PackedSnake = PackedSnake(id: Uuid.Raw, nickname: seq<byte>, angle: int, mass: int, radius: int, flags: int,
                                     points: seq<(int, int)>)
  datatype PackedFood = PackedFood(id: int, x: int, y: int, mass: int)
  datatype Packed = Packed(tick: int, serverTime: int, ackSeq: int, snakes: seq<PackedSnake>, food: seq<PackedFood>,
                           removedSnakes: seq<Uuid.Raw>, removedFood: seq<int>)

  predicate Short(n: int) { -32768 <= n < 32768 }

  predicate Fits16(n: int) { 0 <= n < WORD16 }

  predicate Fits32(n: int) { 0 <= n < WORD32 }

  function SerPoint(p: (int, int)): seq<byte> { U16(p.0) + U16(p.1) }

  function ParsePoint(b: seq<byte>, at: nat): Option<((int, int), nat)> {
    if at + 4 <= |b| then Some(((GetI16(b, at), GetI16(b, at + 2)), at + 4)) else None
  }

  function SerTail(s: PackedSnake): seq<byte> {
    U16(s.angle) + (U16(s.mass) + (U16(s.radius) + (U8(s.flags) + U16(|s.points|))))
  }

  function SerSnake(s: PackedSnake): seq<byte> {
    s.id + (U8(|s.nickname|) + (s.nickname + (SerTail(s) + SerList(s.points, SerPoint))))
  }

  function ParseSnake(b: seq<byte>, at: nat): Option<(PackedSnake, nat)> {
    if at + 17 > |b| then None
    else
      var name := at + 17;
      var tail := name + b[at + 16];
      if tail + 9 > |b| then None
      else
        match ParseList(b, tail + 9, GetU16(b, tail + 7), ParsePoint)
        case None => None
        case Some(points) =>
          Some((PackedSnake(Uuid.RawAt(b, at), b[name..tail], GetU16(b, tail), GetU16(b, tail + 2), GetU16(b, tail + 4),
                            b[tail + 6], points.0), points.1))
  }

  function SerFood(f: PackedFood): seq<byte> {
    U32(f.id) + (U16(f.x) + (U16(f.y) + U8(f.mass)))
  }

  function ParseFood(b: seq<byte>, at: nat): Option<(PackedFood, nat)> {
    if at + 9 <= |b| then Some((PackedFood(GetU32(b, at), GetI16(b, at + 4), GetI16(b, at + 6), b[at + 8]), at + 9)) else None
  }

  function SerRaw(id: Uuid.Raw): seq<byte> { id }

  // Reading past the end is no error here: missing bytes are zero.
  function ParseRaw(b: seq<byte>, at: nat): Option<(Uuid.Raw, nat)> {
    Some((Uuid.RawAt(b, at), at + 16))
  }

  function SerId(id: int): seq<byte> { U32(id) }

  function ParseId(b: seq<byte>, at: nat): Option<(int, nat)> {
    if at + 4 <= |b| then Some((GetU32(b, at), at + 4)) else None
  }

  function SerHeader(w: Packed, full: bool): (h: seq<byte>)
    ensures |h| == HEADER_BYTES
  {
    U8(SNAPSHOT) + (U8(if full then 1 else 0) + (U16(|w.snakes|) + (U16(|w.food|) + (U16(|w.removedSnakes|)
      + (U16(|w.removedFood|) + (U32(w.tick) + (U32(w.serverTime) + U32(w.ackSeq))))))))
  }

  function Serialise(w: Packed, full: bool): seq<byte> {
    SerHeader(w, full) + (SerList(w.snakes, SerSnake) + (SerList(w.food, SerFood)
      + (SerList(w.removedSnakes, SerRaw) + SerList(w.removedFood, SerId))))
  }

  function ParseBody(b: seq<byte>): Option<Packed>
    requires |b| >= HEADER_BYTES
  {
    match ParseList(b, HEADER_BYTES, GetU16(b, 2), ParseSnake)
    case None => None
    case Some(snakes) =>
      match ParseList(b, snakes.1, GetU16(b, 4), ParseFood)
      case None => None
      case Some(food) =>
        match ParseList(b, food.1, GetU16(b, 6), ParseRaw)
        case None => None
        case Some(removed) =>
          match ParseList(b, removed.1, GetU16(b, 8), ParseId)
          case None => None
          case Some(ids) =>
            Some(Packed(GetU32(b, 10), GetU32(b, 14), GetU32(b, 18), snakes.0, food.0, removed.0, ids.0))
  }

  function Parse(b: seq<byte>): Result<Packed, Error> {
    if |b| < HEADER_BYTES then Err(TooShort)
    else if b[0] != SNAPSHOT then Err(WrongType(b[0]))
    else match ParseBody(b) case None => Err(OutOfBounds) case Some(w) => Ok(w)
  }

  // ---- The parser inverts the printer --------------------------------------

  ghost predicate SnakeFits(s: PackedSnake) {
    && |s.nickname| < 256 && Fits16(s.angle) && Fits16(s.mass) && Fits16(s.radius)
    && 0 <= s.flags < 256 && Fits16(|s.points|) && forall p :: p in s.points ==> Short(p.0) && Short(p.1)
  }

  ghost predicate FoodFits(f: PackedFood) {
    Fits32(f.id) && Short(f.x) && Short(f.y) && 0 <= f.mass < 256
  }

  ghost predicate Fits(w: Packed) {
    && Fits32(w.tick) && Fits32(w.serverTime) && Fits32(w.ackSeq)
    && Fits16(|w.snakes|) && Fits16(|w.food|) && Fits16(|w.removedSnakes|) && Fits16(|w.removedFood|)
    && (forall s :: s in w.snakes ==> SnakeFits(s)) && (forall f :: f in w.food ==> FoodFits(f))
    && (forall id :: id in w.removedFood ==> Fits32(id))
  }

  lemma PointInverts(p: (int, int))
    requires Short(p.0) && Short(p.1)
    ensures Inverts(ParsePoint, SerPoint, p)
  {
    forall b: seq<byte>, at: nat | Holds(b, at, SerPoint(p)) ensures ParsePoint(b, at) == Some((p, at + |SerPoint(p)|)) {
      HoldsParts(b, at, U16(p.0), U16(p.1));
      ReadsU16(b, at, p.0);
      ReadsU16(b, at + 2, p.1);
    }
  }

  lemma TailHeld(b: seq<byte>, at: nat, s: PackedSnake)
    requires Holds(b, at, SerTail(s)) && SnakeFits(s)
    ensures |SerTail(s)| == 9 && at + 9 <= |b|
    ensures GetU16(b, at) == s.angle && GetU16(b, at + 2) == s.mass && GetU16(b, at + 4) == s.radius
    ensures b[at + 6] == s.flags && GetU16(b, at + 7) == |s.points|
  {
    HoldsParts(b, at, U16(s.angle), U16(s.mass) + (U16(s.radius) + (U8(s.flags) + U16(|s.points|))));
    HoldsParts(b, at + 2, U16(s.mass), U16(s.radius) + (U8(s.flags) + U16(|s.points|)));
    HoldsParts(b, at + 4, U16(s.radius), U8(s.flags) + U16(|s.points|));
    HoldsParts(b, at + 6, U8(s.flags), U16(|s.points|));
    ReadsU16(b, at, s.angle);
    ReadsU16(b, at + 2, s.mass);
    ReadsU16(b, at + 4, s.radius);
    ReadsU8(b, at + 6, s.flags);
    ReadsU16(b, at + 7, |s.points|);
  }

  lemma SnakeInverts(s: PackedSnake)
    requires SnakeFits(s)
    ensures Inverts(ParseSnake, SerSnake, s)
  {
    forall b: seq<byte>, at: nat | Holds(b, at, SerSnake(s)) ensures ParseSnake(b, at) == Some((s, at + |SerSnake(s)|)) {
      SnakeHeld(b, at, s);
    }
  }

  lemma NameHeld(b: seq<byte>, at: nat, name: seq<byte>)
    requires Holds(b, at, name)
    ensures at + |name| <= |b| && b[at..at + |name|] == name
  {
  }

  lemma SnakeHeld(b: seq<byte>, at: nat, s: PackedSnake)
    requires SnakeFits(s) && Holds(b, at, SerSnake(s))
    ensures ParseSnake(b, at) == Some((s, at + |SerSnake(s)|))
  {
    hide Holds, U8, U16, SerTail, SerList, Inverts, Uuid.RawAt, GetU16, ParseList;
    var points := SerList(s.points, SerPoint);
    var n, name := |s.nickname|, at + 17;
    HoldsParts(b, at, s.id, U8(n) + (s.nickname + (SerTail(s) + points)));
    HoldsParts(b, at + 16, U8(n), s.nickname + (SerTail(s) + points));
    HoldsParts(b, name, s.nickname, SerTail(s) + points);
    HoldsParts(b, name + n, SerTail(s), points);
    Uuid.HeldRaw(b, at, s.id);
    ReadsU8(b, at + 16, n);
    TailHeld(b, name + n, s);
    forall p | p in s.points ensures Inverts(ParsePoint, SerPoint, p) { PointInverts(p); }
    NameHeld(b, name, s.nickname);
    ListInverts(b, name + n + 9, s.points, SerPoint, ParsePoint);
  }

  lemma FoodInverts(f: PackedFood)
    requires FoodFits(f)
    ensures Inverts(ParseFood, SerFood, f)
  {
    forall b: seq<byte>, at: nat | Holds(b, at, SerFood(f)) ensures ParseFood(b, at) == Some((f, at + |SerFood(f)|)) {
      HoldsParts(b, at, U32(f.id), U16(f.x) + (U16(f.y) + U8(f.mass)));
      HoldsParts(b, at + 4, U16(f.x), U16(f.y) + U8(f.mass));
      HoldsParts(b, at + 6, U16(f.y), U8(f.mass));
      ReadsU32(b, at, f.id);
      ReadsU16(b, at + 4, f.x);
      ReadsU16(b, at + 6, f.y);
      ReadsU8(b, at + 8, f.mass);
    }
  }

  lemma RawInverts(id: Uuid.Raw)
    ensures Inverts(ParseRaw, SerRaw, id)
  {
    forall b: seq<byte>, at: nat | Holds(b, at, SerRaw(id)) ensures ParseRaw(b, at) == Some((id, at + |SerRaw(id)|)) {
      Uuid.HeldRaw(b, at, id);
    }
  }

  lemma IdInverts(id: int)
    requires Fits32(id)
    ensures Inverts(ParseId, SerId, id)
  {
    forall b: seq<byte>, at: nat | Holds(b, at, SerId(id)) ensures ParseId(b, at) == Some((id, at + |SerId(id)|)) {
      ReadsU32(b, at, id);
    }
  }

  lemma HeaderHeld(b: seq<byte>, w: Packed, full: bool)
    requires Holds(b, 0, SerHeader(w, full)) && Fits(w)
    ensures b[0] == SNAPSHOT && b[1] == (if full then 1 else 0)
    ensures GetU16(b, 2) == |w.snakes| && GetU16(b, 4) == |w.food|
    ensures GetU16(b, 6) == |w.removedSnakes| && GetU16(b, 8) == |w.removedFood|
    ensures GetU32(b, 10) == w.tick && GetU32(b, 14) == w.serverTime && GetU32(b, 18) == w.ackSeq
  {
    hide Holds, U8, U16, U32, GetU16, GetU32;
    var times := U32(w.tick) + (U32(w.serverTime) + U32(w.ackSeq));
    var counts := U16(|w.snakes|) + (U16(|w.food|) + (U16(|w.removedSnakes|) + (U16(|w.removedFood|) + times)));
    HoldsParts(b, 0, U8(SNAPSHOT), U8(if full then 1 else 0) + counts);
    HoldsParts(b, 1, U8(if full then 1 else 0), counts);
    HoldsParts(b, 2, U16(|w.snakes|), U16(|w.food|) + (U16(|w.removedSnakes|) + (U16(|w.removedFood|) + times)));
    HoldsParts(b, 4, U16(|w.food|), U16(|w.removedSnakes|) + (U16(|w.removedFood|) + times));
    HoldsParts(b, 6, U16(|w.removedSnakes|), U16(|w.removedFood|) + times);
    HoldsParts(b, 8, U16(|w.removedFood|), times);
    HoldsParts(b, 10, U32(w.tick), U32(w.serverTime) + U32(w.ackSeq));
    HoldsParts(b, 14, U32(w.serverTime), U32(w.ackSeq));
    ReadsU8(b, 0, SNAPSHOT);
    ReadsU8(b, 1, if full then 1 else 0);
    ReadsU16(b, 2, |w.snakes|);
    ReadsU16(b, 4, |w.food|);
    ReadsU16(b, 6, |w.removedSnakes|);
    ReadsU16(b, 8, |w.removedFood|);
    ReadsU32(b, 10, w.tick);
    ReadsU32(b, 14, w.serverTime);
    ReadsU32(b, 18, w.ackSeq);
  }

  lemma HoldsItself(b: seq<byte>)
    ensures Holds(b, 0, b)
  {
  }

  // Parsing what was printed gives it back.
  lemma ParseInverts(w: Packed, full: bool)
    requires Fits(w)
    ensures Parse(Serialise(w, full)) == Ok(w)
  {
    var b, header := Serialise(w, full), SerHeader(w, full);
    var snakes, food := SerList(w.snakes, SerSnake), SerList(w.food, SerFood);
    var removed, ids := SerList(w.removedSnakes, SerRaw), SerList(w.removedFood, SerId);
    HoldsItself(b);
    hide Inverts, Holds, SerHeader, SerList, ParseList, ParseSnake, ParseFood, ParseRaw, ParseId;
    HoldsParts(b, 0, header, snakes + (food + (removed + ids)));
    HoldsParts(b, 22, snakes, food + (removed + ids));
    HoldsParts(b, 22 + |snakes|, food, removed + ids);
    HoldsParts(b, 22 + |snakes| + |food|, removed, ids);
    HeaderHeld(b, w, full);
    forall s | s in w.snakes ensures Inverts(ParseSnake, SerSnake, s) { SnakeInverts(s); }
    forall f | f in w.food ensures Inverts(ParseFood, SerFood, f) { FoodInverts(f); }
    forall id | id in w.removedSnakes ensures Inverts(ParseRaw, SerRaw, id) { RawInverts(id); }
    forall id | id in w.removedFood ensures Inverts(ParseId, SerId, id) { IdInverts(id); }
    ListInverts(b, 22, w.snakes, SerSnake, ParseSnake);
    ListInverts(b, 22 + |snakes|, w.food, SerFood, ParseFood);
    ListInverts(b, 22 + |snakes| + |food|, w.removedSnakes, SerRaw, ParseRaw);
    ListInverts(b, 22 + |snakes| + |food| + |removed|, w.removedFood, SerId, ParseId);
  }

  // ---- Which cuts are noticed ----------------------------------------------

  lemma PointBreaks(p: (int, int))
    ensures Breaks(ParsePoint, SerPoint, p)
  {
  }

  lemma FoodBreaks(f: PackedFood)
    ensures Breaks(ParseFood, SerFood, f)
  {
  }

  lemma IdBreaks(id: int)
    ensures Breaks(ParseId, SerId, id)
  {
  }

  lemma SnakeBreaks(s: PackedSnake)
    requires SnakeFits(s)
    ensures Breaks(ParseSnake, SerSnake, s)
  {
    forall b: seq<byte>, at: nat, n: nat | Holds(b, at, SerSnake(s)) && at <= n < at + |SerSnake(s)|
      ensures ParseSnake(b[..n], at).None? {
      SnakeCut(b, at, s, n);
    }
  }

  lemma SnakeCut(b: seq<byte>, at: nat, s: PackedSnake, n: nat)
    requires SnakeFits(s) && Holds(b, at, SerSnake(s)) && at <= n < at + |SerSnake(s)|
    ensures ParseSnake(b[..n], at).None?
  {
    hide Holds, U8, U16, SerTail, SerList, Inverts, Breaks, Uuid.RawAt, GetU16, ParseList;
    var points := SerList(s.points, SerPoint);
    var k, name := |s.nickname|, at + 17;
    HoldsParts(b, at, s.id, U8(k) + (s.nickname + (SerTail(s) + points)));
    HoldsParts(b, at + 16, U8(k), s.nickname + (SerTail(s) + points));
    HoldsParts(b, name, s.nickname, SerTail(s) + points);
    HoldsParts(b, name + k, SerTail(s), points);
    ReadsU8(b, at + 16, k);
    TailHeld(b, name + k, s);
    if n >= name + k + 9 {
      NameHeld(b, name + k + 9, points);
      HoldsCut(b, name + k, SerTail(s), n);
      TailHeld(b[..n], name + k, s);
      forall p | p in s.points ensures Inverts(ParsePoint, SerPoint, p) && Breaks(ParsePoint, SerPoint, p) {
        PointInverts(p);
        PointBreaks(p);
      }
      ListBreaks(b, name + k + 9, s.points, SerPoint, ParsePoint, n);
    }
  }

  // Where the removed snakes start.
  function FoodEnd(w: Packed): nat {
    HEADER_BYTES + |SerList(w.snakes, SerSnake)| + |SerList(w.food, SerFood)|
  }

  // The removed ids as a cut buffer shows them: bytes past the cut are zero.
  function Blanked(ids: seq<Uuid.Raw>, at: nat, n: nat): seq<Uuid.Raw> {
    seq(|ids|, i requires 0 <= i < |ids| => seq(16, j requires 0 <= j < 16 => if at + 16 * i + j < n then ids[i][j] else 0))
  }

  lemma SerialisedParts(w: Packed, full: bool)
    ensures var b, snakes, food := Serialise(w, full), SerList(w.snakes, SerSnake), SerList(w.food, SerFood);
            var removed, ids := SerList(w.removedSnakes, SerRaw), SerList(w.removedFood, SerId);
            && Holds(b, 0, SerHeader(w, full)) && Holds(b, 22, snakes) && Holds(b, 22 + |snakes|, food)
            && Holds(b, FoodEnd(w), removed) && Holds(b, FoodEnd(w) + |removed|, ids)
            && |b| == FoodEnd(w) + |removed| + |ids|
  {
    var b, header := Serialise(w, full), SerHeader(w, full);
    var snakes, food := SerList(w.snakes, SerSnake), SerList(w.food, SerFood);
    var removed, ids := SerList(w.removedSnakes, SerRaw), SerList(w.removedFood, SerId);
    HoldsItself(b);
    hide Holds, SerHeader, SerList;
    HoldsParts(b, 0, header, snakes + (food + (removed + ids)));
    HoldsParts(b, 22, snakes, food + (removed + ids));
    HoldsParts(b, 22 + |snakes|, food, removed + ids);
    HoldsParts(b, 22 + |snakes| + |food|, removed, ids);
  }

  lemma {:induction false} RawListSize(ids: seq<Uuid.Raw>)
    ensures |SerList(ids, SerRaw)| == 16 * |ids|
  {
    if ids != [] { RawListSize(ids[..|ids| - 1]); }
  }

  // Removed ids are read whatever is missing.
  lemma {:induction false} RawsCut(b: seq<byte>, at: nat, ids: seq<Uuid.Raw>, n: nat)
    requires Holds(b, at, SerList(ids, SerRaw)) && n <= |b|
    ensures ParseList(b[..n], at, |ids|, ParseRaw) == Some((Blanked(ids, at, n), at + 16 * |ids|))
    decreases |ids|
  {
    if ids == [] {
      assert Blanked(ids, at, n) == [];
    } else {
      var front, last := ids[..|ids| - 1], ids[|ids| - 1];
      HoldsParts(b, at, SerList(front, SerRaw), last);
      RawsCut(b, at, front, n);
      RawListSize(front);
      var here := at + 16 * |front|;
      Uuid.HeldRaw(b, here, last);
      assert Uuid.RawAt(b[..n], here) == Blanked(ids, at, n)[|front|] by {
        assert forall j :: 0 <= j < 16 ==> Uuid.RawAt(b, here)[j] == b[here + j];
      }
      assert Blanked(front, at, n) + [Blanked(ids, at, n)[|front|]] == Blanked(ids, at, n);
    }
  }

  // Cut anywhere, an encoded snapshot is refused exactly when the cut falls before
  // the removed snakes, or takes anything away while removed food is listed.
  // Otherwise it is read in full, with the missing bytes of removed ids as zero.
  lemma CutNoticedIff(w: Packed, full: bool, n: nat)
    requires Fits(w) && n <= |Serialise(w, full)|
    ensures Parse(Serialise(w, full)[..n]).Err? <==> n < FoodEnd(w) || (n < |Serialise(w, full)| && w.removedFood != [])
    ensures Parse(Serialise(w, full)[..n]).Ok? ==>
              Parse(Serialise(w, full)[..n]).value == w.(removedSnakes := Blanked(w.removedSnakes, FoodEnd(w), n))
  {
    var b := Serialise(w, full);
    SerialisedParts(w, full);
    RawListSize(w.removedSnakes);
    if n >= HEADER_BYTES {
      HoldsCut(b, 0, SerHeader(w, full), n);
      HeaderHeld(b[..n], w, full);
      forall s | s in w.snakes ensures Inverts(ParseSnake, SerSnake, s) && Breaks(ParseSnake, SerSnake, s) {
        SnakeInverts(s);
        SnakeBreaks(s);
      }
      forall f | f in w.food ensures Inverts(ParseFood, SerFood, f) && Breaks(ParseFood, SerFood, f) {
        FoodInverts(f);
        FoodBreaks(f);
      }
      forall id | id in w.removedFood ensures Inverts(ParseId, SerId, id) && Breaks(ParseId, SerId, id) {
        IdInverts(id);
        IdBreaks(id);
      }
      CutBody(b, w, n);
    }
  }

  lemma CutBody(b: seq<byte>, w: Packed, n: nat)
    requires HEADER_BYTES <= n <= |b|
    requires var snakes, food := SerList(w.snakes, SerSnake), SerList(w.food, SerFood);
             var removed, ids := SerList(w.removedSnakes, SerRaw), SerList(w.removedFood, SerId);
             && Holds(b, 22, snakes) && Holds(b, 22 + |snakes|, food)
             && Holds(b, FoodEnd(w), removed) && Holds(b, FoodEnd(w) + |removed|, ids)
             && |b| == FoodEnd(w) + |removed| + |ids| && |removed| == 16 * |w.removedSnakes|
    requires GetU16(b[..n], 2) == |w.snakes| && GetU16(b[..n], 4) == |w.food|
    requires GetU16(b[..n], 6) == |w.removedSnakes| && GetU16(b[..n], 8) == |w.removedFood|
    requires GetU32(b[..n], 10) == w.tick && GetU32(b[..n], 14) == w.serverTime && GetU32(b[..n], 18) == w.ackSeq
    requires forall s :: s in w.snakes ==> Inverts(ParseSnake, SerSnake, s) && Breaks(ParseSnake, SerSnake, s)
    requires forall f :: f in w.food ==> Inverts(ParseFood, SerFood, f) && Breaks(ParseFood, SerFood, f)
    requires forall id :: id in w.removedFood ==> Inverts(ParseId, SerId, id) && Breaks(ParseId, SerId, id)
    ensures ParseBody(b[..n]).None? <==> n < FoodEnd(w) || (n < |b| && w.removedFood != [])
    ensures ParseBody(b[..n]).Some? ==>
              ParseBody(b[..n]).value == w.(removedSnakes := Blanked(w.removedSnakes, FoodEnd(w), n))
  {
    hide Holds, Inverts, Breaks, ParseList, GetU16, GetU32, Blanked, ParseSnake, ParseFood, ParseRaw, ParseId;
    var at := 22 + |SerList(w.snakes, SerSnake)|;
    var tail := FoodEnd(w) + |SerList(w.removedSnakes, SerRaw)|;
    NoIds(w.removedFood);
    hide SerList;
    if n < at {
      ListBreaks(b, 22, w.snakes, SerSnake, ParseSnake, n);
    } else {
      HoldsCut(b, 22, SerList(w.snakes, SerSnake), n);
      ListInverts(b[..n], 22, w.snakes, SerSnake, ParseSnake);
      if n < FoodEnd(w) {
        ListBreaks(b, at, w.food, SerFood, ParseFood, n);
      } else {
        HoldsCut(b, at, SerList(w.food, SerFood), n);
        ListInverts(b[..n], at, w.food, SerFood, ParseFood);
        RawsCut(b, FoodEnd(w), w.removedSnakes, n);
        IdsCut(b, tail, w.removedFood, n);
      }
    }
  }

  lemma NoIds(ids: seq<int>)
    ensures SerList(ids, SerId) == [] <==> ids == []
  {
  }

  // Nothing of a list of ids can be missing, wherever the cut falls.
  lemma IdsCut(b: seq<byte>, at: nat, ids: seq<int>, n: nat)
    requires Holds(b, at, SerList(ids, SerId)) && at + |SerList(ids, SerId)| == |b| && n <= |b|
    requires forall id :: id in ids ==> Inverts(ParseId, SerId, id) && Breaks(ParseId, SerId, id)
    ensures ParseList(b[..n], at, |ids|, ParseId) == if n < |b| && ids != [] then None else Some((ids, |b|))
  {
    if ids == [] {
    } else if n == |b| {
      assert b[..n] == b;
      ListInverts(b, at, ids, SerId, ParseId);
    } else if at <= n {
      ListBreaks(b, at, ids, SerId, ParseId, n);
    } else {
      IdsPast(b[..n], at, |ids|);
    }
  }

  lemma {:induction false} IdsPast(b: seq<byte>, at: nat, count: nat)
    requires count > 0 && |b| < at
    ensures ParseList(b, at, count, ParseId).None?
  {
    if count > 1 { IdsPast(b, at, count - 1); } else { assert ParseList(b, at, 0, ParseId) == Some(([], at)); }
  }

  // ---- Between snapshots and packed form -----------------------------------

  function PackPoint(p: Point, origin: Point): (int, int) {
    (Q.PackPosition(p.x, origin.x), Q.PackPosition(p.y, origin.y))
  }

  function UnpackPoint(p: (int, int), origin: Point): Point {
    Point(Q.UnpackPosition(p.0, origin.x), Q.UnpackPosition(p.1, origin.y))
  }

  function Flags(s: SnakeState): int {
    (if s.boosting then 1 else 0) + (if s.isBot then 2 else 0)
  }

  function PackSnake(s: SnakeState, origin: Point, text: Text): PackedSnake
    requires Uuid.Valid(s.id)
  {
    PackedSnake(Uuid.ToBytes(s.id), text.encode(s.nickname), Q.PackAngle(s.angle), Q.PackMass(s.mass), Q.PackRadius(s.radius),
                Flags(s), seq(|s.points|, i requires 0 <= i < |s.points| => PackPoint(s.points[i], origin)))
  }

  function UnpackSnake(s: PackedSnake, origin: Point, text: Text): SnakeState {
    SnakeState(Uuid.FromBytes(s.id), text.decode(s.nickname),
               seq(|s.points|, i requires 0 <= i < |s.points| => UnpackPoint(s.points[i], origin)),
               Q.UnpackAngle(s.angle), s.mass as real, s.radius as real / 4.0, s.flags % 2 == 1, s.flags / 2 % 2 == 1)
  }

  function PackFood(f: FoodState, origin: Point): PackedFood {
    PackedFood(f.id, Q.PackPosition(f.position.x, origin.x), Q.PackPosition(f.position.y, origin.y), Q.PackPellet(f.mass))
  }

  // The hue is derived from the id.
  function UnpackFood(f: PackedFood, origin: Point): FoodState {
    FoodState(f.id, UnpackPoint((f.x, f.y), origin), f.mass as real, f.id % 360)
  }

  predicate IdsValid(s: Snapshot) {
    && (forall i :: 0 <= i < |s.snakes| ==> Uuid.Valid(s.snakes[i].id))
    && (forall i :: 0 <= i < |s.removedSnakes| ==> Uuid.Valid(s.removedSnakes[i]))
  }

  function Pack(s: Snapshot, origin: Point, text: Text): Packed
    requires IdsValid(s)
  {
    Packed(s.tick, s.serverTime, s.ackSeq,
           seq(|s.snakes|, i requires 0 <= i < |s.snakes| => PackSnake(s.snakes[i], origin, text)),
           seq(|s.food|, i requires 0 <= i < |s.food| => PackFood(s.food[i], origin)),
           seq(|s.removedSnakes|, i requires 0 <= i < |s.removedSnakes| => Uuid.ToBytes(s.removedSnakes[i])),
           s.removedFood)
  }

  function Unpack(w: Packed, origin: Point, text: Text): Snapshot {
    Snapshot(w.tick, w.serverTime, w.ackSeq,
             seq(|w.snakes|, i requires 0 <= i < |w.snakes| => UnpackSnake(w.snakes[i], origin, text)),
             seq(|w.food|, i requires 0 <= i < |w.food| => UnpackFood(w.food[i], origin)),
             seq(|w.removedSnakes|, i requires 0 <= i < |w.removedSnakes| => Uuid.FromBytes(w.removedSnakes[i])),
             w.removedFood)
  }

  function Decoded(b: seq<byte>, origin: Point, text: Text): Result<Snapshot, Error> {
    match Parse(b)
    case Err(e) => Err(e)
    case Ok(w) => Ok(Unpack(w, origin, text))
  }

  // ---- What survives -------------------------------------------------------

  const HALF_STEP: real := 0.5 / Q.ANGLE_SCALE

  predicate InWindow(d: real) { -8192.125 <= d <= 8191.875 }

  predicate PointFaithful(p: Point, r: Point, origin: Point) {
    && (Abs(r.x - p.x) <= 0.125 <==> InWindow(p.x - origin.x))
    && (Abs(r.y - p.y) <= 0.125 <==> InWindow(p.y - origin.y))
  }

  ghost predicate SnakeFaithful(s: SnakeState, r: SnakeState, origin: Point) {
    && r.id == Uuid.LowerAll(s.id) && r.nickname == s.nickname && r.boosting == s.boosting && r.isBot == s.isBot
    && Abs(r.angle - Q.Normalise(s.angle)) <= HALF_STEP
    && (s.mass <= 65535.5 ==> Abs(r.mass - s.mass) <= 0.5)
    && (s.radius <= 16383.875 ==> Abs(r.radius - s.radius) <= 0.125)
    && |r.points| == |s.points| && forall i :: 0 <= i < |s.points| ==> PointFaithful(s.points[i], r.points[i], origin)
  }

  ghost predicate FoodFaithful(f: FoodState, r: FoodState, origin: Point) {
    && r.id == f.id && r.hue == f.id % 360 && PointFaithful(f.position, r.position, origin)
    && (f.mass <= 255.5 ==> Abs(r.mass - f.mass) <= 0.5)
  }

  ghost predicate Faithful(s: Snapshot, r: Snapshot, origin: Point) {
    && r.tick == s.tick && r.serverTime == s.serverTime && r.ackSeq == s.ackSeq
    && |r.snakes| == |s.snakes| && (forall i :: 0 <= i < |s.snakes| ==> SnakeFaithful(s.snakes[i], r.snakes[i], origin))
    && |r.food| == |s.food| && (forall i :: 0 <= i < |s.food| ==> FoodFaithful(s.food[i], r.food[i], origin))
    && |r.removedSnakes| == |s.removedSnakes|
    && (forall i :: 0 <= i < |s.removedSnakes| ==> r.removedSnakes[i] == Uuid.LowerAll(s.removedSnakes[i]))
    && r.removedFood == s.removedFood
  }

  ghost predicate SnakeSendable(s: SnakeState, text: Text) {
    && Uuid.Valid(s.id) && |text.encode(s.nickname)| < 256 && text.decode(text.encode(s.nickname)) == s.nickname
    && Fits16(|s.points|) && s.mass >= 0.0 && s.radius >= 0.0
  }

  // What the fields' widths can carry.
  ghost predicate Sendable(s: Snapshot, text: Text) {
    && Fits32(s.tick) && Fits32(s.serverTime) && Fits32(s.ackSeq) && IdsValid(s)
    && Fits16(|s.snakes|) && Fits16(|s.food|) && Fits16(|s.removedSnakes|) && Fits16(|s.removedFood|)
    && (forall i :: 0 <= i < |s.snakes| ==> SnakeSendable(s.snakes[i], text))
    && (forall i :: 0 <= i < |s.food| ==> Fits32(s.food[i].id) && s.food[i].mass >= 0.0)
    && (forall i :: 0 <= i < |s.removedFood| ==> Fits32(s.removedFood[i]))
  }

  lemma SnakePacks(s: SnakeState, origin: Point, text: Text)
    requires SnakeSendable(s, text)
    ensures SnakeFits(PackSnake(s, origin, text))
    ensures SnakeFaithful(s, UnpackSnake(PackSnake(s, origin, text), origin, text), origin)
  {
    Q.AngleFits(s.angle);
    Q.MassClose(s.mass);
    Q.MassClose(s.radius);
    Uuid.RoundTrip(s.id);
    hide Uuid.Valid, Uuid.FromBytes, Uuid.LowerAll, Q.Normalise, Q.PackAngle, Q.PackPosition, Q.UnpackPosition, InWindow;
    forall i | 0 <= i < |s.points| ensures PointFaithful(s.points[i], UnpackPoint(PackPoint(s.points[i], origin), origin), origin)
                                        && Short(PackPoint(s.points[i], origin).0) && Short(PackPoint(s.points[i], origin).1) {
      PointPacks(s.points[i], origin);
    }
  }

  lemma PointPacks(p: Point, origin: Point)
    ensures PointFaithful(p, UnpackPoint(PackPoint(p, origin), origin), origin)
    ensures Short(PackPoint(p, origin).0) && Short(PackPoint(p, origin).1)
  {
    Q.PositionCloseIff(p.x, origin.x);
    Q.PositionCloseIff(p.y, origin.y);
  }

  lemma FoodPacks(f: FoodState, origin: Point)
    requires Fits32(f.id) && f.mass >= 0.0
    ensures FoodFits(PackFood(f, origin)) && FoodFaithful(f, UnpackFood(PackFood(f, origin), origin), origin)
  {
    PointPacks(f.position, origin);
    Q.PelletClose(f.mass);
  }

  lemma PackFits(s: Snapshot, origin: Point, text: Text)
    requires Sendable(s, text)
    ensures Fits(Pack(s, origin, text))
  {
    var w := Pack(s, origin, text);
    forall i | 0 <= i < |s.snakes| ensures SnakeFits(w.snakes[i]) { SnakePacks(s.snakes[i], origin, text); }
    forall i | 0 <= i < |s.food| ensures FoodFits(w.food[i]) { FoodPacks(s.food[i], origin); }
    hide PackSnake, PackFood, SnakeFits, FoodFits, SnakeSendable, Uuid.ToBytes, Uuid.Valid;
  }

  lemma PackFaithful(s: Snapshot, origin: Point, text: Text)
    requires Sendable(s, text)
    ensures Faithful(s, Unpack(Pack(s, origin, text), origin, text), origin)
  {
    var w := Pack(s, origin, text);
    forall i | 0 <= i < |s.snakes| ensures SnakeFaithful(s.snakes[i], UnpackSnake(w.snakes[i], origin, text), origin) {
      SnakePacks(s.snakes[i], origin, text);
    }
    forall i | 0 <= i < |s.food| ensures FoodFaithful(s.food[i], UnpackFood(w.food[i], origin), origin) {
      FoodPacks(s.food[i], origin);
    }
    forall i | 0 <= i < |s.removedSnakes| ensures Uuid.FromBytes(w.removedSnakes[i]) == Uuid.LowerAll(s.removedSnakes[i]) {
      Uuid.RoundTrip(s.removedSnakes[i]);
    }
    hide PackSnake, UnpackSnake, PackFood, UnpackFood, SnakeFaithful, FoodFaithful, SnakeSendable,
      Uuid.FromBytes, Uuid.ToBytes, Uuid.LowerAll, Uuid.Valid;
  }

  // With the same origin at both ends, decoding recovers the snapshot up to the
  // stated quantisation.
  lemma RoundTrip(s: Snapshot, origin: Point, full: bool, text: Text)
    requires Sendable(s, text)
    ensures Decoded(Serialise(Pack(s, origin, text), full), origin, text).Ok?
    ensures Faithful(s, Decoded(Serialise(Pack(s, origin, text), full), origin, text).value, origin)
  {
    var w := Pack(s, origin, text);
    PackFits(s, origin, text);
    PackFaithful(s, origin, text);
    hide Pack, Unpack, Serialise, Parse, Fits, Faithful, Sendable;
    ParseInverts(w, full);
  }
}
