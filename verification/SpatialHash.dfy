// The uniform-grid broad phase. Coordinates are reals.
module SpatialHash {
  import opened Geometry

  const BIAS: int := 32768
  const WORD: int := 0x1_0000_0000

  function Pow2(k: nat): (p: nat)
    ensures p >= 1
  {
    if k == 0 then 1 else 2 * Pow2(k - 1)
  }

  // Bitwise or of the lowest `bits` bits.
  function Or(a: nat, b: nat, bits: nat): nat {
    if bits == 0 then 0
    else 2 * Or(a / 2, b / 2, bits - 1) + (if a % 2 == 1 || b % 2 == 1 then 1 else 0)
  }

  // Both operands wrap to 32 bits first; the result is the 32-bit pattern.
  function CellKey(cx: int, cy: int): nat {
    Or(((cx + BIAS) * 65536) % WORD, (cy + BIAS) % WORD, 32)
  }

  function CellOf(value: real, cellSize: real): int
    requires cellSize > 0.0
  {
    (value / cellSize).Floor
  }

  predicate InWindow(c: int) {
    -BIAS <= c < BIAS
  }

  lemma {:induction false} OrPacks(high: nat, low: nat, k: nat, bits: nat)
    requires low < Pow2(k) && high * Pow2(k) + low < Pow2(bits)
    ensures Or(high * Pow2(k), low, bits) == high * Pow2(k) + low
  {
    var a := high * Pow2(k);
    if bits > 0 {
      if k == 0 {
        OrPacks(high / 2, 0, 0, bits - 1);
        assert a == high && high / 2 * Pow2(0) == high / 2;
      } else {
        var half := high * Pow2(k - 1);
        Halves(high, Pow2(k - 1));
        assert Pow2(k) == 2 * Pow2(k - 1) && Pow2(bits) == 2 * Pow2(bits - 1);
        OrPacks(high, low / 2, k - 1, bits - 1);
        assert Or(a, low, bits) == 2 * Or(a / 2, low / 2, bits - 1) + (if a % 2 == 1 || low % 2 == 1 then 1 else 0);
      }
    }
  }

  lemma Halves(high: nat, p: nat)
    ensures high * (2 * p) == 2 * (high * p) && high * (2 * p) / 2 == high * p && high * (2 * p) % 2 == 0
  {
    assert high * (2 * p) == 2 * (high * p);
  }

  lemma Pow2Doubles(a: nat, b: nat)
    ensures Pow2(a + b) == Pow2(a) * Pow2(b)
  {
    if a > 0 { Pow2Doubles(a - 1, b); }
  }

  lemma Pow2Word()
    ensures Pow2(16) == 65536 && Pow2(32) == WORD
  {
    assert Pow2(4) == 16;
    Pow2Doubles(4, 4);
    Pow2Doubles(8, 8);
    Pow2Doubles(16, 16);
  }

  lemma KeyPacks(cx: int, cy: int)
    requires InWindow(cx) && InWindow(cy)
    ensures CellKey(cx, cy) == (cx + BIAS) * 65536 + (cy + BIAS)
  {
    hide Pow2, Or;
    Pow2Word();
    var high, low := cx + BIAS, cy + BIAS;
    assert (high * 65536) % WORD == high * 65536 && low % WORD == low;
    OrPacks(high, low, 16, 32);
  }

  // Inside the 16-bit window no two cells share a key.
  lemma CellKeyInjective(cx: int, cy: int, dx: int, dy: int)
    requires InWindow(cx) && InWindow(cy) && InWindow(dx) && InWindow(dy)
    ensures CellKey(cx, cy) == CellKey(dx, dy) <==> cx == dx && cy == dy
  {
    hide CellKey;
    KeyPacks(cx, cy);
    KeyPacks(dx, dy);
  }

  // One cell past the window wraps onto a cell inside it.
  lemma KeysCollideOutside()
    ensures CellKey(BIAS, 0) == CellKey(-BIAS, 0)
  {
    hide Or, Pow2;
    assert ((BIAS + BIAS) * 65536) % WORD == ((-BIAS + BIAS) * 65536) % WORD;
  }

  lemma CellMonotone(v: real, w: real, cellSize: real)
    requires cellSize > 0.0 && v <= w
    ensures CellOf(v, cellSize) <= CellOf(w, cellSize)
  {
    assert v / cellSize <= w / cellSize;
  }

  function KeyAt(x: real, y: real, cellSize: real): nat
    requires cellSize > 0.0
  {
    CellKey(CellOf(x, cellSize), CellOf(y, cellSize))
  }

  // The contents of a bucket, an absent one being empty.
  function Bucket(buckets: map<int, seq<EntityId>>, k: int): seq<EntityId> {
    if k in buckets then buckets[k] else []
  }

  // Whether an id lies in a cell of the half-open block.
  ghost predicate InBlock(buckets: map<int, seq<EntityId>>, id: EntityId, x0: int, x1: int, y0: int, y1: int) {
    exists cx: int, cy: int :: x0 <= cx < x1 && y0 <= cy < y1 && id in Bucket(buckets, CellKey(cx, cy))
  }

  function IndexIn(bucket: seq<EntityId>, id: EntityId): (i: nat)
    ensures i <= |bucket|
    ensures i < |bucket| ==> bucket[i] == id
    ensures id in bucket ==> i < |bucket|
  {
    if bucket == [] then 0 else if bucket[0] == id then 0 else 1 + IndexIn(bucket[1..], id)
  }

  // Pop the last element and drop it into the freed slot.
  function SwapRemoved(bucket: seq<EntityId>, i: nat): seq<EntityId>
    requires i < |bucket|
  {
    var rest := bucket[..|bucket| - 1];
    if i < |rest| then rest[i := bucket[|bucket| - 1]] else rest
  }

  lemma SwapRemovedBag(bucket: seq<EntityId>, i: nat)
    requires i < |bucket|
    ensures multiset(SwapRemoved(bucket, i)) == multiset(bucket) - multiset{bucket[i]}
  {
    var last := bucket[|bucket| - 1];
    var rest := bucket[..|bucket| - 1];
    assert bucket == rest + [last];
    if i < |rest| {
      assert rest == rest[..i] + [rest[i]] + rest[i + 1..];
      assert rest[i := last] == rest[..i] + [last] + rest[i + 1..];
    }
  }

  // A bucket replaced; an emptied one is deleted.
  function WithBucket(buckets: map<int, seq<EntityId>>, key: int, bucket: seq<EntityId>): (r: map<int, seq<EntityId>>)
    ensures forall k :: Bucket(r, k) == if k == key then bucket else Bucket(buckets, k)
  {
    if bucket == [] then buckets - {key} else buckets[key := bucket]
  }

  // The map after a removal.
  function Removed(buckets: map<int, seq<EntityId>>, key: int, id: EntityId): map<int, seq<EntityId>> {
    var bucket := Bucket(buckets, key);
    var i := IndexIn(bucket, id);
    if i == |bucket| then buckets else WithBucket(buckets, key, SwapRemoved(bucket, i))
  }

  lemma RemovedOne(buckets: map<int, seq<EntityId>>, key: int, id: EntityId, k: int)
    ensures Bag(Removed(buckets, key, id), k) == if k == key then Bag(buckets, k) - multiset{id} else Bag(buckets, k)
  {
    var bucket := Bucket(buckets, key);
    var i := IndexIn(bucket, id);
    hide IndexIn, Bucket, WithBucket;
    if i == |bucket| { assert id !in multiset(bucket); } else { SwapRemovedBag(bucket, i); }
  }

  // How often each id lies in the bucket with this key.
  ghost function Bag(buckets: map<int, seq<EntityId>>, k: int): multiset<EntityId> {
    multiset(Bucket(buckets, k))
  }

  ghost predicate Added(before: map<int, seq<EntityId>>, after: map<int, seq<EntityId>>, key: int, id: EntityId) {
    forall k :: Bag(after, k) == if k == key then Bag(before, k) + multiset{id} else Bag(before, k)
  }

  // One occurrence fewer under the key, if there was one; nothing else moves.
  ghost predicate Dropped(before: map<int, seq<EntityId>>, after: map<int, seq<EntityId>>, key: int, id: EntityId) {
    forall k :: Bag(after, k) == if k == key then Bag(before, k) - multiset{id} else Bag(before, k)
  }

  class Hash {
    const cellSize: real
    var buckets: map<int, seq<EntityId>>

    ghost predicate Valid()
      reads this
    {
      cellSize > 0.0 && forall k :: k in buckets ==> buckets[k] != []
    }

    constructor (cellSize: real)
      requires cellSize > 0.0
      ensures Valid() && this.cellSize == cellSize && buckets == map[]
    {
      this.cellSize := cellSize;
      buckets := map[];
    }

    method Insert(id: EntityId, x: real, y: real)
      requires Valid()
      modifies this`buckets
      ensures Valid()
      ensures Added(old(buckets), buckets, KeyAt(x, y, cellSize), id)
    {
      var key := CellKey(CellOf(x, cellSize), CellOf(y, cellSize));
      if key in buckets { buckets := buckets[key := buckets[key] + [id]]; }
      else { buckets := buckets[key := [id]]; }
      assert Bucket(buckets, key) == old(Bucket(buckets, key)) + [id];
    }

    method Remove(id: EntityId, x: real, y: real)
      requires Valid()
      modifies this`buckets
      ensures Valid()
      ensures Dropped(old(buckets), buckets, KeyAt(x, y, cellSize), id)
    {
      var key := CellKey(CellOf(x, cellSize), CellOf(y, cellSize));
      ghost var was := buckets;
      forall k { RemovedOne(was, key, id, k); }
      hide CellKey, CellOf, IndexIn;
      if key !in buckets {
        assert Removed(was, key, id) == was;
        return;
      }
      var bucket := buckets[key];
      var i := IndexIn(bucket, id);
      if i == |bucket| {
        assert Removed(was, key, id) == was;
        return;
      }
      var rest := bucket[..|bucket| - 1];
      if i < |rest| { rest := rest[i := bucket[|bucket| - 1]]; }
      if rest == [] { buckets := buckets - {key}; }
      else { buckets := buckets[key := rest]; }
      assert buckets == Removed(was, key, id);
    }

    // Candidates: exactly the ids of the cells that the circle's box overlaps.
    method QueryCircle(x: real, y: real, radius: real) returns (out: seq<EntityId>)
      requires Valid()
      ensures forall id :: id in out <==>
                InBlock(buckets, id, CellOf(x - radius, cellSize), CellOf(x + radius, cellSize) + 1,
                                     CellOf(y - radius, cellSize), CellOf(y + radius, cellSize) + 1)
    {
      out := [];
      var minCellX, maxCellX := CellOf(x - radius, cellSize), CellOf(x + radius, cellSize);
      var minCellY, maxCellY := CellOf(y - radius, cellSize), CellOf(y + radius, cellSize);
      var cx := minCellX;
      while cx <= maxCellX
        invariant minCellX <= cx && (cx <= maxCellX + 1 || cx == minCellX)
        invariant forall id :: id in out <==> InBlock(buckets, id, minCellX, cx, minCellY, maxCellY + 1)
      {
        ghost var before := out;
        var cy := minCellY;
        while cy <= maxCellY
          invariant minCellY <= cy && (cy <= maxCellY + 1 || cy == minCellY)
          invariant forall id :: id in out <==> id in before || InBlock(buckets, id, cx, cx + 1, minCellY, cy)
        {
          ghost var prior := out;
          var key := CellKey(cx, cy);
          if key in buckets { out := out + buckets[key]; }
          forall id ensures id in out <==> id in before || InBlock(buckets, id, cx, cx + 1, minCellY, cy + 1) {
            assert id in out <==> id in prior || id in Bucket(buckets, CellKey(cx, cy));
            BlockGrowsY(buckets, id, cx, minCellY, cy);
          }
          cy := cy + 1;
        }
        forall id ensures id in out <==> InBlock(buckets, id, minCellX, cx + 1, minCellY, maxCellY + 1) {
          if cy != maxCellY + 1 { BlockEmpty(buckets, id, cx, cx + 1, minCellY, maxCellY + 1); }
          BlockGrowsX(buckets, id, minCellX, cx, minCellY, maxCellY + 1);
        }
        cx := cx + 1;
      }
      if cx != maxCellX + 1 {
        forall id: EntityId ensures id !in out && !InBlock(buckets, id, minCellX, maxCellX + 1, minCellY, maxCellY + 1) {
          BlockEmpty(buckets, id, minCellX, cx, minCellY, maxCellY + 1);
          BlockEmpty(buckets, id, minCellX, maxCellX + 1, minCellY, maxCellY + 1);
        }
      }
    }

    method Clear()
      modifies this`buckets
      ensures buckets == map[]
      ensures cellSize > 0.0 ==> Valid()
    {
      buckets := map[];
    }
  }

  lemma BlockEmpty(buckets: map<int, seq<EntityId>>, id: EntityId, x0: int, x1: int, y0: int, y1: int)
    requires x1 <= x0 || y1 <= y0
    ensures !InBlock(buckets, id, x0, x1, y0, y1)
  {
  }

  lemma BlockGrowsY(buckets: map<int, seq<EntityId>>, id: EntityId, cx: int, y0: int, cy: int)
    requires y0 <= cy
    ensures InBlock(buckets, id, cx, cx + 1, y0, cy + 1) <==>
              InBlock(buckets, id, cx, cx + 1, y0, cy) || id in Bucket(buckets, CellKey(cx, cy))
  {
    hide Bucket, CellKey;
    if InBlock(buckets, id, cx, cx + 1, y0, cy + 1) {
      var x: int, y: int :| cx <= x < cx + 1 && y0 <= y < cy + 1 && id in Bucket(buckets, CellKey(x, y));
      assert x == cx;
    }
  }

  lemma BlockGrowsX(buckets: map<int, seq<EntityId>>, id: EntityId, x0: int, cx: int, y0: int, y1: int)
    requires x0 <= cx
    ensures InBlock(buckets, id, x0, cx + 1, y0, y1) <==>
              InBlock(buckets, id, x0, cx, y0, y1) || InBlock(buckets, id, cx, cx + 1, y0, y1)
  {
    hide Bucket, CellKey;
    if InBlock(buckets, id, x0, cx + 1, y0, y1) {
      var x: int, y: int :| x0 <= x < cx + 1 && y0 <= y < y1 && id in Bucket(buckets, CellKey(x, y));
      if x < cx { assert InBlock(buckets, id, x0, cx, y0, y1); } else { assert InBlock(buckets, id, cx, cx + 1, y0, y1); }
    }
  }

  // ---- Why the broad phase misses nothing in reach -------------------------

  // The cells a query visits.
  predicate Visited(p: Point, q: Point, radius: real, cellSize: real)
    requires cellSize > 0.0
  {
    && CellOf(q.x - radius, cellSize) <= CellOf(p.x, cellSize) <= CellOf(q.x + radius, cellSize)
    && CellOf(q.y - radius, cellSize) <= CellOf(p.y, cellSize) <= CellOf(q.y + radius, cellSize)
  }

  lemma ReachedIsVisited(p: Point, q: Point, reach: real, radius: real, cellSize: real)
    requires cellSize > 0.0 && reach <= radius && Within(p, q, reach)
    ensures Visited(p, q, radius, cellSize)
  {
    InBox(p, q, reach);
    CellMonotone(q.x - radius, p.x, cellSize);
    CellMonotone(p.x, q.x + radius, cellSize);
    CellMonotone(q.y - radius, p.y, cellSize);
    CellMonotone(p.y, q.y + radius, cellSize);
  }

  lemma QuotientRange(q: real, c: real, product: real)
    requires c > 0.0 && product == q * c && -c <= product < 0.0
    ensures -1.0 <= q < 0.0
  {
    var over := q + 1.0;
    assert over * c == q * c + c;
  }

  lemma JustBelowZero(d: real, cellSize: real)
    requires 0.0 < d <= cellSize
    ensures CellOf(-d, cellSize) == -1
  {
    var q := -d / cellSize;
    assert q * cellSize == -d;
    QuotientRange(q, cellSize, -d);
  }

  // Past the queried radius the grid misses points, whatever the cell size.
  lemma MissesBeyond(reach: real, radius: real, cellSize: real) returns (p: Point, q: Point)
    requires cellSize > 0.0 && 0.0 <= radius < reach
    ensures Within(p, q, reach) && !Visited(p, q, radius, cellSize)
  {
    var step := if reach - radius < cellSize then reach - radius else cellSize;
    p, q := Point(0.0, 0.0), Point(-(radius + step), 0.0);
    var d := radius + step;
    if d < reach { SquaresGrow(d, reach); }
    assert Square(p.x - q.x) == d * d && Square(p.y - q.y) == 0.0;
    JustBelowZero(step, cellSize);
    assert CellOf(p.x, cellSize) == 0 && CellOf(q.x + radius, cellSize) == -1;
  }

  // A query of one radius serves a wider test exactly when it is not wider.
  lemma QueryServesIff(reach: real, radius: real, cellSize: real)
    requires cellSize > 0.0 && radius >= 0.0 && reach >= 0.0
    ensures (forall p: Point, q: Point :: Within(p, q, reach) ==> Visited(p, q, radius, cellSize)) <==> reach <= radius
  {
    hide Within, Visited;
    if reach <= radius {
      forall p: Point, q: Point | Within(p, q, reach) ensures Visited(p, q, radius, cellSize) {
        ReachedIsVisited(p, q, reach, radius, cellSize);
      }
    } else {
      var p, q := MissesBeyond(reach, radius, cellSize);
    }
  }

  // An id filed under a visited cell is a candidate, whatever keys collide.
  lemma VisitedIsCandidate(buckets: map<int, seq<EntityId>>, id: EntityId, p: Point, q: Point, radius: real, cellSize: real)
    requires cellSize > 0.0 && Visited(p, q, radius, cellSize)
    requires id in Bucket(buckets, KeyAt(p.x, p.y, cellSize))
    ensures InBlock(buckets, id, CellOf(q.x - radius, cellSize), CellOf(q.x + radius, cellSize) + 1,
                                 CellOf(q.y - radius, cellSize), CellOf(q.y + radius, cellSize) + 1)
  {
    hide Bucket, CellKey, CellOf;
    assert id in Bucket(buckets, CellKey(CellOf(p.x, cellSize), CellOf(p.y, cellSize)));
  }
}
