// The ring buffer of spine points against a plain head-first sequence.
module Spine {
  import opened Geometry
  import opened Numbers
  import opened Snakes

  function Capacity(mass: real): int {
    var grown := LengthForMass(mass);
    if grown < SPINE_CAPACITY then grown else SPINE_CAPACITY
  }

  // ---- The plain account ---------------------------------------------------

  datatype Body = Body(spine: seq<Point>, mass: real)

  datatype Change = Push(p: Point) | Slide(p: Point) | Resize(mass: real)

  function Clipped(spine: seq<Point>, n: int): seq<Point> {
    if 0 <= n < |spine| then spine[..n] else spine
  }

  function Applied(b: Body, c: Change): Body {
    match c
    case Push(p) => b.(spine := Clipped([p] + b.spine, Capacity(b.mass)))
    case Slide(p) => if b.spine == [] then b else b.(spine := b.spine[0 := p])
    case Resize(mass) => Body(Clipped(b.spine, Capacity(Max(1.0, mass))), Max(1.0, mass))
  }

  ghost predicate Sized(b: Body) {
    b.mass >= 1.0 && 1 <= |b.spine| <= LengthForMass(b.mass) <= 400
  }

  function Run(b: Body, changes: seq<Change>): Body {
    if changes == [] then b else Applied(Run(b, changes[..|changes| - 1]), changes[|changes| - 1])
  }

  // The head's recorded track: a push adds to it, a slide corrects its newest point.
  function Track(track: seq<Point>, changes: seq<Change>): seq<Point> {
    if changes == [] then track
    else
      var before := Track(track, changes[..|changes| - 1]);
      match changes[|changes| - 1]
      case Push(p) => [p] + before
      case Slide(p) => if before == [] then before else before[0 := p]
      case Resize(_) => before
  }

  lemma AppliedSized(b: Body, c: Change)
    requires Sized(b)
    ensures Sized(Applied(b, c))
  {
    LengthBounds(b.mass);
    if c.Resize? { LengthBounds(Max(1.0, c.mass)); }
  }

  // Over any run the length stays within what the mass allows, and the body is
  // the newest stretch of the track: no stale point ever reappears.
  lemma {:induction false} RunFollowsTrack(b: Body, changes: seq<Change>)
    requires Sized(b)
    ensures Sized(Run(b, changes)) && Run(b, changes).spine <= Track(b.spine, changes)
  {
    if changes != [] {
      var before := changes[..|changes| - 1];
      RunFollowsTrack(b, before);
      hide Run, Track;
      AppliedSized(Run(b, before), changes[|changes| - 1]);
    }
  }

  // ---- The ring ------------------------------------------------------------

  function Slot(head: int, offset: int): (i: int)
    ensures 0 <= i < SPINE_CAPACITY
  {
    (head - offset + SPINE_CAPACITY) % SPINE_CAPACITY
  }

  // Offsets below the capacity never share a slot, so no write lands on a live point.
  lemma SlotsDistinct(head: nat, j: nat, k: nat)
    requires head < SPINE_CAPACITY && j < k < SPINE_CAPACITY
    ensures Slot(head, j) != Slot(head, k)
  {
  }

  lemma SlotsShift(head: nat, k: nat)
    requires head < SPINE_CAPACITY && 1 <= k < SPINE_CAPACITY
    ensures Slot((head + 1) % SPINE_CAPACITY, k) == Slot(head, k - 1)
    ensures Slot((head + 1) % SPINE_CAPACITY, 0) == (head + 1) % SPINE_CAPACITY
  {
  }

  function Trail(position: Point, direction: Point, k: int): Point {
    Point(position.x - direction.x * SEGMENT_SPACING * k as real, position.y - direction.y * SEGMENT_SPACING * k as real)
  }

  class Ring {
    const points: array<real>
    var headIndex: nat
    var length: nat
    var mass: real
    var sinceLastPoint: real

    ghost predicate Valid()
      reads this
    {
      && points.Length == 2 * SPINE_CAPACITY && headIndex < SPINE_CAPACITY
      && mass >= 1.0 && 1 <= length <= LengthForMass(mass) <= 400
    }

    ghost function At(offset: int): Point
      requires Valid()
      reads this, points
    {
      var i := Slot(headIndex, offset);
      Point(points[2 * i], points[2 * i + 1])
    }

    ghost function View(): (b: Body)
      requires Valid()
      reads this, points
      ensures |b.spine| == length && b.mass == mass && Sized(b)
      ensures forall k :: 0 <= k < length ==> b.spine[k] == At(k)
    {
      Body(seq(length, k requires 0 <= k < length reads this, points requires Valid() => At(k)), mass)
    }

    // A fresh snake trails straight behind its head.
    constructor (position: Point, direction: Point)
      ensures Valid() && fresh(points) && mass == STARTING_MASS && sinceLastPoint == 0.0 && length == 15
      ensures forall k :: 0 <= k < length ==> View().spine[k] == Trail(position, direction, k)
    {
      points := new real[2 * SPINE_CAPACITY];
      headIndex, mass, sinceLastPoint := 0, STARTING_MASS, 0.0;
      length := LengthForMass(STARTING_MASS);
      new;
      assert Trail(position, direction, 0) == position;
      points[0], points[1] := position.x, position.y;
      var initial := LengthForMass(STARTING_MASS);
      var i := 1;
      while i < initial
        invariant 1 <= i <= 15 && Valid() && headIndex == 0 && length == 15 && mass == STARTING_MASS && sinceLastPoint == 0.0
        invariant forall k :: 0 <= k < i ==> At(k) == Trail(position, direction, k)
      {
        var index := (headIndex - i + SPINE_CAPACITY) % SPINE_CAPACITY;
        assert index == Slot(headIndex, i);
        forall k: nat | k < i ensures Slot(headIndex, k) != index { SlotsDistinct(headIndex, k, i); }
        var p := Trail(position, direction, i);
        hide Trail, Slot;
        points[index * 2] := p.x;
        points[index * 2 + 1] := p.y;
        i := i + 1;
      }
    }

    method PointAt(offset: int) returns (p: Point)
      requires Valid()
      ensures p == View().spine[if offset < 0 then 0 else if offset < length then offset else length - 1]
    {
      var clamped := if offset < 0 then 0 else offset;
      clamped := if clamped < length - 1 then clamped else length - 1;
      var index := (headIndex - clamped + SPINE_CAPACITY) % SPINE_CAPACITY;
      p := Point(points[index * 2], points[index * 2 + 1]);
      assert p == At(clamped);
    }

    method PushPoint(x: real, y: real)
      requires Valid()
      modifies this`headIndex, this`length, points
      ensures Valid() && View() == Applied(old(View()), Push(Point(x, y)))
    {
      ghost var before, head := View(), headIndex;
      headIndex := (headIndex + 1) % SPINE_CAPACITY;
      forall k: nat | 1 <= k < SPINE_CAPACITY ensures Slot(headIndex, k) == Slot(head, k - 1) != headIndex == Slot(headIndex, 0) {
        SlotsShift(head, k);
        SlotsDistinct(headIndex, 0, k);
      }
      hide Slot;
      points[headIndex * 2] := x;
      points[headIndex * 2 + 1] := y;
      var capacity := Capacity(mass);
      length := if length + 1 < capacity then length + 1 else capacity;
      forall k: nat | k < length ensures At(k) == ([Point(x, y)] + before.spine)[k] {
        if k > 0 { assert before.spine[k - 1] == old(At(k - 1)); }
      }
      assert View().spine == Clipped([Point(x, y)] + before.spine, capacity);
    }

    method SlideHead(x: real, y: real)
      requires Valid()
      modifies points
      ensures Valid() && View() == Applied(old(View()), Slide(Point(x, y)))
    {
      forall k: nat | 1 <= k < length ensures Slot(headIndex, k) != headIndex == Slot(headIndex, 0) {
        SlotsDistinct(headIndex, 0, k);
      }
      points[headIndex * 2] := x;
      points[headIndex * 2 + 1] := y;
      assert View().spine == old(View()).spine[0 := Point(x, y)];
    }

    method SetMass(m: real)
      requires Valid()
      modifies this`mass, this`length
      ensures Valid() && View() == Applied(old(View()), Resize(m))
    {
      LengthBounds(Max(1.0, m));
      mass := Max(1.0, m);
      var capacity := Capacity(mass);
      if length > capacity { length := capacity; }
      assert View().spine == Clipped(old(View()).spine, capacity);
    }

    // Between recorded points the head slides; the remainder carries over.
    method Advance(x: real, y: real, distance: real)
      requires Valid()
      modifies this`headIndex, this`length, this`sinceLastPoint, points
      ensures Valid()
      ensures var travelled := old(sinceLastPoint) + distance;
              if travelled >= SEGMENT_SPACING then
                sinceLastPoint == travelled - SEGMENT_SPACING && View() == Applied(old(View()), Push(Point(x, y)))
              else sinceLastPoint == travelled && View() == Applied(old(View()), Slide(Point(x, y)))
    {
      sinceLastPoint := sinceLastPoint + distance;
      if sinceLastPoint >= SEGMENT_SPACING {
        sinceLastPoint := sinceLastPoint - SEGMENT_SPACING;
        PushPoint(x, y);
      } else {
        SlideHead(x, y);
      }
    }
  }
}
