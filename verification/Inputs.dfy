// Draining a snake's queued commands.
module Inputs {
  import opened Snakes

  function Obey(s: Snake, c: Command): Snake {
    if c.seqNo > s.lastAckSeq then s.(targetAngle := c.angle, boosting := c.boost, lastAckSeq := c.seqNo) else s
  }

  // The commands in arrival order.
  function Drained(s: Snake, queue: seq<Command>): Snake {
    if queue == [] then s else Obey(Drained(s, queue[..|queue| - 1]), queue[|queue| - 1])
  }

  ghost predicate DistinctSeqs(queue: seq<Command>) {
    forall i, j :: 0 <= i < j < |queue| ==> queue[i].seqNo != queue[j].seqNo
  }

  // The first command carrying the highest sequence number, at its place.
  ghost predicate NewestAt(queue: seq<Command>, c: Command, i: nat) {
    && i < |queue| && queue[i] == c
    && (forall j :: 0 <= j < i ==> queue[j].seqNo < c.seqNo)
    && (forall j :: i < j < |queue| ==> queue[j].seqNo <= c.seqNo)
  }

  ghost predicate Newest(queue: seq<Command>, c: Command) {
    exists i :: NewestAt(queue, c, i)
  }

  lemma {:induction false} NewestExists(queue: seq<Command>) returns (c: Command, i: nat)
    requires queue != []
    ensures NewestAt(queue, c, i)
  {
    var rest, last := queue[..|queue| - 1], queue[|queue| - 1];
    if rest == [] {
      c, i := last, 0;
    } else {
      c, i := NewestExists(rest);
      assert forall j :: 0 <= j < |rest| ==> queue[j] == rest[j];
      if last.seqNo > c.seqNo { c, i := last, |rest|; }
    }
  }

  lemma {:induction false} DrainAt(s: Snake, queue: seq<Command>, c: Command, i: nat)
    requires NewestAt(queue, c, i)
    ensures Drained(s, queue) == Obey(s, c)
  {
    var rest := queue[..|queue| - 1];
    if i < |rest| {
      assert NewestAt(rest, c, i);
      DrainAt(s, rest, c, i);
    } else if rest != [] {
      var prior, k := NewestExists(rest);
      DrainAt(s, rest, prior, k);
      assert queue[k] == prior;
    }
  }

  // Only the newest command decides, and only if it is newer than the last one acknowledged.
  lemma DrainIsNewest(s: Snake, queue: seq<Command>, c: Command)
    requires Newest(queue, c)
    ensures Drained(s, queue) == Obey(s, c)
  {
    var i :| NewestAt(queue, c, i);
    DrainAt(s, queue, c, i);
  }

  // Arrival order does not matter when sequence numbers are distinct.
  lemma DrainIgnoresOrder(s: Snake, queue: seq<Command>, shuffled: seq<Command>)
    requires DistinctSeqs(queue) && multiset(queue) == multiset(shuffled)
    ensures Drained(s, queue) == Drained(s, shuffled)
  {
    if queue == [] {
      assert |multiset(shuffled)| == 0;
      assert |shuffled| == 0;
    } else {
      assert |multiset(shuffled)| == |queue|;
      var a, i := NewestExists(queue);
      var b, j := NewestExists(shuffled);
      assert a in multiset(shuffled) && b in multiset(queue);
      assert a.seqNo <= b.seqNo && b.seqNo <= a.seqNo;
      DrainAt(s, queue, a, i);
      DrainAt(s, shuffled, b, j);
    }
  }

  // Nor does how the commands are spread over drains.
  lemma {:induction false} DrainInParts(s: Snake, first: seq<Command>, second: seq<Command>)
    ensures Drained(s, first + second) == Drained(Drained(s, first), second)
    ensures Drained(s, first).lastAckSeq >= s.lastAckSeq
    decreases |first| + |second|
  {
    if second != [] {
      var last := second[|second| - 1];
      DrainInParts(s, first, second[..|second| - 1]);
      assert first + second == first + second[..|second| - 1] + [last];
    } else if first != [] {
      DrainInParts(s, first[..|first| - 1], []);
      assert first + second == first && first[..|first| - 1] + [] == first[..|first| - 1];
    } else {
      assert first + second == [];
    }
  }
}
