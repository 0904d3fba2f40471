// The ranking rule: last standing first, ties by score, kills and player id.
module Standings {
  import opened Options

  datatype PlayerId = PlayerId(text: string)

  // `order` is the elimination number; absent means never eliminated.
  datatype Row = Row(playerId: PlayerId, score: int, kills: int, survivedMs: int, order: Option<int>)

  // Difference of elimination numbers, absent ones counting as infinite. Two
  // infinities give a NaN, which the comparator reads as no difference.
  function OrderDifference(b: Option<int>, a: Option<int>): int {
    match (b, a)
    case (None, None) => 0
    case (None, Some(_)) => 1
    case (Some(_), None) => -1
    case (Some(m), Some(n)) => m - n
  }

  // Negative when a ranks ahead of b. `rank` stands for the collation of ids.
  function Compare(a: Row, b: Row, rank: PlayerId -> int): int {
    var byOrder := OrderDifference(b.order, a.order);
    if byOrder != 0 then byOrder
    else if b.score != a.score then b.score - a.score
    else if b.kills != a.kills then b.kills - a.kills
    else rank(a.playerId) - rank(b.playerId)
  }

  predicate Ahead(a: Row, b: Row, rank: PlayerId -> int) { Compare(a, b, rank) < 0 }

  ghost predicate Collates(rows: seq<Row>, rank: PlayerId -> int) {
    forall i, j :: 0 <= i < j < |rows| ==> rank(rows[i].playerId) != rank(rows[j].playerId)
  }

  ghost predicate Ranked(rows: seq<Row>, rank: PlayerId -> int) {
    forall i, j :: 0 <= i < j < |rows| ==> Ahead(rows[i], rows[j], rank)
  }

  lemma AheadTransitive(a: Row, b: Row, c: Row, rank: PlayerId -> int)
    requires Ahead(a, b, rank) && Ahead(b, c, rank)
    ensures Ahead(a, c, rank) && !Ahead(b, a, rank)
  {
  }

  lemma AheadTotal(a: Row, b: Row, rank: PlayerId -> int)
    requires rank(a.playerId) != rank(b.playerId)
    ensures Ahead(a, b, rank) <==> !Ahead(b, a, rank)
  {
  }

  // Sorting leaves no choice: one set of rows has one ranked list.
  lemma {:induction false} RankedUnique(xs: seq<Row>, ys: seq<Row>, rank: PlayerId -> int)
    requires Ranked(xs, rank) && Ranked(ys, rank) && multiset(xs) == multiset(ys)
    ensures xs == ys
    decreases |xs|
  {
    assert |xs| == |multiset(xs)| == |multiset(ys)| == |ys|;
    if xs != [] {
      assert xs[0] in multiset(ys) && ys[0] in multiset(xs);
      if xs[0] != ys[0] {
        var i :| 0 <= i < |ys| && ys[i] == xs[0];
        var j :| 0 <= j < |xs| && xs[j] == ys[0];
        assert Ahead(ys[0], xs[0], rank) && Ahead(xs[0], ys[0], rank);
        AheadTransitive(ys[0], xs[0], ys[0], rank);
      }
      assert xs == [xs[0]] + xs[1..] && ys == [ys[0]] + ys[1..];
      assert multiset(xs[1..]) == multiset(xs) - multiset{xs[0]};
      RankedUnique(xs[1..], ys[1..], rank);
    }
  }

  // The library sort, by insertion.
  method Sort(rows: seq<Row>, rank: PlayerId -> int) returns (sorted: seq<Row>)
    requires Collates(rows, rank)
    ensures multiset(sorted) == multiset(rows) && Ranked(sorted, rank)
  {
    sorted := [];
    for n := 0 to |rows|
      invariant multiset(sorted) == multiset(rows[..n]) && Ranked(sorted, rank)
    {
      var row := rows[n];
      assert rows[..n + 1] == rows[..n] + [row];
      forall k | 0 <= k < |sorted| ensures rank(sorted[k].playerId) != rank(row.playerId) {
        assert sorted[k] in multiset(rows[..n]);
        var m :| 0 <= m < n && rows[m] == sorted[k];
      }
      sorted := Insert(sorted, row, rank);
    }
    assert rows[..|rows|] == rows;
  }

  method Insert(sorted: seq<Row>, row: Row, rank: PlayerId -> int) returns (longer: seq<Row>)
    requires Ranked(sorted, rank) && forall k :: 0 <= k < |sorted| ==> rank(sorted[k].playerId) != rank(row.playerId)
    ensures multiset(longer) == multiset(sorted) + multiset{row} && Ranked(longer, rank)
  {
    hide Ahead;
    var i := |sorted|;
    while i > 0 && !Ahead(sorted[i - 1], row, rank)
      invariant 0 <= i <= |sorted|
      invariant forall k :: i <= k < |sorted| ==> Ahead(row, sorted[k], rank)
    {
      AheadTotal(sorted[i - 1], row, rank);
      i := i - 1;
    }
    forall k | 0 <= k < i ensures Ahead(sorted[k], row, rank) {
      if k < i - 1 { AheadTransitive(sorted[k], sorted[i - 1], row, rank); }
    }
    longer := sorted[..i] + [row] + sorted[i..];
    assert sorted == sorted[..i] + sorted[i..];
    Inserted(sorted, row, i, rank);
  }

  lemma Inserted(sorted: seq<Row>, row: Row, i: nat, rank: PlayerId -> int)
    requires i <= |sorted| && Ranked(sorted, rank)
    requires (forall k :: 0 <= k < i ==> Ahead(sorted[k], row, rank)) && forall k :: i <= k < |sorted| ==> Ahead(row, sorted[k], rank)
    ensures Ranked(sorted[..i] + [row] + sorted[i..], rank)
  {
    hide Ahead;
    var longer := sorted[..i] + [row] + sorted[i..];
    assert forall a :: 0 <= a < i ==> longer[a] == sorted[a];
    assert longer[i] == row;
    assert forall a :: i < a < |longer| ==> longer[a] == sorted[a - 1];
  }
}
