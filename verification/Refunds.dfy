// Cancelling a match: the inverse of consuming its stakes.
module Refunds {
  import opened Options
  import opened Ledger
  import opened Stakes

  // One line of the stakes grouped by payer.
  datatype Owing = Owing(user: Option<string>, lamports: int)

  datatype RefundLeg = RefundLeg(user: string, lamports: int)

  predicate IsStake(row: Row, game: string) {
    row.kind == EntryFee && row.direction == Credit && row.account == Escrow(game) && row.game == Some(game)
  }

  predicate IsRefund(row: Row, game: string) {
    row.kind == Refund && row.direction == Debit && row.account == Escrow(game) && row.game == Some(game)
  }

  predicate IsPayout(row: Row, game: string) {
    row.kind in {Payout, RakeFee} && row.game == Some(game)
  }

  predicate PaidOut(rows: seq<Row>, game: string) {
    exists i :: 0 <= i < |rows| && IsPayout(rows[i], game)
  }

  function AddTo(list: seq<Owing>, user: Option<string>, lamports: int): seq<Owing> {
    if list == [] then [Owing(user, lamports)]
    else if list[0].user == user then [Owing(user, list[0].lamports + lamports)] + list[1..]
    else [list[0]] + AddTo(list[1..], user, lamports)
  }

  // The entry fees credited to a game's escrow, grouped by payer.
  function Staked(rows: seq<Row>, game: string): seq<Owing> {
    if rows == [] then []
    else
      var front := Staked(rows[..|rows| - 1], game);
      var last := rows[|rows| - 1];
      if IsStake(last, game) then AddTo(front, last.user, last.amount) else front
  }

  // The players an earlier attempt has already repaid.
  function Settled(rows: seq<Row>, game: string): set<Option<string>> {
    if rows == [] then {}
    else
      var front := Settled(rows[..|rows| - 1], game);
      if IsRefund(rows[|rows| - 1], game) then front + {rows[|rows| - 1].user} else front
  }

  function Owed(staked: seq<Owing>, settled: set<Option<string>>): seq<RefundLeg> {
    if staked == [] then []
    else
      var front := Owed(staked[..|staked| - 1], settled);
      var last := staked[|staked| - 1];
      if last.user.None? || last.lamports <= 0 || last.user in settled then front
      else front + [RefundLeg(last.user.value, last.lamports)]
  }

  function OwedFor(rows: seq<Row>, game: string): seq<RefundLeg> {
    Owed(Staked(rows, game), Settled(rows, game))
  }

  function SumRefunds(owed: seq<RefundLeg>): int {
    if owed == [] then 0 else SumRefunds(owed[..|owed| - 1]) + owed[|owed| - 1].lamports
  }

  function RefundsOf(owed: seq<RefundLeg>, user: string): int {
    if owed == [] then 0
    else RefundsOf(owed[..|owed| - 1], user) + (if owed[|owed| - 1].user == user then owed[|owed| - 1].lamports else 0)
  }

  // The players repaid by a list of refunds.
  function Repaid(owed: seq<RefundLeg>): set<Option<string>> {
    if owed == [] then {} else Repaid(owed[..|owed| - 1]) + {Some(owed[|owed| - 1].user)}
  }

  function RefundMove(leg: RefundLeg, game: string, group: nat): Movement {
    Movement(Escrow(game), Custody(leg.user), leg.lamports, Refund, leg.user, game, group,
             RefundEscrow(game, leg.user), RefundCustody(game, leg.user))
  }

  function RefundOne(b: Books, leg: RefundLeg, game: string, group: nat): Result<Books, MoneyError>
    requires Escrow(game) in b.accounts
  {
    var m := RefundMove(leg, game, group);
    if HasKey(b.rows, m.debitKey) || HasKey(b.rows, m.creditKey) then Err(DuplicateKey)
    else Ok(Move(WithCustody(b, leg.user), m))
  }

  function RefundFirst(b: Books, owed: seq<RefundLeg>, game: string, group: nat, n: nat)
    : (r: Result<Books, MoneyError>)
    requires n <= |owed| && Escrow(game) in b.accounts
    ensures r.Ok? ==> Escrow(game) in r.value.accounts
  {
    if n == 0 then Ok(b)
    else
      var r := RefundFirst(b, owed, game, group, n - 1);
      if r.Err? then r else RefundOne(r.value, owed[n - 1], game, group + n - 1)
  }

  datatype Cancellation =
    Cancellation(cancelled: bool, refunds: seq<RefundLeg>, total: int, alreadyRefunded: nat)

  function CancelRow(db: Db, game: string): Db {
    db.(games := db.games[game := Cancelled])
  }

  // Atomic: an error leaves the database as it was.
  function Cancel(db: Db, game: string): Result<(Db, Cancellation), MoneyError> {
    if game !in db.games then Err(GameNotFound)
    else if db.games[game] == Completed then Err(AlreadySettled)
    else
      var first := db.games[game] != Cancelled;
      if Escrow(game) !in db.books.accounts then Ok((CancelRow(db, game), Cancellation(first, [], 0, 0)))
      else if PaidOut(db.books.rows, game) then Err(AlreadySettled)
      else
        var owed := OwedFor(db.books.rows, game);
        var balance := db.books.accounts[Escrow(game)].balance;
        if SumRefunds(owed) > balance then Err(RefundShortfall(SumRefunds(owed), balance))
        else
          match RefundFirst(db.books, owed, game, db.groups, |owed|)
          case Err(e) => Err(e)
          case Ok(books) =>
            Ok((CancelRow(db.(books := books, groups := db.groups + |owed|), game),
                Cancellation(first, owed, SumRefunds(owed), |Settled(db.books.rows, game)|)))
  }

  // ---- What the pots hold --------------------------------------------------

  // Only stakes, refunds and payouts touch an escrow, each under its own key.
  predicate RowShape(row: Row) {
    && (row.account.Escrow? ==>
          || (IsStake(row, row.account.game) && row.user.Some? && row.key == StakeEscrow(row.account.game, row.user.value))
          || (IsRefund(row, row.account.game) && row.user.Some? && row.key == RefundEscrow(row.account.game, row.user.value))
          || IsPayout(row, row.account.game))
    && (row.key.StakeEscrow? ==> IsStake(row, row.key.game) && row.user == Some(row.key.user))
    && (row.key.RefundEscrow? ==> IsRefund(row, row.key.game) && row.user == Some(row.key.user))
  }

  ghost predicate Paired(rows: seq<Row>) {
    forall g: string, u: string :: HasKey(rows, RefundCustody(g, u)) ==> HasKey(rows, RefundEscrow(g, u))
  }

  // A refund repays exactly a stake of the same player in the same game.
  predicate RefundMatches(rows: seq<Row>, i: nat)
    requires i < |rows|
  {
    rows[i].key.RefundEscrow? ==>
      exists j :: 0 <= j < i && rows[j].key == StakeEscrow(rows[i].key.game, rows[i].key.user) &&
                  rows[j].amount == rows[i].amount
  }

  // Until a payout, an escrow holds exactly what its unrefunded players staked.
  predicate PotHolds(rows: seq<Row>, game: string) {
    !PaidOut(rows, game) ==> Net(rows, Escrow(game)) == SumRefunds(OwedFor(rows, game))
  }

  predicate UniqueKeys(rows: seq<Row>) {
    forall i, j :: 0 <= i < j < |rows| ==> rows[i].key != rows[j].key
  }

  ghost predicate PotsSound(rows: seq<Row>) {
    && UniqueKeys(rows)
    && (forall i :: 0 <= i < |rows| ==> RowShape(rows[i]) && rows[i].amount > 0 && RefundMatches(rows, i))
    && Paired(rows)
    && forall g: string :: PotHolds(rows, g)
  }

  predicate InStaked(staked: seq<Owing>, user: Option<string>) {
    exists i :: 0 <= i < |staked| && staked[i].user == user
  }

  predicate DistinctPayers(staked: seq<Owing>) {
    forall i, j :: 0 <= i < j < |staked| ==> staked[i].user != staked[j].user
  }

  lemma {:induction false} AddToNew(list: seq<Owing>, user: Option<string>, lamports: int)
    requires !InStaked(list, user)
    ensures AddTo(list, user, lamports) == list + [Owing(user, lamports)]
  {
    if list != [] {
      assert list[0].user != user;
      forall i | 0 <= i < |list[1..]| ensures list[1..][i].user != user { assert list[1..][i] == list[i + 1]; }
      AddToNew(list[1..], user, lamports);
      assert list == [list[0]] + list[1..];
    }
  }

  // Under unique stake keys the grouping has one line per stake row.
  predicate LineOf(rows: seq<Row>, game: string, line: Owing) {
    line.user.Some? && exists i :: 0 <= i < |rows| && rows[i].key == StakeEscrow(game, line.user.value) &&
                                   rows[i].amount == line.lamports
  }

  lemma {:induction false} StakedKeys(rows: seq<Row>, game: string, u: string)
    requires forall i :: 0 <= i < |rows| ==> RowShape(rows[i])
    ensures HasKey(rows, StakeEscrow(game, u)) <==> InStaked(Staked(rows, game), Some(u))
  {
    hide HasKey;
    if rows != [] {
      var front := rows[..|rows| - 1];
      var last := rows[|rows| - 1];
      StakedKeys(front, game, u);
      assert rows == front + [last];
      HasKeySnoc(front, last, StakeEscrow(game, u));
      if IsStake(last, game) { AddToHas(Staked(front, game), last.user, last.amount, Some(u)); }
    } else {
      assert !HasKey(rows, StakeEscrow(game, u)) by { NoKeys(rows, StakeEscrow(game, u)); }
    }
  }

  lemma NoKeys(rows: seq<Row>, k: Key)
    requires rows == []
    ensures !HasKey(rows, k)
  {
  }

  lemma {:induction false} AddToHas(list: seq<Owing>, user: Option<string>, lamports: int, u: Option<string>)
    ensures InStaked(AddTo(list, user, lamports), u) <==> InStaked(list, u) || u == user
  {
    var added := AddTo(list, user, lamports);
    if list == [] {
      assert added[0].user == user;
    } else {
      InStakedCons(list[0], list[1..], u);
      assert list == [list[0]] + list[1..];
      if list[0].user == user {
        InStakedCons(Owing(user, list[0].lamports + lamports), list[1..], u);
      } else {
        AddToHas(list[1..], user, lamports, u);
        InStakedCons(list[0], AddTo(list[1..], user, lamports), u);
      }
    }
  }

  lemma InStakedCons(first: Owing, rest: seq<Owing>, u: Option<string>)
    ensures InStaked([first] + rest, u) <==> first.user == u || InStaked(rest, u)
  {
    var all := [first] + rest;
    if first.user == u { assert all[0].user == u; }
    if InStaked(rest, u) {
      var i :| 0 <= i < |rest| && rest[i].user == u;
      assert all[i + 1].user == u;
    }
    if InStaked(all, u) {
      var i :| 0 <= i < |all| && all[i].user == u;
      assert i > 0 ==> rest[i - 1].user == u;
    }
  }

  lemma {:induction false} StakedLines(rows: seq<Row>, game: string)
    requires UniqueKeys(rows) && forall i :: 0 <= i < |rows| ==> RowShape(rows[i]) && rows[i].amount > 0
    ensures DistinctPayers(Staked(rows, game))
    ensures forall k :: 0 <= k < |Staked(rows, game)| ==>
              LineOf(rows, game, Staked(rows, game)[k]) && Staked(rows, game)[k].lamports > 0
    ensures forall u :: HasKey(rows, StakeEscrow(game, u)) <==> InStaked(Staked(rows, game), Some(u))
  {
    hide HasKey, RowShape, InStaked;
    forall u ensures HasKey(rows, StakeEscrow(game, u)) <==> InStaked(Staked(rows, game), Some(u)) {
      StakedKeys(rows, game, u);
    }
    if rows != [] {
      var front := rows[..|rows| - 1];
      var last := rows[|rows| - 1];
      StakedLines(front, game);
      if IsStake(last, game) { StakeLine(rows, game); }
      else {
        forall k | 0 <= k < |Staked(front, game)| ensures LineOf(rows, game, Staked(front, game)[k]) {
          LineStays(rows, game, Staked(front, game)[k]);
        }
      }
    }
  }

  lemma LineStays(rows: seq<Row>, game: string, line: Owing)
    requires rows != [] && LineOf(rows[..|rows| - 1], game, line)
    ensures LineOf(rows, game, line)
  {
    var front := rows[..|rows| - 1];
    var i :| 0 <= i < |front| && front[i].key == StakeEscrow(game, line.user.value) && front[i].amount == line.lamports;
    assert rows[i] == front[i];
  }

  lemma StakeLine(rows: seq<Row>, game: string)
    requires rows != [] && IsStake(rows[|rows| - 1], game) && UniqueKeys(rows)
    requires RowShape(rows[|rows| - 1]) && rows[|rows| - 1].amount > 0
    requires var front := rows[..|rows| - 1];
             && DistinctPayers(Staked(front, game))
             && (forall k :: 0 <= k < |Staked(front, game)| ==>
                   LineOf(front, game, Staked(front, game)[k]) && Staked(front, game)[k].lamports > 0)
             && forall u :: HasKey(front, StakeEscrow(game, u)) <==> InStaked(Staked(front, game), Some(u))
    ensures DistinctPayers(Staked(rows, game))
    ensures forall k :: 0 <= k < |Staked(rows, game)| ==>
              LineOf(rows, game, Staked(rows, game)[k]) && Staked(rows, game)[k].lamports > 0
  {
    var front := rows[..|rows| - 1];
    var last := rows[|rows| - 1];
    var before := Staked(front, game);
    assert last.key == StakeEscrow(game, last.user.value);
    assert !HasKey(front, last.key);
    AddToNew(before, last.user, last.amount);
    forall k | 0 <= k < |before| ensures LineOf(rows, game, before[k]) { LineStays(rows, game, before[k]); }
    assert LineOf(rows, game, Owing(last.user, last.amount));
  }

  lemma HasKeySnoc(rows: seq<Row>, row: Row, k: Key)
    ensures HasKey(rows + [row], k) <==> HasKey(rows, k) || row.key == k
  {
    if HasKey(rows, k) {
      var i :| 0 <= i < |rows| && rows[i].key == k;
      assert (rows + [row])[i].key == k;
    }
    if row.key == k { assert (rows + [row])[|rows|].key == k; }
    if HasKey(rows + [row], k) {
      var i :| 0 <= i < |rows + [row]| && (rows + [row])[i].key == k;
      assert i < |rows| ==> rows[i].key == k;
    }
  }

  lemma {:induction false} SettledKeys(rows: seq<Row>, game: string)
    requires forall i :: 0 <= i < |rows| ==> RowShape(rows[i])
    ensures forall u :: Some(u) in Settled(rows, game) <==> HasKey(rows, RefundEscrow(game, u))
  {
    if rows != [] {
      var front := rows[..|rows| - 1];
      SettledKeys(front, game);
      assert rows == front + [rows[|rows| - 1]];
      forall u ensures Some(u) in Settled(rows, game) <==> HasKey(rows, RefundEscrow(game, u)) {
        HasKeySnoc(front, rows[|rows| - 1], RefundEscrow(game, u));
      }
    }
  }

  lemma {:induction false} OwedFacts(staked: seq<Owing>, settled: set<Option<string>>)
    requires DistinctPayers(staked)
    ensures forall k :: 0 <= k < |Owed(staked, settled)| ==>
              var leg := Owed(staked, settled)[k];
              leg.lamports > 0 && Some(leg.user) !in settled && Owing(Some(leg.user), leg.lamports) in staked
    ensures forall i, j :: 0 <= i < j < |Owed(staked, settled)| ==>
              Owed(staked, settled)[i].user != Owed(staked, settled)[j].user
    ensures forall line :: line in staked && line.user.Some? && line.lamports > 0 && line.user !in settled ==>
              RefundLeg(line.user.value, line.lamports) in Owed(staked, settled)
  {
    if staked != [] {
      var front := staked[..|staked| - 1];
      OwedFacts(front, settled);
      assert staked == front + [staked[|staked| - 1]];
      forall k | 0 <= k < |Owed(front, settled)|
        ensures Some(Owed(front, settled)[k].user) != staked[|staked| - 1].user {
        var leg := Owed(front, settled)[k];
        var i :| 0 <= i < |front| && front[i] == Owing(Some(leg.user), leg.lamports);
        assert staked[i] == front[i];
      }
    }
  }

  lemma FrontMisses(staked: seq<Owing>, user: Option<string>)
    requires staked != [] && !InStaked(staked, user)
    ensures staked[|staked| - 1].user != user && !InStaked(staked[..|staked| - 1], user)
  {
    var front := staked[..|staked| - 1];
    forall i | 0 <= i < |front| ensures front[i].user != user { assert front[i] == staked[i]; }
  }

  lemma LastUnique(staked: seq<Owing>)
    requires staked != [] && DistinctPayers(staked)
    ensures !InStaked(staked[..|staked| - 1], staked[|staked| - 1].user)
  {
    var front := staked[..|staked| - 1];
    forall i | 0 <= i < |front| ensures front[i].user != staked[|staked| - 1].user { assert front[i] == staked[i]; }
  }

  lemma FoundIn(staked: seq<Owing>, line: Owing)
    requires line in staked
    ensures InStaked(staked, line.user)
  {
    var i :| 0 <= i < |staked| && staked[i] == line;
  }

  // What one line adds to what is owed.
  function OwedOne(line: Owing, settled: set<Option<string>>): seq<RefundLeg> {
    if line.user.None? || line.lamports <= 0 || line.user in settled then [] else [RefundLeg(line.user.value, line.lamports)]
  }

  lemma OwedSplits(staked: seq<Owing>, settled: set<Option<string>>)
    requires staked != []
    ensures Owed(staked, settled) == Owed(staked[..|staked| - 1], settled) + OwedOne(staked[|staked| - 1], settled)
  {
  }

  lemma {:induction false} SumRefundsAdds(x: seq<RefundLeg>, y: seq<RefundLeg>)
    ensures SumRefunds(x + y) == SumRefunds(x) + SumRefunds(y)
    decreases |y|
  {
    if y == [] {
      assert x + y == x;
    } else {
      var front := y[..|y| - 1];
      SumRefundsAdds(x, front);
      assert (x + y)[..|x + y| - 1] == x + front;
    }
  }

  // Settling someone who staked nothing changes nothing owed.
  lemma {:induction false} OwedSame(staked: seq<Owing>, settled: set<Option<string>>, user: string)
    requires !InStaked(staked, Some(user))
    ensures Owed(staked, settled + {Some(user)}) == Owed(staked, settled)
  {
    if staked != [] {
      FrontMisses(staked, Some(user));
      OwedSame(staked[..|staked| - 1], settled, user);
    }
  }

  // Repaying one line takes exactly it off what is owed.
  lemma {:induction false} OwedLess(staked: seq<Owing>, settled: set<Option<string>>, leg: RefundLeg)
    requires DistinctPayers(staked) && leg in Owed(staked, settled)
    ensures SumRefunds(Owed(staked, settled + {Some(leg.user)})) == SumRefunds(Owed(staked, settled)) - leg.lamports
    decreases |staked|
  {
    var front, last := staked[..|staked| - 1], staked[|staked| - 1];
    var settled' := settled + {Some(leg.user)};
    OwedSplits(staked, settled);
    OwedSplits(staked, settled');
    SumRefundsAdds(Owed(front, settled), OwedOne(last, settled));
    SumRefundsAdds(Owed(front, settled'), OwedOne(last, settled'));
    LastUnique(staked);
    OwedFacts(front, settled);
    hide Owed, InStaked, SumRefunds;
    if leg in Owed(front, settled) {
      OwedLess(front, settled, leg);
      FoundIn(front, Owing(Some(leg.user), leg.lamports));
      assert OwedOne(last, settled') == OwedOne(last, settled);
    } else {
      assert OwedOne(last, settled) == [leg] && OwedOne(last, settled') == [];
      OwedSame(front, settled, leg.user);
      OneRefund(leg);
    }
  }

  lemma OneRefund(leg: RefundLeg)
    ensures SumRefunds([leg]) == leg.lamports && SumRefunds([]) == 0
  {
    assert [leg][..0] == [];
  }

  // ---- Appending rows ------------------------------------------------------

  // A row the pots do not see, or one that pays a pot out.
  predicate Bystander(row: Row) {
    && row.amount > 0 && !row.key.StakeEscrow? && !row.key.RefundEscrow?
    && (row.account.Escrow? ==> IsPayout(row, row.account.game))
  }

  lemma AppendCommon(rows: seq<Row>, row: Row)
    requires PotsSound(rows) && !HasKey(rows, row.key) && RowShape(row) && row.amount > 0
    requires row.key.RefundEscrow? ==>
               exists j :: 0 <= j < |rows| && rows[j].key == StakeEscrow(row.key.game, row.key.user) &&
                           rows[j].amount == row.amount
    requires row.key.RefundCustody? ==> HasKey(rows, RefundEscrow(row.key.game, row.key.user))
    ensures var rows' := rows + [row];
            && UniqueKeys(rows') && Paired(rows')
            && forall i :: 0 <= i < |rows'| ==> RowShape(rows'[i]) && rows'[i].amount > 0 && RefundMatches(rows', i)
  {
    hide PotHolds, RowShape;
    var rows' := rows + [row];
    forall i | 0 <= i < |rows'| ensures RowShape(rows'[i]) && rows'[i].amount > 0 && RefundMatches(rows', i) {
      if i < |rows| {
        assert rows'[i] == rows[i] && RefundMatches(rows, i);
        if rows[i].key.RefundEscrow? {
          var j :| 0 <= j < i && rows[j].key == StakeEscrow(rows[i].key.game, rows[i].key.user) &&
                   rows[j].amount == rows[i].amount;
          assert rows'[j] == rows[j];
        }
      } else if row.key.RefundEscrow? {
        var j :| 0 <= j < |rows| && rows[j].key == StakeEscrow(row.key.game, row.key.user) &&
                 rows[j].amount == row.amount;
        assert rows'[j] == rows[j];
      }
    }
    forall i, j | 0 <= i < j < |rows'| ensures rows'[i].key != rows'[j].key {
      if j == |rows| { assert rows[i].key != row.key; }
    }
    forall g: string, u: string | HasKey(rows', RefundCustody(g, u)) ensures HasKey(rows', RefundEscrow(g, u)) {
      HasKeySnoc(rows, row, RefundCustody(g, u));
      HasKeySnoc(rows, row, RefundEscrow(g, u));
    }
  }

  lemma PaidOutSnoc(rows: seq<Row>, row: Row, game: string)
    ensures PaidOut(rows + [row], game) <==> PaidOut(rows, game) || IsPayout(row, game)
  {
    var rows' := rows + [row];
    if PaidOut(rows, game) {
      var i :| 0 <= i < |rows| && IsPayout(rows[i], game);
      assert IsPayout(rows'[i], game);
    }
    if IsPayout(row, game) { assert IsPayout(rows'[|rows|], game); }
    if PaidOut(rows', game) {
      var i :| 0 <= i < |rows'| && IsPayout(rows'[i], game);
      assert i < |rows| ==> IsPayout(rows[i], game);
    }
  }

  // A row that is neither a stake nor a refund of `game` leaves its pot alone.
  lemma PotUntouched(rows: seq<Row>, row: Row, game: string)
    requires PotHolds(rows, game) && !IsStake(row, game) && !IsRefund(row, game)
    requires row.account == Escrow(game) ==> IsPayout(row, game)
    ensures PotHolds(rows + [row], game)
    ensures Staked(rows + [row], game) == Staked(rows, game) && Settled(rows + [row], game) == Settled(rows, game)
  {
    PaidOutSnoc(rows, row, game);
    Snoc(rows, row);
    assert (rows + [row])[..|rows|] == rows;
  }

  lemma AppendBystander(rows: seq<Row>, row: Row)
    requires PotsSound(rows) && !HasKey(rows, row.key) && Bystander(row)
    requires row.key.RefundCustody? ==> HasKey(rows, RefundEscrow(row.key.game, row.key.user))
    ensures PotsSound(rows + [row])
    ensures forall g :: OwedFor(rows + [row], g) == OwedFor(rows, g) && Settled(rows + [row], g) == Settled(rows, g)
  {
    hide UniqueKeys, Paired, RefundMatches, PaidOut;
    AppendCommon(rows, row);
    forall g: string
      ensures PotHolds(rows + [row], g)
      ensures OwedFor(rows + [row], g) == OwedFor(rows, g) && Settled(rows + [row], g) == Settled(rows, g)
    {
      assert PotHolds(rows, g);
      PotUntouched(rows, row, g);
    }
  }

  // A new stake is owed back, after everything owed before it.
  lemma AppendStake(rows: seq<Row>, row: Row)
    requires PotsSound(rows) && !HasKey(rows, row.key) && row.amount > 0
    requires row.key.StakeEscrow? && IsStake(row, row.key.game) && row.user == Some(row.key.user)
    requires !HasKey(rows, RefundEscrow(row.key.game, row.key.user))
    ensures PotsSound(rows + [row])
    ensures OwedFor(rows + [row], row.key.game) ==
            OwedFor(rows, row.key.game) + [RefundLeg(row.key.user, row.amount)]
    ensures forall g :: Settled(rows + [row], g) == Settled(rows, g)
  {
    hide UniqueKeys, Paired, RefundMatches, PaidOut, HasKey, PotHolds, Staked;
    var game, u := row.key.game, row.key.user;
    AppendCommon(rows, row);
    StakeJoins(rows, row, game, u);
    forall g: string ensures PotHolds(rows + [row], g) && Settled(rows + [row], g) == Settled(rows, g) {
      assert PotHolds(rows, g);
      if g != game { PotUntouched(rows, row, g); }
    }
  }

  lemma StakeJoins(rows: seq<Row>, row: Row, game: string, u: string)
    requires PotsSound(rows) && row.key == StakeEscrow(game, u) && !HasKey(rows, row.key)
    requires IsStake(row, game) && row.user == Some(u) && row.amount > 0 && !HasKey(rows, RefundEscrow(game, u))
    ensures PotHolds(rows + [row], game)
    ensures OwedFor(rows + [row], game) == OwedFor(rows, game) + [RefundLeg(u, row.amount)]
    ensures Settled(rows + [row], game) == Settled(rows, game)
  {
    hide PaidOut, HasKey, InStaked, LineOf, Staked, Settled, Owed, SumRefunds;
    var leg := RefundLeg(u, row.amount);
    StakeNew(rows, game, u);
    assert !PaidOut(rows, game) ==> Net(rows, Escrow(game)) == SumRefunds(OwedFor(rows, game));
    hide PotsSound, RowShape;
    StakeRow(rows, row, game);
    AddToNew(Staked(rows, game), Some(u), row.amount);
    OwedSplits(Staked(rows, game) + [Owing(Some(u), row.amount)], Settled(rows, game));
    assert (Staked(rows, game) + [Owing(Some(u), row.amount)])[..|Staked(rows, game)|] == Staked(rows, game);
    SumRefundsAdds(OwedFor(rows, game), [leg]);
    OneRefund(leg);
    PaidOutSnoc(rows, row, game);
    Snoc(rows, row);
    hide Net;
  }

  lemma StakeNew(rows: seq<Row>, game: string, u: string)
    requires PotsSound(rows) && !HasKey(rows, StakeEscrow(game, u)) && !HasKey(rows, RefundEscrow(game, u))
    ensures !InStaked(Staked(rows, game), Some(u)) && Some(u) !in Settled(rows, game)
    ensures PotHolds(rows, game)
  {
    hide HasKey, InStaked, LineOf, RowShape, PotHolds;
    StakedLines(rows, game);
    SettledKeys(rows, game);
  }

  lemma StakeRow(rows: seq<Row>, row: Row, game: string)
    requires IsStake(row, game)
    ensures Staked(rows + [row], game) == AddTo(Staked(rows, game), row.user, row.amount)
    ensures Settled(rows + [row], game) == Settled(rows, game)
  {
    assert (rows + [row])[..|rows|] == rows;
    hide AddTo;
  }

  // A refund takes exactly its line off what is owed.
  lemma AppendRefund(rows: seq<Row>, row: Row)
    requires PotsSound(rows) && !HasKey(rows, row.key)
    requires row.key.RefundEscrow? && IsRefund(row, row.key.game) && row.user == Some(row.key.user)
    requires RefundLeg(row.key.user, row.amount) in OwedFor(rows, row.key.game)
    ensures PotsSound(rows + [row])
    ensures Staked(rows + [row], row.key.game) == Staked(rows, row.key.game)
    ensures Settled(rows + [row], row.key.game) == Settled(rows, row.key.game) + {row.user}
  {
    hide UniqueKeys, Paired, RefundMatches, PaidOut, HasKey, PotHolds, Staked, OwedFor;
    var game, u := row.key.game, row.key.user;
    RefundLeaves(rows, row, game, u);
    AppendCommon(rows, row);
    forall g: string ensures PotHolds(rows + [row], g) {
      assert PotHolds(rows, g);
      if g != game { PotUntouched(rows, row, g); }
    }
  }

  lemma RefundLeaves(rows: seq<Row>, row: Row, game: string, u: string)
    requires PotsSound(rows) && row.key == RefundEscrow(game, u) && IsRefund(row, game) && row.user == Some(u)
    requires RefundLeg(u, row.amount) in OwedFor(rows, game)
    ensures row.amount > 0 && RowShape(row)
    ensures exists j :: 0 <= j < |rows| && rows[j].key == StakeEscrow(game, u) && rows[j].amount == row.amount
    ensures PotHolds(rows + [row], game)
    ensures Staked(rows + [row], game) == Staked(rows, game)
    ensures Settled(rows + [row], game) == Settled(rows, game) + {row.user}
  {
    hide Paired, RefundMatches, PaidOut, HasKey, UniqueKeys, InStaked, DistinctPayers;
    assert PotHolds(rows, game);
    StakedLines(rows, game);
    OwedFacts(Staked(rows, game), Settled(rows, game));
    var line := Owing(Some(u), row.amount);
    var k :| 0 <= k < |Staked(rows, game)| && Staked(rows, game)[k] == line;
    assert LineOf(rows, game, Staked(rows, game)[k]);
    PaidOutSnoc(rows, row, game);
    Snoc(rows, row);
    assert (rows + [row])[..|rows|] == rows;
    OwedLess(Staked(rows, game), Settled(rows, game), RefundLeg(u, row.amount));
  }

  // ---- Cancelling ----------------------------------------------------------

  lemma RefundOneKeeps(b: Books, leg: RefundLeg, game: string, group: nat)
    requires Sound(b) && PotsSound(b.rows) && Escrow(game) in b.accounts
    requires leg in OwedFor(b.rows, game) && leg.lamports <= b.accounts[Escrow(game)].balance
    ensures RefundOne(b, leg, game, group).Ok?
    ensures var b' := RefundOne(b, leg, game, group).value;
            var c := WithCustody(b, leg.user).accounts[Custody(leg.user)];
            var e := b.accounts[Escrow(game)];
            && Sound(b') && PotsSound(b'.rows)
            && b'.accounts == b.accounts[Escrow(game) := e.(balance := e.balance - leg.lamports)]
                                        [Custody(leg.user) := c.(balance := c.balance + leg.lamports)]
            && Staked(b'.rows, game) == Staked(b.rows, game)
            && Settled(b'.rows, game) == Settled(b.rows, game) + {Some(leg.user)}
            && (forall g :: PaidOut(b'.rows, g) <==> PaidOut(b.rows, g))
  {
    hide Sound, PotsSound, HasKey, Post;
    var m := RefundMove(leg, game, group);
    RefundFresh(b.rows, leg, game);
    WithCustodyKeeps(b, leg.user);
    var b1 := WithCustody(b, leg.user);
    MoveKeeps(b1, m);
    var b' := Move(b1, m);
    var d := DebitRow(m).(balanceAfter := b1.accounts[m.from].balance - m.amount);
    var c := CreditRow(m).(balanceAfter := b1.accounts[m.to].balance + m.amount);
    assert b'.rows == (b.rows + [d]) + [c];
    AppendRefund(b.rows, d);
    HasKeySnoc(b.rows, d, m.creditKey);
    HasKeySnoc(b.rows, d, m.debitKey);
    AppendBystander(b.rows + [d], c);
    assert b'.rows[..|b.rows + [d]|] == b.rows + [d];
    forall g ensures PaidOut(b'.rows, g) <==> PaidOut(b.rows, g) {
      PaidOutSnoc(b.rows, d, g);
      PaidOutSnoc(b.rows + [d], c, g);
    }
  }

  lemma RefundFresh(rows: seq<Row>, leg: RefundLeg, game: string)
    requires PotsSound(rows) && leg in OwedFor(rows, game)
    ensures !HasKey(rows, RefundEscrow(game, leg.user)) && !HasKey(rows, RefundCustody(game, leg.user))
    ensures leg.lamports > 0
  {
    hide PotHolds, HasKey, RowShape;
    StakedLines(rows, game);
    SettledKeys(rows, game);
    OwedFacts(Staked(rows, game), Settled(rows, game));
  }

  // The accounts and the grouping after the first `n` refunds.
  ghost predicate RefundedFirst(b: Books, b': Books, owed: seq<RefundLeg>, game: string, n: nat)
    requires n <= |owed| && Escrow(game) in b.accounts
  {
    && Sound(b') && PotsSound(b'.rows)
    && (forall a :: a in b.accounts && !a.Custody? && a != Escrow(game) ==>
          a in b'.accounts && b'.accounts[a] == b.accounts[a])
    && (forall a :: a in b'.accounts && a !in b.accounts ==> a.Custody?)
    && Escrow(game) in b'.accounts
    && b'.accounts[Escrow(game)] ==
         b.accounts[Escrow(game)].(balance := b.accounts[Escrow(game)].balance - SumRefunds(owed[..n]))
    && (forall u: string :: RefundedUser(b, b', owed[..n], u))
    && Staked(b'.rows, game) == Staked(b.rows, game)
    && Settled(b'.rows, game) == Settled(b.rows, game) + Repaid(owed[..n])
    && (forall g :: PaidOut(b'.rows, g) <==> PaidOut(b.rows, g))
  }

  predicate RefundedUser(b: Books, b': Books, paid: seq<RefundLeg>, u: string) {
    && (Custody(u) in b.accounts ==>
          && Custody(u) in b'.accounts
          && b'.accounts[Custody(u)] == b.accounts[Custody(u)].(
               balance := b.accounts[Custody(u)].balance + RefundsOf(paid, u)))
    && (Custody(u) !in b.accounts && Custody(u) in b'.accounts ==>
          b'.accounts[Custody(u)] == Account(RefundsOf(paid, u), 0))
    && (Custody(u) !in b'.accounts ==> RefundsOf(paid, u) == 0)
  }

  lemma {:induction false} RefundsNonNegative(owed: seq<RefundLeg>)
    requires forall k :: 0 <= k < |owed| ==> owed[k].lamports > 0
    ensures SumRefunds(owed) >= 0 && forall u :: RefundsOf(owed, u) >= 0
  {
    if owed != [] { RefundsNonNegative(owed[..|owed| - 1]); }
  }

  lemma {:induction false} RefundsSplit(owed: seq<RefundLeg>, n: nat)
    requires n <= |owed| && forall k :: 0 <= k < |owed| ==> owed[k].lamports > 0
    ensures SumRefunds(owed[..n]) <= SumRefunds(owed)
  {
    if n < |owed| {
      RefundsSplit(owed[..|owed| - 1], n);
      assert owed[..|owed| - 1][..n] == owed[..n];
    } else {
      assert owed[..n] == owed;
    }
  }

  lemma {:induction false} RefundFirstKeeps(b: Books, game: string, group: nat, n: nat)
    requires Sound(b) && PotsSound(b.rows) && Escrow(game) in b.accounts && !PaidOut(b.rows, game)
    requires n <= |OwedFor(b.rows, game)|
    ensures RefundFirst(b, OwedFor(b.rows, game), game, group, n).Ok?
    ensures RefundedFirst(b, RefundFirst(b, OwedFor(b.rows, game), game, group, n).value, OwedFor(b.rows, game), game, n)
  {
    hide Sound, PotsSound, RefundOne, RefundedFirst;
    var owed := OwedFor(b.rows, game);
    if n == 0 {
      RefundedNone(b, owed, game);
    } else {
      RefundFirstKeeps(b, game, group, n - 1);
      var mid := RefundFirst(b, owed, game, group, n - 1).value;
      NextRefund(b, mid, game, n - 1);
      RefundOneKeeps(mid, owed[n - 1], game, group + n - 1);
      RefundedSnoc(b, mid, RefundFirst(b, owed, game, group, n).value, owed, game, n - 1);
    }
  }

  lemma RefundedNone(b: Books, owed: seq<RefundLeg>, game: string)
    requires Sound(b) && PotsSound(b.rows) && Escrow(game) in b.accounts
    ensures RefundedFirst(b, b, owed, game, 0)
  {
    hide Sound, PotsSound;
    assert owed[..0] == [];
  }

  lemma NextRefund(b: Books, mid: Books, game: string, n: nat)
    requires Sound(b) && PotsSound(b.rows) && Escrow(game) in b.accounts && !PaidOut(b.rows, game)
    requires n < |OwedFor(b.rows, game)| && RefundedFirst(b, mid, OwedFor(b.rows, game), game, n)
    ensures Sound(mid) && PotsSound(mid.rows) && Escrow(game) in mid.accounts
    ensures OwedFor(b.rows, game)[n] in OwedFor(mid.rows, game)
    ensures OwedFor(b.rows, game)[n].lamports <= mid.accounts[Escrow(game)].balance
  {
    hide Sound, PotsSound;
    var owed := OwedFor(b.rows, game);
    PotBalance(b, game);
    OwedDistinct(b.rows, game);
    RepaidMisses(owed[..n], owed[n].user);
    OwedStill(b.rows, mid.rows, game, owed[n]);
    RefundsSplit(owed, n + 1);
    assert owed[..n + 1][..n] == owed[..n];
  }

  lemma OwedDistinct(rows: seq<Row>, game: string)
    requires PotsSound(rows)
    ensures forall k :: 0 <= k < |OwedFor(rows, game)| ==> OwedFor(rows, game)[k].lamports > 0
    ensures forall i, j :: 0 <= i < j < |OwedFor(rows, game)| ==>
              OwedFor(rows, game)[i].user != OwedFor(rows, game)[j].user
    ensures forall k :: 0 <= k < |OwedFor(rows, game)| ==> Some(OwedFor(rows, game)[k].user) !in Settled(rows, game)
  {
    hide PotHolds, RowShape, RefundMatches, HasKey;
    assert forall i :: 0 <= i < |rows| ==> RowShape(rows[i]);
    StakedLines(rows, game);
    OwedFacts(Staked(rows, game), Settled(rows, game));
  }

  lemma OwedStill(rows: seq<Row>, rows': seq<Row>, game: string, leg: RefundLeg)
    requires PotsSound(rows) && Staked(rows', game) == Staked(rows, game)
    requires leg in OwedFor(rows, game) && Some(leg.user) !in Settled(rows', game)
    ensures leg in OwedFor(rows', game)
  {
    hide PotHolds, RowShape, RefundMatches, HasKey;
    assert forall i :: 0 <= i < |rows| ==> RowShape(rows[i]);
    StakedLines(rows, game);
    OwedFacts(Staked(rows, game), Settled(rows, game));
    OwedFacts(Staked(rows, game), Settled(rows', game));
  }

  lemma {:induction false} RepaidMisses(owed: seq<RefundLeg>, user: string)
    requires forall k :: 0 <= k < |owed| ==> owed[k].user != user
    ensures Some(user) !in Repaid(owed)
  {
    if owed != [] { RepaidMisses(owed[..|owed| - 1], user); }
  }

  lemma RefundedSnoc(b: Books, mid: Books, b': Books, owed: seq<RefundLeg>, game: string, n: nat)
    requires n < |owed| && Escrow(game) in b.accounts && RefundedFirst(b, mid, owed, game, n)
    requires Sound(b') && PotsSound(b'.rows)
    requires var leg := owed[n];
             var c := WithCustody(mid, leg.user).accounts[Custody(leg.user)];
             var e := mid.accounts[Escrow(game)];
             b'.accounts == mid.accounts[Escrow(game) := e.(balance := e.balance - leg.lamports)]
                                        [Custody(leg.user) := c.(balance := c.balance + leg.lamports)]
    requires Staked(b'.rows, game) == Staked(mid.rows, game)
    requires Settled(b'.rows, game) == Settled(mid.rows, game) + {Some(owed[n].user)}
    requires forall g :: PaidOut(b'.rows, g) <==> PaidOut(mid.rows, g)
    ensures RefundedFirst(b, b', owed, game, n + 1)
  {
    hide Sound, PotsSound, PaidOut;
    var paid := owed[..n + 1];
    assert paid[..n] == owed[..n];
    forall u: string ensures RefundedUser(b, b', paid, u) {
      assert RefundedUser(b, mid, owed[..n], u);
    }
  }

  lemma {:induction false} OwedNothing(staked: seq<Owing>, settled: set<Option<string>>)
    requires forall k :: 0 <= k < |staked| ==> staked[k].user in settled
    ensures Owed(staked, settled) == []
  {
    if staked != [] { OwedNothing(staked[..|staked| - 1], settled); }
  }

  lemma {:induction false} RepaidHas(owed: seq<RefundLeg>, i: nat)
    requires i < |owed|
    ensures Some(owed[i].user) in Repaid(owed)
  {
    if i < |owed| - 1 { RepaidHas(owed[..|owed| - 1], i); }
  }

  lemma AllSettled(b: Books, b': Books, game: string)
    requires PotsSound(b.rows) && Escrow(game) in b.accounts
    requires RefundedFirst(b, b', OwedFor(b.rows, game), game, |OwedFor(b.rows, game)|)
    ensures OwedFor(b'.rows, game) == []
  {
    hide Sound, PotHolds, RowShape, RefundMatches;
    var owed := OwedFor(b.rows, game);
    var staked := Staked(b.rows, game);
    StakedLines(b.rows, game);
    OwedFacts(staked, Settled(b.rows, game));
    forall k | 0 <= k < |staked| ensures staked[k].user in Settled(b'.rows, game) {
      assert LineOf(b.rows, game, staked[k]);
      if staked[k].user !in Settled(b.rows, game) {
        assert staked[k] in staked;
        var i :| 0 <= i < |owed| && owed[i] == RefundLeg(staked[k].user.value, staked[k].lamports);
        RepaidHas(owed, i);
        assert owed[..|owed|] == owed;
      }
    }
    OwedNothing(staked, Settled(b'.rows, game));
  }

  // Cancelling is refused exactly for an unknown, completed or paid-out game:
  // the shortfall and the key collision cannot happen. It pays every owed player
  // exactly what is owed, empties the escrow, and leaves reservations alone.
  lemma CancelKeeps(db: Db, game: string)
    requires Sound(db.books) && PotsSound(db.books.rows)
    ensures var r := Cancel(db, game);
            var escrowed := Escrow(game) in db.books.accounts;
            && (r.Err? ==> r.error in {GameNotFound, AlreadySettled})
            && (r.Err? && r.error == GameNotFound <==> game !in db.games)
            && (r.Err? && r.error == AlreadySettled <==>
                 game in db.games && (db.games[game] == Completed || (escrowed && PaidOut(db.books.rows, game))))
            && (r.Ok? ==>
                 var (db', c) := r.value;
                 && Sound(db'.books) && PotsSound(db'.books.rows)
                 && db'.games == db.games[game := Cancelled]
                 && db'.stakes == db.stakes && db'.withdrawals == db.withdrawals && db'.deposits == db.deposits
                 && c.cancelled == (db.games[game] != Cancelled)
                 && c.total == SumRefunds(c.refunds)
                 && (escrowed ==>
                      && c.refunds == OwedFor(db.books.rows, game)
                      && RefundedFirst(db.books, db'.books, c.refunds, game, |c.refunds|)
                      && db'.books.accounts[Escrow(game)].balance == 0
                      && OwedFor(db'.books.rows, game) == []
                      && !PaidOut(db'.books.rows, game))
                 && (!escrowed ==> c.refunds == [] && db'.books == db.books))
  {
    hide Sound, PotsSound, RefundFirst, RefundedFirst, RefundedUser;
    if game in db.games && db.games[game] != Completed && Escrow(game) in db.books.accounts
       && !PaidOut(db.books.rows, game) {
      var owed := OwedFor(db.books.rows, game);
      PotBalance(db.books, game);
      RefundFirstKeeps(db.books, game, db.groups, |owed|);
      var books := RefundFirst(db.books, owed, game, db.groups, |owed|).value;
      AllSettled(db.books, books, game);
      RefundedKeepsPot(db.books, books, owed, game);
    }
  }

  lemma PotBalance(b: Books, game: string)
    requires Sound(b) && PotsSound(b.rows) && Escrow(game) in b.accounts && !PaidOut(b.rows, game)
    ensures b.accounts[Escrow(game)].balance == SumRefunds(OwedFor(b.rows, game))
  {
    assert PotHolds(b.rows, game);
  }

  lemma RefundedKeepsPot(b: Books, b': Books, owed: seq<RefundLeg>, game: string)
    requires Escrow(game) in b.accounts && RefundedFirst(b, b', owed, game, |owed|)
    requires b.accounts[Escrow(game)].balance == SumRefunds(owed)
    ensures Sound(b') && PotsSound(b'.rows) && Escrow(game) in b'.accounts
    ensures b'.accounts[Escrow(game)].balance == 0
    ensures PaidOut(b'.rows, game) <==> PaidOut(b.rows, game)
  {
    hide Sound, PotsSound, PaidOut;
    assert owed[..|owed|] == owed;
  }

  lemma CancelCommitted(db: Db, game: string)
    requires Sound(db.books) && PotsSound(db.books.rows) && Committed(db) && Cancel(db, game).Ok?
    ensures Committed(Cancel(db, game).value.0)
  {
    hide Sound, PotsSound, Cancel, StakesValid, WithdrawalsValid, PaidOut;
    CancelKeeps(db, game);
    var (db', c) := Cancel(db, game).value;
    if Escrow(game) in db.books.accounts {
      assert c.refunds[..|c.refunds|] == c.refunds;
      OwedDistinct(db.books.rows, game);
      RefundsNonNegative(c.refunds);
      forall u ensures CommittedUser(db', u) {
        assert CommittedUser(db, u) && RefundedUser(db.books, db'.books, c.refunds, u);
      }
    } else {
      forall u ensures CommittedUser(db', u) { assert CommittedUser(db, u); }
    }
  }

  // Any number of further cancels moves nothing.
  lemma CancelAgain(db: Db, game: string)
    requires Sound(db.books) && PotsSound(db.books.rows) && Cancel(db, game).Ok?
    ensures var db' := Cancel(db, game).value.0;
            && Cancel(db', game).Ok?
            && Cancel(db', game).value.0 == db'
            && Cancel(db', game).value.1.refunds == [] && Cancel(db', game).value.1.total == 0
            && !Cancel(db', game).value.1.cancelled
  {
    hide Sound, PotsSound, RefundedFirst, PaidOut, OwedFor;
    CancelKeeps(db, game);
    var db' := Cancel(db, game).value.0;
    assert db'.games[game := Cancelled] == db'.games;
    CancelKeeps(db', game);
  }

  // ---- Cancelling undoes consuming -----------------------------------------

  function Legs(rows: seq<Reservation>): seq<RefundLeg> {
    if rows == [] then []
    else Legs(rows[..|rows| - 1]) + [RefundLeg(rows[|rows| - 1].user, rows[|rows| - 1].lamports)]
  }

  lemma {:induction false} LegsAmounts(rows: seq<Reservation>)
    ensures |Legs(rows)| == |rows| && SumRefunds(Legs(rows)) == SumStakes(rows)
    ensures forall u :: RefundsOf(Legs(rows), u) == StakesOf(rows, u)
  {
    if rows != [] {
      var front := rows[..|rows| - 1];
      LegsAmounts(front);
      assert Legs(rows)[..|Legs(rows)| - 1] == Legs(front);
    }
  }

  lemma StakesArePositive(rows: seq<Reservation>)
    requires StakesValid(rows)
    ensures forall k :: 0 <= k < |rows| ==> rows[k].lamports > 0
  {
  }

  predicate Unused(rows: seq<Row>, game: string, u: string) {
    && !HasKey(rows, Stake(game, u)) && !HasKey(rows, StakeEscrow(game, u)) && !HasKey(rows, RefundEscrow(game, u))
  }

  lemma UnusedAtFirst(b: Books, rows: seq<Reservation>, game: string, k: nat)
    requires k < |rows| && FreshStakes(b, rows, game) && !HasKey(b.rows, RefundEscrow(game, rows[k].user))
    ensures Unused(b.rows, game, rows[k].user)
  {
    hide HasKey;
  }

  lemma LegsSnoc(rows: seq<Reservation>, n: nat)
    requires n < |rows|
    ensures Legs(rows[..n + 1]) == Legs(rows[..n]) + [RefundLeg(rows[n].user, rows[n].lamports)]
  {
    assert rows[..n + 1][..n] == rows[..n];
  }

  // The rows of the first `n` stakes, seen by the pots.
  lemma {:induction false} StakesOwed(
      b: Books, b': Books, rows: seq<Reservation>, game: string, group: nat, n: nat, prefix: seq<Row>)
    requires n <= |rows| && Escrow(game) in b.accounts && ConsumedFirst(b, b', rows, game, group, |rows|)
    requires StakesValid(rows) && DistinctUsers(rows) && FreshStakes(b, rows, game)
    requires PotsSound(b.rows)
    requires forall k :: 0 <= k < |rows| ==> !HasKey(b.rows, RefundEscrow(game, rows[k].user))
    requires prefix == b'.rows[..|b.rows| + 2 * n]
    ensures PotsSound(prefix)
    ensures OwedFor(prefix, game) == OwedFor(b.rows, game) + Legs(rows[..n])
    ensures PaidOut(prefix, game) <==> PaidOut(b.rows, game)
    ensures forall k :: n <= k < |rows| ==> Unused(prefix, game, rows[k].user)
  {
    hide Sound, PotsSound, HasKey, OwedFor, PaidOut, ConsumedFirst, Unused, StakesValid, FreshStakes, DistinctUsers;
    StakesArePositive(rows);
    if n == 0 {
      RowsStay(b, b', rows, game, group);
      assert rows[..0] == [];
      forall k | 0 <= k < |rows| ensures Unused(prefix, game, rows[k].user) { UnusedAtFirst(b, rows, game, k); }
    } else {
      hide Legs;
      var at := |b.rows| + 2 * (n - 1);
      PairAt(b, b', rows, game, group, n);
      var before := b'.rows[..at];
      StakesOwed(b, b', rows, game, group, n - 1, before);
      LegsSnoc(rows, n - 1);
      NextOwed(before, b'.rows[at], b'.rows[at + 1], rows, n - 1, game, group + n - 1);
    }
  }

  lemma RowsStay(b: Books, b': Books, rows: seq<Reservation>, game: string, group: nat)
    requires Escrow(game) in b.accounts && ConsumedFirst(b, b', rows, game, group, |rows|)
    ensures |b.rows| <= |b'.rows| && b'.rows[..|b.rows|] == b.rows
  {
  }

  lemma PairAt(b: Books, b': Books, rows: seq<Reservation>, game: string, group: nat, n: nat)
    requires 0 < n <= |rows| && Escrow(game) in b.accounts && ConsumedFirst(b, b', rows, game, group, |rows|)
    ensures var at := |b.rows| + 2 * (n - 1);
            && at + 1 < |b'.rows| && b'.rows[..at + 2] == (b'.rows[..at] + [b'.rows[at]]) + [b'.rows[at + 1]]
            && b'.rows[at] == DebitRow(StakeMove(rows[n - 1], game, group + n - 1)).(balanceAfter := b'.rows[at].balanceAfter)
            && b'.rows[at + 1] == CreditRow(StakeMove(rows[n - 1], game, group + n - 1)).(balanceAfter := b'.rows[at + 1].balanceAfter)
  {
    assert StakeRowsAt(b'.rows, |b.rows| + 2 * (n - 1), rows[n - 1], game, group + (n - 1));
  }

  // One stake's pair of rows, seen by the pots.
  lemma NextOwed(before: seq<Row>, d: Row, c: Row, rows: seq<Reservation>, n: nat, game: string, group: nat)
    requires n < |rows| && DistinctUsers(rows) && rows[n].lamports > 0 && PotsSound(before)
    requires forall k :: n <= k < |rows| ==> Unused(before, game, rows[k].user)
    requires d == DebitRow(StakeMove(rows[n], game, group)).(balanceAfter := d.balanceAfter)
    requires c == CreditRow(StakeMove(rows[n], game, group)).(balanceAfter := c.balanceAfter)
    ensures var prefix := (before + [d]) + [c];
            && PotsSound(prefix) && (PaidOut(prefix, game) <==> PaidOut(before, game))
            && OwedFor(prefix, game) == OwedFor(before, game) + [RefundLeg(rows[n].user, rows[n].lamports)]
            && forall k :: n < k < |rows| ==> Unused(prefix, game, rows[k].user)
  {
    hide PotsSound, OwedFor, PaidOut, Unused;
    PairOwed(before, d, c, rows[n], game, group);
    forall k | n < k < |rows| ensures Unused((before + [d]) + [c], game, rows[k].user) {
      assert Unused(before, game, rows[k].user);
      UnusedAfterPair(before, d, c, game, rows[n].user, rows[k].user);
    }
  }

  lemma PairOwed(before: seq<Row>, d: Row, c: Row, s: Reservation, game: string, group: nat)
    requires PotsSound(before) && Unused(before, game, s.user) && s.lamports > 0
    requires d == DebitRow(StakeMove(s, game, group)).(balanceAfter := d.balanceAfter)
    requires c == CreditRow(StakeMove(s, game, group)).(balanceAfter := c.balanceAfter)
    ensures PotsSound((before + [d]) + [c])
    ensures OwedFor((before + [d]) + [c], game) == OwedFor(before, game) + [RefundLeg(s.user, s.lamports)]
    ensures PaidOut((before + [d]) + [c], game) <==> PaidOut(before, game)
  {
    hide PotsSound, HasKey, OwedFor, PaidOut;
    AppendBystander(before, d);
    HasKeySnoc(before, d, c.key);
    HasKeySnoc(before, d, RefundEscrow(game, s.user));
    AppendStake(before + [d], c);
    PaidOutSnoc(before, d, game);
    PaidOutSnoc(before + [d], c, game);
  }

  lemma UnusedAfterPair(before: seq<Row>, d: Row, c: Row, game: string, paid: string, u: string)
    requires Unused(before, game, u) && u != paid && d.key == Stake(game, paid) && c.key == StakeEscrow(game, paid)
    ensures Unused((before + [d]) + [c], game, u)
  {
    hide HasKey;
    forall k | k in {Stake(game, u), StakeEscrow(game, u), RefundEscrow(game, u)}
      ensures !HasKey((before + [d]) + [c], k) {
      HasKeySnoc(before, d, k);
      HasKeySnoc(before + [d], c, k);
    }
  }

  // No refund of this game without a stake of it, so fresh stake keys mean no
  // refund either.
  lemma FreshMeansUnrefunded(rows: seq<Row>, game: string, u: string)
    requires PotsSound(rows) && !HasKey(rows, StakeEscrow(game, u))
    ensures !HasKey(rows, RefundEscrow(game, u))
  {
    hide PotHolds, RowShape;
    forall i | 0 <= i < |rows| ensures rows[i].key != RefundEscrow(game, u) {
      assert RefundMatches(rows, i);
    }
  }

  lemma ConsumePots(db: Db, tier: string, game: string, expected: Option<int>)
    requires Sound(db.books) && Committed(db) && PotsSound(db.books.rows)
    requires Consume(db, tier, game, expected).Ok?
    ensures var db' := Consume(db, tier, game, expected).value.0;
            && PotsSound(db'.books.rows)
            && OwedFor(db'.books.rows, game) == OwedFor(db.books.rows, game) + Legs(InTier(db.stakes, tier))
            && (PaidOut(db'.books.rows, game) <==> PaidOut(db.books.rows, game))
            && db'.games == db.games
  {
    hide Sound, PotsSound, Committed, ConsumeFirst, OwedFor, HasKey, PaidOut;
    ConsumeKeeps(db, tier, game, expected);
    TierIsCovered(db, tier);
    var rows := InTier(db.stakes, tier);
    var db' := Consume(db, tier, game, expected).value.0;
    if rows == [] {
      assert db' == db;
    } else {
      forall k | 0 <= k < |rows| ensures !HasKey(db.books.rows, RefundEscrow(game, rows[k].user)) {
        FreshMeansUnrefunded(db.books.rows, game, rows[k].user);
      }
      assert rows[..|rows|] == rows;
      StakesOwed(db.books, db'.books, rows, game, db.groups, |rows|, db'.books.rows[..|db.books.rows| + 2 * |rows|]);
      assert db'.books.rows[..|db.books.rows| + 2 * |rows|] == db'.books.rows;
    }
  }

  // Consuming a tier into a game and then cancelling it gives every player back
  // exactly the stake it took besides what the game owed already, leaves each
  // reservation at the commitments outside the tier, and empties the escrow.
  lemma CancelUndoesConsume(db: Db, tier: string, game: string, expected: Option<int>)
    requires Sound(db.books) && Committed(db) && PotsSound(db.books.rows)
    requires game in db.games && db.games[game] != Completed
    requires Escrow(game) in db.books.accounts && !PaidOut(db.books.rows, game)
    requires Consume(db, tier, game, expected).Ok?
    ensures var db1 := Consume(db, tier, game, expected).value.0;
            && Cancel(db1, game).Ok?
            && var (db2, c) := Cancel(db1, game).value;
               var owed := OwedFor(db.books.rows, game);
               && c.refunds == owed + Legs(InTier(db.stakes, tier))
               && c.total == SumRefunds(owed) + SumStakes(InTier(db.stakes, tier))
               && Escrow(game) in db2.books.accounts && db2.books.accounts[Escrow(game)].balance == 0
               && (forall u: string :: Restored(db, db2, tier, owed, u))
  {
    hide Sound, PotsSound, Committed, Consume, Cancel, OwedFor, PaidOut, InTier, Restored;
    ConsumePots(db, tier, game, expected);
    ConsumeKeeps(db, tier, game, expected);
    var db1 := Consume(db, tier, game, expected).value.0;
    var rows, owed := InTier(db.stakes, tier), OwedFor(db.books.rows, game);
    EscrowStays(db, db1, tier, game);
    CancelKeeps(db1, game);
    LegsAmounts(rows);
    RefundsJoin(owed, Legs(rows));
    var (db2, c) := Cancel(db1, game).value;
    forall u: string ensures Restored(db, db2, tier, owed, u) {
      RestoredUser(db, db1, db2, tier, game, owed, u);
    }
  }

  lemma {:induction false} RefundsJoin(owed: seq<RefundLeg>, more: seq<RefundLeg>)
    ensures SumRefunds(owed + more) == SumRefunds(owed) + SumRefunds(more)
    ensures forall u: string :: RefundsOf(owed + more, u) == RefundsOf(owed, u) + RefundsOf(more, u)
  {
    if more == [] {
      assert owed + more == owed;
    } else {
      var front := more[..|more| - 1];
      RefundsJoin(owed, front);
      assert (owed + more)[..|owed + more| - 1] == owed + front;
    }
  }

  // Balance as before the stakes were taken, besides what was owed; reserved
  // without this tier's stakes.
  predicate Restored(db: Db, db2: Db, tier: string, owed: seq<RefundLeg>, u: string) {
    Custody(u) in db.books.accounts ==>
      && Custody(u) in db2.books.accounts
      && var a := db.books.accounts[Custody(u)];
         db2.books.accounts[Custody(u)] ==
           Account(a.balance + RefundsOf(owed, u), a.reserved - StakesOf(InTier(db.stakes, tier), u))
  }

  lemma EscrowStays(db: Db, db1: Db, tier: string, game: string)
    requires Escrow(game) in db.books.accounts
    requires var rows := InTier(db.stakes, tier);
             if rows == [] then db1.books == db.books
             else ConsumedFirst(db.books, db1.books, rows, game, db.groups, |rows|)
    ensures Escrow(game) in db1.books.accounts
  {
  }

  lemma NoStakes(u: string)
    ensures StakesOf([], u) == 0
  {
  }

  lemma RestoredUser(db: Db, db1: Db, db2: Db, tier: string, game: string, owed: seq<RefundLeg>, u: string)
    requires Escrow(game) in db.books.accounts && Escrow(game) in db1.books.accounts
    requires var rows := InTier(db.stakes, tier);
             && (if rows == [] then db1.books == db.books
                 else ConsumedFirst(db.books, db1.books, rows, game, db.groups, |rows|))
             && RefundedFirst(db1.books, db2.books, owed + Legs(rows), game, |owed + Legs(rows)|)
    requires RefundsOf(owed + Legs(InTier(db.stakes, tier)), u) == RefundsOf(owed, u) + StakesOf(InTier(db.stakes, tier), u)
    ensures Restored(db, db2, tier, owed, u)
  {
    hide Sound, PotsSound, InTier, PaidOut, Staked, Settled, SumRefunds, SumStakes, StakesOf, RefundsOf;
    var rows := InTier(db.stakes, tier);
    var refunds := owed + Legs(rows);
    NoStakes(u);
    assert refunds[..|refunds|] == refunds;
    assert RefundedUser(db1.books, db2.books, refunds, u);
    hide RefundedFirst;
    if rows != [] && Custody(u) in db.books.accounts {
      assert rows[..|rows|] == rows;
      assert ConsumedUser(db.books, db1.books, rows, u);
    }
  }
}
