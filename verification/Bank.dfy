// The money tables as mutable state. A transaction works on copies and commits
// them at the end, so an error leaves every table as it was.
module Bank {
  import opened Options
  import opened Ledger
  import opened Stakes
  import opened Refunds
  import opened CustodyFlows

  class Database {
    var accounts: map<AccountId, Account>
    var rows: seq<Row>
    var stakes: seq<Reservation>
    var withdrawals: seq<Withdrawal>
    var deposits: seq<Deposit>
    var games: map<string, GameStatus>
    var groups: nat

    ghost function View(): Db
      reads this
    {
      Db(Books(accounts, rows), stakes, withdrawals, deposits, games, groups)
    }

    method GetOrCreateCustody(user: string) returns (account: Account)
      modifies this`accounts
      ensures View() == old(View()).(books := WithCustody(old(View()).books, user))
      ensures Custody(user) in accounts && account == accounts[Custody(user)]
    {
      if Custody(user) !in accounts { accounts := accounts[Custody(user) := Account(0, 0)]; }
      account := accounts[Custody(user)];
    }

    method ReserveEntryFee(user: string, tier: string, lamports: int) returns (r: Result<Reserved, MoneyError>)
      modifies this`accounts, this`stakes
      ensures (View(), r) == Reserve(old(View()), user, tier, lamports)
    {
      if lamports < 0 { return Err(NegativeFee); }
      var account := GetOrCreateCustody(user);
      if lamports == 0 { return Ok(Reserved(0, false, Spendable(account))); }
      var i := FindStake(stakes, user, tier);
      if i < |stakes| { return Ok(Reserved(stakes[i].lamports, true, Spendable(account))); }
      var available := Spendable(account);
      if available < lamports { return Err(InsufficientBalance(lamports, available)); }
      accounts := accounts[Custody(user) := account.(reserved := account.reserved + lamports)];
      stakes := stakes + [Reservation(user, tier, lamports)];
      return Ok(Reserved(lamports, false, available - lamports));
    }

    method ReleaseEntryFee(user: string, tier: string) returns (released: int)
      modifies this`accounts, this`stakes
      ensures (View(), released) == Release(old(View()), user, tier)
    {
      var i := FindStake(stakes, user, tier);
      if i == |stakes| { return 0; }
      released := stakes[i].lamports;
      if Custody(user) in accounts {
        var custody := accounts[Custody(user)];
        var next := if custody.reserved > released then custody.reserved - released else 0;
        accounts := accounts[Custody(user) := custody.(reserved := next)];
      }
      stakes := stakes[..i] + stakes[i + 1..];
    }

    // Each leg moves its account at once; any refusal undoes the earlier ones.
    method PostLedgerEntry(e: Entry) returns (r: Result<(), LedgerError>)
      modifies this`accounts, this`rows
      ensures var spec := PostEntry(old(View()).books, e);
              if spec.Ok? then r.Ok? && View() == old(View()).(books := spec.value)
              else r == Err(spec.error) && View() == old(View())
    {
      var balanced := AssertBalanced(e.legs);
      if balanced.Err? { return Err(balanced.error); }
      var accounts', rows' := accounts, rows;
      for i := 0 to |e.legs|
        invariant PostLegs(Books(accounts, rows), e, i) == Ok(Books(accounts', rows'))
      {
        var leg := e.legs[i];
        ghost var step := PostLegs(Books(accounts, rows), e, i + 1);
        if leg.account !in accounts' {
          LegsAfterErr(Books(accounts, rows), e, i + 1, |e.legs|);
          return Err(AccountMissing);
        }
        var delta := if leg.direction == Credit then leg.amount else -leg.amount;
        var next := accounts'[leg.account].balance + delta;
        if next < 0 && !MayGoNegative(leg.account) {
          LegsAfterErr(Books(accounts, rows), e, i + 1, |e.legs|);
          return Err(InsufficientFunds);
        }
        if HasKey(rows', Indexed(e.base, i)) {
          LegsAfterErr(Books(accounts, rows), e, i + 1, |e.legs|);
          return Err(AlreadyPosted);
        }
        accounts' := accounts'[leg.account := accounts'[leg.account].(balance := next)];
        rows' := rows' + [Row(e.group, e.kind, leg.direction, leg.amount, next, leg.user, leg.account, e.game,
                              Indexed(e.base, i))];
      }
      accounts, rows := accounts', rows';
      return Ok(());
    }

    // The escrow's balance is carried in a local through the loop and written
    // once at the end.
    method ConsumeReservations(tier: string, game: string, expected: Option<int>)
      returns (r: Result<Consumed, MoneyError>)
      modifies this`accounts, this`rows, this`stakes, this`groups
      ensures var spec := Consume(old(View()), tier, game, expected);
              if spec.Ok? then (View(), r) == (spec.value.0, Ok(spec.value.1))
              else r == Err(spec.error) && View() == old(View())
    {
      hide Move, ConsumeFirst, Deferred, HasKey, InTier, NotInTier;
      ghost var db := View();
      var found := InTier(stakes, tier);
      if expected.Some? {
        var staked := StakedTotal(found);
        if staked != expected.value { return Err(StakeMismatch(staked, expected.value)); }
      }
      if found == [] { return Ok(Consumed(0, 0)); }
      if Escrow(game) !in accounts { return Err(EscrowMissing); }
      var escrow := accounts[Escrow(game)];
      var escrowBalance := escrow.balance;
      var total, consumed := 0, 0;
      var accounts', rows' := accounts, rows;
      ghost var start := db.books;
      DeferredStart(start, found, game, groups);
      hide Consume;
      for i := 0 to |found|
        invariant View() == db
        invariant Deferred(start, found, game, groups, i, accounts', rows', escrow, escrowBalance)
        invariant consumed == |Funded(start, found[..i])| && total == SumStakes(Funded(start, found[..i]))
      {
        hide *;
        assert found[..i + 1] == found[..i] + [found[i]];
        var row := found[i];
        DeferredKeys(start, found, game, groups, i, accounts', rows', escrow, escrowBalance);
        if Custody(row.user) in accounts' {
          var custody := accounts'[Custody(row.user)];
          DeferredStep(start, found, game, groups, i, accounts', rows', escrow, escrowBalance);
          if custody.balance < row.lamports {
            ConsumeFails(db, tier, game, expected, i + 1);
            return Err(StakeExceedsBalance(row.user));
          }
          if HasKey(rows', Stake(game, row.user)) || HasKey(rows', StakeEscrow(game, row.user)) {
            ConsumeFails(db, tier, game, expected, i + 1);
            return Err(DuplicateKey);
          }
          var custodyAfter := custody.balance - row.lamports;
          var reservedAfter := Less(custody.reserved, row.lamports);
          escrowBalance := escrowBalance + row.lamports;
          accounts' := accounts'[Custody(row.user) := Account(custodyAfter, reservedAfter)];
          rows' := rows' + [
            Row(groups + i, EntryFee, Debit, row.lamports, custodyAfter, Some(row.user), Custody(row.user), Some(game),
                Stake(game, row.user)),
            Row(groups + i, EntryFee, Credit, row.lamports, escrowBalance, Some(row.user), Escrow(game), Some(game),
                StakeEscrow(game, row.user))];
          FundedSnoc(start, found[..i], row);
          total := total + row.lamports;
          consumed := consumed + 1;
        } else {
          DeferredSkip(start, found, game, groups, i, accounts', rows', escrow, escrowBalance);
        }
      }
      assert found[..|found|] == found;
      DeferredEnd(start, found, game, groups, accounts', rows', escrow, escrowBalance);
      ConsumeSucceeds(db, tier, game, expected);
      accounts := accounts'[Escrow(game) := escrow.(balance := escrowBalance)];
      rows := rows';
      stakes := NotInTier(stakes, tier);
      groups := groups + |found|;
      return Ok(Consumed(consumed, total));
    }

    method CancelGameAndRefund(game: string) returns (r: Result<Cancellation, MoneyError>)
      modifies this`accounts, this`rows, this`games, this`groups
      ensures var spec := Cancel(old(View()), game);
              if spec.Ok? then (View(), r) == (spec.value.0, Ok(spec.value.1))
              else r == Err(spec.error) && View() == old(View())
    {
      hide Move, PaidOut, RefundFirst, DeferredRefunds, HasKey, Staked, Settled;
      ghost var db := View();
      if game !in games { return Err(GameNotFound); }
      if games[game] == Completed { return Err(AlreadySettled); }
      var first := games[game] != Cancelled;
      if Escrow(game) !in accounts {
        games := games[game := Cancelled];
        return Ok(Cancellation(first, [], 0, 0));
      }
      var escrow := accounts[Escrow(game)];
      if PaidOut(rows, game) { return Err(AlreadySettled); }
      var staked := Staked(rows, game);
      var alreadyRefunded := Settled(rows, game);
      var owed: seq<RefundLeg> := [];
      for i := 0 to |staked|
        invariant View() == db
        invariant owed == Owed(staked[..i], alreadyRefunded)
      {
        assert staked[..i + 1][..i] == staked[..i];
        if staked[i].user.Some? && staked[i].lamports > 0 && staked[i].user !in alreadyRefunded {
          owed := owed + [RefundLeg(staked[i].user.value, staked[i].lamports)];
        }
      }
      assert staked[..|staked|] == staked;
      var total := RefundTotal(owed);
      if total > escrow.balance { return Err(RefundShortfall(total, escrow.balance)); }
      var escrowBalance := escrow.balance;
      var accounts', rows' := accounts, rows;
      ghost var start := db.books;
      assert owed == OwedFor(start.rows, game);
      DeferredRefundsStart(start, owed, game, groups);
      hide Cancel;
      for i := 0 to |owed|
        invariant View() == db
        invariant DeferredRefunds(start, owed, game, groups, i, accounts', rows', escrow, escrowBalance)
      {
        var leg := owed[i];
        DeferredRefund(start, owed, game, groups, i, accounts', rows', escrow, escrowBalance);
        if HasKey(rows', RefundEscrow(game, leg.user)) || HasKey(rows', RefundCustody(game, leg.user)) {
          CancelFails(db, game, i + 1);
          return Err(DuplicateKey);
        }
        var custody := if Custody(leg.user) in accounts' then accounts'[Custody(leg.user)] else Account(0, 0);
        escrowBalance := escrowBalance - leg.lamports;
        var custodyAfter := custody.balance + leg.lamports;
        accounts' := accounts'[Custody(leg.user) := custody.(balance := custodyAfter)];
        rows' := rows' + [
          Row(groups + i, Refund, Debit, leg.lamports, escrowBalance, Some(leg.user), Escrow(game), Some(game),
              RefundEscrow(game, leg.user)),
          Row(groups + i, Refund, Credit, leg.lamports, custodyAfter, Some(leg.user), Custody(leg.user), Some(game),
              RefundCustody(game, leg.user))];
      }
      DeferredRefundsEnd(start, owed, game, groups, accounts', rows', escrow, escrowBalance);
      CancelSucceeds(db, game);
      if |owed| > 0 { accounts' := accounts'[Escrow(game) := escrow.(balance := escrowBalance)]; }
      accounts, rows := accounts', rows';
      games := games[game := Cancelled];
      groups := groups + |owed|;
      return Ok(Cancellation(first, owed, total, |alreadyRefunded|));
    }

    method GiveBack(user: string, amount: int)
      modifies this`accounts
      ensures View() == ReleaseReservation(old(View()), user, amount)
    {
      if Custody(user) !in accounts { return; }
      var next := accounts[Custody(user)].reserved - amount;
      accounts := accounts[Custody(user) := accounts[Custody(user)].(reserved := if next > 0 then next else 0)];
    }

    // The write budget is the point at which the process dies.
    method ConfirmWithdrawalFlow(user: string, id: nat, signature: string, chain: Chain, writes: nat)
      returns (c: Confirmation)
      modifies this
      ensures (View(), c) == ConfirmWithdrawal(old(View()), user, id, signature, chain, writes)
    {
      if id >= |withdrawals| || withdrawals[id].user != user { return Refused; }
      var w := withdrawals[id];
      if w.status == WithdrawalConfirmed { return Confirmed; }
      if w.status != Approved && w.status != Submitted { return Refused; }
      if SignatureTaken(withdrawals, signature, id) { return Refused; }
      if chain.Invisible? {
        if writes == 0 { return Crashed; }
        withdrawals := withdrawals[id := w.(status := Submitted, signature := Some(signature))];
        return Waiting;
      }
      if chain.Invalid? {
        if writes == 0 { return Crashed; }
        withdrawals := withdrawals[id := w.(status := WithdrawalFailed)];
        if writes == 1 { return Crashed; }
        GiveBack(user, w.amount);
        return Failed;
      }
      var _ := GetOrCreateCustody(user);
      if External !in accounts || Treasury !in accounts { return Refused; }
      if writes == 0 { return Crashed; }
      var legs := [EntryLeg(Custody(user), Some(user), Debit, w.amount), EntryLeg(External, None, Credit, w.amount - w.fee)];
      if w.fee > 0 { legs := legs + [EntryLeg(Treasury, None, Credit, w.fee)]; }
      assert legs == WithdrawalLegs(w);
      var posted := PostLedgerEntry(Entry(WithdrawalEntry, legs, WithdrawalKey(id), groups, None));
      if posted.Err? && posted.error != AlreadyPosted { return Refused; }
      groups := groups + 1;
      if writes == 1 { return Crashed; }
      GiveBack(user, w.amount);
      if writes == 2 { return Crashed; }
      withdrawals := withdrawals[id := w.(status := WithdrawalConfirmed, signature := Some(signature))];
      return Confirmed;
    }

    method ConfirmDepositFlow(user: string, id: nat, signature: string, chain: Chain, writes: nat)
      returns (c: Confirmation)
      modifies this
      ensures (View(), c) == ConfirmDeposit(old(View()), user, id, signature, chain, writes)
    {
      if id >= |deposits| || deposits[id].user != user { return Refused; }
      var d := deposits[id];
      if d.status == DepositConfirmed { return Confirmed; }
      if d.status != DepositPending { return Refused; }
      if DepositSignatureTaken(deposits, signature, id) { return Refused; }
      if chain.Invisible? { return Waiting; }
      if chain.Invalid? {
        if writes == 0 { return Crashed; }
        deposits := deposits[id := d.(status := DepositFailed)];
        return Failed;
      }
      var _ := GetOrCreateCustody(user);
      if External !in accounts { return Refused; }
      if writes == 0 { return Crashed; }
      var posted := PostLedgerEntry(
        Entry(DepositEntry, DepositLegs(user, chain.observed), DepositKey(id), groups, None));
      if posted.Err? && posted.error != AlreadyPosted { return Refused; }
      groups := groups + 1;
      if writes == 1 { return Crashed; }
      deposits := deposits[id := d.(status := DepositConfirmed, signature := Some(signature))];
      return Confirmed;
    }
  }

  method StakedTotal(rows: seq<Reservation>) returns (total: int)
    ensures total == SumStakes(rows)
  {
    total := 0;
    for i := 0 to |rows|
      invariant total == SumStakes(rows[..i])
    {
      assert rows[..i + 1][..i] == rows[..i];
      total := total + rows[i].lamports;
    }
    assert rows[..|rows|] == rows;
  }

  method RefundTotal(owed: seq<RefundLeg>) returns (total: int)
    ensures total == SumRefunds(owed)
  {
    total := 0;
    for i := 0 to |owed|
      invariant total == SumRefunds(owed[..i])
    {
      assert owed[..i + 1][..i] == owed[..i];
      total := total + owed[i].lamports;
    }
    assert owed[..|owed|] == owed;
  }

  // The deferred-write state after `i` stakes: the books of the leg-by-leg form,
  // except that the escrow account still shows its opening balance.
  ghost predicate Deferred(start: Books, found: seq<Reservation>, game: string, group: nat, i: nat,
                           accounts: map<AccountId, Account>, rows: seq<Row>, escrow: Account, escrowBalance: int)
  {
    && i <= |found| && Escrow(game) in start.accounts && escrow == start.accounts[Escrow(game)]
    && accounts.Keys == start.accounts.Keys && accounts[Escrow(game)] == escrow
    && ConsumeFirst(start, found, game, group, i) ==
         Ok(Books(accounts[Escrow(game) := escrow.(balance := escrowBalance)], rows))
  }

  lemma DeferredStart(start: Books, found: seq<Reservation>, game: string, group: nat)
    requires Escrow(game) in start.accounts
    ensures var escrow := start.accounts[Escrow(game)];
            Deferred(start, found, game, group, 0, start.accounts, start.rows, escrow, escrow.balance)
  {
    var escrow := start.accounts[Escrow(game)];
    assert start.accounts[Escrow(game) := escrow.(balance := escrow.balance)] == start.accounts;
  }

  lemma DeferredKeys(start: Books, found: seq<Reservation>, game: string, group: nat, i: nat,
                     accounts: map<AccountId, Account>, rows: seq<Row>, escrow: Account, escrowBalance: int)
    requires Deferred(start, found, game, group, i, accounts, rows, escrow, escrowBalance)
    ensures accounts.Keys == start.accounts.Keys && Escrow(game) in start.accounts
  {
  }

  lemma DeferredEnd(start: Books, found: seq<Reservation>, game: string, group: nat,
                    accounts: map<AccountId, Account>, rows: seq<Row>, escrow: Account, escrowBalance: int)
    requires Deferred(start, found, game, group, |found|, accounts, rows, escrow, escrowBalance)
    ensures Escrow(game) in start.accounts
    ensures ConsumeFirst(start, found, game, group, |found|) ==
              Ok(Books(accounts[Escrow(game) := escrow.(balance := escrowBalance)], rows))
  {
  }

  lemma DeferredStep(start: Books, found: seq<Reservation>, game: string, group: nat, i: nat,
                     accounts: map<AccountId, Account>, rows: seq<Row>, escrow: Account, escrowBalance: int)
    requires Deferred(start, found, game, group, i, accounts, rows, escrow, escrowBalance) && i < |found|
    requires Custody(found[i].user) in accounts
    ensures var s := found[i];
            var c := accounts[Custody(s.user)];
            var next := ConsumeFirst(start, found, game, group, i + 1);
            if c.balance < s.lamports then next == Err(StakeExceedsBalance(s.user))
            else if HasKey(rows, Stake(game, s.user)) || HasKey(rows, StakeEscrow(game, s.user)) then
              next == Err(DuplicateKey)
            else
              Deferred(start, found, game, group, i + 1,
                accounts[Custody(s.user) := Account(c.balance - s.lamports, Less(c.reserved, s.lamports))],
                rows + [
                  Row(group + i, EntryFee, Debit, s.lamports, c.balance - s.lamports, Some(s.user), Custody(s.user),
                      Some(game), Stake(game, s.user)),
                  Row(group + i, EntryFee, Credit, s.lamports, escrowBalance + s.lamports, Some(s.user), Escrow(game),
                      Some(game), StakeEscrow(game, s.user))],
                escrow, escrowBalance + s.lamports)
  {
    hide HasKey;
    var s := found[i];
    var c := accounts[Custody(s.user)];
    var mid := Books(accounts[Escrow(game) := escrow.(balance := escrowBalance)], rows);
    assert ConsumeFirst(start, found, game, group, i + 1) == ConsumeOne(mid, s, game, group + i);
    if ConsumeOne(mid, s, game, group + i).Ok? {
      var after := ConsumeOne(mid, s, game, group + i).value;
      var accounts' := accounts[Custody(s.user) := Account(c.balance - s.lamports, Less(c.reserved, s.lamports))];
      assert after.accounts == accounts'[Escrow(game) := escrow.(balance := escrowBalance + s.lamports)];
      assert after.rows == rows + [
        Row(group + i, EntryFee, Debit, s.lamports, c.balance - s.lamports, Some(s.user), Custody(s.user),
            Some(game), Stake(game, s.user)),
        Row(group + i, EntryFee, Credit, s.lamports, escrowBalance + s.lamports, Some(s.user), Escrow(game),
            Some(game), StakeEscrow(game, s.user))];
    }
  }

  lemma DeferredSkip(start: Books, found: seq<Reservation>, game: string, group: nat, i: nat,
                     accounts: map<AccountId, Account>, rows: seq<Row>, escrow: Account, escrowBalance: int)
    requires Deferred(start, found, game, group, i, accounts, rows, escrow, escrowBalance) && i < |found|
    requires Custody(found[i].user) !in accounts
    ensures Deferred(start, found, game, group, i + 1, accounts, rows, escrow, escrowBalance)
    ensures Funded(start, found[..i + 1]) == Funded(start, found[..i])
  {
    assert found[..i + 1][..i] == found[..i];
  }

  lemma FundedSnoc(b: Books, rows: seq<Reservation>, s: Reservation)
    requires Custody(s.user) in b.accounts
    ensures Funded(b, rows + [s]) == Funded(b, rows) + [s]
    ensures SumStakes(Funded(b, rows + [s])) == SumStakes(Funded(b, rows)) + s.lamports
  {
    assert (rows + [s])[..|rows|] == rows;
    assert (Funded(b, rows) + [s])[..|Funded(b, rows)|] == Funded(b, rows);
  }

  lemma ConsumeFails(db: Db, tier: string, game: string, expected: Option<int>, n: nat)
    requires var rows := InTier(db.stakes, tier);
             && (expected.Some? ==> SumStakes(rows) == expected.value)
             && n <= |rows| && rows != [] && Escrow(game) in db.books.accounts
             && ConsumeFirst(db.books, rows, game, db.groups, n).Err?
    ensures Consume(db, tier, game, expected) ==
              Err(ConsumeFirst(db.books, InTier(db.stakes, tier), game, db.groups, n).error)
  {
    hide ConsumeFirst;
    var rows := InTier(db.stakes, tier);
    StaysErr(db.books, rows, game, db.groups, n, |rows|);
  }

  lemma ConsumeSucceeds(db: Db, tier: string, game: string, expected: Option<int>)
    requires var rows := InTier(db.stakes, tier);
             && (expected.Some? ==> SumStakes(rows) == expected.value)
             && rows != [] && Escrow(game) in db.books.accounts
             && ConsumeFirst(db.books, rows, game, db.groups, |rows|).Ok?
    ensures var rows := InTier(db.stakes, tier);
            var books := ConsumeFirst(db.books, rows, game, db.groups, |rows|).value;
            var paid := Funded(db.books, rows);
            Consume(db, tier, game, expected) ==
              Ok((db.(books := books, stakes := NotInTier(db.stakes, tier), groups := db.groups + |rows|),
                  Consumed(|paid|, SumStakes(paid))))
  {
    hide ConsumeFirst;
  }

  ghost predicate DeferredRefunds(start: Books, owed: seq<RefundLeg>, game: string, group: nat, i: nat,
                                  accounts: map<AccountId, Account>, rows: seq<Row>, escrow: Account, escrowBalance: int)
  {
    && i <= |owed| && Escrow(game) in start.accounts && escrow == start.accounts[Escrow(game)]
    && Escrow(game) in accounts && accounts[Escrow(game)] == escrow
    && (i == 0 ==> escrowBalance == escrow.balance)
    && RefundFirst(start, owed, game, group, i) ==
         Ok(Books(accounts[Escrow(game) := escrow.(balance := escrowBalance)], rows))
  }

  lemma DeferredRefundsStart(start: Books, owed: seq<RefundLeg>, game: string, group: nat)
    requires Escrow(game) in start.accounts
    ensures var escrow := start.accounts[Escrow(game)];
            DeferredRefunds(start, owed, game, group, 0, start.accounts, start.rows, escrow, escrow.balance)
  {
    var escrow := start.accounts[Escrow(game)];
    assert start.accounts[Escrow(game) := escrow.(balance := escrow.balance)] == start.accounts;
  }

  lemma DeferredRefundsEnd(start: Books, owed: seq<RefundLeg>, game: string, group: nat,
                           accounts: map<AccountId, Account>, rows: seq<Row>, escrow: Account, escrowBalance: int)
    requires DeferredRefunds(start, owed, game, group, |owed|, accounts, rows, escrow, escrowBalance)
    ensures Escrow(game) in start.accounts
    ensures RefundFirst(start, owed, game, group, |owed|) ==
              Ok(Books(if |owed| > 0 then accounts[Escrow(game) := escrow.(balance := escrowBalance)] else accounts, rows))
  {
    if |owed| == 0 {
      assert accounts[Escrow(game) := escrow.(balance := escrowBalance)] == accounts;
    }
  }

  lemma DeferredRefund(start: Books, owed: seq<RefundLeg>, game: string, group: nat, i: nat,
                       accounts: map<AccountId, Account>, rows: seq<Row>, escrow: Account, escrowBalance: int)
    requires DeferredRefunds(start, owed, game, group, i, accounts, rows, escrow, escrowBalance) && i < |owed|
    ensures var leg := owed[i];
            var c := if Custody(leg.user) in accounts then accounts[Custody(leg.user)] else Account(0, 0);
            var next := RefundFirst(start, owed, game, group, i + 1);
            if HasKey(rows, RefundEscrow(game, leg.user)) || HasKey(rows, RefundCustody(game, leg.user)) then
              next == Err(DuplicateKey)
            else
              DeferredRefunds(start, owed, game, group, i + 1,
                accounts[Custody(leg.user) := c.(balance := c.balance + leg.lamports)],
                rows + [
                  Row(group + i, Refund, Debit, leg.lamports, escrowBalance - leg.lamports, Some(leg.user),
                      Escrow(game), Some(game), RefundEscrow(game, leg.user)),
                  Row(group + i, Refund, Credit, leg.lamports, c.balance + leg.lamports, Some(leg.user),
                      Custody(leg.user), Some(game), RefundCustody(game, leg.user))],
                escrow, escrowBalance - leg.lamports)
  {
    hide HasKey;
    var leg := owed[i];
    var c := if Custody(leg.user) in accounts then accounts[Custody(leg.user)] else Account(0, 0);
    var mid := Books(accounts[Escrow(game) := escrow.(balance := escrowBalance)], rows);
    assert RefundFirst(start, owed, game, group, i + 1) == RefundOne(mid, leg, game, group + i);
    if RefundOne(mid, leg, game, group + i).Ok? {
      var after := RefundOne(mid, leg, game, group + i).value;
      var accounts' := accounts[Custody(leg.user) := c.(balance := c.balance + leg.lamports)];
      assert after.accounts == accounts'[Escrow(game) := escrow.(balance := escrowBalance - leg.lamports)];
      assert after.rows == rows + [
        Row(group + i, Refund, Debit, leg.lamports, escrowBalance - leg.lamports, Some(leg.user),
            Escrow(game), Some(game), RefundEscrow(game, leg.user)),
        Row(group + i, Refund, Credit, leg.lamports, c.balance + leg.lamports, Some(leg.user),
            Custody(leg.user), Some(game), RefundCustody(game, leg.user))];
    }
  }

  predicate Refundable(db: Db, game: string) {
    && game in db.games && db.games[game] != Completed && Escrow(game) in db.books.accounts
    && !PaidOut(db.books.rows, game)
    && SumRefunds(OwedFor(db.books.rows, game)) <= db.books.accounts[Escrow(game)].balance
  }

  lemma CancelFails(db: Db, game: string, n: nat)
    requires Refundable(db, game)
    requires var owed := OwedFor(db.books.rows, game);
             n <= |owed| && RefundFirst(db.books, owed, game, db.groups, n).Err?
    ensures Cancel(db, game) == Err(RefundFirst(db.books, OwedFor(db.books.rows, game), game, db.groups, n).error)
  {
    hide RefundFirst, PaidOut, OwedFor;
    var owed := OwedFor(db.books.rows, game);
    RefundStaysErr(db.books, owed, game, db.groups, n, |owed|);
  }

  lemma CancelSucceeds(db: Db, game: string)
    requires Refundable(db, game)
    requires var owed := OwedFor(db.books.rows, game);
             RefundFirst(db.books, owed, game, db.groups, |owed|).Ok?
    ensures var owed := OwedFor(db.books.rows, game);
            var books := RefundFirst(db.books, owed, game, db.groups, |owed|).value;
            Cancel(db, game) ==
              Ok((CancelRow(db.(books := books, groups := db.groups + |owed|), game),
                  Cancellation(db.games[game] != Cancelled, owed, SumRefunds(owed), |Settled(db.books.rows, game)|)))
  {
    hide RefundFirst, PaidOut, OwedFor;
  }

  lemma {:induction false} RefundStaysErr(b: Books, owed: seq<RefundLeg>, game: string, group: nat, n: nat, m: nat)
    requires n <= m <= |owed| && Escrow(game) in b.accounts && RefundFirst(b, owed, game, group, n).Err?
    ensures RefundFirst(b, owed, game, group, m) == RefundFirst(b, owed, game, group, n)
  {
    if n < m { RefundStaysErr(b, owed, game, group, n, m - 1); }
  }
}
