// What the custody flows keep when they run to completion, and exactly what a
// crash between their writes costs.
module CompletedFlows {
  import opened CustodyFlows
  import opened Ledger
  import opened Options
  import opened Stakes

  // A withdrawal that still holds its reservation, or is yet to be requested, has
  // posted nothing.
  ghost predicate Unposted(db: Db) {
    forall id: nat :: Unpaid(db, id) ==> NothingPosted(db, id)
  }

  predicate Unpaid(db: Db, id: nat) {
    id < |db.withdrawals| ==> Holding(db.withdrawals[id].status)
  }

  predicate NothingPosted(db: Db, id: nat) {
    RowsOf(db.books.rows, WithdrawalKey(id)) == []
  }

  predicate SystemAccounts(b: Books) {
    External in b.accounts && Treasury in b.accounts
  }

  // The books between completed operations.
  ghost predicate Settledness(db: Db) {
    Sound(db.books) && Committed(db) && Unposted(db) && SystemAccounts(db.books)
  }

  lemma {:induction false} OpenSplit(ws: seq<Withdrawal>, id: nat, w: Withdrawal, u: string)
    requires id < |ws|
    ensures OpenOf(ws[id := w], u) == OpenOf(ws, u)
              - (if ws[id].user == u && Holding(ws[id].status) then ws[id].amount else 0)
              + (if w.user == u && Holding(w.status) then w.amount else 0)
  {
    if id == |ws| - 1 {
      assert ws[id := w][..id] == ws[..id];
    } else {
      OpenSplit(ws[..|ws| - 1], id, w, u);
      assert ws[id := w][..|ws| - 1] == ws[..|ws| - 1][id := w];
    }
  }

  lemma {:induction false} OpenCovers(ws: seq<Withdrawal>, id: nat)
    requires id < |ws| && WithdrawalsValid(ws) && Holding(ws[id].status)
    ensures OpenOf(ws, ws[id].user) >= ws[id].amount
  {
    OpenSplit(ws, id, ws[id].(status := WithdrawalFailed), ws[id].user);
    OpenNonNegative(ws[id := ws[id].(status := WithdrawalFailed)], ws[id].user);
  }

  // An open withdrawal's owner has the account, and in it the money.
  lemma OpenIsFunded(db: Db, id: nat)
    requires Committed(db) && id < |db.withdrawals| && Holding(db.withdrawals[id].status)
    ensures Custody(db.withdrawals[id].user) in db.books.accounts
    ensures var a := db.books.accounts[Custody(db.withdrawals[id].user)];
            0 < db.withdrawals[id].amount <= a.reserved <= a.balance
  {
    var u := db.withdrawals[id].user;
    assert CommittedUser(db, u);
    OpenCovers(db.withdrawals, id);
    StakesNonNegative(db.stakes, u);
  }

  lemma CreateWithdrawalKeeps(db: Db, user: string, amount: int, bps: int)
    requires Settledness(db)
    ensures var r := CreateWithdrawal(db, user, amount, bps);
            && (r.Ok? <==>
                 && amount >= MIN_WITHDRAWAL && 0 <= bps <= MAX_WITHDRAWAL_FEE_BPS
                 && Custody(user) in db.books.accounts && amount <= Spendable(db.books.accounts[Custody(user)]))
            && (r.Ok? ==> Settledness(r.value.0) && r.value.0.books.rows == db.books.rows &&
                          |r.value.0.withdrawals| == |db.withdrawals| + 1 && r.value.1 == |db.withdrawals|)
  {
    hide Sound, RowsOf;
    var r := CreateWithdrawal(db, user, amount, bps);
    if r.Ok? {
      var db' := r.value.0;
      SplitBounds(amount, bps);
      SetReservedKeeps(db.books, Custody(user), db.books.accounts[Custody(user)].reserved + amount);
      assert db'.withdrawals[..|db.withdrawals|] == db.withdrawals;
      forall u ensures CommittedUser(db', u) { assert CommittedUser(db, u); }
      forall id: nat | Unpaid(db', id) ensures NothingPosted(db', id) {
        assert NothingPosted(db, id);
      }
    }
  }

  // ---- Confirming ----------------------------------------------------------

  // The ledger entry of an open withdrawal always posts: nothing else can have
  // spent the money it reserved.
  lemma WithdrawalPosts(db: Db, id: nat)
    requires Sound(db.books) && Committed(db) && SystemAccounts(db.books)
    requires id < |db.withdrawals| && Holding(db.withdrawals[id].status) && NothingPosted(db, id)
    ensures PostEntry(db.books, WithdrawalPosting(db, id)).Ok?
  {
    hide RowsOf, Consistent, GroupsBalance;
    var w := db.withdrawals[id];
    var e := WithdrawalPosting(db, id);
    OpenIsFunded(db, id);
    assert 0 <= w.fee < w.amount;
    WithdrawalLegsBalance(w);
    forall i | 0 <= i < |e.legs| ensures !HasKey(db.books.rows, Indexed(e.base, i)) {
      RowsOfKey(db.books.rows, e.base, i);
    }
    PostLegsSucceed(db.books, e, |e.legs|);
  }

  // The accounts after a withdrawal's entry.
  ghost predicate PaidWithdrawal(b: Books, b': Books, w: Withdrawal) {
    && b'.accounts.Keys == b.accounts.Keys
    && forall u :: Custody(u) in b.accounts ==>
         b'.accounts[Custody(u)] == b.accounts[Custody(u)].(
           balance := b.accounts[Custody(u)].balance - if u == w.user then w.amount else 0)
  }

  lemma WithdrawalPaid(db: Db, id: nat)
    requires Sound(db.books) && id < |db.withdrawals| && 0 <= db.withdrawals[id].fee < db.withdrawals[id].amount
    requires PostEntry(db.books, WithdrawalPosting(db, id)).Ok?
    ensures var b' := PostEntry(db.books, WithdrawalPosting(db, id)).value;
            && PaidWithdrawal(db.books, b', db.withdrawals[id]) && Sound(b')
            && (forall i: nat :: i != id ==> RowsOf(b'.rows, WithdrawalKey(i)) == RowsOf(db.books.rows, WithdrawalKey(i)))
            && RowsOf(b'.rows, WithdrawalKey(id)) != []
  {
    hide RowsOf, Sound;
    var e := WithdrawalPosting(db, id);
    PostEntryKeeps(db.books, e);
    PostedIsThere(db.books, e);
    WithdrawalLegsBalance(db.withdrawals[id]);
    forall i: nat | i != id
      ensures RowsOf(PostEntry(db.books, e).value.rows, WithdrawalKey(i)) == RowsOf(db.books.rows, WithdrawalKey(i)) {
      PostedRows(db.books, e, WithdrawalKey(i));
    }
  }

  predicate Confirmable(db: Db, user: string, id: nat, signature: string) {
    && id < |db.withdrawals| && db.withdrawals[id].user == user
    && db.withdrawals[id].status in {Approved, Submitted}
    && !SignatureTaken(db.withdrawals, signature, id)
  }

  // Run to completion against a chain that shows the transfer, a confirmation
  // succeeds, pays the player's account and its reservation down by the gross
  // amount, and keeps everything else settled.
  lemma ConfirmCompletes(db: Db, user: string, id: nat, signature: string, observed: int, writes: nat)
    requires Settledness(db) && Confirmable(db, user, id, signature) && writes >= 3
    ensures var (db', c) := ConfirmWithdrawal(db, user, id, signature, Valid(observed), writes);
            && c == Confirmed && Settledness(db')
            && Custody(user) in db.books.accounts && Custody(user) in db'.books.accounts
            && var a := db.books.accounts[Custody(user)];
               db'.books.accounts[Custody(user)] == Account(a.balance - db.withdrawals[id].amount,
                                                            a.reserved - db.withdrawals[id].amount)
  {
    hide Sound, RowsOf, PostEntry, SignatureTaken;
    var w := db.withdrawals[id];
    OpenIsFunded(db, id);
    assert NothingPosted(db, id);
    WithdrawalPosts(db, id);
    WithdrawalPaid(db, id);
    var db' := ConfirmWithdrawal(db, user, id, signature, Valid(observed), writes).0;
    var b1 := PostEntry(db.books, WithdrawalPosting(db, id)).value;
    var db1 := db.(books := b1, groups := db.groups + 1);
    assert db.(books := WithCustody(db.books, user)) == db;
    ReleaseSound(db1, user, w.amount);
    forall u ensures CommittedUser(db', u) {
      assert CommittedUser(db, u);
      OpenSplit(db.withdrawals, id, w.(status := WithdrawalConfirmed, signature := Some(signature)), u);
      StakesNonNegative(db.stakes, u);
      OpenNonNegative(db'.withdrawals, u);
    }
    forall i: nat | Unpaid(db', i) ensures NothingPosted(db', i) {
      assert NothingPosted(db, i);
    }
  }

  lemma FailKeeps(db: Db, id: nat, writes: nat)
    requires Settledness(db) && id < |db.withdrawals| && Holding(db.withdrawals[id].status) && writes >= 2
    ensures Settledness(FailWithdrawal(db, id, writes).0)
  {
    hide Sound, RowsOf;
    var w := db.withdrawals[id];
    OpenIsFunded(db, id);
    var db' := FailWithdrawal(db, id, writes).0;
    ReleaseSound(SetWithdrawal(db, id, WithdrawalFailed, w.signature), w.user, w.amount);
    forall u ensures CommittedUser(db', u) {
      assert CommittedUser(db, u);
      OpenSplit(db.withdrawals, id, w.(status := WithdrawalFailed), u);
    }
    forall i: nat | Unpaid(db', i) ensures NothingPosted(db', i) {
      assert NothingPosted(db, i);
    }
  }

  lemma CustodyKeepsSettled(db: Db, user: string)
    requires Settledness(db)
    ensures Settledness(db.(books := WithCustody(db.books, user)))
  {
    hide Sound, RowsOf;
    WithCustodyKeeps(db.books, user);
    var db' := db.(books := WithCustody(db.books, user));
    forall u ensures CommittedUser(db', u) { assert CommittedUser(db, u); }
    forall i: nat | Unpaid(db', i) ensures NothingPosted(db', i) {
      assert NothingPosted(db, i);
    }
  }

  // Every outcome of a completed confirmation leaves the books settled.
  lemma ConfirmKeeps(db: Db, user: string, id: nat, signature: string, chain: Chain, writes: nat)
    requires Settledness(db) && writes >= 3
    ensures Settledness(ConfirmWithdrawal(db, user, id, signature, chain, writes).0)
  {
    hide Settledness, SignatureTaken;
    if Confirmable(db, user, id, signature) {
      match chain
      case Invisible => SubmitKeeps(db, id, signature);
      case Invalid => FailKeeps(db, id, writes);
      case Valid(observed) => ConfirmCompletes(db, user, id, signature, observed, writes);
    }
  }

  lemma SubmitKeeps(db: Db, id: nat, signature: string)
    requires Settledness(db) && id < |db.withdrawals| && Holding(db.withdrawals[id].status)
    ensures Settledness(SetWithdrawal(db, id, Submitted, Some(signature)))
  {
    hide Sound, RowsOf;
    var db' := SetWithdrawal(db, id, Submitted, Some(signature));
    forall u ensures CommittedUser(db', u) {
      assert CommittedUser(db, u);
      OpenSplit(db.withdrawals, id, db'.withdrawals[id], u);
    }
    forall i: nat | Unpaid(db', i) ensures NothingPosted(db', i) {
      assert NothingPosted(db, i);
    }
  }

  // ---- A crash in the middle -----------------------------------------------

  // A confirmation that stops after `k` writes and is then retried in full. The
  // money moves once whatever `k` is. With the entry already posted the retry
  // asks the ledger for the funds again before it meets the duplicate key, so it
  // goes through exactly when the account could have paid twice. When it does,
  // the reservation is right unless the crash came after the release: that one
  // is then repeated, which is harmless only if nothing else was committed.
  lemma CrashThenRetry(db: Db, user: string, id: nat, signature: string, observed: int, k: nat)
    requires Settledness(db) && Confirmable(db, user, id, signature)
    ensures var db1 := ConfirmWithdrawal(db, user, id, signature, Valid(observed), k).0;
            var (db2, c) := ConfirmWithdrawal(db1, user, id, signature, Valid(observed), 3);
            var amount := db.withdrawals[id].amount;
            && Custody(user) in db.books.accounts
            && var a := db.books.accounts[Custody(user)];
            && (c == Confirmed <==> !(1 <= k <= 2) || a.balance >= 2 * amount)
            && (c != Confirmed ==> c == Refused && db2 == db1)
            && Custody(user) in db2.books.accounts
            && db2.books.accounts[Custody(user)].balance == a.balance - amount
            && (c == Confirmed ==>
                 (db2.books.accounts[Custody(user)].reserved == Commitments(db2, user) <==>
                   k != 2 || Commitments(db, user) == amount))
  {
    hide Sound, RowsOf, PostEntry, SignatureTaken;
    var w := db.withdrawals[id];
    OpenIsFunded(db, id);
    assert CommittedUser(db, user);
    assert db.(books := WithCustody(db.books, user)) == db;
    ConfirmCompletes(db, user, id, signature, observed, 3);
    var db3 := ConfirmWithdrawal(db, user, id, signature, Valid(observed), 3).0;
    assert CommittedUser(db3, user);
    if k >= 3 {
      ConfirmCompletes(db, user, id, signature, observed, k);
      var db1 := ConfirmWithdrawal(db, user, id, signature, Valid(observed), k).0;
      assert CommittedUser(db1, user);
    } else if k > 0 {
      CrashedPosting(db, user, id, signature, observed, k);
      OpenSplit(db.withdrawals, id, w.(status := WithdrawalConfirmed, signature := Some(signature)), user);
    }
  }

  // After one or two writes the entry is posted, and a retry meets it or not.
  lemma CrashedPosting(db: Db, user: string, id: nat, signature: string, observed: int, k: nat)
    requires Settledness(db) && Confirmable(db, user, id, signature) && 1 <= k <= 2
    requires Custody(user) in db.books.accounts
    ensures var w := db.withdrawals[id];
            var a := db.books.accounts[Custody(user)];
            var db1 := ConfirmWithdrawal(db, user, id, signature, Valid(observed), k).0;
            var db2 := ConfirmWithdrawal(db1, user, id, signature, Valid(observed), 3);
            var kept := if k == 1 then a.reserved else Less(a.reserved, w.amount);
            && db1.books.accounts.Keys == db.books.accounts.Keys
            && db1.books.accounts[Custody(user)] == Account(a.balance - w.amount, kept)
            && (if a.balance >= 2 * w.amount then
                  && db2.1 == Confirmed
                  && db2.0.books.accounts.Keys == db.books.accounts.Keys
                  && db2.0.books.accounts[Custody(user)] == Account(a.balance - w.amount, Less(kept, w.amount))
                  && db2.0.stakes == db.stakes
                  && db2.0.withdrawals ==
                       db.withdrawals[id := w.(status := WithdrawalConfirmed, signature := Some(signature))]
                else db2 == (db1, Refused))
  {
    hide Sound, RowsOf, PostEntry, SignatureTaken, Committed;
    var w := db.withdrawals[id];
    assert NothingPosted(db, id);
    OpenIsFunded(db, id);
    FeesValid(db, id);
    WithdrawalPosts(db, id);
    WithdrawalPaid(db, id);
    assert db.(books := WithCustody(db.books, user)) == db;
    var b1 := PostEntry(db.books, WithdrawalPosting(db, id)).value;
    var db1 := ConfirmWithdrawal(db, user, id, signature, Valid(observed), k).0;
    ReleaseSound(db.(books := b1, groups := db.groups + 1), user, w.amount);
    assert db1.books.rows == b1.rows && db1.withdrawals == db.withdrawals;
    assert db1.(books := WithCustody(db1.books, user)) == db1;
    Reposted(db.books, WithdrawalPosting(db, id), db1.books, WithdrawalPosting(db1, id));
  }

  lemma FeesValid(db: Db, id: nat)
    requires Committed(db) && id < |db.withdrawals|
    ensures 0 <= db.withdrawals[id].fee < db.withdrawals[id].amount
  {
  }

  // Posting an entry again is refused as already made if its first leg could be
  // paid again, and for the funds otherwise.
  lemma Reposted(b: Books, e: Entry, b1: Books, e1: Entry)
    requires Sound(b) && PostEntry(b, e).Ok? && b1.rows == PostEntry(b, e).value.rows
    requires e1 == e.(group := e1.group)
    requires e.legs[0].account in b1.accounts && !MayGoNegative(e.legs[0].account)
    ensures PostEntry(b1, e1) ==
            if b1.accounts[e.legs[0].account].balance + SignedAmount(e.legs[0].direction, e.legs[0].amount) >= 0
            then Err(AlreadyPosted) else Err(InsufficientFunds)
  {
    hide Sound;
    PostEntryKeeps(b, e);
    assert PostLegs(b1, e1, 0) == Ok(b1);
    assert PostLegs(b1, e1, 1).Err?;
    LegsAfterErr(b1, e1, 1, |e1.legs|);
  }

  // Stopped between its two writes, a failure leaves the amount reserved for
  // nothing, and no later attempt on that withdrawal touches it.
  lemma FailureStrands(db: Db, user: string, id: nat, signature: string, chain: Chain, writes: nat)
    requires Settledness(db) && id < |db.withdrawals| && db.withdrawals[id].user == user && Holding(db.withdrawals[id].status)
    ensures var db1 := FailWithdrawal(db, id, 1).0;
            && Custody(user) in db1.books.accounts
            && db1.books.accounts[Custody(user)].reserved == Commitments(db1, user) + db.withdrawals[id].amount
            && ConfirmWithdrawal(db1, user, id, signature, chain, writes) == (db1, Refused)
            && ExpireWithdrawal(db1, id, writes) == (db1, Refused)
  {
    var w := db.withdrawals[id];
    OpenIsFunded(db, id);
    assert CommittedUser(db, user);
    OpenSplit(db.withdrawals, id, w.(status := WithdrawalFailed), user);
    hide Settledness, Sound, PostEntry;
  }

  // A player with a balance of one SOL and a withdrawal of this much under way.
  function Paying(amount: int): Db {
    Db(OneDeposit("player", SOL, amount), [], [Withdrawal("player", amount, 0, Approved, None)], [], map[], 1)
  }

  lemma PayingIsSettled(amount: int)
    requires 0 < amount <= SOL
    ensures Settledness(Paying(amount)) && Confirmable(Paying(amount), "player", 0, "signature")
  {
    OneDepositSound("player", SOL, amount);
    var db := Paying(amount);
    assert forall u: string :: OpenOf(db.withdrawals[..0], u) == 0 && StakesOf(db.stakes, u) == 0;
    forall u: string ensures CommittedUser(db, u) {}
    forall id: nat ensures NothingPosted(db, id) {
      var rows := db.books.rows;
      RowsOfSnoc([], rows[0], WithdrawalKey(id));
      RowsOfSnoc([rows[0]], rows[1], WithdrawalKey(id));
      assert rows == [] + [rows[0]] + [rows[1]] && [] + [rows[0]] == [rows[0]];
    }
  }

  // Stopped after its entry, the confirmation can be retried and never completes.
  lemma CrashStrandsRetry()
    ensures var (db1, c1) := ConfirmWithdrawal(Paying(SOL), "player", 0, "signature", Valid(SOL), 1);
            c1 == Crashed && ConfirmWithdrawal(db1, "player", 0, "signature", Valid(SOL), 3) == (db1, Refused)
  {
    PayingIsSettled(SOL);
    hide Settledness, PostEntry, Sound;
    CrashThenRetry(Paying(SOL), "player", 0, "signature", SOL, 1);
  }
}
