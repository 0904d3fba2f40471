// Deposits and withdrawals: several separate writes each, which may stop after
// any of them, confirmed against the chain by an oracle.
module CustodyFlows {
  import opened Options
  import opened Ledger
  import opened Stakes

  const MIN_WITHDRAWAL: int := 10_000
  const MIN_DEPOSIT: int := 10_000
  const REVIEW_THRESHOLD: int := 50_000_000_000
  const BPS_DENOMINATOR: int := 10_000
  const MAX_WITHDRAWAL_FEE_BPS: int := 200

  // What the chain says of a signature.
  datatype Chain = Invisible | Invalid | Valid(observed: int)

  datatype Confirmation = Confirmed | Waiting | Failed | Refused | Crashed

  datatype WithdrawalError = BelowMinimum | BadFee | NoCustody | InsufficientSpendable

  // ---- Fees ----------------------------------------------------------------

  datatype Split = Split(gross: int, fee: int, net: int)

  function SplitWithdrawal(gross: int, bps: int): Option<Split> {
    if gross < 0 || bps < 0 || bps > MAX_WITHDRAWAL_FEE_BPS then None
    else Some(Split(gross, gross * bps / BPS_DENOMINATOR, gross - gross * bps / BPS_DENOMINATOR))
  }

  function WithdrawalLegs(w: Withdrawal): seq<EntryLeg> {
    [EntryLeg(Custody(w.user), Some(w.user), Debit, w.amount), EntryLeg(External, None, Credit, w.amount - w.fee)] +
    (if w.fee > 0 then [EntryLeg(Treasury, None, Credit, w.fee)] else [])
  }

  lemma SplitBounds(gross: int, bps: int)
    requires gross > 0 && 0 <= bps <= MAX_WITHDRAWAL_FEE_BPS
    ensures var s := SplitWithdrawal(gross, bps);
            && s.Some? && s.value.fee + s.value.net == gross
            && 0 <= s.value.fee <= gross / 50 && s.value.net > 0
            && BPS_DENOMINATOR * s.value.fee <= gross * bps < BPS_DENOMINATOR * (s.value.fee + 1)
  {
    assert 0 <= gross * bps <= gross * MAX_WITHDRAWAL_FEE_BPS;
  }

  // The legs of any withdrawal whose fee leaves something to pay are accepted.
  lemma WithdrawalLegsBalance(w: Withdrawal)
    requires 0 <= w.fee < w.amount
    ensures Balanced(WithdrawalLegs(w))
    ensures forall k :: 0 < k <= |WithdrawalLegs(w)| ==>
              LegNet(WithdrawalLegs(w)[..k], Custody(w.user)) == -w.amount
    ensures forall u :: LegNet(WithdrawalLegs(w), Custody(u)) == if u == w.user then -w.amount else 0
    ensures forall g :: LegNet(WithdrawalLegs(w), Escrow(g)) == 0
    ensures forall k :: 0 < k <= |WithdrawalLegs(w)| ==>
              LegNet(WithdrawalLegs(w)[..k], Treasury) == if k == 3 then w.fee else 0
  {
    var legs := WithdrawalLegs(w);
    TwoLegs(legs[0], legs[1], legs[..2]);
    assert legs[..1] == legs[..2][..1];
    if w.fee > 0 {
      assert legs[..2] == legs[..|legs| - 1] && legs[..3] == legs;
    } else {
      assert legs[..2] == legs;
    }
  }

  lemma TwoLegs(first: EntryLeg, second: EntryLeg, legs: seq<EntryLeg>)
    requires legs == [first, second]
    ensures Credits(legs) == (if first.direction == Credit then first.amount else 0) +
                             (if second.direction == Credit then second.amount else 0)
    ensures Debits(legs) == (if first.direction == Debit then first.amount else 0) +
                            (if second.direction == Debit then second.amount else 0)
    ensures forall a :: LegNet(legs[..1], a) == if first.account == a then SignedAmount(first.direction, first.amount) else 0
    ensures forall a :: LegNet(legs, a) == LegNet(legs[..1], a) +
              (if second.account == a then SignedAmount(second.direction, second.amount) else 0)
  {
    var one := legs[..1];
    assert one == [first] && one[..|one| - 1] == [] && legs[..|legs| - 1] == one;
    assert Credits(one) == (if first.direction == Credit then first.amount else 0);
    assert Debits(one) == (if first.direction == Debit then first.amount else 0);
  }

  // For every accepted amount and fee rate the withdrawal legs are positive and
  // balanced.
  lemma SplitLegsBalance(user: string, gross: int, bps: int)
    requires gross >= MIN_WITHDRAWAL && 0 <= bps <= MAX_WITHDRAWAL_FEE_BPS
    ensures Balanced(WithdrawalLegs(Withdrawal(user, gross, SplitWithdrawal(gross, bps).value.fee, Approved, None)))
  {
    SplitBounds(gross, bps);
    WithdrawalLegsBalance(Withdrawal(user, gross, SplitWithdrawal(gross, bps).value.fee, Approved, None));
  }

  // ---- Withdrawals ---------------------------------------------------------

  function CreateWithdrawal(db: Db, user: string, amount: int, bps: int): Result<(Db, nat), WithdrawalError> {
    var split := SplitWithdrawal(amount, bps);
    if amount < MIN_WITHDRAWAL then Err(BelowMinimum)
    else if split.None? then Err(BadFee)
    else if Custody(user) !in db.books.accounts then Err(NoCustody)
    else
      var a := db.books.accounts[Custody(user)];
      if Spendable(a) < amount then Err(InsufficientSpendable)
      else
        var status := if amount >= REVIEW_THRESHOLD then PendingReview else Approved;
        Ok((db.(books := SetReserved(db.books, Custody(user), a.reserved + amount),
                withdrawals := db.withdrawals + [Withdrawal(user, amount, split.value.fee, status, None)]),
            |db.withdrawals|))
  }

  function ReleaseReservation(db: Db, user: string, amount: int): Db {
    if Custody(user) !in db.books.accounts then db
    else db.(books := SetReserved(db.books, Custody(user), Less(db.books.accounts[Custody(user)].reserved, amount)))
  }

  function SetWithdrawal(db: Db, id: nat, status: WithdrawalStatus, signature: Option<string>): Db
    requires id < |db.withdrawals|
  {
    db.(withdrawals := db.withdrawals[id := db.withdrawals[id].(status := status, signature := signature)])
  }

  // Two writes: the status, then the reservation.
  function FailWithdrawal(db: Db, id: nat, writes: nat): (Db, Confirmation)
    requires id < |db.withdrawals|
  {
    var w := db.withdrawals[id];
    if writes == 0 then (db, Crashed)
    else
      var db' := SetWithdrawal(db, id, WithdrawalFailed, w.signature);
      if writes == 1 then (db', Crashed) else (ReleaseReservation(db', w.user, w.amount), Failed)
  }

  function WithdrawalPosting(db: Db, id: nat): Entry
    requires id < |db.withdrawals|
  {
    Entry(WithdrawalEntry, WithdrawalLegs(db.withdrawals[id]), WithdrawalKey(id), db.groups, None)
  }

  predicate SignatureTaken(ws: seq<Withdrawal>, signature: string, id: nat) {
    exists i :: 0 <= i < |ws| && i != id && ws[i].signature == Some(signature)
  }

  // Confirms a withdrawal, stopping after `writes` writes: the ledger entry, the
  // reservation, the status. An entry already posted is not an error.
  function ConfirmWithdrawal(db: Db, user: string, id: nat, signature: string, chain: Chain, writes: nat)
    : (Db, Confirmation)
  {
    if id >= |db.withdrawals| || db.withdrawals[id].user != user then (db, Refused)
    else
      var w := db.withdrawals[id];
      if w.status == WithdrawalConfirmed then (db, Confirmed)
      else if w.status != Approved && w.status != Submitted then (db, Refused)
      else if SignatureTaken(db.withdrawals, signature, id) then (db, Refused)
      else
        match chain
        case Invisible =>
          if writes == 0 then (db, Crashed) else (SetWithdrawal(db, id, Submitted, Some(signature)), Waiting)
        case Invalid => FailWithdrawal(db, id, writes)
        case Valid(_) =>
          var db0 := db.(books := WithCustody(db.books, user));
          if External !in db0.books.accounts || Treasury !in db0.books.accounts then (db0, Refused)
          else if writes == 0 then (db0, Crashed)
          else
            var posted := PostEntry(db0.books, WithdrawalPosting(db0, id));
            if posted.Err? && posted.error != AlreadyPosted then (db0, Refused)
            else
              var db1 := db0.(books := if posted.Ok? then posted.value else db0.books, groups := db0.groups + 1);
              if writes == 1 then (db1, Crashed)
              else
                var db2 := ReleaseReservation(db1, user, w.amount);
                if writes == 2 then (db2, Crashed)
                else (SetWithdrawal(db2, id, WithdrawalConfirmed, Some(signature)), Confirmed)
  }

  // One intent of the expiry sweep: never submitted, so its funds come back.
  function ExpireWithdrawal(db: Db, id: nat, writes: nat): (Db, Confirmation) {
    if id < |db.withdrawals| && db.withdrawals[id].status in {Approved, Requested}
       && db.withdrawals[id].signature == None
    then FailWithdrawal(db, id, writes)
    else (db, Refused)
  }

  // ---- Deposits ------------------------------------------------------------

  function CreateDeposit(db: Db, user: string, amount: int): Result<(Db, nat), WithdrawalError> {
    if amount < MIN_DEPOSIT then Err(BelowMinimum)
    else Ok((db.(deposits := db.deposits + [Deposit(user, amount, DepositPending, None)]), |db.deposits|))
  }

  function SetDeposit(db: Db, id: nat, status: DepositStatus, signature: Option<string>): Db
    requires id < |db.deposits|
  {
    db.(deposits := db.deposits[id := db.deposits[id].(status := status, signature := signature)])
  }

  function DepositLegs(user: string, credited: int): seq<EntryLeg> {
    [EntryLeg(External, None, Debit, credited), EntryLeg(Custody(user), Some(user), Credit, credited)]
  }

  function DepositPosting(db: Db, id: nat, credited: int): Entry
    requires id < |db.deposits|
  {
    Entry(DepositEntry, DepositLegs(db.deposits[id].user, credited), DepositKey(id), db.groups, None)
  }

  predicate DepositSignatureTaken(ds: seq<Deposit>, signature: string, id: nat) {
    exists i :: 0 <= i < |ds| && i != id && ds[i].signature == Some(signature)
  }

  // Confirms a deposit, stopping after `writes` writes: the ledger entry for
  // what the chain observed, then the status.
  function ConfirmDeposit(db: Db, user: string, id: nat, signature: string, chain: Chain, writes: nat)
    : (Db, Confirmation)
  {
    if id >= |db.deposits| || db.deposits[id].user != user then (db, Refused)
    else
      var d := db.deposits[id];
      if d.status == DepositConfirmed then (db, Confirmed)
      else if d.status != DepositPending then (db, Refused)
      else if DepositSignatureTaken(db.deposits, signature, id) then (db, Refused)
      else
        match chain
        case Invisible => (db, Waiting)
        case Invalid =>
          if writes == 0 then (db, Crashed) else (SetDeposit(db, id, DepositFailed, d.signature), Failed)
        case Valid(credited) =>
          var db0 := db.(books := WithCustody(db.books, user));
          if External !in db0.books.accounts then (db0, Refused)
          else if writes == 0 then (db0, Crashed)
          else
            var posted := PostEntry(db0.books, DepositPosting(db0, id, credited));
            if posted.Err? && posted.error != AlreadyPosted then (db0, Refused)
            else
              var db1 := db0.(books := if posted.Ok? then posted.value else db0.books, groups := db0.groups + 1);
              if writes == 1 then (db1, Crashed)
              else (SetDeposit(db1, id, DepositConfirmed, Some(signature)), Confirmed)
  }

  function ExpireDeposit(db: Db, id: nat): Db {
    if id < |db.deposits| && db.deposits[id].status == DepositPending && db.deposits[id].signature == None
    then SetDeposit(db, id, DepositExpired, None)
    else db
  }

  // ---- At most once --------------------------------------------------------

  // The rows posted under one idempotency base.
  function RowsOf(rows: seq<Row>, base: KeyBase): seq<Row> {
    if rows == [] then []
    else
      var front := RowsOf(rows[..|rows| - 1], base);
      var last := rows[|rows| - 1];
      if last.key.Indexed? && last.key.base == base then front + [last] else front
  }

  lemma RowsOfSnoc(rows: seq<Row>, row: Row, base: KeyBase)
    ensures RowsOf(rows + [row], base) ==
            RowsOf(rows, base) + (if row.key.Indexed? && row.key.base == base then [row] else [])
  {
    assert (rows + [row])[..|rows|] == rows;
  }

  lemma {:induction false} RowsOfKey(rows: seq<Row>, base: KeyBase, i: nat)
    ensures HasKey(rows, Indexed(base, i)) ==> RowsOf(rows, base) != []
    ensures RowsOf(rows, base) == [] ==> !HasKey(rows, Indexed(base, i))
  {
    if rows != [] {
      var front := rows[..|rows| - 1];
      RowsOfKey(front, base, i);
      if HasKey(rows, Indexed(base, i)) && rows[|rows| - 1].key != Indexed(base, i) {
        var k :| 0 <= k < |rows| && rows[k].key == Indexed(base, i);
        assert front[k].key == Indexed(base, i);
      }
    }
  }

  // An entry's rows, as far as the entry determines them.
  predicate RowsMatch(rows: seq<Row>, kind: EntryType, base: KeyBase, legs: seq<EntryLeg>) {
    && |rows| == |legs|
    && forall i :: 0 <= i < |legs| ==>
         && rows[i].kind == kind && rows[i].direction == legs[i].direction && rows[i].amount == legs[i].amount
         && rows[i].account == legs[i].account && rows[i].user == legs[i].user && rows[i].key == Indexed(base, i)
  }

  lemma {:induction false} PostLegsRows(b: Books, e: Entry, n: nat, base: KeyBase)
    requires n <= |e.legs| && PostLegs(b, e, n).Ok?
    ensures base != e.base ==> RowsOf(PostLegs(b, e, n).value.rows, base) == RowsOf(b.rows, base)
    ensures base == e.base && RowsOf(b.rows, base) == [] ==>
              RowsMatch(RowsOf(PostLegs(b, e, n).value.rows, base), e.kind, base, e.legs[..n])
  {
    if n > 0 {
      PostLegsRows(b, e, n - 1, base);
      var mid := PostLegs(b, e, n - 1).value;
      var row := LegRow(e, n - 1);
      var posted := row.(balanceAfter := mid.accounts[row.account].balance + Signed(row));
      assert PostLegs(b, e, n).value.rows == mid.rows + [posted];
      RowsOfSnoc(mid.rows, posted, base);
      hide RowsOf, PostLegs, RowsMatch;
      assert e.legs[..n] == e.legs[..n - 1] + [e.legs[n - 1]];
      if base == e.base && RowsOf(b.rows, base) == [] {
        MatchNext(RowsOf(mid.rows, base), e.kind, base, e.legs[..n - 1], posted, e.legs[n - 1]);
      }
    }
  }

  lemma MatchNext(rows: seq<Row>, kind: EntryType, base: KeyBase, legs: seq<EntryLeg>, row: Row, leg: EntryLeg)
    requires RowsMatch(rows, kind, base, legs)
    requires row.kind == kind && row.direction == leg.direction && row.amount == leg.amount && row.account == leg.account
    requires row.user == leg.user && row.key == Indexed(base, |legs|)
    ensures RowsMatch(rows + [row], kind, base, legs + [leg])
  {
  }

  // Each deposit's entry is in the ledger at most once, whole, crediting its
  // owner; it is there whenever the deposit is confirmed.
  predicate DepositOnce(db: Db, id: nat) {
    var rows := RowsOf(db.books.rows, DepositKey(id));
    if id >= |db.deposits| then rows == []
    else
      || (rows == [] && db.deposits[id].status != DepositConfirmed)
      || (|rows| == 2 && RowsMatch(rows, DepositEntry, DepositKey(id), DepositLegs(db.deposits[id].user, rows[0].amount)))
  }

  predicate WithdrawalOnce(db: Db, id: nat) {
    var rows := RowsOf(db.books.rows, WithdrawalKey(id));
    if id >= |db.withdrawals| then rows == []
    else
      || (rows == [] && db.withdrawals[id].status != WithdrawalConfirmed)
      || RowsMatch(rows, WithdrawalEntry, WithdrawalKey(id), WithdrawalLegs(db.withdrawals[id]))
  }

  ghost predicate EntriesOnce(db: Db) {
    (forall id: nat :: DepositOnce(db, id)) && (forall id: nat :: WithdrawalOnce(db, id))
  }

  // Neither table's identities nor its unindexed rows matter to `EntriesOnce`.
  lemma OnceUntouched(db: Db, db': Db)
    requires EntriesOnce(db)
    requires forall base: KeyBase :: !base.OtherKey? ==> RowsOf(db'.books.rows, base) == RowsOf(db.books.rows, base)
    requires |db'.deposits| >= |db.deposits| && |db'.withdrawals| >= |db.withdrawals|
    requires forall i :: 0 <= i < |db'.deposits| ==>
               if i < |db.deposits| then
                 && db'.deposits[i].user == db.deposits[i].user
                 && (db'.deposits[i].status == DepositConfirmed ==>
                      db.deposits[i].status == DepositConfirmed || RowsOf(db.books.rows, DepositKey(i)) != [])
               else db'.deposits[i].status != DepositConfirmed
    requires forall i :: 0 <= i < |db'.withdrawals| ==>
               if i < |db.withdrawals| then
                 && db'.withdrawals[i].user == db.withdrawals[i].user
                 && db'.withdrawals[i].amount == db.withdrawals[i].amount
                 && db'.withdrawals[i].fee == db.withdrawals[i].fee
                 && (db'.withdrawals[i].status == WithdrawalConfirmed ==>
                      db.withdrawals[i].status == WithdrawalConfirmed || RowsOf(db.books.rows, WithdrawalKey(i)) != [])
               else db'.withdrawals[i].status != WithdrawalConfirmed
    ensures EntriesOnce(db')
  {
    hide RowsOf, RowsMatch;
    forall id: nat ensures DepositOnce(db', id) { assert DepositOnce(db, id); }
    forall id: nat ensures WithdrawalOnce(db', id) { assert WithdrawalOnce(db, id); }
  }

  // Posting a deposit's or a withdrawal's entry.
  lemma PostOnce(db: Db, db': Db, e: Entry)
    requires EntriesOnce(db) && Sound(db.books) && db' == db.(books := db'.books, groups := db'.groups)
    requires PostEntry(db.books, e) == Ok(db'.books)
    requires
      || e.base.OtherKey?
      || (e.base.DepositKey? && e.base.deposit < |db.deposits| && e.kind == DepositEntry && |e.legs| == 2 &&
          e.legs == DepositLegs(db.deposits[e.base.deposit].user, e.legs[0].amount))
      || (e.base.WithdrawalKey? && e.base.withdrawal < |db.withdrawals| && e.kind == WithdrawalEntry &&
          e.legs == WithdrawalLegs(db.withdrawals[e.base.withdrawal]))
    ensures EntriesOnce(db') && Sound(db'.books)
  {
    hide RowsOf, Sound, PostLegs, RowsMatch;
    PostEntryKeeps(db.books, e);
    RowsOfKey(db.books.rows, e.base, 0);
    forall id: nat ensures DepositOnce(db', id) {
      assert DepositOnce(db, id);
      PostedRows(db.books, e, DepositKey(id));
      if e.base == DepositKey(id) && RowsOf(db.books.rows, DepositKey(id)) != [] { FirstRowKeyed(db, id); }
    }
    forall id: nat ensures WithdrawalOnce(db', id) {
      assert WithdrawalOnce(db, id);
      PostedRows(db.books, e, WithdrawalKey(id));
      if e.base == WithdrawalKey(id) && RowsOf(db.books.rows, WithdrawalKey(id)) != [] { FirstWithdrawalRowKeyed(db, id); }
    }
  }

  lemma PostedRows(b: Books, e: Entry, base: KeyBase)
    requires PostEntry(b, e).Ok?
    ensures base != e.base ==> RowsOf(PostEntry(b, e).value.rows, base) == RowsOf(b.rows, base)
    ensures base == e.base && RowsOf(b.rows, base) == [] ==>
              var rows := RowsOf(PostEntry(b, e).value.rows, base);
              && RowsMatch(rows, e.kind, base, e.legs) && |rows| == |e.legs| >= 2 && rows[0].amount == e.legs[0].amount
  {
    hide RowsOf;
    PostLegsRows(b, e, |e.legs|, base);
    assert e.legs[..|e.legs|] == e.legs;
  }

  // A deposit with rows has the row an entry would have to post first.
  lemma FirstRowKeyed(db: Db, id: nat)
    requires DepositOnce(db, id) && RowsOf(db.books.rows, DepositKey(id)) != []
    ensures HasKey(db.books.rows, Indexed(DepositKey(id), 0))
  {
    var rows := RowsOf(db.books.rows, DepositKey(id));
    RowsOfWithin(db.books.rows, DepositKey(id), 0);
  }

  lemma FirstWithdrawalRowKeyed(db: Db, id: nat)
    requires WithdrawalOnce(db, id) && RowsOf(db.books.rows, WithdrawalKey(id)) != []
    ensures HasKey(db.books.rows, Indexed(WithdrawalKey(id), 0))
  {
    RowsOfWithin(db.books.rows, WithdrawalKey(id), 0);
  }

  lemma {:induction false} RowsOfWithin(rows: seq<Row>, base: KeyBase, i: nat)
    requires i < |RowsOf(rows, base)|
    ensures HasKey(rows, RowsOf(rows, base)[i].key)
  {
    var front := rows[..|rows| - 1];
    if i < |RowsOf(front, base)| {
      RowsOfWithin(front, base, i);
      var k :| 0 <= k < |front| && front[k].key == RowsOf(front, base)[i].key;
      assert rows[k] == front[k];
    }
  }

  // A posting refused as already made was indeed made.
  lemma AlreadyMeansPosted(b: Books, e: Entry)
    requires PostEntry(b, e) == Err(AlreadyPosted)
    ensures RowsOf(b.rows, e.base) != []
  {
    hide RowsOf;
    AlreadyLeg(b, e, |e.legs|);
  }

  lemma {:induction false} AlreadyLeg(b: Books, e: Entry, n: nat)
    requires n <= |e.legs| && PostLegs(b, e, n) == Err(AlreadyPosted)
    ensures RowsOf(b.rows, e.base) != []
  {
    hide RowsOf;
    if PostLegs(b, e, n - 1).Err? {
      AlreadyLeg(b, e, n - 1);
    } else {
      var mid := PostLegs(b, e, n - 1).value;
      RowsOfKey(b.rows, e.base, n - 1);
      if RowsOf(b.rows, e.base) == [] { KeysAppended(b, e, n - 1, n - 1); }
    }
  }

  lemma {:induction false} KeysAppended(b: Books, e: Entry, n: nat, i: nat)
    requires n <= i < |e.legs| && PostLegs(b, e, n).Ok?
    ensures HasKey(PostLegs(b, e, n).value.rows, Indexed(e.base, i)) <==> HasKey(b.rows, Indexed(e.base, i))
  {
    if n > 0 {
      KeysAppended(b, e, n - 1, i);
      var mid := PostLegs(b, e, n - 1).value;
      var rows := PostLegs(b, e, n).value.rows;
      assert rows[..|mid.rows|] == mid.rows && rows[|mid.rows|].key == Indexed(e.base, n - 1);
      if HasKey(mid.rows, Indexed(e.base, i)) {
        var k :| 0 <= k < |mid.rows| && mid.rows[k].key == Indexed(e.base, i);
        assert rows[k] == mid.rows[k];
      }
      if HasKey(rows, Indexed(e.base, i)) {
        var k :| 0 <= k < |rows| && rows[k].key == Indexed(e.base, i);
        assert rows[k] == mid.rows[k];
      }
    }
  }

  // Whatever the caller, the signature, the oracle and the write after which it
  // stops, a deposit confirmation keeps the books sound and every entry single.
  lemma ConfirmDepositOnce(db: Db, user: string, id: nat, signature: string, chain: Chain, writes: nat)
    requires Sound(db.books) && EntriesOnce(db)
    ensures var db' := ConfirmDeposit(db, user, id, signature, chain, writes).0;
            Sound(db'.books) && EntriesOnce(db')
  {
    hide Sound, RowsOf, RowsMatch, DepositOnce, WithdrawalOnce, PostEntry, EntriesOnce;
    var (db', c) := ConfirmDeposit(db, user, id, signature, chain, writes);
    WithCustodyKeeps(db.books, user);
    var db0 := db.(books := WithCustody(db.books, user));
    OnceUntouched(db, db0);
    if chain == Invalid {
      if db' != db { OnceUntouched(db, db'); }
    } else if db' != db && db' != db0 {
      var e := DepositPosting(db0, id, chain.observed);
      var posted := PostEntry(db0.books, e);
      var db1 := db0.(books := if posted.Ok? then posted.value else db0.books, groups := db0.groups + 1);
      if posted.Ok? {
        PostOnce(db0, db1, e);
        PostedIsThere(db0.books, e);
      } else {
        OnceUntouched(db0, db1);
        AlreadyMeansPosted(db0.books, e);
      }
      if db' != db1 { OnceUntouched(db1, db'); }
    }
  }

  lemma PostedIsThere(b: Books, e: Entry)
    requires Sound(b) && PostEntry(b, e).Ok?
    ensures RowsOf(PostEntry(b, e).value.rows, e.base) != []
  {
    hide Sound, RowsOf;
    PostEntryKeeps(b, e);
    RowsOfKey(PostEntry(b, e).value.rows, e.base, 0);
  }

  lemma ReleaseSound(db: Db, user: string, amount: int)
    requires Sound(db.books)
    ensures var db' := ReleaseReservation(db, user, amount);
            Sound(db'.books) && db'.books.rows == db.books.rows && db' == db.(books := db'.books)
  {
    hide Sound;
    if Custody(user) in db.books.accounts {
      SetReservedKeeps(db.books, Custody(user), Less(db.books.accounts[Custody(user)].reserved, amount));
    }
  }

  lemma FailWithdrawalOnce(db: Db, id: nat, writes: nat)
    requires Sound(db.books) && EntriesOnce(db) && id < |db.withdrawals|
    ensures var db' := FailWithdrawal(db, id, writes).0; Sound(db'.books) && EntriesOnce(db')
  {
    hide Sound, RowsOf, DepositOnce, WithdrawalOnce, EntriesOnce;
    var w := db.withdrawals[id];
    ReleaseSound(SetWithdrawal(db, id, WithdrawalFailed, w.signature), w.user, w.amount);
    OnceUntouched(db, FailWithdrawal(db, id, writes).0);
  }

  lemma ConfirmWithdrawalOnce(db: Db, user: string, id: nat, signature: string, chain: Chain, writes: nat)
    requires Sound(db.books) && EntriesOnce(db)
    ensures var db' := ConfirmWithdrawal(db, user, id, signature, chain, writes).0;
            Sound(db'.books) && EntriesOnce(db')
  {
    hide Sound, RowsOf, RowsMatch, DepositOnce, WithdrawalOnce, PostEntry, EntriesOnce;
    var (db', c) := ConfirmWithdrawal(db, user, id, signature, chain, writes);
    WithCustodyKeeps(db.books, user);
    var db0 := db.(books := WithCustody(db.books, user));
    OnceUntouched(db, db0);
    if db' == db || db' == db0 {
    } else if chain == Invisible {
      OnceUntouched(db, db');
    } else if chain == Invalid {
      FailWithdrawalOnce(db, id, writes);
    } else {
      var e := WithdrawalPosting(db0, id);
      var posted := PostEntry(db0.books, e);
      var db1 := db0.(books := if posted.Ok? then posted.value else db0.books, groups := db0.groups + 1);
      if posted.Ok? {
        PostOnce(db0, db1, e);
        PostedIsThere(db0.books, e);
      } else {
        OnceUntouched(db0, db1);
        AlreadyMeansPosted(db0.books, e);
      }
      ReleaseSound(db1, user, db.withdrawals[id].amount);
      OnceUntouched(db1, db');
    }
  }
}
