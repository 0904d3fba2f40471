// Confirmations one write at a time: any number of clerks carry withdrawals and
// deposits through their writes, interleaved with each other and with every
// other operation. No lock is relied on.
module ClerkRuns {
  import opened BankRuns
  import opened CompletedFlows
  import opened CustodyFlows
  import opened Ledger
  import opened Options
  import opened Refunds
  import opened Stakes

  // What a clerk's next step is.
  datatype Clerk =
    | SubmitNext(id: nat, signature: string)
    | PostNext(id: nat, signature: string)
    | ReadNext(id: nat, marks: Option<string>)
    | WriteNext(id: nat, marks: Option<string>, reserved: int)
    | MarkNext(id: nat, signature: string)
    | FailNext(id: nat)
    | CreditNext(id: nat, signature: string, credited: int)
    | MarkDepositNext(id: nat, signature: string)
    | FailDepositNext(id: nat)

  datatype System = System(db: Db, clerks: map<nat, Clerk>)

  datatype Action =
    | Whole(op: Op)
    | TakeWithdrawal(clerk: nat, user: string, id: nat, signature: string, chain: Chain)
    | TakeExpiry(clerk: nat, id: nat)
    | TakeDeposit(clerk: nat, user: string, id: nat, signature: string, chain: Chain)
    | Proceed(clerk: nat)
    | Vanish(clerk: nat)

  // The checks a withdrawal confirmation makes before its first write.
  function WithdrawalTaken(db: Db, user: string, id: nat, signature: string, chain: Chain): Option<Clerk> {
    if id >= |db.withdrawals| || db.withdrawals[id].user != user then None
    else if db.withdrawals[id].status !in {Approved, Submitted} || SignatureTaken(db.withdrawals, signature, id) then None
    else
      match chain
      case Invisible => Some(SubmitNext(id, signature))
      case Invalid => Some(FailNext(id))
      case Valid(_) => Some(PostNext(id, signature))
  }

  function DepositTaken(db: Db, user: string, id: nat, signature: string, chain: Chain): Option<Clerk> {
    if id >= |db.deposits| || db.deposits[id].user != user then None
    else if db.deposits[id].status != DepositPending || DepositSignatureTaken(db.deposits, signature, id) then None
    else
      match chain
      case Invisible => None
      case Invalid => Some(FailDepositNext(id))
      case Valid(credited) => Some(CreditNext(id, signature, credited))
  }

  function ExpiryTaken(db: Db, id: nat): Option<Clerk> {
    if id < |db.withdrawals| && db.withdrawals[id].status in {Approved, Requested} && db.withdrawals[id].signature == None
    then Some(FailNext(id)) else None
  }

  // One write, and the step after it; a refused posting ends the confirmation.
  function Write(db: Db, c: Clerk): (Db, Option<Clerk>) {
    match c
    case SubmitNext(id, signature) =>
      (if id < |db.withdrawals| && !SignatureTaken(db.withdrawals, signature, id)
       then SetWithdrawal(db, id, Submitted, Some(signature)) else db, None)
    case PostNext(id, signature) =>
      if id >= |db.withdrawals| then (db, None)
      else
        var db0 := db.(books := WithCustody(db.books, db.withdrawals[id].user));
        var posted := PostEntry(db0.books, WithdrawalPosting(db0, id));
        if External !in db0.books.accounts || Treasury !in db0.books.accounts then (db0, None)
        else if posted.Err? && posted.error != AlreadyPosted then (db0, None)
        else (db0.(books := if posted.Ok? then posted.value else db0.books, groups := db0.groups + 1),
              Some(ReadNext(id, Some(signature))))
    case ReadNext(id, marks) =>
      if id < |db.withdrawals| && Custody(db.withdrawals[id].user) in db.books.accounts then
        var w := db.withdrawals[id];
        (db, Some(WriteNext(id, marks, Less(db.books.accounts[Custody(w.user)].reserved, w.amount))))
      else (db, Marking(id, marks))
    case WriteNext(id, marks, reserved) =>
      (if id < |db.withdrawals| && Custody(db.withdrawals[id].user) in db.books.accounts
       then db.(books := SetReserved(db.books, Custody(db.withdrawals[id].user), reserved)) else db,
       Marking(id, marks))
    case MarkNext(id, signature) =>
      (if id < |db.withdrawals| && !SignatureTaken(db.withdrawals, signature, id)
       then SetWithdrawal(db, id, WithdrawalConfirmed, Some(signature)) else db, None)
    case FailNext(id) =>
      if id >= |db.withdrawals| then (db, None)
      else (SetWithdrawal(db, id, WithdrawalFailed, db.withdrawals[id].signature), Some(ReadNext(id, None)))
    case CreditNext(id, signature, credited) =>
      if id >= |db.deposits| then (db, None)
      else
        var db0 := db.(books := WithCustody(db.books, db.deposits[id].user));
        var posted := PostEntry(db0.books, DepositPosting(db0, id, credited));
        if posted.Err? && posted.error != AlreadyPosted then (db0, None)
        else (db0.(books := if posted.Ok? then posted.value else db0.books, groups := db0.groups + 1),
              Some(MarkDepositNext(id, signature)))
    case MarkDepositNext(id, signature) =>
      (if id < |db.deposits| && !DepositSignatureTaken(db.deposits, signature, id)
       then SetDeposit(db, id, DepositConfirmed, Some(signature)) else db, None)
    case FailDepositNext(id) =>
      (if id < |db.deposits| then SetDeposit(db, id, DepositFailed, db.deposits[id].signature) else db, None)
  }

  // A confirmation marks its row after the release; a failure already has.
  function Marking(id: nat, marks: Option<string>): Option<Clerk> {
    if marks.Some? then Some(MarkNext(id, marks.value)) else None
  }

  function WithClerk(s: System, clerk: nat, next: Option<Clerk>): System {
    s.(clerks := if next.Some? then s.clerks[clerk := next.value] else s.clerks - {clerk})
  }

  function Act(s: System, a: Action): System {
    match a
    case Whole(op) => s.(db := Do(s.db, op))
    case TakeWithdrawal(clerk, user, id, signature, chain) =>
      if clerk in s.clerks then s else WithClerk(s, clerk, WithdrawalTaken(s.db, user, id, signature, chain))
    case TakeExpiry(clerk, id) => if clerk in s.clerks then s else WithClerk(s, clerk, ExpiryTaken(s.db, id))
    case TakeDeposit(clerk, user, id, signature, chain) =>
      if clerk in s.clerks then s else WithClerk(s, clerk, DepositTaken(s.db, user, id, signature, chain))
    case Proceed(clerk) =>
      if clerk !in s.clerks then s
      else var (db', next) := Write(s.db, s.clerks[clerk]); WithClerk(s.(db := db'), clerk, next)
    case Vanish(clerk) => WithClerk(s, clerk, None)
  }

  function RunAll(s: System, actions: seq<Action>): System {
    if actions == [] then s else Act(RunAll(s, actions[..|actions| - 1]), actions[|actions| - 1])
  }

  // ---- What no step undoes -------------------------------------------------

  // Tables only grow, and an entry once posted stays posted.
  ghost predicate Grows(db: Db, db': Db) {
    && |db.withdrawals| <= |db'.withdrawals| && |db.deposits| <= |db'.deposits|
    && forall base :: RowsOf(db.books.rows, base) != [] ==> RowsOf(db'.books.rows, base) != []
  }

  lemma {:induction false} RowsOfStay(rows: seq<Row>, more: seq<Row>, base: KeyBase)
    requires RowsOf(rows, base) != []
    ensures RowsOf(rows + more, base) != []
  {
    if more == [] {
      assert rows + more == rows;
    } else {
      var front, last := more[..|more| - 1], more[|more| - 1];
      RowsOfStay(rows, front, base);
      RowsOfSnoc(rows + front, last, base);
      assert rows + more == rows + front + [last];
    }
  }

  lemma PostGrows(b: Books, e: Entry, base: KeyBase)
    requires Sound(b) && PostEntry(b, e).Ok? && RowsOf(b.rows, base) != []
    ensures RowsOf(PostEntry(b, e).value.rows, base) != []
  {
    hide Sound, RowsOf;
    PostEntryKeeps(b, e);
    var rows := PostEntry(b, e).value.rows;
    RowsOfStay(b.rows, rows[|b.rows|..], base);
    assert rows == b.rows + rows[|b.rows|..];
  }

  // A clerk past the posting has its entry in the books.
  predicate ClerkSound(db: Db, c: Clerk) {
    match c
    case ReadNext(id, marks) => marks.Some? ==> RowsOf(db.books.rows, WithdrawalKey(id)) != []
    case WriteNext(id, marks, _) => marks.Some? ==> RowsOf(db.books.rows, WithdrawalKey(id)) != []
    case MarkNext(id, _) => RowsOf(db.books.rows, WithdrawalKey(id)) != []
    case MarkDepositNext(id, _) => RowsOf(db.books.rows, DepositKey(id)) != []
    case _ => true
  }

  ghost predicate AllSound(s: System) {
    Audited(s.db) && forall k :: k in s.clerks ==> ClerkSound(s.db, s.clerks[k])
  }

  lemma GrownClerk(db: Db, db': Db, c: Clerk)
    requires ClerkSound(db, c) && Grows(db, db')
    ensures ClerkSound(db', c)
  {
    hide RowsOf;
  }

  // ---- Whole operations ----------------------------------------------------

  lemma SameRowsGrow(db: Db, db': Db)
    requires |db.withdrawals| <= |db'.withdrawals| && |db.deposits| <= |db'.deposits|
    requires forall base :: RowsOf(db'.books.rows, base) == RowsOf(db.books.rows, base)
    ensures Grows(db, db')
  {
    hide RowsOf;
  }

  lemma PostingGrows(db: Db, db': Db, e: Entry)
    requires Sound(db.books) && PostEntry(db.books, e) == Ok(db'.books)
    requires db'.withdrawals == db.withdrawals && db'.deposits == db.deposits
    ensures Grows(db, db')
  {
    hide Sound, RowsOf, PostEntry;
    forall base | RowsOf(db.books.rows, base) != [] ensures RowsOf(db'.books.rows, base) != [] {
      PostGrows(db.books, e, base);
    }
  }

  lemma ConfirmationsGrow(db: Db, user: string, id: nat, signature: string, chain: Chain, writes: nat)
    requires Sound(db.books)
    ensures Grows(db, ConfirmWithdrawal(db, user, id, signature, chain, writes).0)
    ensures Grows(db, ConfirmDeposit(db, user, id, signature, chain, writes).0)
  {
    hide Sound, RowsOf, PostEntry;
    WithCustodyKeeps(db.books, user);
    var db0 := db.(books := WithCustody(db.books, user));
    if id < |db.withdrawals| {
      var e := WithdrawalPosting(db0, id);
      if PostEntry(db0.books, e).Ok? { PostingGrows(db0, db0.(books := PostEntry(db0.books, e).value), e); }
    }
    if id < |db.deposits| && chain.Valid? {
      var e := DepositPosting(db0, id, chain.observed);
      if PostEntry(db0.books, e).Ok? { PostingGrows(db0, db0.(books := PostEntry(db0.books, e).value), e); }
    }
  }

  lemma DoGrows(db: Db, op: Op)
    requires Audited(db)
    ensures Grows(db, Do(db, op))
  {
    hide Sound, EntriesOnce, Consume, Cancel, Reserve, Release, ConfirmDeposit, ConfirmWithdrawal, PostEntry, OpenGame, RowsOf;
    match op
    case ReserveOp(user, tier, lamports) => ReserveAudited(db, user, tier, lamports); ReserveTables(db, user, tier, lamports);
    case ReleaseOp(user, tier) => ReleaseAudited(db, user, tier); ReserveTables(db, user, tier, 0);
    case ConsumeOp(tier, game, expected) =>
      if Consume(db, tier, game, expected).Ok? { ConsumeAudited(db, tier, game, expected); PotTables(db, tier, game, expected); }
    case CancelOp(game) =>
      if Cancel(db, game).Ok? { CancelAudited(db, game); PotTables(db, "", game, None); }
    case PostOp(_, _, _, _) =>
      var e := PostingOf(db, op);
      if PostEntry(db.books, e).Ok? { PostingGrows(db, Do(db, op), e); }
    case OpenGameOp(game) => OpenGameSound(db, game); ReserveTables(db, "", "", 0); OpenTables(db, game);
    case ConfirmWithdrawalOp(user, id, signature, chain, writes) => ConfirmationsGrow(db, user, id, signature, chain, writes);
    case ConfirmDepositOp(user, id, signature, chain, writes) => ConfirmationsGrow(db, user, id, signature, chain, writes);
    case _ =>
  }

  lemma ReserveTables(db: Db, user: string, tier: string, lamports: int)
    ensures Reserve(db, user, tier, lamports).0.withdrawals == db.withdrawals
    ensures Reserve(db, user, tier, lamports).0.deposits == db.deposits
    ensures Release(db, user, tier).0.withdrawals == db.withdrawals && Release(db, user, tier).0.deposits == db.deposits
  {
  }

  lemma PotTables(db: Db, tier: string, game: string, expected: Option<int>)
    ensures var c := Consume(db, tier, game, expected);
            c.Ok? ==> c.value.0.withdrawals == db.withdrawals && c.value.0.deposits == db.deposits
    ensures var c := Cancel(db, game); c.Ok? ==> c.value.0.withdrawals == db.withdrawals && c.value.0.deposits == db.deposits
  {
    hide ConsumeFirst, RefundFirst;
  }

  lemma OpenTables(db: Db, game: string)
    ensures OpenGame(db, game).withdrawals == db.withdrawals && OpenGame(db, game).deposits == db.deposits
  {
  }

  // ---- One write -----------------------------------------------------------

  lemma WriteSound(db: Db, c: Clerk)
    requires Audited(db) && ClerkSound(db, c)
    ensures var (db', next) := Write(db, c);
            Audited(db') && Grows(db, db') && (next.Some? ==> ClerkSound(db', next.value))
  {
    hide Sound, EntriesOnce, RowsOf, PostEntry;
    match c
    case PostNext(id, signature) => if id < |db.withdrawals| { PostWrite(db, id, signature); }
    case CreditNext(id, signature, credited) => if id < |db.deposits| { CreditWrite(db, id, signature, credited); }
    case WriteNext(id, marks, reserved) => ReservedWrite(db, id, marks, reserved);
    case ReadNext(_, _) =>
    case _ => StatusWrite(db, c);
  }

  lemma ReservedWrite(db: Db, id: nat, marks: Option<string>, reserved: int)
    requires Audited(db)
    ensures var db' := Write(db, WriteNext(id, marks, reserved)).0; Audited(db') && Grows(db, db')
  {
    hide Sound, EntriesOnce, RowsOf;
    if id < |db.withdrawals| && Custody(db.withdrawals[id].user) in db.books.accounts {
      SetReservedKeeps(db.books, Custody(db.withdrawals[id].user), reserved);
    }
    OnceUntouched(db, Write(db, WriteNext(id, marks, reserved)).0);
  }

  lemma StatusWrite(db: Db, c: Clerk)
    requires Audited(db) && ClerkSound(db, c)
    requires c.SubmitNext? || c.MarkNext? || c.FailNext? || c.MarkDepositNext? || c.FailDepositNext?
    ensures Audited(Write(db, c).0) && Grows(db, Write(db, c).0)
  {
    hide Sound, EntriesOnce, RowsOf, SignatureTaken, DepositSignatureTaken;
    OnceUntouched(db, Write(db, c).0);
  }

  lemma PostWrite(db: Db, id: nat, signature: string)
    requires Audited(db) && id < |db.withdrawals|
    ensures var (db', next) := Write(db, PostNext(id, signature));
            Audited(db') && Grows(db, db') && (next.Some? ==> ClerkSound(db', next.value))
  {
    hide Sound, EntriesOnce, RowsOf, PostEntry;
    var db0 := db.(books := WithCustody(db.books, db.withdrawals[id].user));
    WithCustodyKeeps(db.books, db.withdrawals[id].user);
    OnceUntouched(db, db0);
    var e := WithdrawalPosting(db0, id);
    var (db', next) := Write(db, PostNext(id, signature));
    if next.Some? { EntryWrite(db0, db', e); }
  }

  lemma CreditWrite(db: Db, id: nat, signature: string, credited: int)
    requires Audited(db) && id < |db.deposits|
    ensures var (db', next) := Write(db, CreditNext(id, signature, credited));
            Audited(db') && Grows(db, db') && (next.Some? ==> ClerkSound(db', next.value))
  {
    hide Sound, EntriesOnce, RowsOf, PostEntry;
    var db0 := db.(books := WithCustody(db.books, db.deposits[id].user));
    WithCustodyKeeps(db.books, db.deposits[id].user);
    OnceUntouched(db, db0);
    var e := DepositPosting(db0, id, credited);
    var (db', next) := Write(db, CreditNext(id, signature, credited));
    if next.Some? { EntryWrite(db0, db', e); }
  }

  lemma EntryWrite(db: Db, db': Db, e: Entry)
    requires Audited(db) && (PostEntry(db.books, e).Ok? || PostEntry(db.books, e).error == AlreadyPosted)
    requires db' == db.(books := if PostEntry(db.books, e).Ok? then PostEntry(db.books, e).value else db.books,
                        groups := db.groups + 1)
    requires
      || (e.base.DepositKey? && e.base.deposit < |db.deposits| && e.kind == DepositEntry && |e.legs| == 2 &&
          e.legs == DepositLegs(db.deposits[e.base.deposit].user, e.legs[0].amount))
      || (e.base.WithdrawalKey? && e.base.withdrawal < |db.withdrawals| && e.kind == WithdrawalEntry &&
          e.legs == WithdrawalLegs(db.withdrawals[e.base.withdrawal]))
    ensures Audited(db') && Grows(db, db') && RowsOf(db'.books.rows, e.base) != []
  {
    hide Sound, EntriesOnce, RowsOf, PostEntry;
    if PostEntry(db.books, e).Ok? {
      PostOnce(db, db', e);
      PostedIsThere(db.books, e);
      PostingGrows(db, db', e);
    } else {
      OnceUntouched(db, db');
      AlreadyMeansPosted(db.books, e);
    }
  }

  // ---- Runs ----------------------------------------------------------------

  lemma ActSound(s: System, a: Action)
    requires AllSound(s)
    ensures AllSound(Act(s, a))
  {
    hide Audited, Grows, Write, Do, WithdrawalTaken, DepositTaken, ExpiryTaken;
    match a
    case Whole(op) =>
      DoAudited(s.db, op);
      DoGrows(s.db, op);
      forall k | k in s.clerks ensures ClerkSound(Do(s.db, op), s.clerks[k]) { GrownClerk(s.db, Do(s.db, op), s.clerks[k]); }
    case Proceed(clerk) =>
      if clerk in s.clerks {
        WriteSound(s.db, s.clerks[clerk]);
        var db' := Write(s.db, s.clerks[clerk]).0;
        forall k | k in s.clerks ensures ClerkSound(db', s.clerks[k]) { GrownClerk(s.db, db', s.clerks[k]); }
      }
    case TakeWithdrawal(_, user, id, signature, chain) => TakenSound(s.db, user, id, signature, chain);
    case TakeDeposit(_, user, id, signature, chain) => TakenSound(s.db, user, id, signature, chain);
    case TakeExpiry(_, id) => TakenSound(s.db, "", id, "", Invisible);
    case Vanish(_) =>
  }

  lemma TakenSound(db: Db, user: string, id: nat, signature: string, chain: Chain)
    ensures var c := WithdrawalTaken(db, user, id, signature, chain); c.Some? ==> ClerkSound(db, c.value)
    ensures var c := DepositTaken(db, user, id, signature, chain); c.Some? ==> ClerkSound(db, c.value)
    ensures var c := ExpiryTaken(db, id); c.Some? ==> ClerkSound(db, c.value)
  {
  }

  lemma {:induction false} RunSound(s: System, actions: seq<Action>)
    requires AllSound(s)
    ensures AllSound(RunAll(s, actions))
  {
    hide AllSound, Act;
    if actions != [] {
      RunSound(s, actions[..|actions| - 1]);
      ActSound(RunAll(s, actions[..|actions| - 1]), actions[|actions| - 1]);
    }
  }

  function Idle(): System { System(Seeded(), map[]) }

  // However the writes of any number of confirmations are interleaved, and
  // wherever each stops, the books audit and every deposit's and withdrawal's
  // entry is posted at most once and whole; it is there whenever its row says so.
  lemma InterleavedBooksAudit(actions: seq<Action>)
    ensures var db := RunAll(Idle(), actions).db; Sound(db.books) && EntriesOnce(db)
  {
    hide RunAll, Sound, EntriesOnce;
    SeededAudited();
    RunSound(Idle(), actions);
  }

  // ---- The reservation a release can lose ----------------------------------

  // A release reads the reservation and writes it back less its amount. It takes
  // the amount off what it finds exactly when that is what it read, unless the
  // amount covers both.
  lemma ReleaseExactIff(db: Db, now: Db, id: nat, marks: Option<string>)
    requires id < |db.withdrawals| && id < |now.withdrawals|
    requires now.withdrawals[id].user == db.withdrawals[id].user && now.withdrawals[id].amount == db.withdrawals[id].amount
    requires Custody(db.withdrawals[id].user) in db.books.accounts && Custody(db.withdrawals[id].user) in now.books.accounts
    ensures var w := db.withdrawals[id];
            var read, found := db.books.accounts[Custody(w.user)].reserved, now.books.accounts[Custody(w.user)].reserved;
            var next := Write(db, ReadNext(id, marks)).1;
            next.Some? &&
            (Write(now, next.value).0 == ReleaseReservation(now, w.user, w.amount) <==>
               read == found || (read <= w.amount && found <= w.amount))
  {
    var w := db.withdrawals[id];
    var next := Write(db, ReadNext(id, marks)).1;
    var written, released := Write(now, next.value).0, ReleaseReservation(now, w.user, w.amount);
    assert written.books.accounts[Custody(w.user)].reserved == Less(db.books.accounts[Custody(w.user)].reserved, w.amount);
    assert released.books.accounts[Custody(w.user)].reserved == Less(now.books.accounts[Custody(w.user)].reserved, w.amount);
    if written.books.accounts[Custody(w.user)].reserved == released.books.accounts[Custody(w.user)].reserved {
      assert written.books.accounts == released.books.accounts;
    }
  }

  // A stake reserved between the two is lost: it is still held by the tier and no
  // longer by the account.
  lemma ReleaseLosesStake(amount: int, fee: int)
    requires 0 < amount && 0 < fee && 2 * amount + fee <= SOL
    ensures var start := System(Paying(amount), map[]);
            var db := RunAll(start, [TakeWithdrawal(0, "player", 0, "signature", Valid(amount)), Proceed(0), Proceed(0),
                                     Whole(ReserveOp("player", "tier", fee)), Proceed(0), Proceed(0)]).db;
            && Committed(start.db) && Custody("player") in db.books.accounts
            && db.books.accounts[Custody("player")].reserved == 0 && Commitments(db, "player") == fee
  {
    var s0 := System(Paying(amount), map[]);
    var take, next := TakeWithdrawal(0, "player", 0, "signature", Valid(amount)), Proceed(0);
    PayingIsSettled(amount);
    RunSix(s0, take, next, next, Whole(ReserveOp("player", "tier", fee)), next, next);
    hide *;
    var s3 := PostedAndRead(amount);
    SettledCommits(Paying(amount));
    ReservesThenMarks(s3, amount, fee);
  }

  lemma SettledCommits(db: Db)
    requires Settledness(db)
    ensures Committed(db)
  {
  }

  lemma PostedAndRead(amount: int) returns (s: System)
    requires 0 < amount < SOL
    ensures s == Act(Act(Act(System(Paying(amount), map[]), TakeWithdrawal(0, "player", 0, "signature", Valid(amount))),
                         Proceed(0)), Proceed(0))
    ensures s.clerks == map[0 := WriteNext(0, Some("signature"), 0)] && s.db.stakes == []
    ensures s.db.withdrawals == [Withdrawal("player", amount, 0, Approved, None)]
    ensures Custody("player") in s.db.books.accounts
    ensures s.db.books.accounts[Custody("player")] == Account(SOL - amount, amount)
  {
    PayingIsSettled(amount);
    PostsThenReads(amount);
    hide PostEntry, Settledness, SignatureTaken;
    var s1 := Act(System(Paying(amount), map[]), TakeWithdrawal(0, "player", 0, "signature", Valid(amount)));
    assert s1 == System(Paying(amount), map[0 := PostNext(0, "signature")]);
    var s2 := Act(s1, Proceed(0));
    assert s2.clerks == map[0 := ReadNext(0, Some("signature"))];
    s := Act(s2, Proceed(0));
  }

  lemma RunSix(s: System, a: Action, b: Action, c: Action, d: Action, e: Action, f: Action)
    ensures RunAll(s, [a, b, c, d, e, f]) == Act(Act(Act(Act(Act(Act(s, a), b), c), d), e), f)
  {
    hide *;
    RunSnoc(s, [], a);
    RunSnoc(s, [a], b);
    RunSnoc(s, [a, b], c);
    RunSnoc(s, [a, b, c], d);
    RunSnoc(s, [a, b, c, d], e);
    RunSnoc(s, [a, b, c, d, e], f);
    RunNone(s);
    assert [] + [a] == [a] && [a] + [b] == [a, b] && [a, b] + [c] == [a, b, c] && [a, b, c] + [d] == [a, b, c, d];
    assert [a, b, c, d] + [e] == [a, b, c, d, e] && [a, b, c, d, e] + [f] == [a, b, c, d, e, f];
  }

  lemma RunNone(s: System)
    ensures RunAll(s, []) == s
  {
  }

  lemma RunSnoc(s: System, actions: seq<Action>, a: Action)
    ensures RunAll(s, actions + [a]) == Act(RunAll(s, actions), a)
  {
    assert (actions + [a])[..|actions|] == actions;
  }

  lemma PostsThenReads(amount: int)
    requires 0 < amount < SOL
    ensures var db := Paying(amount);
            && PostEntry(db.books, WithdrawalPosting(db, 0)).Ok?
            && var b' := PostEntry(db.books, WithdrawalPosting(db, 0)).value;
               && b'.accounts.Keys == db.books.accounts.Keys
               && b'.accounts[Custody("player")] == Account(SOL - amount, amount)
  {
    PayingIsSettled(amount);
    WithdrawalPosts(Paying(amount), 0);
    WithdrawalPaid(Paying(amount), 0);
    hide PostEntry, Settledness;
  }

  lemma ReservesThenMarks(s: System, amount: int, fee: int)
    requires 0 < amount && 0 < fee && 2 * amount + fee <= SOL
    requires s.clerks == map[0 := WriteNext(0, Some("signature"), 0)] && s.db.stakes == []
    requires s.db.withdrawals == [Withdrawal("player", amount, 0, Approved, None)]
    requires Custody("player") in s.db.books.accounts
    requires s.db.books.accounts[Custody("player")] == Account(SOL - amount, amount)
    ensures var db := Act(Act(Act(s, Whole(ReserveOp("player", "tier", fee))), Proceed(0)), Proceed(0)).db;
            && Custody("player") in db.books.accounts
            && db.books.accounts[Custody("player")].reserved == 0 && Commitments(db, "player") == fee
  {
    var db1 := StakeReserved(s.db, amount, fee);
    var s1 := System(db1, s.clerks);
    assert Act(s, Whole(ReserveOp("player", "tier", fee))) == s1;
    hide Do, Commitments, SignatureTaken;
    var s2 := Act(s1, Proceed(0));
    assert s2.clerks == map[0 := MarkNext(0, "signature")] && s2.db.withdrawals == s.db.withdrawals;
    assert s2.db.books.accounts[Custody("player")].reserved == 0 && s2.db.stakes == s1.db.stakes;
    MarkedHoldsStake(s2, amount, fee);
  }

  lemma StakeReserved(db: Db, amount: int, fee: int) returns (db': Db)
    requires 0 < amount && 0 < fee && 2 * amount + fee <= SOL && db.stakes == []
    requires Custody("player") in db.books.accounts && db.books.accounts[Custody("player")] == Account(SOL - amount, amount)
    ensures db' == Reserve(db, "player", "tier", fee).0 && db'.withdrawals == db.withdrawals
    ensures Custody("player") in db'.books.accounts && db'.stakes == [Reservation("player", "tier", fee)]
  {
    db' := Reserve(db, "player", "tier", fee).0;
  }

  lemma MarkedHoldsStake(s: System, amount: int, fee: int)
    requires s.clerks == map[0 := MarkNext(0, "signature")] && s.db.stakes == [Reservation("player", "tier", fee)]
    requires s.db.withdrawals == [Withdrawal("player", amount, 0, Approved, None)]
    ensures var db := Act(s, Proceed(0)).db; db.books == s.db.books && Commitments(db, "player") == fee
  {
    var db := Act(s, Proceed(0)).db;
    assert db.withdrawals == [Withdrawal("player", amount, 0, WithdrawalConfirmed, Some("signature"))];
    assert OpenOf(db.withdrawals[..0], "player") == 0 && StakesOf(db.stakes[..0], "player") == 0;
  }
}
