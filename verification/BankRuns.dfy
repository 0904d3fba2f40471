// Every run of the money operations, interleaved in any order.
module BankRuns {
  import opened CustodyFlows
  import opened Ledger
  import opened Options
  import opened Refunds
  import opened Stakes

  datatype Op =
    | ReserveOp(user: string, tier: string, lamports: int)
    | ReleaseOp(user: string, tier: string)
    | ConsumeOp(tier: string, game: string, expected: Option<int>)
    | CancelOp(game: string)
    | PostOp(kind: EntryType, legs: seq<EntryLeg>, name: string, forGame: Option<string>)
    | OpenGameOp(game: string)
    | CompleteGameOp(game: string)
    | CreateWithdrawalOp(user: string, amount: int, bps: int)
    | ConfirmWithdrawalOp(user: string, id: nat, signature: string, chain: Chain, writes: nat)
    | ExpireWithdrawalOp(id: nat, writes: nat)
    | CreateDepositOp(user: string, amount: int)
    | ConfirmDepositOp(user: string, id: nat, signature: string, chain: Chain, writes: nat)
    | ExpireDepositOp(id: nat)

  function Seeded(): Db {
    var zero := Account(0, 0);
    Db(Books(map[Treasury := zero, Rake := zero, Rewards := zero, External := zero], []), [], [], [], map[], 0)
  }

  // The game's row and its escrow account, as the match cycle prepares them.
  function OpenGame(db: Db, game: string): Db {
    db.(games := if game in db.games then db.games else db.games[game := Pending],
        books := if Escrow(game) in db.books.accounts then db.books
                 else db.books.(accounts := db.books.accounts[Escrow(game) := Account(0, 0)]))
  }

  function PostingOf(db: Db, op: Op): Entry
    requires op.PostOp?
  {
    Entry(op.kind, op.legs, OtherKey(op.name), db.groups, op.forGame)
  }

  // A refused or failed operation leaves the database as its flow left it.
  function Do(db: Db, op: Op): Db {
    match op
    case ReserveOp(user, tier, lamports) => Reserve(db, user, tier, lamports).0
    case ReleaseOp(user, tier) => Release(db, user, tier).0
    case ConsumeOp(tier, game, expected) =>
      var r := Consume(db, tier, game, expected); if r.Ok? then r.value.0 else db
    case CancelOp(game) => var r := Cancel(db, game); if r.Ok? then r.value.0 else db
    case PostOp(_, _, _, _) =>
      var r := PostEntry(db.books, PostingOf(db, op));
      if r.Ok? then db.(books := r.value, groups := db.groups + 1) else db
    case OpenGameOp(game) => OpenGame(db, game)
    case CompleteGameOp(game) => if game in db.games then db.(games := db.games[game := Completed]) else db
    case CreateWithdrawalOp(user, amount, bps) =>
      var r := CreateWithdrawal(db, user, amount, bps); if r.Ok? then r.value.0 else db
    case ConfirmWithdrawalOp(user, id, signature, chain, writes) =>
      ConfirmWithdrawal(db, user, id, signature, chain, writes).0
    case ExpireWithdrawalOp(id, writes) => ExpireWithdrawal(db, id, writes).0
    case CreateDepositOp(user, amount) =>
      var r := CreateDeposit(db, user, amount); if r.Ok? then r.value.0 else db
    case ConfirmDepositOp(user, id, signature, chain, writes) =>
      ConfirmDeposit(db, user, id, signature, chain, writes).0
    case ExpireDepositOp(id) => ExpireDeposit(db, id)
  }

  function Run(db: Db, ops: seq<Op>): Db {
    if ops == [] then db else Do(Run(db, ops[..|ops| - 1]), ops[|ops| - 1])
  }

  // ---- Any run: crashes, arbitrary entries, broken reservations ------------

  predicate PositiveStakes(stakes: seq<Reservation>) {
    forall i :: 0 <= i < |stakes| ==> stakes[i].lamports > 0
  }

  ghost predicate Audited(db: Db) {
    Sound(db.books) && EntriesOnce(db) && PositiveStakes(db.stakes)
  }

  lemma MoveRows(b: Books, m: Movement, base: KeyBase)
    requires m.from in b.accounts && m.to in b.accounts && !m.debitKey.Indexed? && !m.creditKey.Indexed?
    ensures RowsOf(Move(b, m).rows, base) == RowsOf(b.rows, base)
  {
    hide RowsOf;
    var d := Post(b, DebitRow(m)).rows[|b.rows|];
    var c := Move(b, m).rows[|b.rows| + 1];
    RowsOfSnoc(b.rows, d, base);
    RowsOfSnoc(b.rows + [d], c, base);
  }

  lemma {:induction false} ConsumeFirstSound(b: Books, rows: seq<Reservation>, game: string, group: nat, n: nat)
    requires n <= |rows| && Escrow(game) in b.accounts && Sound(b) && PositiveStakes(rows)
    requires ConsumeFirst(b, rows, game, group, n).Ok?
    ensures Sound(ConsumeFirst(b, rows, game, group, n).value)
    ensures forall base :: RowsOf(ConsumeFirst(b, rows, game, group, n).value.rows, base) == RowsOf(b.rows, base)
  {
    hide Sound, RowsOf, HasKey, Move;
    if n > 0 {
      ConsumeFirstSound(b, rows, game, group, n - 1);
      var mid := ConsumeFirst(b, rows, game, group, n - 1).value;
      var m := StakeMove(rows[n - 1], game, group + n - 1);
      if m.from in mid.accounts {
        var reserved := Less(mid.accounts[m.from].reserved, m.amount);
        SetReservedKeeps(mid, m.from, reserved);
        MoveKeeps(SetReserved(mid, m.from, reserved), m);
        forall base ensures RowsOf(ConsumeFirst(b, rows, game, group, n).value.rows, base) == RowsOf(b.rows, base) {
          MoveRows(SetReserved(mid, m.from, reserved), m, base);
        }
      }
    }
  }

  lemma {:induction false} OwedPositive(staked: seq<Owing>, settled: set<Option<string>>)
    ensures forall k :: 0 <= k < |Owed(staked, settled)| ==> Owed(staked, settled)[k].lamports > 0
  {
    if staked != [] { OwedPositive(staked[..|staked| - 1], settled); }
  }

  lemma {:induction false} RefundFirstSound(b: Books, owed: seq<RefundLeg>, game: string, group: nat, n: nat)
    requires n <= |owed| && Escrow(game) in b.accounts && Sound(b)
    requires forall k :: 0 <= k < |owed| ==> owed[k].lamports > 0
    requires SumRefunds(owed) <= b.accounts[Escrow(game)].balance
    requires RefundFirst(b, owed, game, group, n).Ok?
    ensures var b' := RefundFirst(b, owed, game, group, n).value;
            && Sound(b')
            && b'.accounts[Escrow(game)].balance == b.accounts[Escrow(game)].balance - SumRefunds(owed[..n])
            && forall base :: RowsOf(b'.rows, base) == RowsOf(b.rows, base)
  {
    hide Sound, RowsOf, HasKey, Move;
    if n > 0 {
      RefundFirstSound(b, owed, game, group, n - 1);
      var mid := RefundFirst(b, owed, game, group, n - 1).value;
      var m := RefundMove(owed[n - 1], game, group + n - 1);
      assert owed[..n][..n - 1] == owed[..n - 1];
      RefundsSplit(owed, n);
      WithCustodyKeeps(mid, m.user);
      MoveKeeps(WithCustody(mid, m.user), m);
      forall base ensures RowsOf(RefundFirst(b, owed, game, group, n).value.rows, base) == RowsOf(b.rows, base) {
        MoveRows(WithCustody(mid, m.user), m, base);
      }
    } else {
      assert owed[..0] == [];
    }
  }

  lemma {:induction false} TierPositive(stakes: seq<Reservation>, tier: string)
    requires PositiveStakes(stakes)
    ensures PositiveStakes(InTier(stakes, tier)) && PositiveStakes(NotInTier(stakes, tier))
  {
    if stakes != [] { TierPositive(stakes[..|stakes| - 1], tier); }
  }

  lemma ConsumeAudited(db: Db, tier: string, game: string, expected: Option<int>)
    requires Audited(db) && Consume(db, tier, game, expected).Ok?
    ensures Audited(Consume(db, tier, game, expected).value.0)
    ensures forall base :: RowsOf(Consume(db, tier, game, expected).value.0.books.rows, base) == RowsOf(db.books.rows, base)
  {
    hide Sound, RowsOf, ConsumeFirst, EntriesOnce;
    TierPositive(db.stakes, tier);
    var rows := InTier(db.stakes, tier);
    if rows != [] {
      ConsumeFirstSound(db.books, rows, game, db.groups, |rows|);
      OnceUntouched(db, Consume(db, tier, game, expected).value.0);
    }
  }

  lemma CancelAudited(db: Db, game: string)
    requires Audited(db) && Cancel(db, game).Ok?
    ensures Audited(Cancel(db, game).value.0)
    ensures forall base :: RowsOf(Cancel(db, game).value.0.books.rows, base) == RowsOf(db.books.rows, base)
  {
    hide Sound, RowsOf, RefundFirst, EntriesOnce;
    var owed := OwedFor(db.books.rows, game);
    if Escrow(game) in db.books.accounts {
      OwedPositive(Staked(db.books.rows, game), Settled(db.books.rows, game));
      RefundFirstSound(db.books, owed, game, db.groups, |owed|);
    }
    OnceUntouched(db, Cancel(db, game).value.0);
  }

  lemma ReserveAudited(db: Db, user: string, tier: string, lamports: int)
    requires Audited(db)
    ensures Audited(Reserve(db, user, tier, lamports).0)
    ensures Reserve(db, user, tier, lamports).0.books.rows == db.books.rows
  {
    hide Sound, RowsOf, EntriesOnce;
    WithCustodyKeeps(db.books, user);
    var b := WithCustody(db.books, user);
    SetReservedKeeps(b, Custody(user), b.accounts[Custody(user)].reserved + lamports);
    OnceUntouched(db, Reserve(db, user, tier, lamports).0);
  }

  lemma ReleaseAudited(db: Db, user: string, tier: string)
    requires Audited(db)
    ensures Audited(Release(db, user, tier).0)
    ensures Release(db, user, tier).0.books.rows == db.books.rows
  {
    hide Sound, RowsOf, EntriesOnce;
    var (db', released) := Release(db, user, tier);
    if Custody(user) in db.books.accounts {
      SetReservedKeeps(db.books, Custody(user), Less(db.books.accounts[Custody(user)].reserved, released));
    }
    OnceUntouched(db, db');
  }

  lemma OpenGameSound(db: Db, game: string)
    requires Sound(db.books)
    ensures Sound(OpenGame(db, game).books) && OpenGame(db, game).books.rows == db.books.rows
  {
    var b' := OpenGame(db, game).books;
    if Escrow(game) !in db.books.accounts {
      forall i | 0 <= i < |b'.rows| ensures b'.rows[i].account != Escrow(game) && RowConsistent(b', i) {
        assert RowConsistent(db.books, i);
      }
      NetUntouched(b'.rows, Escrow(game));
    }
  }

  lemma OpenGameAudited(db: Db, game: string)
    requires Audited(db)
    ensures Audited(OpenGame(db, game))
  {
    hide Sound, RowsOf, EntriesOnce;
    OpenGameSound(db, game);
    OnceUntouched(db, OpenGame(db, game));
  }

  lemma PostAudited(db: Db, op: Op)
    requires Audited(db) && op.PostOp?
    ensures Audited(Do(db, op))
  {
    hide Sound, RowsOf, EntriesOnce, PostEntry;
    var r := PostEntry(db.books, PostingOf(db, op));
    if r.Ok? { PostOnce(db, Do(db, op), PostingOf(db, op)); }
  }

  lemma CreateWithdrawalAudited(db: Db, user: string, amount: int, bps: int)
    requires Audited(db) && CreateWithdrawal(db, user, amount, bps).Ok?
    ensures Audited(CreateWithdrawal(db, user, amount, bps).value.0)
  {
    hide Sound, RowsOf, EntriesOnce;
    SetReservedKeeps(db.books, Custody(user), db.books.accounts[Custody(user)].reserved + amount);
    OnceUntouched(db, CreateWithdrawal(db, user, amount, bps).value.0);
  }

  lemma TablesAudited(db: Db, op: Op)
    requires Audited(db) && (op.CompleteGameOp? || op.CreateDepositOp? || op.ExpireDepositOp?)
    ensures Audited(Do(db, op))
  {
    hide Sound, RowsOf, EntriesOnce;
    OnceUntouched(db, Do(db, op));
  }

  lemma DoAudited(db: Db, op: Op)
    requires Audited(db)
    ensures Audited(Do(db, op))
  {
    hide Sound, EntriesOnce, Consume, Cancel, Reserve, Release, ConfirmDeposit, ConfirmWithdrawal, PostEntry, OpenGame;
    match op
    case ReserveOp(user, tier, lamports) => ReserveAudited(db, user, tier, lamports);
    case ReleaseOp(user, tier) => ReleaseAudited(db, user, tier);
    case ConsumeOp(tier, game, expected) =>
      if Consume(db, tier, game, expected).Ok? { ConsumeAudited(db, tier, game, expected); }
    case CancelOp(game) => if Cancel(db, game).Ok? { CancelAudited(db, game); }
    case PostOp(_, _, _, _) => PostAudited(db, op);
    case OpenGameOp(game) => OpenGameAudited(db, game);
    case CreateWithdrawalOp(user, amount, bps) =>
      if CreateWithdrawal(db, user, amount, bps).Ok? { CreateWithdrawalAudited(db, user, amount, bps); }
    case ConfirmWithdrawalOp(user, id, signature, chain, writes) =>
      ConfirmWithdrawalOnce(db, user, id, signature, chain, writes);
      ConfirmLeavesStakes(db, user, id, signature, chain, writes);
    case ExpireWithdrawalOp(id, writes) =>
      if id < |db.withdrawals| { FailWithdrawalOnce(db, id, writes); }
    case ConfirmDepositOp(user, id, signature, chain, writes) =>
      ConfirmDepositOnce(db, user, id, signature, chain, writes);
      ConfirmLeavesStakes(db, user, id, signature, chain, writes);
    case _ => TablesAudited(db, op);
  }

  lemma ConfirmLeavesStakes(db: Db, user: string, id: nat, signature: string, chain: Chain, writes: nat)
    ensures ConfirmWithdrawal(db, user, id, signature, chain, writes).0.stakes == db.stakes
    ensures ConfirmDeposit(db, user, id, signature, chain, writes).0.stakes == db.stakes
  {
    hide PostEntry;
  }

  lemma SeededAudited()
    ensures Audited(Seeded())
  {
  }

  lemma {:induction false} RunAudited(db: Db, ops: seq<Op>)
    requires Audited(db)
    ensures Audited(Run(db, ops))
  {
    hide Audited, Do;
    if ops != [] {
      RunAudited(db, ops[..|ops| - 1]);
      DoAudited(Run(db, ops[..|ops| - 1]), ops[|ops| - 1]);
    }
  }

  // Over any run, with any entries posted and any flow stopped between any two
  // of its writes: each balance is the net of its rows, each row records the
  // balance it left behind, only EXTERNAL is ever negative, the pools add up to
  // the ledger, every entry group sums to zero, and each deposit's and each
  // withdrawal's entry is posted at most once.
  lemma {:induction false} BooksAlwaysAudit(ops: seq<Op>)
    ensures var b := Run(Seeded(), ops).books;
            && (forall a :: a in b.accounts ==> b.accounts[a].balance == Net(b.rows, a))
            && (forall i :: 0 <= i < |b.rows| ==> b.rows[i].balanceAfter == Net(b.rows[..i + 1], b.rows[i].account))
            && (forall a :: a in b.accounts && !a.External? ==> b.accounts[a].balance >= 0)
            && SumBalances(b.accounts, b.accounts.Keys) == Total(b.rows)
            && (forall g :: GroupNet(b.rows, g) == 0)
            && EntriesOnce(Run(Seeded(), ops))
  {
    hide Do;
    SeededAudited();
    RunAudited(Seeded(), ops);
    var b := Run(Seeded(), ops).books;
    BooksAddUp(b);
    forall i | 0 <= i < |b.rows| ensures b.rows[i].balanceAfter == Net(b.rows[..i + 1], b.rows[i].account) {
      assert RowConsistent(b, i);
    }
  }
}
