// The double-entry ledger: pool accounts and the rows posted against them.
// Amounts are lamports, unbounded as the source's bigint.
module Ledger {
  import opened Options

  // One row per pool account; the kind is part of the identity, a player owns
  // one custody account and a game one escrow.
  datatype AccountId =
    | Custody(user: string) | Escrow(game: string) | Treasury | Rake | Rewards | External

  datatype Account = Account(balance: int, reserved: int)

  datatype Direction = Credit | Debit

  datatype EntryType =
    | DepositEntry | WithdrawalEntry | EntryFee | Payout | RakeFee | Reward | Refund | Transfer | Adjustment

  datatype KeyBase = DepositKey(deposit: nat) | WithdrawalKey(withdrawal: nat) | OtherKey(name: string)

  // Idempotency keys, with the source's string patterns as constructors.
  datatype Key =
    | Stake(game: string, user: string)
    | StakeEscrow(game: string, user: string)
    | RefundEscrow(game: string, user: string)
    | RefundCustody(game: string, user: string)
    | Indexed(base: KeyBase, index: nat)

  datatype Row = Row(
    group: nat,
    kind: EntryType,
    direction: Direction,
    amount: int,
    balanceAfter: int,
    user: Option<string>,
    account: AccountId,
    game: Option<string>,
    key: Key)

  datatype Books = Books(accounts: map<AccountId, Account>, rows: seq<Row>)

  datatype EntryLeg = EntryLeg(account: AccountId, user: Option<string>, direction: Direction, amount: int)

  datatype Entry = Entry(kind: EntryType, legs: seq<EntryLeg>, base: KeyBase, group: nat, game: Option<string>)

  datatype LedgerError = Imbalance | InvalidLeg | AccountMissing | InsufficientFunds | AlreadyPosted

  function SignedAmount(direction: Direction, amount: int): int {
    if direction == Credit then amount else -amount
  }

  function Signed(row: Row): int {
    SignedAmount(row.direction, row.amount)
  }

  // Net of the rows posted against one account.
  function Net(rows: seq<Row>, a: AccountId): int {
    if rows == [] then 0
    else Net(rows[..|rows| - 1], a) +
         (if rows[|rows| - 1].account == a then Signed(rows[|rows| - 1]) else 0)
  }

  function GroupNet(rows: seq<Row>, g: nat): int {
    if rows == [] then 0
    else GroupNet(rows[..|rows| - 1], g) +
         (if rows[|rows| - 1].group == g then Signed(rows[|rows| - 1]) else 0)
  }

  function Total(rows: seq<Row>): int {
    if rows == [] then 0 else Total(rows[..|rows| - 1]) + Signed(rows[|rows| - 1])
  }

  predicate MayGoNegative(a: AccountId) {
    a.External?
  }

  predicate HasKey(rows: seq<Row>, k: Key) {
    exists i :: 0 <= i < |rows| && rows[i].key == k
  }

  lemma Snoc(rows: seq<Row>, row: Row)
    ensures forall a :: Net(rows + [row], a) == Net(rows, a) + (if row.account == a then Signed(row) else 0)
    ensures forall g :: GroupNet(rows + [row], g) == GroupNet(rows, g) + (if row.group == g then Signed(row) else 0)
    ensures Total(rows + [row]) == Total(rows) + Signed(row)
  {
    assert (rows + [row])[..|rows + [row]| - 1] == rows;
  }

  // ---- Posting one row -----------------------------------------------------

  // Moves the account's balance and records it on the row.
  function Post(b: Books, row: Row): Books
    requires row.account in b.accounts
  {
    var account := b.accounts[row.account];
    var next := account.balance + Signed(row);
    Books(b.accounts[row.account := account.(balance := next)], b.rows + [row.(balanceAfter := next)])
  }

  // Every balance is the net of its rows, every row records the balance its
  // account had right after it, and no key is used twice.
  predicate Consistent(b: Books) {
    && (forall a :: a in b.accounts ==> b.accounts[a].balance == Net(b.rows, a))
    && (forall i :: 0 <= i < |b.rows| ==> RowConsistent(b, i))
    && (forall i, j :: 0 <= i < j < |b.rows| ==> b.rows[i].key != b.rows[j].key)
  }

  predicate RowConsistent(b: Books, i: nat)
    requires i < |b.rows|
  {
    var row := b.rows[i];
    row.account in b.accounts && row.amount > 0 && row.balanceAfter == Net(b.rows[..i + 1], row.account)
  }

  predicate Solvent(b: Books) {
    forall a :: a in b.accounts && !MayGoNegative(a) ==> b.accounts[a].balance >= 0
  }

  ghost predicate GroupsBalance(rows: seq<Row>) {
    forall g :: GroupNet(rows, g) == 0
  }

  // The books between operations.
  ghost predicate Sound(b: Books) {
    Consistent(b) && Solvent(b) && GroupsBalance(b.rows)
  }

  lemma PostConsistent(b: Books, row: Row)
    requires Consistent(b) && row.account in b.accounts && row.amount > 0 && !HasKey(b.rows, row.key)
    ensures Consistent(Post(b, row))
    ensures Post(b, row).accounts.Keys == b.accounts.Keys
  {
    var b' := Post(b, row);
    var posted := row.(balanceAfter := b.accounts[row.account].balance + Signed(row));
    Snoc(b.rows, posted);
    forall i | 0 <= i < |b'.rows| ensures RowConsistent(b', i) {
      if i < |b.rows| {
        assert RowConsistent(b, i);
        assert b'.rows[..i + 1] == b.rows[..i + 1];
      } else {
        assert b'.rows[..i + 1] == b'.rows;
      }
    }
    forall i, j | 0 <= i < j < |b'.rows| ensures b'.rows[i].key != b'.rows[j].key {
      if j == |b.rows| { assert b.rows[i].key != row.key; }
    }
  }

  // ---- Entries -------------------------------------------------------------

  function Credits(legs: seq<EntryLeg>): int {
    if legs == [] then 0
    else Credits(legs[..|legs| - 1]) +
         (if legs[|legs| - 1].direction == Credit then legs[|legs| - 1].amount else 0)
  }

  function Debits(legs: seq<EntryLeg>): int {
    if legs == [] then 0
    else Debits(legs[..|legs| - 1]) +
         (if legs[|legs| - 1].direction == Debit then legs[|legs| - 1].amount else 0)
  }

  predicate Positive(legs: seq<EntryLeg>) {
    forall i :: 0 <= i < |legs| ==> legs[i].amount > 0
  }

  predicate Balanced(legs: seq<EntryLeg>) {
    |legs| >= 2 && Positive(legs) && Credits(legs) == Debits(legs)
  }

  method AssertBalanced(legs: seq<EntryLeg>) returns (r: Result<(int, int), LedgerError>)
    ensures r.Ok? <==> Balanced(legs)
    ensures r.Ok? ==> r.value == (Credits(legs), Debits(legs))
    ensures r.Err? ==> r.error == if |legs| >= 2 && !Positive(legs) then InvalidLeg else Imbalance
  {
    if |legs| < 2 { return Err(Imbalance); }
    var credits, debits := 0, 0;
    for i := 0 to |legs|
      invariant Positive(legs[..i])
      invariant credits == Credits(legs[..i]) && debits == Debits(legs[..i])
    {
      assert legs[..i + 1][..i] == legs[..i];
      if legs[i].amount <= 0 {
        assert !Positive(legs);
        return Err(InvalidLeg);
      }
      if legs[i].direction == Credit { credits := credits + legs[i].amount; }
      else { debits := debits + legs[i].amount; }
    }
    assert legs[..|legs|] == legs;
    if credits != debits { return Err(Imbalance); }
    return Ok((credits, debits));
  }

  function LegRow(e: Entry, i: nat): Row
    requires i < |e.legs|
  {
    var leg := e.legs[i];
    Row(e.group, e.kind, leg.direction, leg.amount, 0, leg.user, leg.account, e.game, Indexed(e.base, i))
  }

  function PostLeg(b: Books, e: Entry, i: nat): Result<Books, LedgerError>
    requires i < |e.legs|
  {
    var row := LegRow(e, i);
    if row.account !in b.accounts then Err(AccountMissing)
    else if b.accounts[row.account].balance + Signed(row) < 0 && !MayGoNegative(row.account) then
      Err(InsufficientFunds)
    else if HasKey(b.rows, row.key) then Err(AlreadyPosted)
    else Ok(Post(b, row))
  }

  function PostLegs(b: Books, e: Entry, n: nat): Result<Books, LedgerError>
    requires n <= |e.legs|
  {
    if n == 0 then Ok(b)
    else
      var r := PostLegs(b, e, n - 1);
      if r.Err? then r else PostLeg(r.value, e, n - 1)
  }

  // All legs or none.
  function PostEntry(b: Books, e: Entry): Result<Books, LedgerError> {
    if |e.legs| < 2 then Err(Imbalance)
    else if !Positive(e.legs) then Err(InvalidLeg)
    else if Credits(e.legs) != Debits(e.legs) then Err(Imbalance)
    else PostLegs(b, e, |e.legs|)
  }

  // Net effect of an entry's first legs on one account.
  function LegNet(legs: seq<EntryLeg>, a: AccountId): int {
    if legs == [] then 0
    else LegNet(legs[..|legs| - 1], a) +
         (if legs[|legs| - 1].account == a
          then SignedAmount(legs[|legs| - 1].direction, legs[|legs| - 1].amount) else 0)
  }

  // The accounts an entry leaves alone are unchanged, reservations everywhere.
  predicate Moved(b: Books, b': Books, legs: seq<EntryLeg>) {
    && b'.accounts.Keys == b.accounts.Keys
    && forall a :: a in b.accounts ==>
         b'.accounts[a] == b.accounts[a].(balance := b.accounts[a].balance + LegNet(legs, a))
  }

  predicate Appended(b: Books, b': Books, e: Entry, n: nat)
    requires n <= |e.legs|
  {
    && |b'.rows| == |b.rows| + n && b'.rows[..|b.rows|] == b.rows
    && forall i :: |b.rows| <= i < |b'.rows| ==>
         b'.rows[i] == LegRow(e, i - |b.rows|).(balanceAfter := b'.rows[i].balanceAfter)
  }

  lemma PostLegKeeps(b: Books, e: Entry, i: nat)
    requires i < |e.legs| && Consistent(b) && Solvent(b) && Positive(e.legs) && PostLeg(b, e, i).Ok?
    ensures var b' := PostLeg(b, e, i).value;
            var leg := e.legs[i];
            && Consistent(b') && Solvent(b')
            && leg.account in b.accounts
            && b'.accounts == b.accounts[leg.account := b.accounts[leg.account].(
                 balance := b.accounts[leg.account].balance + SignedAmount(leg.direction, leg.amount))]
            && b'.rows == b.rows + [LegRow(e, i).(balanceAfter := b'.accounts[leg.account].balance)]
  {
    PostConsistent(b, LegRow(e, i));
  }

  lemma {:induction false} PostLegsKeep(b: Books, e: Entry, n: nat)
    requires n <= |e.legs| && Consistent(b) && Solvent(b) && Positive(e.legs) && PostLegs(b, e, n).Ok?
    ensures var b' := PostLegs(b, e, n).value;
            && Consistent(b') && Solvent(b')
            && Moved(b, b', e.legs[..n])
            && Appended(b, b', e, n)
  {
    hide Consistent, Solvent, PostLeg;
    if n > 0 {
      PostLegsKeep(b, e, n - 1);
      var mid := PostLegs(b, e, n - 1).value;
      PostLegKeeps(mid, e, n - 1);
      assert e.legs[..n][..n - 1] == e.legs[..n - 1];
    }
  }

  lemma {:induction false} PostLegsGroups(b: Books, e: Entry, n: nat)
    requires n <= |e.legs| && Consistent(b) && Solvent(b) && Positive(e.legs) && PostLegs(b, e, n).Ok?
    ensures forall g :: GroupNet(PostLegs(b, e, n).value.rows, g) == GroupNet(b.rows, g) +
              (if g == e.group then Credits(e.legs[..n]) - Debits(e.legs[..n]) else 0)
  {
    hide Consistent, Solvent, PostLeg;
    if n > 0 {
      PostLegsGroups(b, e, n - 1);
      PostLegsKeep(b, e, n - 1);
      var mid := PostLegs(b, e, n - 1).value;
      PostLegKeeps(mid, e, n - 1);
      Snoc(mid.rows, LegRow(e, n - 1).(balanceAfter := PostLegs(b, e, n).value.accounts[e.legs[n - 1].account].balance));
      assert e.legs[..n][..n - 1] == e.legs[..n - 1];
    }
  }

  // A posted entry keeps the books sound, moves each account by its legs, and
  // appends one row a leg; a rejected one is the caller's to report.
  lemma PostEntryKeeps(b: Books, e: Entry)
    requires Sound(b) && PostEntry(b, e).Ok?
    ensures var b' := PostEntry(b, e).value;
            && Sound(b') && Moved(b, b', e.legs) && Appended(b, b', e, |e.legs|)
            && !HasKey(b.rows, Indexed(e.base, 0)) && HasKey(b'.rows, Indexed(e.base, 0))
  {
    PostLegsKeep(b, e, |e.legs|);
    PostLegsGroups(b, e, |e.legs|);
    assert e.legs[..|e.legs|] == e.legs;
    var b' := PostEntry(b, e).value;
    FirstLegFresh(b, e, |e.legs|);
    assert b'.rows[|b.rows|].key == Indexed(e.base, 0);
  }

  lemma {:induction false} FirstLegFresh(b: Books, e: Entry, n: nat)
    requires 0 < n <= |e.legs| && PostLegs(b, e, n).Ok?
    ensures !HasKey(b.rows, Indexed(e.base, 0))
  {
    if n > 1 { FirstLegFresh(b, e, n - 1); }
    else { assert PostLegs(b, e, 0) == Ok(b); }
  }

  lemma {:induction false} LegsAfterErr(b: Books, e: Entry, n: nat, m: nat)
    requires n <= m <= |e.legs| && PostLegs(b, e, n).Err?
    ensures PostLegs(b, e, m) == PostLegs(b, e, n)
  {
    if n < m { LegsAfterErr(b, e, n, m - 1); }
  }

  // An entry that finds its accounts, the funds and fresh keys is posted.
  lemma {:induction false} PostLegsSucceed(b: Books, e: Entry, n: nat)
    requires n <= |e.legs| && Consistent(b) && Solvent(b) && Positive(e.legs)
    requires forall i :: 0 <= i < |e.legs| ==> e.legs[i].account in b.accounts
    requires forall i :: 0 <= i < |e.legs| ==> !HasKey(b.rows, Indexed(e.base, i))
    requires forall k :: 0 < k <= |e.legs| && !MayGoNegative(e.legs[k - 1].account) ==>
               b.accounts[e.legs[k - 1].account].balance + LegNet(e.legs[..k], e.legs[k - 1].account) >= 0
    ensures PostLegs(b, e, n).Ok?
  {
    hide Consistent, Solvent;
    if n > 0 {
      PostLegsSucceed(b, e, n - 1);
      PostLegsKeep(b, e, n - 1);
      assert n <= |e.legs|;
      hide PostLeg, Moved, Appended, HasKey;
      PostLegSucceeds(b, PostLegs(b, e, n - 1).value, e, n - 1);
    }
  }

  lemma PostLegSucceeds(b: Books, mid: Books, e: Entry, k: nat)
    requires k < |e.legs| && Moved(b, mid, e.legs[..k]) && Appended(b, mid, e, k)
    requires e.legs[k].account in b.accounts && !HasKey(b.rows, Indexed(e.base, k))
    requires MayGoNegative(e.legs[k].account) ||
             b.accounts[e.legs[k].account].balance + LegNet(e.legs[..k + 1], e.legs[k].account) >= 0
    ensures PostLeg(mid, e, k).Ok?
  {
    assert e.legs[..k + 1][..k] == e.legs[..k];
    forall i | 0 <= i < |mid.rows| ensures mid.rows[i].key != Indexed(e.base, k) {
      if i < |b.rows| { assert b.rows[i] == mid.rows[..|b.rows|][i]; }
    }
  }

  // ---- The auditors --------------------------------------------------------

  ghost function SumBalances(accounts: map<AccountId, Account>, ids: set<AccountId>): int
    requires ids <= accounts.Keys
  {
    if ids == {} then 0
    else
      var a :| a in ids;
      accounts[a].balance + SumBalances(accounts, ids - {a})
  }

  lemma {:induction false} SumTakeOut(accounts: map<AccountId, Account>, ids: set<AccountId>, x: AccountId)
    requires ids <= accounts.Keys && x in ids
    ensures SumBalances(accounts, ids) == accounts[x].balance + SumBalances(accounts, ids - {x})
  {
    var a :| a in ids && SumBalances(accounts, ids) == accounts[a].balance + SumBalances(accounts, ids - {a});
    if a != x {
      SumTakeOut(accounts, ids - {a}, x);
      SumTakeOut(accounts, ids - {x}, a);
      assert ids - {a} - {x} == ids - {x} - {a};
    }
  }

  // The net of the rows, summed over a set of accounts that covers them.
  ghost function SumNets(rows: seq<Row>, ids: set<AccountId>): int {
    if ids == {} then 0
    else
      var a :| a in ids;
      Net(rows, a) + SumNets(rows, ids - {a})
  }

  lemma {:induction false} NetsOfNothing(rows: seq<Row>, ids: set<AccountId>)
    requires rows == []
    ensures SumNets(rows, ids) == 0
  {
    if ids != {} {
      var a :| a in ids && SumNets(rows, ids) == Net(rows, a) + SumNets(rows, ids - {a});
      NetsOfNothing(rows, ids - {a});
      assert Net(rows, a) == 0;
    } else {
      assert SumNets(rows, ids) == 0;
    }
  }

  lemma {:induction false} NetsSnoc(rows: seq<Row>, row: Row, ids: set<AccountId>)
    ensures SumNets(rows + [row], ids) == SumNets(rows, ids) + (if row.account in ids then Signed(row) else 0)
  {
    if ids != {} {
      Snoc(rows, row);
      var a :| a in ids && SumNets(rows, ids) == Net(rows, a) + SumNets(rows, ids - {a});
      NetsSnoc(rows, row, ids - {a});
      NetsTakeOut(rows + [row], ids, a);
    }
  }

  lemma {:induction false} NetsTakeOut(rows: seq<Row>, ids: set<AccountId>, x: AccountId)
    requires x in ids
    ensures SumNets(rows, ids) == Net(rows, x) + SumNets(rows, ids - {x})
  {
    var a :| a in ids && SumNets(rows, ids) == Net(rows, a) + SumNets(rows, ids - {a});
    if a != x {
      NetsTakeOut(rows, ids - {a}, x);
      NetsTakeOut(rows, ids - {x}, a);
      assert ids - {a} - {x} == ids - {x} - {a};
    }
  }

  lemma {:induction false} NetsCoverTotal(rows: seq<Row>, ids: set<AccountId>)
    requires forall i :: 0 <= i < |rows| ==> rows[i].account in ids
    ensures SumNets(rows, ids) == Total(rows)
  {
    if rows == [] {
      NetsOfNothing(rows, ids);
    } else {
      var front := rows[..|rows| - 1];
      assert rows == front + [rows[|rows| - 1]];
      NetsCoverTotal(front, ids);
      NetsSnoc(front, rows[|rows| - 1], ids);
    }
  }

  lemma {:induction false} BalancesAreNets(b: Books, ids: set<AccountId>)
    requires Consistent(b) && ids <= b.accounts.Keys
    ensures SumBalances(b.accounts, ids) == SumNets(b.rows, ids)
  {
    if ids != {} {
      var a :| a in ids && SumBalances(b.accounts, ids) == b.accounts[a].balance + SumBalances(b.accounts, ids - {a});
      BalancesAreNets(b, ids - {a});
      NetsTakeOut(b.rows, ids, a);
    }
  }

  // The pools add up to the net of every row ever posted.
  lemma BooksAddUp(b: Books)
    requires Consistent(b)
    ensures SumBalances(b.accounts, b.accounts.Keys) == Total(b.rows)
  {
    BalancesAreNets(b, b.accounts.Keys);
    forall i | 0 <= i < |b.rows| ensures b.rows[i].account in b.accounts.Keys { assert RowConsistent(b, i); }
    NetsCoverTotal(b.rows, b.accounts.Keys);
  }

  datatype Check = Check(balanced: bool, drift: int, poolTotal: int, ledgerTotal: int)

  method CheckLedgerInvariant(b: Books) returns (c: Check)
    ensures c.poolTotal == SumBalances(b.accounts, b.accounts.Keys)
    ensures c.ledgerTotal == Total(b.rows)
    ensures c.drift == c.poolTotal - c.ledgerTotal && (c.balanced <==> c.drift == 0)
    ensures Consistent(b) ==> c.balanced
  {
    var poolTotal := 0;
    var left := b.accounts.Keys;
    while left != {}
      invariant left <= b.accounts.Keys
      invariant poolTotal + SumBalances(b.accounts, left) == SumBalances(b.accounts, b.accounts.Keys)
      decreases left
    {
      var a :| a in left;
      SumTakeOut(b.accounts, left, a);
      poolTotal := poolTotal + b.accounts[a].balance;
      left := left - {a};
    }
    var credited, debited := 0, 0;
    for i := 0 to |b.rows|
      invariant credited - debited == Total(b.rows[..i])
    {
      assert b.rows[..i + 1][..i] == b.rows[..i];
      if b.rows[i].direction == Credit { credited := credited + b.rows[i].amount; }
      else { debited := debited + b.rows[i].amount; }
    }
    assert b.rows[..|b.rows|] == b.rows;
    var ledgerTotal := credited - debited;
    var drift := poolTotal - ledgerTotal;
    if Consistent(b) { BooksAddUp(b); }
    c := Check(drift == 0, drift, poolTotal, ledgerTotal);
  }

  datatype GroupDrift = GroupDrift(group: nat, drift: int)

  function Size(d: GroupDrift): int {
    if d.drift < 0 then -d.drift else d.drift
  }

  // Larger drifts first, equal ones by group.
  predicate Before(a: GroupDrift, b: GroupDrift) {
    Size(a) > Size(b) || (Size(a) == Size(b) && a.group <= b.group)
  }

  // Reports exactly the groups whose legs do not sum to zero, each once, the
  // largest drift first.
  method FindImbalancedGroups(rows: seq<Row>) returns (drifts: seq<GroupDrift>)
    ensures forall g :: GroupNet(rows, g) != 0 <==> GroupDrift(g, GroupNet(rows, g)) in drifts
    ensures forall d :: d in drifts ==> d.drift == GroupNet(rows, d.group) != 0
    ensures Ranked(drifts) && (GroupsBalance(rows) <==> drifts == [])
  {
    var byGroup: map<nat, int> := map[];
    for i := 0 to |rows|
      invariant forall g :: GroupNet(rows[..i], g) == if g in byGroup then byGroup[g] else 0
    {
      assert rows[..i + 1][..i] == rows[..i];
      var current := if rows[i].group in byGroup then byGroup[rows[i].group] else 0;
      byGroup := byGroup[rows[i].group := current + SignedAmount(rows[i].direction, rows[i].amount)];
    }
    assert rows[..|rows|] == rows;
    drifts := [];
    var left := byGroup.Keys;
    while left != {}
      invariant left <= byGroup.Keys
      invariant forall g :: g in byGroup.Keys - left && byGroup[g] != 0 ==> GroupDrift(g, byGroup[g]) in drifts
      invariant forall d :: d in drifts ==> d.group in byGroup.Keys - left && d.drift == byGroup[d.group] != 0
      invariant forall i, j :: 0 <= i < j < |drifts| ==> drifts[i].group != drifts[j].group
      decreases left
    {
      var g :| g in left;
      left := left - {g};
      if byGroup[g] != 0 { drifts := drifts + [GroupDrift(g, byGroup[g])]; }
    }
    if drifts != [] { assert drifts[0] in drifts; }
    drifts := SortDrifts(drifts);
  }

  // Distinct groups, larger drifts first.
  predicate Ranked(drifts: seq<GroupDrift>) {
    forall i, j :: 0 <= i < j < |drifts| ==> drifts[i].group != drifts[j].group && Before(drifts[i], drifts[j])
  }

  lemma RankedInsert(drifts: seq<GroupDrift>, k: nat, d: GroupDrift)
    requires Ranked(drifts) && k <= |drifts| && forall i :: 0 <= i < |drifts| ==> drifts[i].group != d.group
    requires (forall i :: 0 <= i < k ==> Before(drifts[i], d)) && (k < |drifts| ==> !Before(drifts[k], d))
    ensures Ranked(drifts[..k] + [d] + drifts[k..])
    ensures forall x :: x in drifts[..k] + [d] + drifts[k..] <==> x == d || x in drifts
  {
    assert drifts == drifts[..k] + drifts[k..];
    forall i | k <= i < |drifts| ensures Before(d, drifts[i]) { if i > k { assert Before(drifts[k], drifts[i]); } }
    hide Before;
  }

  // Each drift in turn goes before the first that must not precede it.
  method SortDrifts(drifts: seq<GroupDrift>) returns (sorted: seq<GroupDrift>)
    requires forall i, j :: 0 <= i < j < |drifts| ==> drifts[i].group != drifts[j].group
    ensures Ranked(sorted) && |sorted| == |drifts| && forall d :: d in sorted <==> d in drifts
  {
    hide Before, Ranked;
    sorted := [];
    RankedNone();
    for n := 0 to |drifts|
      invariant Ranked(sorted) && |sorted| == n && forall d :: d in sorted <==> d in drifts[..n]
    {
      var k := 0;
      while k < |sorted| && Before(sorted[k], drifts[n])
        invariant 0 <= k <= |sorted|
        invariant forall i :: 0 <= i < k ==> Before(sorted[i], drifts[n])
      {
        k := k + 1;
      }
      forall i | 0 <= i < |sorted| ensures sorted[i].group != drifts[n].group { assert sorted[i] in drifts[..n]; }
      RankedInsert(sorted, k, drifts[n]);
      sorted := sorted[..k] + [drifts[n]] + sorted[k..];
      assert drifts[..n + 1] == drifts[..n] + [drifts[n]];
    }
    assert drifts[..|drifts|] == drifts;
  }

  lemma RankedNone()
    ensures Ranked([])
  {
  }

  // ---- The books after one deposit -----------------------------------------

  const SOL: int := 1_000_000_000

  function OneDeposit(user: string, amount: int, reserved: int): Books {
    Books(map[External := Account(-amount, 0), Custody(user) := Account(amount, reserved), Treasury := Account(0, 0)],
          [Row(0, DepositEntry, Debit, amount, -amount, None, External, None, Indexed(DepositKey(0), 0)),
           Row(0, DepositEntry, Credit, amount, amount, Some(user), Custody(user), None, Indexed(DepositKey(0), 1))])
  }

  lemma OneDepositSound(user: string, amount: int, reserved: int)
    requires amount > 0
    ensures Sound(OneDeposit(user, amount, reserved))
  {
    var b := OneDeposit(user, amount, reserved);
    var rows := b.rows;
    assert rows[..0 + 1] == [rows[0]] && rows[..1 + 1] == rows;
    Snoc([], rows[0]);
    Snoc([rows[0]], rows[1]);
    assert rows == [] + [rows[0]] + [rows[1]] && [] + [rows[0]] == [rows[0]];
    assert forall a :: Net(rows, a) == (if a == External then -amount else if a == Custody(user) then amount else 0);
    assert RowConsistent(b, 0) && RowConsistent(b, 1);
    assert forall g :: GroupNet(rows, g) == 0;
  }
}
