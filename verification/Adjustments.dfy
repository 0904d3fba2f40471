// A manual correction of a balance: two rows between a player's custody account
// and the treasury, guarded otherwise than a posted entry.
module Adjustments {
  import opened Ledger
  import opened Options
  import opened Stakes

  datatype Adjusted = Applied | AlreadyApplied | NoTreasury | WouldBeNegative | KeyTaken

  function AdjustKey(user: string, name: string): KeyBase {
    OtherKey("adjust:" + user + ":" + name)
  }

  function AdjustRow(group: nat, user: Option<string>, account: AccountId, delta: int, key: Key): Row {
    Row(group, Adjustment, if delta > 0 then Credit else Debit, if delta > 0 then delta else -delta, 0, user, account, None, key)
  }

  // The custody account's new balance is checked, its reservation and the
  // treasury's balance are not.
  function Adjust(db: Db, user: string, delta: int, name: string): (Db, Adjusted) {
    var b := WithCustody(db.books, user);
    var player := AdjustRow(db.groups, Some(user), Custody(user), delta, Indexed(AdjustKey(user, name), 0));
    var offset := AdjustRow(db.groups, None, Treasury, -delta, Indexed(AdjustKey(user, name), 1));
    if Treasury !in b.accounts then (db.(books := b), NoTreasury)
    else if HasKey(b.rows, player.key) then (db.(books := b), AlreadyApplied)
    else if b.accounts[Custody(user)].balance + delta < 0 then (db.(books := b), WouldBeNegative)
    else if HasKey(b.rows, offset.key) then (db.(books := b), KeyTaken)
    else (db.(books := Post(Post(b, player), offset), groups := db.groups + 1), Applied)
  }

  // An applied adjustment moves the amount once and keeps every audit of the rows.
  // The treasury stays covered exactly when it could pay, and the reservations
  // stay covered exactly when the player's spendable balance could.
  lemma AdjustKeepsIff(db: Db, user: string, delta: int, name: string)
    requires Sound(db.books) && delta != 0 && Adjust(db, user, delta, name).1 == Applied
    ensures var db' := Adjust(db, user, delta, name).0;
            var before, after := WithCustody(db.books, user).accounts, db'.books.accounts;
            && Consistent(db'.books) && GroupsBalance(db'.books.rows)
            && Custody(user) in before && Treasury in before
            && after == before[Custody(user) := before[Custody(user)].(balance := before[Custody(user)].balance + delta)]
                              [Treasury := before[Treasury].(balance := before[Treasury].balance - delta)]
            && (Sound(db'.books) <==> delta <= before[Treasury].balance)
            && (Committed(db) ==> (Committed(db') <==> before[Custody(user)].reserved <= before[Custody(user)].balance + delta))
  {
    var b := WithCustody(db.books, user);
    var player := AdjustRow(db.groups, Some(user), Custody(user), delta, Indexed(AdjustKey(user, name), 0));
    var offset := AdjustRow(db.groups, None, Treasury, -delta, Indexed(AdjustKey(user, name), 1));
    WithCustodyKeeps(db.books, user);
    AdjustRowsKeep(b, player, offset);
    CommittedIff(db, Adjust(db, user, delta, name).0, user, delta);
    SolventIff(b, Post(Post(b, player), offset), user, delta);
    hide Consistent, GroupsBalance, Committed, HasKey, WithCustody;
  }

  lemma AdjustRowsKeep(b: Books, player: Row, offset: Row)
    requires Sound(b) && player.account in b.accounts && offset.account in b.accounts && player.account != offset.account
    requires player.amount == offset.amount > 0 && player.direction != offset.direction && player.group == offset.group
    requires !HasKey(b.rows, player.key) && !HasKey(b.rows, offset.key) && player.key != offset.key
    ensures Consistent(Post(Post(b, player), offset)) && GroupsBalance(Post(Post(b, player), offset).rows)
  {
    hide Solvent;
    var mid := Post(b, player);
    var posted := mid.rows[|b.rows|];
    PostConsistent(b, player);
    assert !HasKey(mid.rows, offset.key) by {
      forall i | 0 <= i < |mid.rows| ensures mid.rows[i].key != offset.key { if i < |b.rows| { assert mid.rows[i] == b.rows[i]; } }
    }
    PostConsistent(mid, offset);
    Snoc(b.rows, posted);
    Snoc(mid.rows, Post(mid, offset).rows[|mid.rows|]);
    hide Consistent, HasKey;
  }

  lemma SolventIff(b: Books, b': Books, user: string, delta: int)
    requires Solvent(b) && Custody(user) in b.accounts && Treasury in b.accounts && b.accounts[Custody(user)].balance + delta >= 0
    requires var p, t := b.accounts[Custody(user)], b.accounts[Treasury];
             b'.accounts == b.accounts[Custody(user) := p.(balance := p.balance + delta)]
                                      [Treasury := t.(balance := t.balance - delta)]
    ensures Solvent(b') <==> delta <= b.accounts[Treasury].balance
  {
    if delta > b.accounts[Treasury].balance { assert b'.accounts[Treasury].balance < 0; }
  }

  lemma CommittedIff(db: Db, db': Db, user: string, delta: int)
    requires Custody(user) in db'.books.accounts && db'.stakes == db.stakes && db'.withdrawals == db.withdrawals
    requires var before, after := WithCustody(db.books, user).accounts, db'.books.accounts;
             && Treasury in before
             && after == before[Custody(user) := before[Custody(user)].(balance := before[Custody(user)].balance + delta)]
                               [Treasury := before[Treasury].(balance := before[Treasury].balance - delta)]
    ensures var a := WithCustody(db.books, user).accounts[Custody(user)];
            Committed(db) ==> (Committed(db') <==> a.reserved <= a.balance + delta)
  {
    if Committed(db) {
      assert CommittedUser(db, user);
      forall u: string ensures u != user ==> CommittedUser(db', u) {
        assert CommittedUser(db, u) && Commitments(db', u) == Commitments(db, u);
      }
      assert Commitments(db', user) == Commitments(db, user);
      if Committed(db') { assert CommittedUser(db', user); }
    }
  }

  // Applied again under its key an adjustment moves nothing.
  lemma AdjustOnce(db: Db, user: string, delta: int, name: string)
    requires Adjust(db, user, delta, name).1 == Applied
    ensures var db' := Adjust(db, user, delta, name).0; Adjust(db', user, delta, name) == (db', AlreadyApplied)
  {
    var db' := Adjust(db, user, delta, name).0;
    assert db'.books.rows[|db.books.rows|].key == Indexed(AdjustKey(user, name), 0);
    assert db'.(books := WithCustody(db'.books, user)) == db';
  }

  // A player with a balance of one SOL, all of it staked, and an empty treasury.
  function AllStaked(): Db {
    Db(OneDeposit("player", SOL, SOL), [Reservation("player", "tier", SOL)], [], [], map[], 1)
  }

  lemma AllStakedIsSettled()
    ensures Sound(AllStaked().books) && Committed(AllStaked())
  {
    OneDepositSound("player", SOL, SOL);
    forall u: string ensures CommittedUser(AllStaked(), u) { assert StakesOf(AllStaked().stakes[..0], u) == 0; }
  }

  // Taking 5 from it leaves less than is staked; giving it 5 overdraws the treasury.
  lemma AdjustmentsUncover()
    ensures var taken := Adjust(AllStaked(), "player", -5, "correction"); taken.1 == Applied && !Committed(taken.0)
    ensures var given := Adjust(AllStaked(), "player", 5, "correction"); given.1 == Applied && !Sound(given.0.books)
  {
    AllStakedIsSettled();
    assert forall i :: 0 <= i < 2 ==> AllStaked().books.rows[i].key.base == DepositKey(0);
    AdjustKeepsIff(AllStaked(), "player", -5, "correction");
    AdjustKeepsIff(AllStaked(), "player", 5, "correction");
  }
}
