// Per-event budgets and the validation of input batches.
module Guards {
  import opened Numbers
  import opened TokenBucket

  // ---- Events --------------------------------------------------------------

  const EVENT_LIMITS: map<string, Limit> :=
    map["chat" := Limit(0.5, 3.0), "ping" := Limit(4.0, 8.0), "respawn" := Limit(0.5, 3.0), "join" := Limit(1.0, 3.0)]

  datatype Call = Call(event: string, now: real)

  function BudgetOf(budgets: map<string, Bucket>, c: Call, l: Limit): Bucket {
    if c.event in budgets then budgets[c.event] else Bucket(l.burst, c.now)
  }

  // The budgets after the calls.
  function Budgets(budgets: map<string, Bucket>, calls: seq<Call>): map<string, Bucket> {
    if calls == [] then budgets
    else
      var before, c := Budgets(budgets, calls[..|calls| - 1]), calls[|calls| - 1];
      if c.event !in EVENT_LIMITS then before
      else before[c.event := Spent(BudgetOf(before, c, EVENT_LIMITS[c.event]), c.now, EVENT_LIMITS[c.event])]
  }

  predicate Allowed(budgets: map<string, Bucket>, c: Call) {
    c.event in EVENT_LIMITS ==> Grants(BudgetOf(budgets, c, EVENT_LIMITS[c.event]), c.now, EVENT_LIMITS[c.event])
  }

  // How many calls of one event were allowed, and when it was called.
  function AllowedOf(budgets: map<string, Bucket>, calls: seq<Call>, event: string): nat {
    if calls == [] then 0
    else
      var front, c := calls[..|calls| - 1], calls[|calls| - 1];
      AllowedOf(budgets, front, event) + if c.event == event && Allowed(Budgets(budgets, front), c) then 1 else 0
  }

  function TimesOf(calls: seq<Call>, event: string): seq<real> {
    if calls == [] then []
    else
      var c := calls[|calls| - 1];
      TimesOf(calls[..|calls| - 1], event) + if c.event == event then [c.now] else []
  }

  // The budget and the count of one event are those of a bucket called at these times.
  ghost predicate Tracks(budgets: map<string, Bucket>, allowed: nat, event: string, times: seq<real>, l: Limit) {
    if times == [] then event !in budgets && allowed == 0
    else
      && event in budgets && budgets[event] == After(Bucket(l.burst, times[0]), times, l)
      && allowed == Granted(Bucket(l.burst, times[0]), times, l)
  }

  lemma TracksNext(budgets: map<string, Bucket>, allowed: nat, c: Call, times: seq<real>, l: Limit)
    requires Tracks(budgets, allowed, c.event, times, l)
    ensures var b := BudgetOf(budgets, c, l);
            Tracks(budgets[c.event := Spent(b, c.now, l)], allowed + (if Grants(b, c.now, l) then 1 else 0), c.event, times + [c.now], l)
  {
    var longer := times + [c.now];
    var b0 := Bucket(l.burst, longer[0]);
    AppendCall(b0, times, c.now, l);
    assert BudgetOf(budgets, c, l) == After(b0, times, l);
    assert times == [] ==> Granted(b0, times, l) == 0;
    hide After, Granted, Spent, Grants;
  }

  // An event's budget follows its own calls and nothing else.
  lemma {:induction false} EventsIndependent(calls: seq<Call>, event: string)
    requires event in EVENT_LIMITS
    ensures Tracks(Budgets(map[], calls), AllowedOf(map[], calls, event), event, TimesOf(calls, event), EVENT_LIMITS[event])
    decreases |calls|
  {
    if calls != [] {
      var front, c := calls[..|calls| - 1], calls[|calls| - 1];
      EventsIndependent(front, event);
      hide After, Granted, Spent, Grants, BudgetOf;
      if c.event == event {
        TracksNext(Budgets(map[], front), AllowedOf(map[], front, event), c, TimesOf(front, event), EVENT_LIMITS[event]);
        assert TimesOf(calls, event) == TimesOf(front, event) + [c.now];
      } else {
        assert TimesOf(calls, event) == TimesOf(front, event);
      }
    }
  }

  // Whatever is mixed in, a limited event passes at most its burst plus its refill.
  lemma EventBound(calls: seq<Call>, event: string)
    requires event in EVENT_LIMITS
    ensures AllowedOf(map[], calls, event) as real <=
              EVENT_LIMITS[event].burst + Earned(Forward(TimesOf(calls, event)), EVENT_LIMITS[event])
  {
    var times, l := TimesOf(calls, event), EVENT_LIMITS[event];
    assert Sensible(l);
    EventsIndependent(calls, event);
    if times != [] { GrantedPlusTokens(Bucket(l.burst, times[0]), times, l); } else { EarnedAdds(0.0, 0.0, l); }
  }

  class EventGuard {
    var budgets: map<string, Bucket>

    constructor ()
      ensures budgets == map[]
    {
      budgets := map[];
    }

    method Allow(event: string, now: real) returns (allowed: bool)
      modifies this
      ensures allowed == Allowed(old(budgets), Call(event, now))
      ensures budgets == Budgets(old(budgets), [Call(event, now)])
    {
      assert [Call(event, now)][..0] == [];
      if event !in EVENT_LIMITS { return true; }
      var limit := EVENT_LIMITS[event];
      if event !in budgets { budgets := budgets[event := Bucket(limit.burst, now)]; }
      var budget := budgets[event];
      var elapsed := Max(0.0, now - budget.last);
      assert elapsed / 1000.0 * limit.rate == Earned(elapsed, limit);
      hide Earned;
      var tokens := Min(limit.burst, budget.tokens + elapsed / 1000.0 * limit.rate);
      if tokens < 1.0 {
        budgets := budgets[event := Bucket(tokens, now)];
        return false;
      }
      budgets := budgets[event := Bucket(tokens - 1.0, now)];
      return true;
    }
  }
}
