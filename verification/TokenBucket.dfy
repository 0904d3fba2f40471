// The token bucket behind the input and event guards. Time is in milliseconds.
module TokenBucket {
  import opened Numbers

  datatype Bucket = Bucket(tokens: real, last: real)

  datatype Limit = Limit(rate: real, burst: real)

  predicate Sensible(l: Limit) { l.rate >= 0.0 && l.burst >= 0.0 }

  function Earned(ms: real, l: Limit): real { ms / 1000.0 * l.rate }

  function Refilled(b: Bucket, now: real, l: Limit): real {
    Min(l.burst, b.tokens + Earned(Max(0.0, now - b.last), l))
  }

  predicate Grants(b: Bucket, now: real, l: Limit) { Refilled(b, now, l) >= 1.0 }

  function Spent(b: Bucket, now: real, l: Limit): Bucket {
    Bucket(Refilled(b, now, l) - (if Grants(b, now, l) then 1.0 else 0.0), now)
  }

  // ---- Runs ----------------------------------------------------------------

  function After(b: Bucket, nows: seq<real>, l: Limit): Bucket {
    if nows == [] then b else Spent(After(b, nows[..|nows| - 1], l), nows[|nows| - 1], l)
  }

  function Granted(b: Bucket, nows: seq<real>, l: Limit): nat {
    if nows == [] then 0
    else
      var front := nows[..|nows| - 1];
      Granted(b, front, l) + if Grants(After(b, front, l), nows[|nows| - 1], l) then 1 else 0
  }

  // How far the clock moves forward between the calls; steps back count nothing.
  function Forward(nows: seq<real>): real {
    if |nows| <= 1 then 0.0
    else Forward(nows[..|nows| - 1]) + Max(0.0, nows[|nows| - 1] - nows[|nows| - 2])
  }

  lemma {:induction false} GrantedPlusTokens(b: Bucket, nows: seq<real>, l: Limit)
    requires Sensible(l) && b.tokens >= 0.0 && nows != []
    ensures After(b, nows, l).tokens >= 0.0 && After(b, nows, l).last == nows[|nows| - 1] && Forward(nows) >= 0.0
    ensures Granted(b, nows, l) as real + After(b, nows, l).tokens <= l.burst + Earned(Forward(nows), l)
    decreases |nows|
  {
    var front, now := nows[..|nows| - 1], nows[|nows| - 1];
    if front == [] {
      FirstGrant(b, now, l);
      assert nows == [now] && Granted(b, front, l) == 0 && After(b, front, l) == b;
    } else {
      RunNext(b, nows, l);
      hide After, Granted, Forward, Spent, Grants, Refilled, Earned, Max;
      GrantedPlusTokens(b, front, l);
      NextGrant(After(b, front, l), now, l);
      EarnedAdds(Forward(front), Max(0.0, now - front[|front| - 1]), l);
    }
  }

  lemma AppendCall(b: Bucket, nows: seq<real>, now: real, l: Limit)
    ensures After(b, nows + [now], l) == Spent(After(b, nows, l), now, l)
    ensures Granted(b, nows + [now], l) == Granted(b, nows, l) + if Grants(After(b, nows, l), now, l) then 1 else 0
  {
    var longer := nows + [now];
    assert longer[..|longer| - 1] == nows && longer[|longer| - 1] == now;
  }

  lemma RunNext(b: Bucket, nows: seq<real>, l: Limit)
    requires |nows| >= 2
    ensures var front, now := nows[..|nows| - 1], nows[|nows| - 1];
            && After(b, nows, l) == Spent(After(b, front, l), now, l) && After(b, nows, l).last == now
            && Granted(b, nows, l) == Granted(b, front, l) + (if Grants(After(b, front, l), now, l) then 1 else 0)
            && Forward(nows) == Forward(front) + Max(0.0, now - front[|front| - 1])
  {
  }

  lemma FirstGrant(b: Bucket, now: real, l: Limit)
    requires Sensible(l) && b.tokens >= 0.0
    ensures var s := Spent(b, now, l); 0.0 <= s.tokens && (if Grants(b, now, l) then 1.0 else 0.0) + s.tokens <= l.burst
  {
    EarnedAdds(Max(0.0, now - b.last), 0.0, l);
  }

  lemma NextGrant(b: Bucket, now: real, l: Limit)
    requires Sensible(l) && b.tokens >= 0.0
    ensures var s := Spent(b, now, l);
            && 0.0 <= s.tokens
            && (if Grants(b, now, l) then 1.0 else 0.0) + s.tokens <= b.tokens + Earned(Max(0.0, now - b.last), l)
  {
    FirstGrant(b, now, l);
  }

  lemma EarnedAdds(a: real, b: real, l: Limit)
    ensures Earned(a + b, l) == Earned(a, l) + Earned(b, l) && Earned(0.0, l) == 0.0
    ensures a >= 0.0 && l.rate >= 0.0 ==> Earned(a, l) >= 0.0
  {
  }

  // In any window of a run, the calls granted are at most the burst plus what
  // the forward movement of the clock inside the window refills.
  lemma WindowBound(b: Bucket, nows: seq<real>, i: nat, j: nat, l: Limit)
    requires Sensible(l) && b.tokens >= 0.0 && i <= j <= |nows|
    ensures (Granted(b, nows[..j], l) - Granted(b, nows[..i], l)) as real <= l.burst + Earned(Forward(nows[i..j]), l)
  {
    TokensStay(b, nows[..i], l);
    Splits(b, nows[..i], nows[i..j], l);
    assert nows[..i] + nows[i..j] == nows[..j];
    NoCalls(After(b, nows[..i], l), l);
    EarnedAdds(0.0, 0.0, l);
    hide After, Granted, Forward, Earned;
    if i < j { GrantedPlusTokens(After(b, nows[..i], l), nows[i..j], l); }
    else { assert nows[i..j] == []; }
  }

  lemma NoCalls(b: Bucket, l: Limit)
    ensures Granted(b, [], l) == 0 && Forward([]) == 0.0
  {
  }

  lemma TokensStay(b: Bucket, nows: seq<real>, l: Limit)
    requires Sensible(l) && b.tokens >= 0.0
    ensures After(b, nows, l).tokens >= 0.0
  {
    if nows != [] { GrantedPlusTokens(b, nows, l); }
  }

  lemma {:induction false} Splits(b: Bucket, first: seq<real>, second: seq<real>, l: Limit)
    ensures After(b, first + second, l) == After(After(b, first, l), second, l)
    ensures Granted(b, first + second, l) == Granted(b, first, l) + Granted(After(b, first, l), second, l)
    decreases |second|
  {
    if second == [] {
      assert first + second == first;
    } else {
      Splits(b, first, second[..|second| - 1], l);
      var all := first + second;
      assert all[..|all| - 1] == first + second[..|second| - 1] && all[|all| - 1] == second[|second| - 1];
    }
  }

  // After enough quiet the whole burst is available again, at one instant.
  lemma {:induction false} QuietRestores(b: Bucket, now: real, n: nat, l: Limit)
    requires Sensible(l) && b.tokens >= 0.0 && n as real <= l.burst && b.last <= now
    requires Earned(now - b.last, l) >= l.burst
    ensures var nows := seq(n, _ => now);
            Granted(b, nows, l) == n && (n > 0 ==> After(b, nows, l) == Bucket(l.burst - n as real, now))
    decreases n
  {
    if n > 0 {
      var nows := seq(n, _ => now);
      QuietRestores(b, now, n - 1, l);
      assert nows[..n - 1] == seq(n - 1, _ => now);
      EarnedAdds(0.0, 0.0, l);
      hide Earned;
    }
  }
}
