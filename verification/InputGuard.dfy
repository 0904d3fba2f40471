// Validation of one socket's input batches.
module InputGuard {
  import opened Angles
  import opened Numbers
  import opened TokenBucket

  const MAX_JUMP: int := 600
  const MAX_ANGLE: real := PI + 0.000001

  // A number field of a message: finite, or one of NaN and the infinities.
  datatype Number = Finite(value: real) | NotFinite

  datatype Command = Command(seqNo: Number, angle: Number, boost: bool, dt: Number)

  datatype Reason = RateLimited | StaleSequence | SequenceJump | BadAngle | BadDt

  function Weight(r: Reason): int {
    match r
    case RateLimited => 1
    case StaleSequence => 1
    case SequenceJump => 4
    case BadAngle => 8
    case BadDt => 8
  }

  datatype Guard = Guard(lastSeq: int, bucket: Bucket, suspicion: int, rejections: map<Reason, nat>)

  datatype Settings = Settings(now: real, maxDt: real, limit: Limit)

  datatype Verdict = Accept | Reject(reason: Reason)

  function SequenceCheck(lastSeq: int, incoming: Number): Verdict {
    if incoming.NotFinite? || incoming.value.Floor as real != incoming.value || incoming.value <= lastSeq as real then Reject(StaleSequence)
    else if incoming.value.Floor - lastSeq > MAX_JUMP then Reject(SequenceJump)
    else Accept
  }

  // The checks in order; the first that fails names the reason.
  function Judge(g: Guard, c: Command, o: Settings): Verdict {
    if !Grants(g.bucket, o.now, o.limit) then Reject(RateLimited)
    else if SequenceCheck(g.lastSeq, c.seqNo).Reject? then SequenceCheck(g.lastSeq, c.seqNo)
    else if c.angle.NotFinite? || c.angle.value > MAX_ANGLE || -c.angle.value > MAX_ANGLE then Reject(BadAngle)
    else if c.dt.NotFinite? || c.dt.value < 0.0 || c.dt.value > 250.0 then Reject(BadDt)
    else Accept
  }

  function Count(rejections: map<Reason, nat>, r: Reason): nat {
    if r in rejections then rejections[r] else 0
  }

  function Judged(g: Guard, c: Command, o: Settings): Guard {
    var spent := g.(bucket := Spent(g.bucket, o.now, o.limit));
    match Judge(g, c, o)
    case Accept => spent.(lastSeq := if c.seqNo.Finite? then c.seqNo.value.Floor else g.lastSeq)
    case Reject(r) =>
      spent.(suspicion := g.suspicion + Weight(r), rejections := g.rejections[r := Count(g.rejections, r) + 1])
  }

  function Clamped(c: Command, maxDt: real): Command {
    if c.dt.Finite? then c.(dt := Finite(Min(c.dt.value, maxDt))) else c
  }

  // ---- Runs ----------------------------------------------------------------

  // A socket's commands, each with the options of its batch.
  datatype Sent = Sent(command: Command, options: Settings)

  function AfterAll(g: Guard, sent: seq<Sent>): Guard {
    if sent == [] then g
    else Judged(AfterAll(g, sent[..|sent| - 1]), sent[|sent| - 1].command, sent[|sent| - 1].options)
  }

  function Accepted(g: Guard, sent: seq<Sent>): seq<Command> {
    if sent == [] then []
    else
      var front, last := sent[..|sent| - 1], sent[|sent| - 1];
      Accepted(g, front) + if Judge(AfterAll(g, front), last.command, last.options) == Accept
                           then [Clamped(last.command, last.options.maxDt)] else []
  }

  function Rejected(g: Guard, sent: seq<Sent>): seq<(Command, Reason)> {
    if sent == [] then []
    else
      var front, last := sent[..|sent| - 1], sent[|sent| - 1];
      var verdict := Judge(AfterAll(g, front), last.command, last.options);
      Rejected(g, front) + if verdict.Reject? then [(last.command, verdict.reason)] else []
  }

  // The batch is split in two, in order: every command is accepted or rejected.
  ghost predicate Interleaves(sent: seq<Sent>, accepted: seq<Command>, rejected: seq<(Command, Reason)>) {
    if sent == [] then accepted == [] && rejected == []
    else
      var front, last := sent[..|sent| - 1], sent[|sent| - 1];
      || (accepted != [] && accepted[|accepted| - 1] == Clamped(last.command, last.options.maxDt)
          && Interleaves(front, accepted[..|accepted| - 1], rejected))
      || (rejected != [] && rejected[|rejected| - 1].0 == last.command
          && Interleaves(front, accepted, rejected[..|rejected| - 1]))
  }

  lemma {:induction false} SplitsInOrder(g: Guard, sent: seq<Sent>)
    ensures Interleaves(sent, Accepted(g, sent), Rejected(g, sent))
  {
    if sent != [] {
      var front, last := sent[..|sent| - 1], sent[|sent| - 1];
      SplitsInOrder(g, front);
      var accepted, rejected := Accepted(g, front), Rejected(g, front);
      assert forall c: Command :: (accepted + [c])[..|accepted|] == accepted;
      assert forall r: (Command, Reason) :: (rejected + [r])[..|rejected|] == rejected;
      assert accepted + [] == accepted && rejected + [] == rejected;
    }
  }

  ghost predicate Sane(c: Command) {
    && c.seqNo.Finite? && c.seqNo.value == c.seqNo.value.Floor as real
    && c.angle.Finite? && -MAX_ANGLE <= c.angle.value <= MAX_ANGLE && c.dt.Finite? && c.dt.value <= 250.0
  }

  function SeqOf(c: Command): int { if c.seqNo.Finite? then c.seqNo.value.Floor else 0 }

  // A sane command, 1 to 600 past the one before it.
  ghost predicate StepsUp(before: int, c: Command) { Sane(c) && before < SeqOf(c) <= before + MAX_JUMP }

  function Before(start: int, accepted: seq<Command>, i: nat): int
    requires i <= |accepted|
  {
    if i == 0 then start else SeqOf(accepted[i - 1])
  }

  // Accepted sequence numbers start past the last known one and climb.
  ghost predicate Climbs(start: int, accepted: seq<Command>) {
    forall i :: 0 <= i < |accepted| ==> StepsUp(Before(start, accepted, i), accepted[i])
  }

  // No batch caps the times below zero.
  ghost predicate CapsTimes(sent: seq<Sent>) {
    forall i :: 0 <= i < |sent| ==> sent[i].options.maxDt >= 0.0
  }

  predicate Timely(c: Command) { c.dt.Finite? && c.dt.value >= 0.0 }

  // Across all batches of a socket, however they are cut.
  lemma {:induction false} AcceptedClimb(g: Guard, sent: seq<Sent>)
    ensures Climbs(g.lastSeq, Accepted(g, sent))
    ensures CapsTimes(sent) ==> forall c :: c in Accepted(g, sent) ==> Timely(c)
    ensures var a := Accepted(g, sent); AfterAll(g, sent).lastSeq == Before(g.lastSeq, a, |a|)
  {
    if sent != [] {
      var front, last := sent[..|sent| - 1], sent[|sent| - 1];
      AcceptedClimb(g, front);
      var before, accepted := AfterAll(g, front), Accepted(g, front);
      JudgeFacts(before, last.command, last.options);
      var taken := Judge(before, last.command, last.options) == Accept;
      var c := Clamped(last.command, last.options.maxDt);
      assert Accepted(g, sent) == if taken then accepted + [c] else accepted;
      assert AfterAll(g, sent) == Judged(before, last.command, last.options);
      if CapsTimes(sent) { assert CapsTimes(front) && last.options.maxDt >= 0.0; }
      hide Judge, Judged, Clamped, StepsUp, SeqOf, CapsTimes, Timely;
      if taken { ClimbsNext(g.lastSeq, accepted, c); }
    }
  }

  lemma JudgeFacts(g: Guard, c: Command, o: Settings)
    ensures var taken := Clamped(c, o.maxDt);
            if Judge(g, c, o) == Accept then
              && StepsUp(g.lastSeq, taken) && (o.maxDt >= 0.0 ==> Timely(taken)) && Judged(g, c, o).lastSeq == SeqOf(taken)
            else Judged(g, c, o).lastSeq == g.lastSeq
  {
    hide Grants, Spent, Count, Weight;
  }

  lemma ClimbsNext(start: int, accepted: seq<Command>, c: Command)
    requires Climbs(start, accepted) && StepsUp(Before(start, accepted, |accepted|), c)
    ensures Climbs(start, accepted + [c])
  {
    hide StepsUp;
    var longer := accepted + [c];
    forall i | 0 <= i < |longer| ensures StepsUp(Before(start, longer, i), longer[i]) {
      assert Before(start, longer, i) == Before(start, accepted, i);
      if i < |accepted| { assert StepsUp(Before(start, accepted, i), accepted[i]); }
    }
  }

  function Weighted(rejections: map<Reason, nat>): int {
    Count(rejections, RateLimited) * Weight(RateLimited) + Count(rejections, StaleSequence) * Weight(StaleSequence)
    + Count(rejections, SequenceJump) * Weight(SequenceJump) + Count(rejections, BadAngle) * Weight(BadAngle)
    + Count(rejections, BadDt) * Weight(BadDt)
  }

  function Tally(rejected: seq<(Command, Reason)>, r: Reason): nat {
    if rejected == [] then 0
    else Tally(rejected[..|rejected| - 1], r) + if rejected[|rejected| - 1].1 == r then 1 else 0
  }

  // Without decay, suspicion is the weighted sum of the counters, and each
  // counter has counted its rejections.
  lemma {:induction false} SuspicionIsWeighted(g: Guard, sent: seq<Sent>)
    ensures AfterAll(g, sent).suspicion - Weighted(AfterAll(g, sent).rejections) == g.suspicion - Weighted(g.rejections)
    ensures forall r :: Count(AfterAll(g, sent).rejections, r) == Count(g.rejections, r) + Tally(Rejected(g, sent), r)
  {
    if sent != [] {
      var front, last := sent[..|sent| - 1], sent[|sent| - 1];
      SuspicionIsWeighted(g, front);
      var before, rejected := AfterAll(g, front), Rejected(g, front);
      var verdict := Judge(before, last.command, last.options);
      assert Rejected(g, sent) == if verdict.Reject? then rejected + [(last.command, verdict.reason)] else rejected;
      assert AfterAll(g, sent) == Judged(before, last.command, last.options);
      JudgeCounts(before, last.command, last.options);
      hide Judge, Judged, Weighted, Weight, Count, Tally;
      if verdict.Reject? { TallyRises(rejected, last.command, verdict.reason); }
    }
  }

  lemma JudgeCounts(g: Guard, c: Command, o: Settings)
    ensures var verdict, after := Judge(g, c, o), Judged(g, c, o);
            && after.suspicion - Weighted(after.rejections) == g.suspicion - Weighted(g.rejections)
            && forall r :: Count(after.rejections, r) == Count(g.rejections, r) + if verdict == Reject(r) then 1 else 0
  {
    hide Judge, Weighted, Weight, Spent;
    var verdict := Judge(g, c, o);
    if verdict.Reject? { WeightedRises(g.rejections, verdict.reason); }
  }

  lemma WeightedRises(rejections: map<Reason, nat>, r: Reason)
    ensures var more := rejections[r := Count(rejections, r) + 1];
            && Weighted(more) == Weighted(rejections) + Weight(r)
            && forall q :: Count(more, q) == Count(rejections, q) + if q == r then 1 else 0
  {
  }

  lemma TallyRises(rejected: seq<(Command, Reason)>, c: Command, r: Reason)
    ensures forall q :: Tally(rejected + [(c, r)], q) == Tally(rejected, q) + if q == r then 1 else 0
  {
    assert (rejected + [(c, r)])[..|rejected|] == rejected;
  }

  // Accepted commands obey the bucket's bound, at one limit.
  lemma {:induction false} AcceptedWithinBudget(g: Guard, sent: seq<Sent>, l: Limit)
    requires forall i :: 0 <= i < |sent| ==> sent[i].options.limit == l
    ensures AfterAll(g, sent).bucket == After(g.bucket, Times(sent), l)
    ensures |Accepted(g, sent)| <= Granted(g.bucket, Times(sent), l)
  {
    if sent != [] {
      var front, last := sent[..|sent| - 1], sent[|sent| - 1];
      AcceptedWithinBudget(g, front, l);
      AppendCall(g.bucket, Times(front), last.options.now, l);
      assert Times(sent) == Times(front) + [last.options.now];
      hide After, Granted, Times;
    }
  }

  function Times(sent: seq<Sent>): seq<real> {
    seq(|sent|, i requires 0 <= i < |sent| => sent[i].options.now)
  }

  lemma AcceptedBound(g: Guard, sent: seq<Sent>, l: Limit)
    requires Sensible(l) && g.bucket.tokens >= 0.0 && sent != []
    requires forall i :: 0 <= i < |sent| ==> sent[i].options.limit == l
    ensures |Accepted(g, sent)| as real <= l.burst + Earned(Forward(Times(sent)), l)
  {
    AcceptedWithinBudget(g, sent, l);
    GrantedPlusTokens(g.bucket, Times(sent), l);
  }

  // ---- The guard itself ----------------------------------------------------

  class InputGuardState {
    var lastSeq: int
    var budget: real
    var lastRefillMs: real
    var suspicion: int
    var rejections: map<Reason, nat>

    ghost function View(): Guard
      reads this
    {
      Guard(lastSeq, Bucket(budget, lastRefillMs), suspicion, rejections)
    }

    constructor (now: real, burst: real)
      ensures View() == Guard(0, Bucket(burst, now), 0, map[])
    {
      lastSeq, budget, lastRefillMs, suspicion, rejections := 0, burst, now, 0, map[];
    }

    method ConsumeInputBudget(now: real, limit: Limit) returns (ok: bool)
      modifies this`budget, this`lastRefillMs
      ensures ok == Grants(old(View()).bucket, now, limit)
      ensures View() == old(View()).(bucket := Spent(old(View()).bucket, now, limit))
    {
      var elapsed := Max(0.0, now - lastRefillMs);
      assert elapsed / 1000.0 * limit.rate == Earned(elapsed, limit);
      hide Earned;
      lastRefillMs := now;
      budget := Min(limit.burst, budget + elapsed / 1000.0 * limit.rate);
      if budget < 1.0 { return false; }
      budget := budget - 1.0;
      return true;
    }

    method Record(reason: Reason)
      modifies this`rejections, this`suspicion
      ensures View() == old(View()).(suspicion := old(suspicion) + Weight(reason),
                                     rejections := old(rejections)[reason := Count(old(rejections), reason) + 1])
    {
      rejections := rejections[reason := (if reason in rejections then rejections[reason] else 0) + 1];
      suspicion := suspicion + Weight(reason);
    }

    method ValidateOne(c: Command, o: Settings) returns (verdict: Verdict)
      modifies this
      ensures verdict == Judge(old(View()), c, o) && View() == Judged(old(View()), c, o)
    {
      var ok := ConsumeInputBudget(o.now, o.limit);
      hide Grants, Spent, Count, Weight;
      if !ok {
        Record(RateLimited);
        return Reject(RateLimited);
      }
      var sequence := SequenceCheck(lastSeq, c.seqNo);
      if sequence.Reject? {
        Record(sequence.reason);
        return sequence;
      }
      if c.angle.NotFinite? || c.angle.value > MAX_ANGLE || -c.angle.value > MAX_ANGLE {
        Record(BadAngle);
        return Reject(BadAngle);
      }
      if c.dt.NotFinite? || c.dt.value < 0.0 || c.dt.value > 250.0 {
        Record(BadDt);
        return Reject(BadDt);
      }
      lastSeq := c.seqNo.value.Floor;
      return Accept;
    }

    method ValidateInputBatch(commands: seq<Command>, o: Settings) returns (accepted: seq<Command>, rejected: seq<(Command, Reason)>)
      modifies this
      ensures var sent := SentWith(commands, o);
              && View() == AfterAll(old(View()), sent)
              && accepted == Accepted(old(View()), sent) && rejected == Rejected(old(View()), sent)
    {
      ghost var g := View();
      accepted, rejected := [], [];
      hide Judge, Judged, Clamped;
      for i := 0 to |commands|
        invariant var sent := SentWith(commands[..i], o);
                  View() == AfterAll(g, sent) && accepted == Accepted(g, sent) && rejected == Rejected(g, sent)
      {
        assert SentWith(commands[..i + 1], o)[..i] == SentWith(commands[..i], o);
        var verdict := ValidateOne(commands[i], o);
        match verdict
        case Accept => accepted := accepted + [Clamped(commands[i], o.maxDt)];
        case Reject(reason) => rejected := rejected + [(commands[i], reason)];
      }
      assert commands[..|commands|] == commands;
    }
  }

  function SentWith(commands: seq<Command>, o: Settings): seq<Sent> {
    seq(|commands|, i requires 0 <= i < |commands| => Sent(commands[i], o))
  }
}
