/** The spawn counter and the token budget of a runtime, shared by any number of runs and batches whose actions
    interleave. */
module SpawnLedger {
  import opened Wrappers
  import opened Pipeline

  /** Room for `count` more under the cap, if there is one. */
  predicate CapAllows(cap: Option<nat>, claimed: nat, count: nat) {
    count == 0 || cap.None? || claimed + count <= cap.value
  }

  datatype ClaimError = NegativeCount | CapExhausted(remaining: nat)

  class SpawnCounter {
    const cap: Option<nat>
    var spawnCount: nat

    constructor (cap: Option<nat>)
      ensures this.cap == cap && spawnCount == 0
    {
      this.cap := cap;
      spawnCount := 0;
    }

    /** All of the slots or none; a refusal says how many are left. */
    method ClaimSpawnBatch(count: int) returns (r: Result<(), ClaimError>)
      modifies this
      ensures r.Ok? <==> count == 0 || (count > 0 && (cap.None? || old(spawnCount) + count <= cap.value))
      ensures count >= 0 ==> (r.Ok? <==> CapAllows(cap, old(spawnCount), count))
      ensures spawnCount == if r.Ok? then old(spawnCount) + count else old(spawnCount)
      ensures count < 0 ==> r == Err(NegativeCount)
      ensures count >= 0 && r.Err? ==>
                cap.Some? && r == Err(CapExhausted(if cap.value > spawnCount then cap.value - spawnCount else 0))
    {
      if count < 0 {
        return Err(NegativeCount);
      }
      if count == 0 {
        return Ok(());
      }
      if cap.Some? && spawnCount + count > cap.value {
        var remaining := if cap.value > spawnCount then cap.value - spawnCount else 0;
        return Err(CapExhausted(remaining));
      }
      spawnCount := spawnCount + count;
      return Ok(());
    }
  }

  /** What a charge leaves of the budget. */
  function AfterCharge(remaining: int, n: int): int {
    if n <= 0 then remaining else remaining - n
  }

  class TokenBudget {
    const limit: int
    var remaining: int

    ghost predicate Valid()
      reads this
    {
      limit >= 1 && remaining <= limit
    }

    constructor (limit: int)
      requires limit >= 1
      ensures Valid() && this.limit == limit && remaining == limit
    {
      this.limit := limit;
      remaining := limit;
    }

    method Used() returns (n: int)
      requires Valid()
      ensures n == limit - remaining && n >= 0
    {
      n := limit - remaining;
    }

    method Consume(n: int)
      requires Valid()
      modifies this
      ensures Valid() && remaining == (if n > 0 then old(remaining) - n else old(remaining))
      ensures remaining == AfterCharge(old(remaining), n)
    {
      if n <= 0 {
        return;
      }
      remaining := remaining - n;
    }

    method Reset()
      requires Valid()
      modifies this
      ensures Valid() && remaining == limit
    {
      remaining := limit;
    }
  }

  // ------------------------------------------------------------------ interleaved runs and batches

  /** A run, with one slot, or a batch given to the backend, with one slot a task; its actions so far. */
  datatype Proc = Proc(slots: nat, log: seq<Action>, live: bool)

  datatype State = State(cap: Option<nat>, limit: Option<int>, spawnCount: nat, remaining: int, procs: seq<Proc>)

  datatype Step =
    | Begin(slots: nat)
    | Act(proc: nat, action: Action)
    | End(proc: nat)

  function Initial(cap: Option<nat>, limit: Option<int>): State {
    State(cap, limit, 0, if limit.Some? then limit.value else 0, [])
  }

  /** A process acts by the protocol of Pipeline; what it reads and whether its claim is accepted depend on the counters
      at that moment. It may end at any point: finished, refused, failed or cancelled. */
  predicate Enabled(s: State, step: Step) {
    match step
    case Begin(_) => true
    case Act(p, a) =>
      && p < |s.procs| && s.procs[p].live && Follows(s.limit.Some?, s.procs[p].log, a)
      && (a.ReadBudget? ==> a.remaining == s.remaining)
      && (a.Claim? ==> (a.accepted <==> CapAllows(s.cap, s.spawnCount, s.procs[p].slots)))
    case End(p) => p < |s.procs| && s.procs[p].live
  }

  function Apply(s: State, step: Step): State
    requires Enabled(s, step)
  {
    match step
    case Begin(slots) => s.(procs := s.procs + [Proc(slots, [], true)])
    case Act(p, a) =>
      s.(procs := s.procs[p := s.procs[p].(log := s.procs[p].log + [a])],
         spawnCount := if a == Claim(true) then s.spawnCount + s.procs[p].slots else s.spawnCount,
         remaining := if a.Charge? then AfterCharge(s.remaining, a.tokens) else s.remaining)
    case End(p) => s.(procs := s.procs[p := s.procs[p].(live := false)])
  }

  function Sum(procs: seq<Proc>, f: Proc -> int): int {
    if procs == [] then 0 else Sum(procs[..|procs| - 1], f) + f(procs[|procs| - 1])
  }

  lemma {:induction false} SumUpdate(procs: seq<Proc>, f: Proc -> int, i: nat, p: Proc)
    requires i < |procs|
    ensures Sum(procs[i := p], f) == Sum(procs, f) - f(procs[i]) + f(p)
  {
    var n := |procs| - 1;
    if i < n {
      SumUpdate(procs[..n], f, i, p);
      assert procs[i := p][..n] == procs[..n][i := p];
    } else {
      assert procs[i := p][..n] == procs[..n];
    }
  }

  lemma SumExtend(procs: seq<Proc>, f: Proc -> int, p: Proc)
    ensures Sum(procs + [p], f) == Sum(procs, f) + f(p)
  {
    assert (procs + [p])[..|procs|] == procs;
  }

  /** The slots a process was granted. */
  function Granted(p: Proc): int {
    p.slots * Accepted(p.log)
  }

  function Spent(p: Proc): int {
    Charged(p.log)
  }

  /** The slots of a process that has passed its budget check and not been charged yet. */
  function InFlight(p: Proc): int {
    if p.live && |p.log| > 0 && p.log[0].ReadBudget? && p.log[0].remaining > 0 && !p.log[|p.log| - 1].Charge?
    then p.slots else 0
  }

  /** k times t. */
  function Times(k: int, t: nat): nat {
    if k <= 0 then 0 else Times(k - 1, t) + t
  }

  lemma {:induction false} TimesIsProduct(k: nat, t: nat)
    ensures Times(k, t) == k * t
  {
    if k > 0 {
      TimesIsProduct(k - 1, t);
      assert k * t == (k - 1) * t + t;
    }
  }

  lemma {:induction false} TimesAdds(a: nat, b: nat, t: nat)
    ensures Times(a + b, t) == Times(a, t) + Times(b, t)
  {
    if b > 0 {
      TimesAdds(a, b - 1, t);
    }
  }

  lemma TimesGrows(a: nat, b: nat, t: nat)
    requires a <= b
    ensures Times(a, t) <= Times(b, t)
  {
    TimesAdds(a, b - a, t);
  }

  /** At most k slots in flight, and no result reports more than t tokens a slot. */
  ghost predicate Bounded(s: State, k: nat, t: nat) {
    && Sum(s.procs, InFlight) <= k
    && forall p, i {:trigger s.procs[p].log[i]} ::
         0 <= p < |s.procs| && 0 <= i < |s.procs[p].log| && s.procs[p].log[i].Attempt? && s.procs[p].log[i].reply.Done?
         ==> s.procs[p].log[i].reply.tokens <= Times(s.procs[p].slots, t)
  }

  // ------------------------------------------------------------------ the counters agree with the processes

  ghost predicate Inv(s: State) {
    && (s.limit.Some? ==> s.limit.value >= 1)
    && s.spawnCount == Sum(s.procs, Granted)
    && (s.cap.Some? ==> s.spawnCount <= s.cap.value)
    && (s.limit.Some? ==> s.limit.value - s.remaining == Sum(s.procs, Spent))
    && (forall p :: 0 <= p < |s.procs| ==> Protocol(s.limit.Some?, s.procs[p].log))
  }

  lemma GrantedGrows(p: Proc, a: Action)
    requires a == Claim(true) ==> Accepted(p.log) == 0
    ensures Granted(p.(log := p.log + [a])) == Granted(p) + (if a == Claim(true) then p.slots else 0)
    ensures Spent(p.(log := p.log + [a])) == Spent(p) + (if a.Charge? then a.tokens else 0)
  {
    Extend(p.log, a);
  }

  /** A claim comes first, or right after the budget was read. */
  lemma ClaimIsFirst(budgeted: bool, log: seq<Action>, ok: bool)
    requires Protocol(budgeted, log) && Follows(budgeted, log, Claim(ok))
    ensures Accepted(log) == 0
  {
    ProtocolIsOrderly(budgeted, log);
  }

  lemma ActKeepsInv(s: State, p: nat, a: Action)
    requires Inv(s) && Enabled(s, Act(p, a))
    ensures Inv(Apply(s, Act(p, a)))
  {
    var proc := s.procs[p];
    var grown := proc.(log := proc.log + [a]);
    ProtocolGrows(s.limit.Some?, proc.log, a);
    if a == Claim(true) {
      ClaimIsFirst(s.limit.Some?, proc.log, true);
    }
    GrantedGrows(proc, a);
    SumUpdate(s.procs, Granted, p, grown);
    SumUpdate(s.procs, Spent, p, grown);
  }

  lemma StepKeepsInv(s: State, step: Step)
    requires Inv(s) && Enabled(s, step)
    ensures Inv(Apply(s, step))
  {
    match step
    case Begin(slots) =>
      SumExtend(s.procs, Granted, Proc(slots, [], true));
      SumExtend(s.procs, Spent, Proc(slots, [], true));
    case Act(p, a) => ActKeepsInv(s, p, a);
    case End(p) =>
      SumUpdate(s.procs, Granted, p, s.procs[p].(live := false));
      SumUpdate(s.procs, Spent, p, s.procs[p].(live := false));
  }

  ghost predicate Runs(s: State, steps: seq<Step>, t: State)
    decreases |steps|
  {
    if steps == [] then s == t
    else Enabled(s, steps[0]) && Runs(Apply(s, steps[0]), steps[1..], t)
  }

  lemma {:induction false} RunKeepsInv(s: State, steps: seq<Step>, t: State)
    requires Inv(s) && Runs(s, steps, t)
    ensures Inv(t) && t.cap == s.cap && t.limit == s.limit
    decreases |steps|
  {
    if steps != [] {
      StepKeepsInv(s, steps[0]);
      RunKeepsInv(Apply(s, steps[0]), steps[1..], t);
    }
  }

  /** In every interleaving the counter is the sum of the granted slots and never above the cap, no process dispatches
      without its slots, and what the budget shows as used is the sum of the charges. */
  lemma CountersAgree(cap: Option<nat>, limit: Option<int>, steps: seq<Step>, t: State)
    requires limit.Some? ==> limit.value >= 1
    requires Runs(Initial(cap, limit), steps, t)
    ensures t.spawnCount == Sum(t.procs, Granted)
    ensures cap.Some? ==> t.spawnCount <= cap.value
    ensures limit.Some? ==> limit.value - t.remaining == Sum(t.procs, Spent)
    ensures forall p :: 0 <= p < |t.procs| ==> Orderly(limit.Some?, t.procs[p].log)
  {
    RunKeepsInv(Initial(cap, limit), steps, t);
    forall p | 0 <= p < |t.procs| ensures Orderly(limit.Some?, t.procs[p].log) {
      ProtocolIsOrderly(limit.Some?, t.procs[p].log);
    }
  }

  // ------------------------------------------------------------------ how far the budget can be over-spent

  function Used(s: State): int
    requires s.limit.Some?
  {
    s.limit.value - s.remaining
  }

  /** What has been used, and what the slots in flight may still use. */
  ghost predicate WithinBound(s: State, k: nat, t: nat) {
    s.limit.Some? ==> Used(s) + Times(Sum(s.procs, InFlight), t) <= s.limit.value - 1 + Times(k, t)
  }

  lemma StartsWithCheck(log: seq<Action>)
    requires Protocol(true, log) && log != [] && log[|log| - 1].Attempt?
    ensures log[0].ReadBudget? && log[0].remaining > 0
  {
    StartsWithCheckOrNot(log);
  }

  lemma {:induction false} StartsWithCheckOrNot(log: seq<Action>)
    requires Protocol(true, log) && log != []
    ensures log[0].ReadBudget?
    ensures log[0].remaining > 0 || log[|log| - 1].ReadBudget? || log[|log| - 1].EmitExhausted?
    ensures log[|log| - 1].ReadBudget? ==> |log| == 1
  {
    if |log| > 1 {
      StartsWithCheckOrNot(log[..|log| - 1]);
    }
  }

  lemma {:induction false} LoadIsNatural(procs: seq<Proc>)
    ensures Sum(procs, InFlight) >= 0
  {
    if procs != [] {
      LoadIsNatural(procs[..|procs| - 1]);
    }
  }

  /** A process that can be charged is in flight, and no longer is once it has been. */
  lemma ChargedWasInFlight(s: State, p: nat, a: Action)
    requires Inv(s) && s.limit.Some? && a.Charge? && Enabled(s, Act(p, a))
    ensures InFlight(s.procs[p]) == s.procs[p].slots
    ensures InFlight(s.procs[p].(log := s.procs[p].log + [a])) == 0
    ensures var log := s.procs[p].log; log != [] && log[|log| - 1] == Attempt(Done(a.tokens)) && a.tokens > 0
  {
    StartsWithCheck(s.procs[p].log);
  }

  lemma ChargeKeepsBound(s: State, p: nat, a: Action, k: nat, t: nat)
    requires Inv(s) && WithinBound(s, k, t) && Bounded(s, k, t) && a.Charge? && Enabled(s, Act(p, a))
    ensures WithinBound(Apply(s, Act(p, a)), k, t)
  {
    if s.limit.Some? {
      var proc := s.procs[p];
      var grown := proc.(log := proc.log + [a]);
      ChargedWasInFlight(s, p, a);
      assert proc.log[|proc.log| - 1].reply.tokens <= Times(proc.slots, t);
      SumUpdate(s.procs, InFlight, p, grown);
      LoadIsNatural(s.procs[p := grown]);
      TimesAdds(Sum(s.procs[p := grown], InFlight), proc.slots, t);
    }
  }

  lemma ActKeepsBound(s: State, p: nat, a: Action, k: nat, t: nat)
    requires Inv(s) && WithinBound(s, k, t) && !a.Charge? && Enabled(s, Act(p, a))
    requires Bounded(Apply(s, Act(p, a)), k, t)
    ensures WithinBound(Apply(s, Act(p, a)), k, t)
  {
    var proc := s.procs[p];
    var grown := proc.(log := proc.log + [a]);
    var s' := Apply(s, Act(p, a));
    SumUpdate(s.procs, InFlight, p, grown);
    LoadIsNatural(s'.procs);
    if a.ReadBudget? && a.remaining > 0 {
      TimesGrows(Sum(s'.procs, InFlight), k, t);
    } else {
      assert InFlight(grown) <= InFlight(proc);
      TimesGrows(Sum(s'.procs, InFlight), Sum(s.procs, InFlight), t);
    }
  }

  lemma StepKeepsBound(s: State, step: Step, k: nat, t: nat)
    requires Inv(s) && WithinBound(s, k, t) && Bounded(s, k, t) && Enabled(s, step) && Bounded(Apply(s, step), k, t)
    ensures WithinBound(Apply(s, step), k, t)
  {
    match step
    case Begin(slots) => SumExtend(s.procs, InFlight, Proc(slots, [], true));
    case Act(p, a) =>
      if a.Charge? {
        ChargeKeepsBound(s, p, a, k, t);
      } else {
        ActKeepsBound(s, p, a, k, t);
      }
    case End(p) =>
      SumUpdate(s.procs, InFlight, p, s.procs[p].(live := false));
      LoadIsNatural(Apply(s, step).procs);
      TimesGrows(Sum(Apply(s, step).procs, InFlight), Sum(s.procs, InFlight), t);
  }

  /** A run of which every state is Bounded. */
  ghost predicate BoundedRun(s: State, steps: seq<Step>, t: State, k: nat, tokens: nat)
    decreases |steps|
  {
    && Bounded(s, k, tokens)
    && if steps == [] then s == t
       else Enabled(s, steps[0]) && BoundedRun(Apply(s, steps[0]), steps[1..], t, k, tokens)
  }

  lemma {:induction false} BoundedRunKeepsBound(s: State, steps: seq<Step>, t: State, k: nat, tokens: nat)
    requires Inv(s) && WithinBound(s, k, tokens) && BoundedRun(s, steps, t, k, tokens)
    ensures WithinBound(t, k, tokens) && t.limit == s.limit
    ensures Bounded(t, k, tokens)
    decreases |steps|
  {
    if steps != [] {
      StepKeepsInv(s, steps[0]);
      StepKeepsBound(s, steps[0], k, tokens);
      BoundedRunKeepsBound(Apply(s, steps[0]), steps[1..], t, k, tokens);
    }
  }

  /** When every result uses at most `tokens` a slot and at most k slots lie between budget check and charge at any moment,
      no interleaving uses more than limit - 1 + k * tokens. */
  lemma OverspendIsBounded(s: State, steps: seq<Step>, t: State, k: nat, tokens: nat)
    requires s.limit.Some? && s.limit.value >= 1 && s == Initial(s.cap, s.limit)
    requires BoundedRun(s, steps, t, k, tokens)
    ensures t.limit == s.limit && Used(t) <= t.limit.value - 1 + k * tokens
  {
    BoundedRunKeepsBound(s, steps, t, k, tokens);
    LoadIsNatural(t.procs);
    TimesIsProduct(k, tokens);
  }

  // ------------------------------------------------------------------ whole runs inside the machine

  /** The process can take these actions one after the other, nobody else moving. */
  ghost predicate CanPlay(s: State, p: nat, actions: seq<Action>)
    decreases |actions|
  {
    actions == [] ||
    (Enabled(s, Act(p, actions[0])) && CanPlay(Apply(s, Act(p, actions[0])), p, actions[1..]))
  }

  /** The process has taken the first `done` actions of the log and can take the others: they follow the protocol, and what
      they read and are granted is what the counters have. */
  lemma {:induction false} ProtocolCanPlay(s: State, p: nat, log: seq<Action>, done: nat)
    requires p < |s.procs| && s.procs[p].live && done <= |log| && s.procs[p].log == log[..done]
    requires Protocol(s.limit.Some?, log)
    requires forall i :: done <= i < |log| && log[i].ReadBudget? ==> log[i].remaining == s.remaining
    requires forall i :: done <= i < |log| && log[i].Claim? ==>
               (log[i].accepted <==> CapAllows(s.cap, s.spawnCount, s.procs[p].slots))
    requires forall i, j :: done <= i < j < |log| && log[i].Claim? ==> !log[j].Claim?
    requires forall i, j :: done <= i < j < |log| && log[i].Charge? ==> !log[j].ReadBudget?
    ensures CanPlay(s, p, log[done..])
    decreases |log| - done
  {
    if done < |log| {
      FollowsAt(s.limit.Some?, log, done);
      assert log[..done + 1] == log[..done] + [log[done]];
      assert log[done..][1..] == log[done + 1..];
      ProtocolCanPlay(Apply(s, Act(p, log[done])), p, log, done + 1);
    }
  }

  lemma {:induction false} FollowsAt(budgeted: bool, log: seq<Action>, i: nat)
    requires Protocol(budgeted, log) && i < |log|
    ensures Follows(budgeted, log[..i], log[i])
    decreases |log|
  {
    var n := |log| - 1;
    if i < n {
      FollowsAt(budgeted, log[..n], i);
      assert log[..n][..i] == log[..i];
    }
  }

  lemma {:induction false} AnsweredAt(w: World, log: seq<Action>, i: nat)
    requires Answered(w, log) && i < |log|
    ensures log[i].ReadBudget? ==> log[i].remaining == w.budget(log[..i])
    ensures log[i].Claim? ==> log[i].accepted == w.cap(log[..i])
    decreases |log|
  {
    var n := |log| - 1;
    if i < n {
      AnsweredAt(w, log[..n], i);
      assert log[..n][..i] == log[..i];
    }
  }

  /** A claim in a run's log stands right after what came before the claim. */
  lemma ClaimStands(opts: Pipeline.Options, w: World, log: seq<Action>, i: nat)
    requires Protocol(opts.budgeted, log) && Answered(w, log) && i < |log| && log[i].Claim?
    ensures log[..i] == BeforeClaim(opts, w)
  {
    FollowsAt(opts.budgeted, log, i);
    ProtocolIsOrderly(opts.budgeted, log);
    if i > 0 {
      assert log[..i][|log[..i]| - 1] == log[i - 1];
      assert log[i - 1].ReadBudget?;
      AnsweredAt(w, log, 0);
      assert log[..0] == [];
    }
  }

  /** Every run takes place: a process that begins in any state whose counters answer as the run's world does can take all
      of the run's actions. */
  lemma RunCanBePlayed(s: State, opts: Pipeline.Options, w: World, depth: nat)
    requires opts.budgeted <==> s.limit.Some?
    requires w.budget([]) == s.remaining && (w.cap(BeforeClaim(opts, w)) <==> CapAllows(s.cap, s.spawnCount, 1))
    ensures CanPlay(Apply(s, Begin(1)), |s.procs|, Run(opts, w, depth).log)
  {
    var log := Run(opts, w, depth).log;
    OneSlotPerRun(opts, w, depth);
    RunIsAnswered(opts, w, depth);
    ProtocolIsOrderly(opts.budgeted, log);
    forall i | 0 <= i < |log| && log[i].Claim?
      ensures log[..i] == BeforeClaim(opts, w) && log[i].accepted == w.cap(BeforeClaim(opts, w))
    {
      ClaimStands(opts, w, log, i);
      AnsweredAt(w, log, i);
    }
    forall i, j | 0 <= i < j < |log| && log[i].Claim?
      ensures !log[j].Claim?
    {
      assert |log[..i]| == i && |log[..j]| == j;
    }
    forall i | 0 <= i < |log| && log[i].ReadBudget?
      ensures log[i].remaining == s.remaining
    {
      AnsweredAt(w, log, i);
      assert log[..0] == [];
    }
    assert log[..0] == [] && log[0..] == log;
    ProtocolCanPlay(Apply(s, Begin(1)), |s.procs|, log, 0);
  }
}
