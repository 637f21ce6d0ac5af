/** The stages composed around a dispatch, and what one run does to the spawn counter, the token budget and the backend.
    What a run does is recorded as the sequence of its actions; everything shared with other runs, and every await that
    can be cut short, is answered by a World that sees the actions so far. */
module Pipeline {
  import opened Wrappers

  datatype Failure = SpawnFailed | TimedOut | DepthExceeded | BudgetExhausted | CapReached | NoResult | Other(nat)

  /** A result with the tokens its metadata reports (0 when it reports none), or what was raised. */
  datatype Reply = Done(tokens: int) | Raised(failure: Failure)

  datatype Action =
    | ReadBudget(remaining: int)
    | EmitExhausted
    | Claim(accepted: bool)
    | Attempt(reply: Reply)
    | Backoff
    | Charge(tokens: int)

  /** `cut` says what, if anything, an emission, a log call or a sleep is cut short with. */
  datatype World = World(budget: seq<Action> -> int, cap: seq<Action> -> bool, attempt: seq<Action> -> Reply,
                         cut: seq<Action> -> Option<Failure>)

  datatype Outcome = Outcome(log: seq<Action>, reply: Reply)

  /** What is left of the pipeline: it takes the actions so far and runs on from there. */
  type Next = seq<Action> -> Outcome

  datatype Stage = Timeout | DepthLimit(max: nat) | CostTracking | ClaimSlot | Retry(attempts: nat) | Dispatch

  datatype Options = Options(maxSpawnDepth: nat, budgeted: bool, maxAttempts: nat)

  /** The stages of a run, outermost first. */
  function Stages(opts: Options): seq<Stage> {
    [Timeout, DepthLimit(opts.maxSpawnDepth)]
    + (if opts.budgeted then [CostTracking] else [])
    + [ClaimSlot]
    + (if opts.maxAttempts > 1 then [Retry(opts.maxAttempts)] else [])
    + [Dispatch]
  }

  function Terminal(log: seq<Action>): Outcome {
    Outcome(log, Raised(NoResult))
  }

  /** Up to k attempts; only SpawnFailed is retried, after a pause that may be cut short. */
  function Attempts(w: World, k: nat, next: Next, log: seq<Action>): Outcome
    requires k >= 1
    decreases k
  {
    var o := next(log);
    if o.reply != Raised(SpawnFailed) then o
    else
      var paused := o.log + [Backoff];
      match w.cut(o.log)
      case Some(f) => Outcome(paused, Raised(f))
      case None => if k == 1 then Outcome(paused, o.reply) else Attempts(w, k - 1, next, paused)
  }

  function Stop(w: World, log: seq<Action>, reply: Reply): Outcome {
    Outcome(log + [EmitExhausted], if w.cut(log).Some? then Raised(w.cut(log).value) else reply)
  }

  function RunStage(stage: Stage, w: World, depth: nat, next: Next, log: seq<Action>): Outcome {
    match stage
    case Timeout =>
      var o := next(log);
      if o.reply == Raised(TimedOut) then o.(reply := Raised(SpawnFailed)) else o
    case DepthLimit(max) =>
      if depth >= max then Outcome(log, Raised(DepthExceeded)) else next(log)
    case CostTracking =>
      var remaining := w.budget(log);
      var read := log + [ReadBudget(remaining)];
      if remaining <= 0 then Stop(w, read, Raised(BudgetExhausted))
      else
        var o := next(read);
        if o.reply.Done? && o.reply.tokens > 0 then o.(log := o.log + [Charge(o.reply.tokens)]) else o
    case ClaimSlot =>
      var ok := w.cap(log);
      if ok then next(log + [Claim(true)]) else Outcome(log + [Claim(false)], Raised(CapReached))
    case Retry(attempts) =>
      if attempts == 0 then Outcome(log, Raised(NoResult)) else Attempts(w, attempts, next, log)
    case Dispatch =>
      var reply := w.attempt(log);
      Outcome(log + [Attempt(reply)], reply)
  }

  function Wrap(stage: Stage, w: World, depth: nat, next: Next): Next {
    (log: seq<Action>) => RunStage(stage, w, depth, next, log)
  }

  /** The stages as one function: each given the rest as what comes next. */
  function Chain(stages: seq<Stage>, w: World, depth: nat): Next {
    if stages == [] then Terminal else Wrap(stages[0], w, depth, Chain(stages[1..], w, depth))
  }

  method BuildChain(stages: seq<Stage>, w: World, depth: nat) returns (chain: Next)
    ensures chain == Chain(stages, w, depth)
  {
    chain := Terminal;
    var i := |stages|;
    while i > 0
      invariant 0 <= i <= |stages|
      invariant chain == Chain(stages[i..], w, depth)
    {
      i := i - 1;
      assert stages[i..][1..] == stages[i + 1..];
      chain := Wrap(stages[i], w, depth, chain);
    }
  }

  /** The retry loop, with the stage that follows it as a function. */
  method RetryLoop(w: World, attempts: nat, next: Next, start: seq<Action>) returns (log: seq<Action>, reply: Reply)
    requires attempts >= 1
    ensures Outcome(log, reply) == Attempts(w, attempts, next, start)
  {
    log := start;
    var attempt := 0;
    reply := Raised(NoResult);
    while attempt < attempts
      invariant 0 <= attempt <= attempts
      invariant attempt < attempts ==> Attempts(w, attempts - attempt, next, log) == Attempts(w, attempts, next, start)
      invariant attempt == attempts ==> Outcome(log, reply) == Attempts(w, attempts, next, start)
    {
      var o := next(log);
      reply := o.reply;
      if reply != Raised(SpawnFailed) {
        return o.log, reply;
      }
      log := o.log + [Backoff];
      match w.cut(o.log) {
        case Some(f) => return log, Raised(f);
        case None =>
      }
      attempt := attempt + 1;
    }
  }

  function Run(opts: Options, w: World, depth: nat): Outcome {
    Chain(Stages(opts), w, depth)([])
  }

  method RunPipeline(opts: Options, w: World, depth: nat) returns (o: Outcome)
    ensures o == Run(opts, w, depth)
  {
    var chain := BuildChain(Stages(opts), w, depth);
    o := chain([]);
  }

  // ------------------------------------------------------------------ what a run does

  function Accepted(log: seq<Action>): nat {
    if log == [] then 0 else Accepted(log[..|log| - 1]) + (if log[|log| - 1] == Claim(true) then 1 else 0)
  }

  function Attempted(log: seq<Action>): nat {
    if log == [] then 0 else Attempted(log[..|log| - 1]) + (if log[|log| - 1].Attempt? then 1 else 0)
  }

  function Charged(log: seq<Action>): int {
    if log == [] then 0
    else Charged(log[..|log| - 1]) + (if log[|log| - 1].Charge? then log[|log| - 1].tokens else 0)
  }

  lemma Extend(log: seq<Action>, a: Action)
    ensures Accepted(log + [a]) == Accepted(log) + (if a == Claim(true) then 1 else 0)
    ensures Attempted(log + [a]) == Attempted(log) + (if a.Attempt? then 1 else 0)
    ensures Charged(log + [a]) == Charged(log) + (if a.Charge? then a.tokens else 0)
  {
    assert (log + [a])[..|log|] == log;
  }

  /** The action `a` may come after `log`. With a budget it is read first; a slot is claimed only if it was positive; an
      attempt needs the slot, or an earlier attempt that failed to spawn; only a result that used tokens is charged. */
  predicate Follows(budgeted: bool, log: seq<Action>, a: Action) {
    if log == [] then if budgeted then a.ReadBudget? else a.Claim?
    else
      match log[|log| - 1]
      case ReadBudget(remaining) => if remaining > 0 then a.Claim? else a == EmitExhausted
      case Claim(accepted) => accepted && a.Attempt?
      case Attempt(Done(tokens)) => budgeted && tokens > 0 && a == Charge(tokens)
      case Attempt(Raised(f)) => f == SpawnFailed && a == Backoff
      case Backoff => a.Attempt?
      case _ => false
  }

  ghost predicate Protocol(budgeted: bool, log: seq<Action>) {
    log == [] || (Protocol(budgeted, log[..|log| - 1]) && Follows(budgeted, log[..|log| - 1], log[|log| - 1]))
  }

  lemma ProtocolGrows(budgeted: bool, log: seq<Action>, a: Action)
    ensures Protocol(budgeted, log + [a]) <==> Protocol(budgeted, log) && Follows(budgeted, log, a)
  {
    assert (log + [a])[..|log|] == log;
  }

  predicate IsFailedAttempt(a: Action) {
    a == Attempt(Raised(SpawnFailed))
  }

  /** What the protocol comes to: one slot at most, attempts only with the slot, every attempt but the last one failed to
      spawn, and a charge, made at most once, is of the tokens of the last attempt. */
  ghost predicate Orderly(budgeted: bool, log: seq<Action>) {
    && Accepted(log) <= 1
    && (Attempted(log) > 0 ==> Accepted(log) == 1)
    && (forall i :: 0 <= i < |log| && log[i].ReadBudget? ==> i == 0 && budgeted)
    && (forall i, j :: 0 <= i < j < |log| && log[i].Attempt? && log[j].Attempt? ==> IsFailedAttempt(log[i]))
    && (forall i :: 0 <= i < |log| && log[i].Charge? ==>
          i == |log| - 1 > 0 && budgeted && log[i].tokens > 0 && log[i - 1] == Attempt(Done(log[i].tokens)))
    && Charged(log) == (if log != [] && log[|log| - 1].Charge? then log[|log| - 1].tokens else 0)
  }

  ghost predicate Unclaimed(log: seq<Action>) {
    Accepted(log) == Attempted(log) == 0 && forall i :: 0 <= i < |log| ==> log[i].ReadBudget?
  }

  lemma {:induction false} ProtocolIsOrderly(budgeted: bool, log: seq<Action>)
    requires Protocol(budgeted, log)
    ensures Orderly(budgeted, log)
    ensures log != [] && log[|log| - 1].ReadBudget? ==> Unclaimed(log)
    ensures log != [] && log[|log| - 1] == Claim(true) ==> Accepted(log) == 1 && Attempted(log) == 0
    ensures log != [] && (log[|log| - 1].Attempt? || log[|log| - 1].Backoff?) ==> Accepted(log) == 1
    ensures log != [] && log[|log| - 1].Backoff? ==> forall i :: 0 <= i < |log| && log[i].Attempt? ==> IsFailedAttempt(log[i])
  {
    if log != [] {
      ProtocolIsOrderly(budgeted, log[..|log| - 1]);
    }
  }

  // ------------------------------------------------------------------ runs follow the protocol

  ghost predicate IsDispatch(w: World, next: Next) {
    forall log :: next(log) == Outcome(log + [Attempt(w.attempt(log))], w.attempt(log))
  }

  /** The last action is an attempt or the pause after one, and is the attempt whose result is returned. */
  ghost predicate Ends(o: Outcome)
    requires o.log != []
  {
    var last := o.log[|o.log| - 1];
    (last.Attempt? && last.reply == o.reply) || (last.Backoff? && o.reply.Raised?)
  }

  /** The attempts made after `log`: between one and k of them, stopping at the first that does not fail to spawn. */
  lemma {:induction false} AttemptsFollow(budgeted: bool, w: World, k: nat, next: Next, log: seq<Action>)
    requires k >= 1 && IsDispatch(w, next)
    requires Protocol(budgeted, log) && log != [] && (log[|log| - 1] == Claim(true) || log[|log| - 1].Backoff?)
    ensures var o := Attempts(w, k, next, log);
            && Protocol(budgeted, o.log) && Accepted(o.log) == Accepted(log)
            && Attempted(log) < Attempted(o.log) <= Attempted(log) + k
            && o.log != [] && Ends(o)
    decreases k
  {
    var o := next(log);
    Extend(log, Attempt(w.attempt(log)));
    ProtocolGrows(budgeted, log, Attempt(w.attempt(log)));
    if o.reply == Raised(SpawnFailed) {
      Extend(o.log, Backoff);
      ProtocolGrows(budgeted, o.log, Backoff);
      if w.cut(o.log).None? && k > 1 {
        AttemptsFollow(budgeted, w, k - 1, next, o.log + [Backoff]);
      }
    }
  }

  /** Every budget reading, claim and attempt in the log is what the world answered at that point. */
  ghost predicate Answered(w: World, log: seq<Action>) {
    log == [] ||
    var before, last := log[..|log| - 1], log[|log| - 1];
    && Answered(w, before)
    && (last.ReadBudget? ==> last.remaining == w.budget(before))
    && (last.Claim? ==> last.accepted == w.cap(before))
    && (last.Attempt? ==> last.reply == w.attempt(before))
  }

  lemma AnsweredGrows(w: World, log: seq<Action>, a: Action)
    requires Answered(w, log)
    requires a.ReadBudget? ==> a.remaining == w.budget(log)
    requires a.Claim? ==> a.accepted == w.cap(log)
    requires a.Attempt? ==> a.reply == w.attempt(log)
    ensures Answered(w, log + [a])
  {
    assert (log + [a])[..|log|] == log;
  }

  /** Why the attempts ended: with an attempt that did not fail to spawn, or cut short in the pause after a failed one, or
      after n of them. A single attempt is never followed by a pause. */
  ghost predicate Settled(w: World, n: nat, o: Outcome)
    requires o.log != []
  {
    var before, last := o.log[..|o.log| - 1], o.log[|o.log| - 1];
    if last.Backoff? then
      if w.cut(before).Some? then o.reply == Raised(w.cut(before).value)
      else Attempted(o.log) == n && o.reply == Raised(SpawnFailed)
    else last == Attempt(o.reply) && (IsFailedAttempt(last) ==> Attempted(o.log) == n)
  }

  lemma {:induction false} AttemptsSettle(w: World, k: nat, next: Next, log: seq<Action>)
    requires k >= 1 && IsDispatch(w, next) && Answered(w, log)
    ensures var o := Attempts(w, k, next, log);
            o.log != [] && Answered(w, o.log) && Settled(w, Attempted(log) + k, o)
    decreases k
  {
    var o := next(log);
    Extend(log, Attempt(w.attempt(log)));
    AnsweredGrows(w, log, Attempt(w.attempt(log)));
    if o.reply == Raised(SpawnFailed) {
      Extend(o.log, Backoff);
      AnsweredGrows(w, o.log, Backoff);
      assert (o.log + [Backoff])[..|o.log|] == o.log;
      if w.cut(o.log).None? && k > 1 {
        AttemptsSettle(w, k - 1, next, o.log + [Backoff]);
      }
    }
  }

  /** How many attempts a run may make. */
  function MaxAttempts(opts: Options): nat {
    if opts.maxAttempts > 1 then opts.maxAttempts else 1
  }

  /** The claim stage and everything after it, given the dispatch. */
  function ClaimAndAttempt(opts: Options, w: World, dispatch: Next, log: seq<Action>): Outcome {
    if !w.cap(log) then Outcome(log + [Claim(false)], Raised(CapReached))
    else if opts.maxAttempts > 1 then Attempts(w, opts.maxAttempts, dispatch, log + [Claim(true)])
    else dispatch(log + [Claim(true)])
  }

  lemma RestUnfolds(opts: Options, w: World, depth: nat, log: seq<Action>)
    ensures IsDispatch(w, Chain([Dispatch], w, depth))
    ensures Chain(Rest(opts), w, depth)(log) == ClaimAndAttempt(opts, w, Chain([Dispatch], w, depth), log)
  {
    var rest := Rest(opts);
    if opts.maxAttempts > 1 {
      assert rest[1..][1..] == [Dispatch];
      assert Chain(rest[1..], w, depth) == Wrap(Retry(opts.maxAttempts), w, depth, Chain([Dispatch], w, depth));
    } else {
      assert rest[1..] == [Dispatch];
    }
  }

  lemma ClaimThenAttempts(opts: Options, w: World, next: Next, log: seq<Action>)
    requires IsDispatch(w, next)
    requires Unclaimed(log) && Protocol(opts.budgeted, log) && Follows(opts.budgeted, log, Claim(true))
    ensures var o := ClaimAndAttempt(opts, w, next, log);
            && Protocol(opts.budgeted, o.log) && o.log != []
            && if !w.cap(log) then o == Outcome(log + [Claim(false)], Raised(CapReached)) && Accepted(o.log) == 0
               else Accepted(o.log) == 1 && Ends(o) && 1 <= Attempted(o.log) <= MaxAttempts(opts)
  {
    var claimed := log + [Claim(w.cap(log))];
    Extend(log, Claim(w.cap(log)));
    ProtocolGrows(opts.budgeted, log, Claim(w.cap(log)));
    if w.cap(log) {
      if opts.maxAttempts > 1 {
        AttemptsFollow(opts.budgeted, w, opts.maxAttempts, next, claimed);
      } else {
        Extend(claimed, Attempt(w.attempt(claimed)));
        ProtocolGrows(opts.budgeted, claimed, Attempt(w.attempt(claimed)));
      }
    }
  }

  lemma ClaimThenSettles(opts: Options, w: World, next: Next, log: seq<Action>)
    requires IsDispatch(w, next) && Attempted(log) == 0 && Answered(w, log)
    ensures var o := ClaimAndAttempt(opts, w, next, log);
            o.log != [] && Answered(w, o.log) && (w.cap(log) ==> Settled(w, MaxAttempts(opts), o))
  {
    var claimed := log + [Claim(w.cap(log))];
    Extend(log, Claim(w.cap(log)));
    AnsweredGrows(w, log, Claim(w.cap(log)));
    if w.cap(log) {
      if opts.maxAttempts > 1 {
        AttemptsSettle(w, opts.maxAttempts, next, claimed);
      } else {
        Extend(claimed, Attempt(w.attempt(claimed)));
        AnsweredGrows(w, claimed, Attempt(w.attempt(claimed)));
      }
    }
  }

  /** The actions before the claim. */
  function BeforeClaim(opts: Options, w: World): seq<Action> {
    if opts.budgeted then [ReadBudget(w.budget([]))] else []
  }

  ghost predicate PassesChecks(opts: Options, w: World, depth: nat) {
    depth < opts.maxSpawnDepth && (opts.budgeted ==> w.budget([]) > 0)
  }

  lemma BeforeClaimIsUnclaimed(opts: Options, w: World)
    requires opts.budgeted ==> w.budget([]) > 0
    ensures Unclaimed(BeforeClaim(opts, w)) && Protocol(opts.budgeted, BeforeClaim(opts, w))
    ensures Answered(w, BeforeClaim(opts, w))
    ensures forall ok :: Follows(opts.budgeted, BeforeClaim(opts, w), Claim(ok))
  {
    if opts.budgeted {
      Extend([], ReadBudget(w.budget([])));
      ProtocolGrows(true, [], ReadBudget(w.budget([])));
      AnsweredGrows(w, [], ReadBudget(w.budget([])));
      assert [] + [ReadBudget(w.budget([]))] == BeforeClaim(opts, w);
    }
  }

  /** The stages left after the timeout and the depth check, without the charge: the claim and the attempts. */
  function Rest(opts: Options): seq<Stage> {
    [ClaimSlot] + (if opts.maxAttempts > 1 then [Retry(opts.maxAttempts)] else []) + [Dispatch]
  }

  function Translated(o: Outcome): Outcome {
    if o.reply == Raised(TimedOut) then o.(reply := Raised(SpawnFailed)) else o
  }

  /** What a run comes to, given what the claim and the attempts come to. */
  function AfterChecks(opts: Options, w: World, depth: nat, inner: Outcome): Outcome {
    if depth >= opts.maxSpawnDepth then Outcome([], Raised(DepthExceeded))
    else if opts.budgeted && w.budget([]) <= 0 then Translated(Stop(w, BeforeClaim(opts, w), Raised(BudgetExhausted)))
    else if opts.budgeted && inner.reply.Done? && inner.reply.tokens > 0
    then Outcome(inner.log + [Charge(inner.reply.tokens)], inner.reply)
    else Translated(inner)
  }

  lemma StagesUnfold(opts: Options, w: World, depth: nat)
    ensures Run(opts, w, depth) == AfterChecks(opts, w, depth, Chain(Rest(opts), w, depth)(BeforeClaim(opts, w)))
  {
    var stages, rest := Stages(opts), Rest(opts);
    if opts.budgeted {
      assert [] + [ReadBudget(w.budget([]))] == BeforeClaim(opts, w);
      assert stages[1..][1..][1..] == rest;
      assert Chain(stages[1..][1..], w, depth) == Wrap(CostTracking, w, depth, Chain(rest, w, depth));
    } else {
      assert stages[1..][1..] == rest;
    }
    var inner := Chain(stages[1..][1..], w, depth);
    assert Chain(stages[1..], w, depth) == Wrap(DepthLimit(opts.maxSpawnDepth), w, depth, inner);
  }

  /** What the claim and the attempts come to once the checks have passed. */
  ghost predicate IsClaimed(opts: Options, w: World, inner: Outcome) {
    && Protocol(opts.budgeted, inner.log) && inner.log != [] && Answered(w, inner.log)
    && if !w.cap(BeforeClaim(opts, w)) then
         inner == Outcome(BeforeClaim(opts, w) + [Claim(false)], Raised(CapReached)) && Accepted(inner.log) == 0
       else Accepted(inner.log) == 1 && Ends(inner) && Settled(w, MaxAttempts(opts), inner)
            && 1 <= Attempted(inner.log) <= MaxAttempts(opts)
  }

  lemma ClaimedAfterChecks(opts: Options, w: World, depth: nat)
    requires PassesChecks(opts, w, depth)
    ensures IsClaimed(opts, w, Chain(Rest(opts), w, depth)(BeforeClaim(opts, w)))
  {
    var log, dispatch := BeforeClaim(opts, w), Chain([Dispatch], w, depth);
    BeforeClaimIsUnclaimed(opts, w);
    RestUnfolds(opts, w, depth, log);
    ClaimThenAttempts(opts, w, dispatch, log);
    ClaimThenSettles(opts, w, dispatch, log);
  }

  lemma RunUnfolds(opts: Options, w: World, depth: nat) returns (inner: Outcome)
    ensures Run(opts, w, depth) == AfterChecks(opts, w, depth, inner)
    ensures PassesChecks(opts, w, depth) ==> IsClaimed(opts, w, inner)
  {
    inner := Chain(Rest(opts), w, depth)(BeforeClaim(opts, w));
    StagesUnfold(opts, w, depth);
    if PassesChecks(opts, w, depth) {
      ClaimedAfterChecks(opts, w, depth);
    }
  }

  lemma NoAttempt(budgeted: bool, read: seq<Action>, last: Action)
    requires Unclaimed(read) && Protocol(budgeted, read) && Follows(budgeted, read, last)
    requires last == Claim(false) || last == EmitExhausted
    ensures Protocol(budgeted, read + [last])
    ensures Accepted(read + [last]) == Attempted(read + [last]) == 0 && Charged(read + [last]) == 0
  {
    Extend(read, last);
    ProtocolGrows(budgeted, read, last);
    ProtocolIsOrderly(budgeted, read + [last]);
  }

  lemma ReadIsUnclaimed(remaining: int)
    ensures Unclaimed([ReadBudget(remaining)]) && Protocol(true, [ReadBudget(remaining)])
  {
    Extend([], ReadBudget(remaining));
    ProtocolGrows(true, [], ReadBudget(remaining));
    assert [] + [ReadBudget(remaining)] == [ReadBudget(remaining)];
  }

  ghost predicate UsesOneSlot(opts: Options, w: World, depth: nat, o: Outcome) {
    && Protocol(opts.budgeted, o.log)
    && (Accepted(o.log) == 1 <==> PassesChecks(opts, w, depth) && w.cap(BeforeClaim(opts, w)))
    && Accepted(o.log) <= 1
    && (Attempted(o.log) > 0 <==> Accepted(o.log) == 1)
    && Attempted(o.log) <= (if opts.maxAttempts > 1 then opts.maxAttempts else 1)
    && Charged(o.log) == (if opts.budgeted && o.reply.Done? && o.reply.tokens > 0 then o.reply.tokens else 0)
    && (o.reply.Done? ==> Attempt(o.reply) in o.log)
    && (depth >= opts.maxSpawnDepth ==> o == Outcome([], Raised(DepthExceeded)))
  }

  lemma NotYetCharged(budgeted: bool, o: Outcome)
    requires Protocol(budgeted, o.log) && o.log != [] && Ends(o)
    ensures Charged(o.log) == 0 && (o.reply.Done? ==> Attempt(o.reply) in o.log)
  {
    ProtocolIsOrderly(budgeted, o.log);
  }

  lemma ChargedLast(o: Outcome)
    requires Protocol(true, o.log) && o.log != [] && Ends(o) && o.reply.Done? && o.reply.tokens > 0
    ensures var log := o.log + [Charge(o.reply.tokens)];
            && Protocol(true, log) && Accepted(log) == Accepted(o.log) && Attempted(log) == Attempted(o.log)
            && Charged(log) == o.reply.tokens && Attempt(o.reply) in log
  {
    NotYetCharged(true, o);
    Extend(o.log, Charge(o.reply.tokens));
    ProtocolGrows(true, o.log, Charge(o.reply.tokens));
  }

  lemma OneSlotAfterChecks(opts: Options, w: World, depth: nat, inner: Outcome)
    requires PassesChecks(opts, w, depth) && IsClaimed(opts, w, inner)
    ensures UsesOneSlot(opts, w, depth, AfterChecks(opts, w, depth, inner))
  {
    if !w.cap(BeforeClaim(opts, w)) {
      BeforeClaimIsUnclaimed(opts, w);
      NoAttempt(opts.budgeted, BeforeClaim(opts, w), Claim(false));
    } else if opts.budgeted && inner.reply.Done? && inner.reply.tokens > 0 {
      ChargedLast(inner);
    } else {
      NotYetCharged(opts.budgeted, inner);
    }
  }

  /** Every run follows the protocol. A slot is claimed exactly when the depth and the budget let the run through and the
      cap has room; then, and only then, it is dispatched, at most maxAttempts times; and what is charged is what the
      returned result reports. */
  lemma OneSlotPerRun(opts: Options, w: World, depth: nat)
    ensures UsesOneSlot(opts, w, depth, Run(opts, w, depth))
  {
    var inner := RunUnfolds(opts, w, depth);
    if PassesChecks(opts, w, depth) {
      OneSlotAfterChecks(opts, w, depth, inner);
    } else if depth < opts.maxSpawnDepth {
      ReadIsUnclaimed(w.budget([]));
      NoAttempt(true, BeforeClaim(opts, w), EmitExhausted);
    }
  }

  /** A run that is turned away reports the first check that failed and has done nothing else. */
  lemma RejectionIsTheFirstFailedCheck(opts: Options, w: World, depth: nat)
    requires Accepted(Run(opts, w, depth).log) == 0
    ensures var o := Run(opts, w, depth);
            if depth >= opts.maxSpawnDepth then o == Outcome([], Raised(DepthExceeded))
            else if opts.budgeted && w.budget([]) <= 0 then
              o.log == BeforeClaim(opts, w) + [EmitExhausted] &&
              (w.cut(BeforeClaim(opts, w)).None? ==> o.reply == Raised(BudgetExhausted))
            else o == Outcome(BeforeClaim(opts, w) + [Claim(false)], Raised(CapReached))
  {
    var inner := RunUnfolds(opts, w, depth);
    if PassesChecks(opts, w, depth) {
      OneSlotAfterChecks(opts, w, depth, inner);
    }
  }

  ghost predicate ReturnsLastAttempt(o: Outcome) {
    && o.log != []
    && var last := o.log[|o.log| - 1];
    && (last.Attempt? ==> o.reply == (if last.reply == Raised(TimedOut) then Raised(SpawnFailed) else last.reply))
    && (last.Charge? ==> o.reply == Done(last.tokens))
    && (last.Backoff? ==> o.reply.Raised?)
    && (last.Attempt? || last.Charge? || last.Backoff?)
    && o.reply != Raised(TimedOut)
  }

  /** An accepted run returns its last attempt's result. Otherwise it raises what that attempt raised, as SpawnFailed when
      it timed out, or what cut the pause after a failed attempt short. */
  lemma AcceptedRunReturnsItsLastAttempt(opts: Options, w: World, depth: nat)
    requires Accepted(Run(opts, w, depth).log) == 1
    ensures ReturnsLastAttempt(Run(opts, w, depth))
  {
    var inner := RunUnfolds(opts, w, depth);
    OneSlotPerRun(opts, w, depth);
  }

  ghost predicate HasSettledAttempt(log: seq<Action>) {
    exists i :: 0 <= i < |log| && log[i].Attempt? && !IsFailedAttempt(log[i])
  }

  /** No pause after an attempt is cut short. */
  ghost predicate Uncut(w: World, log: seq<Action>) {
    forall i :: 0 <= i < |log| && log[i].Attempt? ==> w.cut(log[..i + 1]).None?
  }

  lemma SettledWhenUncut(budgeted: bool, w: World, n: nat, o: Outcome)
    requires Protocol(budgeted, o.log) && o.log != [] && Ends(o) && Settled(w, n, o) && Uncut(w, o.log)
    ensures Attempted(o.log) == n || HasSettledAttempt(o.log)
    ensures !HasSettledAttempt(o.log) ==> o.reply == Raised(SpawnFailed)
  {
    var k := |o.log| - 1;
    if o.log[k].Backoff? {
      assert Follows(budgeted, o.log[..k], Backoff);
      assert o.log[..k][|o.log[..k]| - 1] == o.log[k - 1];
      assert o.log[..k - 1 + 1] == o.log[..k];
    }
  }

  /** An accepted run that nothing cuts short makes exactly as many attempts as it may, unless one of them does not fail to
      spawn: then that one is the last. So a failed spawn surfaces only after all attempts failed. */
  lemma RetriesUntilSettled(opts: Options, w: World, depth: nat)
    requires Accepted(Run(opts, w, depth).log) == 1 && Uncut(w, Run(opts, w, depth).log)
    ensures var o := Run(opts, w, depth);
            && (Attempted(o.log) == (if opts.maxAttempts > 1 then opts.maxAttempts else 1) || HasSettledAttempt(o.log))
            && (!HasSettledAttempt(o.log) ==> o.reply == Raised(SpawnFailed))
  {
    var inner := RunUnfolds(opts, w, depth);
    var o := Run(opts, w, depth);
    OneSlotPerRun(opts, w, depth);
    assert |inner.log| <= |o.log| && inner.log == o.log[..|inner.log|];
    forall i | 0 <= i < |inner.log| && inner.log[i].Attempt?
      ensures w.cut(inner.log[..i + 1]).None?
    {
      assert o.log[i] == inner.log[i] && o.log[..i + 1] == inner.log[..i + 1];
    }
    SettledWhenUncut(opts.budgeted, w, MaxAttempts(opts), inner);
    if HasSettledAttempt(inner.log) {
      var i :| 0 <= i < |inner.log| && inner.log[i].Attempt? && !IsFailedAttempt(inner.log[i]);
      assert o.log[i] == inner.log[i];
    }
  }

  /** What a run reads, claims and gets from its attempts is what the world answers. */
  lemma RunIsAnswered(opts: Options, w: World, depth: nat)
    ensures Answered(w, Run(opts, w, depth).log)
  {
    var inner := RunUnfolds(opts, w, depth);
    if PassesChecks(opts, w, depth) {
      if inner.reply.Done? {
        AnsweredGrows(w, inner.log, Charge(inner.reply.tokens));
      }
    } else if depth < opts.maxSpawnDepth {
      AnsweredGrows(w, [], ReadBudget(w.budget([])));
      assert [] + [ReadBudget(w.budget([]))] == BeforeClaim(opts, w);
      AnsweredGrows(w, BeforeClaim(opts, w), EmitExhausted);
    }
  }

  // ------------------------------------------------------------------ batches

  /** What a batch returns once its charge is made: a timeout surfaces as a failed spawn, and failing fast raises the first
      error of a batch that was settled and charged. */
  function SettledReply(reply: Reply, failFast: bool, firstError: Option<Failure>): Reply {
    if reply == Raised(TimedOut) then Raised(SpawnFailed)
    else if reply.Done? && failFast && firstError.Some? then Raised(firstError.value)
    else reply
  }

  function ChargeFor(budgeted: bool, reply: Reply): nat {
    if budgeted && reply.Done? && reply.tokens > 0 then reply.tokens else 0
  }

  /** One attempt after an accepted claim, and its charge. */
  lemma OneAttempt(budgeted: bool, read: seq<Action>, reply: Reply)
    requires Unclaimed(read) && Protocol(budgeted, read) && Follows(budgeted, read, Claim(true))
    ensures var log := read + [Claim(true)] + [Attempt(reply)];
            var charged := log + (if ChargeFor(budgeted, reply) > 0 then [Charge(reply.tokens)] else []);
            && Protocol(budgeted, charged) && Accepted(charged) == Attempted(charged) == 1
            && Charged(charged) == ChargeFor(budgeted, reply) && Attempt(reply) in charged
  {
    var claimed := read + [Claim(true)];
    var log := claimed + [Attempt(reply)];
    Extend(read, Claim(true));
    ProtocolGrows(budgeted, read, Claim(true));
    Extend(claimed, Attempt(reply));
    ProtocolGrows(budgeted, claimed, Attempt(reply));
    ProtocolIsOrderly(budgeted, log);
    assert log[|log| - 1] == Attempt(reply);
    if ChargeFor(budgeted, reply) > 0 {
      Extend(log, Charge(reply.tokens));
      ProtocolGrows(budgeted, log, Charge(reply.tokens));
      assert (log + [Charge(reply.tokens)])[|log| - 1] == Attempt(reply);
    } else {
      assert log + [] == log;
    }
  }

  /** A batch does not go through the pipeline: its checks are inline, and the backend gets all of its tasks at once. The
      tokens of an attempt are then those of all results together, and firstError is the first error among them. A backend
      that cannot gather leaves the claim, the dispatches and the charges to the runs that the batch is split into. */
  method Gather(opts: Options, w: World, depth: nat, native: bool, failFast: bool, firstError: Option<Failure>)
    returns (o: Outcome)
    ensures Protocol(opts.budgeted, o.log)
    ensures Accepted(o.log) == Attempted(o.log) <= 1
    ensures Accepted(o.log) == 1 <==> native && PassesChecks(opts, w, depth) && w.cap(BeforeClaim(opts, w))
    ensures Accepted(o.log) == 0 ==> Charged(o.log) == 0
    ensures Accepted(o.log) == 1 ==>
              var reply := w.attempt(BeforeClaim(opts, w) + [Claim(true)]);
              && Attempt(reply) in o.log
              && Charged(o.log) == (if opts.budgeted && reply.Done? && reply.tokens > 0 then reply.tokens else 0)
              && o.reply == (if reply == Raised(TimedOut) then Raised(SpawnFailed)
                             else if reply.Done? && failFast && firstError.Some? then Raised(firstError.value)
                             else reply)
    ensures depth >= opts.maxSpawnDepth ==> o == Outcome([], Raised(DepthExceeded))
    ensures native && PassesChecks(opts, w, depth) && Accepted(o.log) == 0 ==>
              o == Outcome(BeforeClaim(opts, w) + [Claim(false)], Raised(CapReached))
  {
    if depth >= opts.maxSpawnDepth {
      return Outcome([], Raised(DepthExceeded));
    }
    var log: seq<Action> := [];
    if opts.budgeted {
      var remaining := w.budget([]);
      log := [ReadBudget(remaining)];
      if remaining <= 0 {
        ReadIsUnclaimed(remaining);
        NoAttempt(true, log, EmitExhausted);
        return Stop(w, log, Raised(BudgetExhausted));
      }
    }
    BeforeClaimIsUnclaimed(opts, w);
    ProtocolIsOrderly(opts.budgeted, log);
    if !native {
      return Outcome(log, SettledReply(w.attempt(log), failFast, firstError));
    }
    if !w.cap(log) {
      NoAttempt(opts.budgeted, log, Claim(false));
      return Outcome(log + [Claim(false)], Raised(CapReached));
    }
    log := log + [Claim(true)];
    var reply := w.attempt(log);
    OneAttempt(opts.budgeted, BeforeClaim(opts, w), reply);
    log := log + [Attempt(reply)];
    if reply.Done? && opts.budgeted && reply.tokens > 0 {
      log := log + [Charge(reply.tokens)];
    } else {
      assert log + [] == log;
    }
    o := Outcome(log, SettledReply(reply, failFast, firstError));
  }
}
