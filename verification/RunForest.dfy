/** From a flat list of events to the forest of runs the dashboard shows. */
module RunForest {
  import opened Wrappers
  import opened Seqs

  datatype EventType = AgentDispatched | AgentSpawned | AgentCompleted | AgentFailed | SpawnRejected | BudgetExceeded
                     | DepthLimitExceeded | OtherType

  datatype Trust = High | Medium | Low | Sandbox

  datatype Reason = Cycle | Depth | Cap | Budget | Timeout

  /** A payload field is None when it is missing or not of the kind the field asks for; a missing backend is empty. */
  datatype Event = Event(trace: string, parent: Option<string>, agent: string, kind: EventType, timestamp: string,
                         trust: Option<Trust>, backend: string, tokens: Option<real>, duration: Option<real>,
                         error: Option<string>, reason: Option<Reason>)

  datatype Status = Spawned | Running | Completed | Failure | Rejected

  /** What is known of a trace. */
  datatype Summary = Summary(parent: Option<string>, agent: string, status: Status, trust: Trust, backend: string,
                             tokens: real, duration: real, startedAt: Option<string>, rejection: Option<Reason>,
                             error: Option<string>)

  /** What is assumed of a trace before any event. */
  const Unknown := Summary(None, "", Spawned, High, "thread", 0.0, 0.0, None, None, None)

  function StatusOf(kind: EventType): Option<Status> {
    match kind
    case AgentDispatched => Some(Spawned)
    case AgentSpawned => Some(Running)
    case AgentCompleted => Some(Completed)
    case AgentFailed => Some(Failure)
    case SpawnRejected => Some(Rejected)
    case BudgetExceeded => Some(Rejected)
    case DepthLimitExceeded => Some(Rejected)
    case OtherType => None
  }

  // ------------------------------------------------------------------ folding the events

  /** The traces in order of their first event. */
  function Traces(events: seq<Event>): (r: seq<string>)
    ensures NoDup(r)
  {
    if events == [] then []
    else
      var before, last := Traces(events[..|events| - 1]), events[|events| - 1].trace;
      if last in before then before else before + [last]
  }

  /** What the last event of the trace that says anything says. */
  function Last<T>(events: seq<Event>, t: string, says: Event -> Option<T>, init: T): T {
    if events == [] then init
    else
      var last := events[|events| - 1];
      if last.trace == t && says(last).Some? then says(last).value
      else Last(events[..|events| - 1], t, says, init)
  }

  function Ends(kind: EventType): bool {
    kind.AgentCompleted? || kind.AgentFailed?
  }

  function SaysParent(e: Event): Option<Option<string>> {
    if e.parent.Some? then Some(e.parent) else None
  }

  function SaysAgent(e: Event): Option<string> {
    if e.agent != "" then Some(e.agent) else None
  }

  function SaysStatus(e: Event): Option<Status> {
    StatusOf(e.kind)
  }

  function SaysTrust(e: Event): Option<Trust> {
    e.trust
  }

  function SaysBackend(e: Event): Option<string> {
    if e.backend != "" then Some(e.backend) else None
  }

  function SaysTokens(e: Event): Option<real> {
    if Ends(e.kind) then e.tokens else None
  }

  function SaysDuration(e: Event): Option<real> {
    if Ends(e.kind) then e.duration else None
  }

  function SaysStart(e: Event): Option<Option<string>> {
    if e.kind.AgentSpawned? || e.kind.AgentDispatched? then Some(Some(e.timestamp)) else None
  }

  /** A rejected spawn without a known reason counts as a cycle. */
  function SaysRejection(e: Event): Option<Option<Reason>> {
    if e.kind.BudgetExceeded? then Some(Some(Budget))
    else if e.kind.DepthLimitExceeded? then Some(Some(Depth))
    else if e.kind.SpawnRejected? then Some(Some(if e.reason.Some? then e.reason.value else Cycle))
    else None
  }

  function SaysFailed(e: Event): Option<bool> {
    if e.kind.AgentFailed? then Some(true) else None
  }

  function SaysError(e: Event): Option<Option<string>> {
    if e.kind.AgentFailed? && e.error.Some? then Some(e.error) else None
  }

  function LastParent(events: seq<Event>, t: string): Option<string> {
    Last(events, t, SaysParent, None)
  }

  /** The last error text a failure gave; empty if there were failures and none gave a text. */
  function LastError(events: seq<Event>, t: string): Option<string> {
    var text := Last(events, t, SaysError, None);
    if text.None? && Last(events, t, SaysFailed, false) then Some("") else text
  }

  /** Each field of a trace on its own. */
  function SummaryOf(events: seq<Event>, t: string): Summary {
    Summary(LastParent(events, t), Last(events, t, SaysAgent, ""), Last(events, t, SaysStatus, Spawned),
            Last(events, t, SaysTrust, High), Last(events, t, SaysBackend, "thread"), Last(events, t, SaysTokens, 0.0),
            Last(events, t, SaysDuration, 0.0), Last(events, t, SaysStart, None), Last(events, t, SaysRejection, None),
            LastError(events, t))
  }

  lemma {:induction false} NothingSaid<T>(events: seq<Event>, t: string, says: Event -> Option<T>, init: T)
    requires t !in Traces(events)
    ensures Last(events, t, says, init) == init
  {
    if events != [] {
      NothingSaid(events[..|events| - 1], t, says, init);
    }
  }

  lemma UnknownAtFirst(events: seq<Event>, t: string)
    requires t !in Traces(events)
    ensures SummaryOf(events, t) == Unknown
  {
    NothingSaid(events, t, SaysParent, None);
    NothingSaid(events, t, SaysAgent, "");
    NothingSaid(events, t, SaysStatus, Spawned);
    NothingSaid(events, t, SaysTrust, High);
    NothingSaid(events, t, SaysBackend, "thread");
    NothingSaid(events, t, SaysTokens, 0.0);
    NothingSaid(events, t, SaysDuration, 0.0);
    NothingSaid(events, t, SaysStart, None);
    NothingSaid(events, t, SaysRejection, None);
    NothingSaid(events, t, SaysFailed, false);
    NothingSaid(events, t, SaysError, None);
  }

  lemma {:induction false} LastReported<T>(events: seq<Event>, t: string, says: Event -> Option<T>, init: T, i: nat)
    requires i < |events| && events[i].trace == t && says(events[i]).Some?
    requires forall j :: i < j < |events| && events[j].trace == t ==> says(events[j]).None?
    ensures Last(events, t, says, init) == says(events[i]).value
    decreases |events|
  {
    var n := |events| - 1;
    if i < n {
      LastReported(events[..n], t, says, init, i);
    }
  }

  lemma {:induction false} NeverReported<T>(events: seq<Event>, t: string, says: Event -> Option<T>, init: T)
    requires forall j :: 0 <= j < |events| && events[j].trace == t ==> says(events[j]).None?
    ensures Last(events, t, says, init) == init
  {
    if events != [] {
      NeverReported(events[..|events| - 1], t, says, init);
    }
  }

  /** No event of the trace after i satisfies p. */
  ghost predicate LastOfItsKind(events: seq<Event>, t: string, i: nat, p: Event -> bool) {
    && i < |events| && events[i].trace == t && p(events[i])
    && forall j :: i < j < |events| && events[j].trace == t ==> !p(events[j])
  }

  ghost predicate NoneOfKind(events: seq<Event>, t: string, p: Event -> bool) {
    forall j :: 0 <= j < |events| && events[j].trace == t ==> !p(events[j])
  }

  /** The parent, name and status of a trace are those of its last event that has one. */
  lemma IdentityIsTheLastReported(events: seq<Event>, t: string, i: nat)
    ensures LastOfItsKind(events, t, i, (e: Event) => e.parent.Some?) ==> LastParent(events, t) == events[i].parent
    ensures NoneOfKind(events, t, (e: Event) => e.parent.Some?) ==> LastParent(events, t) == None
    ensures LastOfItsKind(events, t, i, (e: Event) => e.agent != "") ==> SummaryOf(events, t).agent == events[i].agent
    ensures LastOfItsKind(events, t, i, (e: Event) => !e.kind.OtherType?) ==>
              SummaryOf(events, t).status ==
              match events[i].kind
              case AgentDispatched => Spawned
              case AgentSpawned => Running
              case AgentCompleted => Completed
              case AgentFailed => Failure
              case _ => Rejected
  {
    if LastOfItsKind(events, t, i, (e: Event) => e.parent.Some?) {
      LastReported(events, t, SaysParent, None, i);
    }
    if NoneOfKind(events, t, (e: Event) => e.parent.Some?) {
      NeverReported(events, t, SaysParent, None);
    }
    if LastOfItsKind(events, t, i, (e: Event) => e.agent != "") {
      LastReported(events, t, SaysAgent, "", i);
    }
    if LastOfItsKind(events, t, i, (e: Event) => !e.kind.OtherType?) {
      LastReported(events, t, SaysStatus, Spawned, i);
    }
  }

  /** Tokens and duration are what the last completion or failure that gives them gives; trust level and backend what the
      last event of any kind gives; the start is the time of the last dispatch or spawn. */
  lemma MeasuresAreTheLastReported(events: seq<Event>, t: string, i: nat)
    ensures LastOfItsKind(events, t, i, (e: Event) => (e.kind.AgentCompleted? || e.kind.AgentFailed?) && e.tokens.Some?) ==>
              SummaryOf(events, t).tokens == events[i].tokens.value
    ensures LastOfItsKind(events, t, i, (e: Event) => (e.kind.AgentCompleted? || e.kind.AgentFailed?) && e.duration.Some?) ==>
              SummaryOf(events, t).duration == events[i].duration.value
    ensures LastOfItsKind(events, t, i, (e: Event) => e.trust.Some?) ==> SummaryOf(events, t).trust == events[i].trust.value
    ensures LastOfItsKind(events, t, i, (e: Event) => e.backend != "") ==> SummaryOf(events, t).backend == events[i].backend
    ensures LastOfItsKind(events, t, i, (e: Event) => e.kind.AgentDispatched? || e.kind.AgentSpawned?) ==>
              SummaryOf(events, t).startedAt == Some(events[i].timestamp)
  {
    if LastOfItsKind(events, t, i, (e: Event) => (e.kind.AgentCompleted? || e.kind.AgentFailed?) && e.tokens.Some?) {
      LastReported(events, t, SaysTokens, 0.0, i);
    }
    if LastOfItsKind(events, t, i, (e: Event) => (e.kind.AgentCompleted? || e.kind.AgentFailed?) && e.duration.Some?) {
      LastReported(events, t, SaysDuration, 0.0, i);
    }
    if LastOfItsKind(events, t, i, (e: Event) => e.trust.Some?) {
      LastReported(events, t, SaysTrust, High, i);
    }
    if LastOfItsKind(events, t, i, (e: Event) => e.backend != "") {
      LastReported(events, t, SaysBackend, "thread", i);
    }
    if LastOfItsKind(events, t, i, (e: Event) => e.kind.AgentDispatched? || e.kind.AgentSpawned?) {
      LastReported(events, t, SaysStart, None, i);
    }
  }

  /** The rejection is that of the last rejecting event, a cycle where a rejected spawn gives no reason; the error is the
      last text a failure gave. */
  lemma TroubleIsTheLastReported(events: seq<Event>, t: string, i: nat)
    ensures LastOfItsKind(events, t, i, (e: Event) => e.kind.SpawnRejected? || e.kind.BudgetExceeded? || e.kind.DepthLimitExceeded?)
            ==> SummaryOf(events, t).rejection ==
                Some(match events[i].kind
                     case BudgetExceeded => Budget
                     case DepthLimitExceeded => Depth
                     case _ => if events[i].reason.Some? then events[i].reason.value else Cycle)
    ensures LastOfItsKind(events, t, i, (e: Event) => e.kind.AgentFailed? && e.error.Some?) ==>
              SummaryOf(events, t).error == events[i].error
  {
    if LastOfItsKind(events, t, i, (e: Event) => e.kind.SpawnRejected? || e.kind.BudgetExceeded? || e.kind.DepthLimitExceeded?) {
      LastReported(events, t, SaysRejection, None, i);
    }
    if LastOfItsKind(events, t, i, (e: Event) => e.kind.AgentFailed? && e.error.Some?) {
      LastReported(events, t, SaysError, None, i);
    }
  }

  function OrElse<T>(said: Option<T>, before: T): T {
    if said.Some? then said.value else before
  }

  /** One event's changes to what is known of its trace. */
  function Absorb(a: Summary, e: Event): Summary {
    var ends, failed := Ends(e.kind), e.kind.AgentFailed?;
    Summary(if e.parent.Some? then e.parent else a.parent,
            if e.agent != "" then e.agent else a.agent,
            OrElse(StatusOf(e.kind), a.status),
            OrElse(e.trust, a.trust),
            if e.backend != "" then e.backend else a.backend,
            if ends then OrElse(e.tokens, a.tokens) else a.tokens,
            if ends then OrElse(e.duration, a.duration) else a.duration,
            if e.kind.AgentSpawned? || e.kind.AgentDispatched? then Some(e.timestamp) else a.startedAt,
            if e.kind.SpawnRejected? then Some(OrElse(e.reason, Cycle))
            else if e.kind.BudgetExceeded? then Some(Budget)
            else if e.kind.DepthLimitExceeded? then Some(Depth)
            else a.rejection,
            if failed then Some(OrElse(e.error, OrElse(a.error, ""))) else a.error)
  }

  lemma LastAbsorbs<T>(events: seq<Event>, e: Event, t: string, says: Event -> Option<T>, init: T)
    ensures Last(events + [e], t, says, init) ==
            if e.trace == t then OrElse(says(e), Last(events, t, says, init)) else Last(events, t, says, init)
  {
    assert (events + [e])[..|events|] == events;
  }

  lemma SummaryAbsorbs(events: seq<Event>, e: Event, t: string)
    ensures SummaryOf(events + [e], t) == if e.trace == t then Absorb(SummaryOf(events, t), e) else SummaryOf(events, t)
    ensures Traces(events + [e]) == if e.trace in Traces(events) then Traces(events) else Traces(events) + [e.trace]
  {
    assert (events + [e])[..|events|] == events;
    LastAbsorbs(events, e, t, SaysParent, None);
    LastAbsorbs(events, e, t, SaysAgent, "");
    LastAbsorbs(events, e, t, SaysStatus, Spawned);
    LastAbsorbs(events, e, t, SaysTrust, High);
    LastAbsorbs(events, e, t, SaysBackend, "thread");
    LastAbsorbs(events, e, t, SaysTokens, 0.0);
    LastAbsorbs(events, e, t, SaysDuration, 0.0);
    LastAbsorbs(events, e, t, SaysStart, None);
    LastAbsorbs(events, e, t, SaysRejection, None);
    LastAbsorbs(events, e, t, SaysFailed, false);
    LastAbsorbs(events, e, t, SaysError, None);
  }

  ghost predicate Summarises(order: seq<string>, acc: map<string, Summary>, events: seq<Event>) {
    && order == Traces(events)
    && (forall t :: t in acc <==> t in order)
    && (forall t :: t in acc ==> acc[t] == SummaryOf(events, t))
  }

  /** What a trace starts from at its first event. */
  function Opened(e: Event): Summary {
    Unknown.(parent := e.parent, agent := e.agent)
  }

  lemma SummariesGrow(acc: map<string, Summary>, order: seq<string>, events: seq<Event>, e: Event)
    requires Summarises(order, acc, events)
    ensures forall t :: t in acc && t != e.trace ==> acc[t] == SummaryOf(events + [e], t)
  {
    forall t | t in acc && t != e.trace
      ensures acc[t] == SummaryOf(events + [e], t)
    {
      SummaryAbsorbs(events, e, t);
    }
  }

  lemma SummariseKnown(order: seq<string>, acc: map<string, Summary>, events: seq<Event>, i: nat)
    requires i < |events| && Summarises(order, acc, events[..i]) && events[i].trace in acc
    ensures Summarises(order, acc[events[i].trace := Absorb(acc[events[i].trace], events[i])], events[..i + 1])
  {
    var e := events[i];
    assert events[..i + 1] == events[..i] + [e];
    SummaryAbsorbs(events[..i], e, e.trace);
    SummariesGrow(acc, order, events[..i], e);
  }

  lemma SummariseNew(order: seq<string>, acc: map<string, Summary>, events: seq<Event>, i: nat)
    requires i < |events| && Summarises(order, acc, events[..i]) && events[i].trace !in acc
    ensures Summarises(order + [events[i].trace], acc[events[i].trace := Absorb(Opened(events[i]), events[i])],
                       events[..i + 1])
  {
    var e := events[i];
    assert events[..i + 1] == events[..i] + [e];
    UnknownAtFirst(events[..i], e.trace);
    assert Absorb(Opened(e), e) == Absorb(Unknown, e);
    SummaryAbsorbs(events[..i], e, e.trace);
    SummariesGrow(acc, order, events[..i], e);
  }

  /** One pass over the events; `order` is the order in which the keys of `acc` were inserted. */
  method Accumulate(events: seq<Event>) returns (order: seq<string>, acc: map<string, Summary>)
    ensures Summarises(order, acc, events)
  {
    order, acc := [], map[];
    var i := 0;
    while i < |events|
      invariant 0 <= i <= |events|
      invariant Summarises(order, acc, events[..i])
    {
      var e := events[i];
      if e.trace in acc {
        SummariseKnown(order, acc, events, i);
        acc := acc[e.trace := Absorb(acc[e.trace], e)];
      } else {
        SummariseNew(order, acc, events, i);
        acc, order := acc[e.trace := Absorb(Opened(e), e)], order + [e.trace];
      }
      i := i + 1;
    }
    assert events[..|events|] == events;
  }

  // ------------------------------------------------------------------ parents and depths

  /** The traces, each once, with the parent each one names. */
  datatype Links = Links(order: seq<string>, parent: map<string, Option<string>>)

  ghost predicate Valid(g: Links) {
    NoDup(g.order) && forall t :: t in g.order <==> t in g.parent
  }

  /** The parent that makes a trace a child: named, not empty, and known. */
  function Up(g: Links, t: string): (p: Option<string>)
    requires t in g.parent
    ensures p.Some? ==> p.value in g.parent
  {
    if g.parent[t].Some? && g.parent[t].value != "" && g.parent[t].value in g.parent then g.parent[t] else None
  }

  /** Following parents from t reaches a trace without one after exactly d hops. */
  ghost predicate Grounded(g: Links, t: string, d: nat)
    requires t in g.parent
    decreases d
  {
    match Up(g, t)
    case None => d == 0
    case Some(p) => d > 0 && Grounded(g, p, d - 1)
  }

  lemma {:induction false} OneDepth(g: Links, t: string, d: nat, e: nat)
    requires t in g.parent && Grounded(g, t, d) && Grounded(g, t, e)
    ensures d == e
    decreases d
  {
    if Up(g, t).Some? {
      OneDepth(g, Up(g, t).value, d - 1, e - 1);
    }
  }

  /** The traces on the way up, t first. */
  ghost function Chain(g: Links, t: string, d: nat): (c: seq<string>)
    requires t in g.parent && Grounded(g, t, d)
    ensures |c| == d + 1
    decreases d
  {
    if d == 0 then [t] else [t] + Chain(g, Up(g, t).value, d - 1)
  }

  lemma {:induction false} ChainDepth(g: Links, t: string, d: nat, i: nat)
    requires t in g.parent && Grounded(g, t, d) && i <= d
    ensures Chain(g, t, d)[i] in g.parent && Grounded(g, Chain(g, t, d)[i], d - i)
    decreases d
  {
    if i > 0 {
      ChainDepth(g, Up(g, t).value, d - 1, i - 1);
    }
  }

  /** A depth is smaller than the number of traces: no trace occurs twice on the way up. */
  lemma DepthBelowCount(g: Links, t: string, d: nat)
    requires Valid(g) && t in g.parent && Grounded(g, t, d)
    ensures d < |g.order|
  {
    var c := Chain(g, t, d);
    forall i, j | 0 <= i < j < |c| ensures c[i] != c[j] {
      ChainDepth(g, t, d, i);
      ChainDepth(g, t, d, j);
      if c[i] == c[j] {
        OneDepth(g, c[i], d - i, d - j);
      }
    }
    forall x | x in c ensures x in g.order {
      var i :| 0 <= i < |c| && c[i] == x;
      ChainDepth(g, t, d, i);
    }
    NoDupCard(c);
    NoDupCard(g.order);
    SubsetCard(Elems(c), Elems(g.order));
  }

  // ------------------------------------------------------------------ the forest

  datatype Run = Run(trace: string, depth: nat, children: seq<Run>)

  /** Those of the traces whose parent is p; with None, the roots. */
  function ChildrenIn(g: Links, traces: seq<string>, p: Option<string>): (r: seq<string>)
    requires forall t :: t in traces ==> t in g.parent
    ensures forall t :: t in r <==> t in traces && Up(g, t) == p
    ensures NoDup(traces) ==> NoDup(r)
    decreases |traces|
  {
    if traces == [] then []
    else
      var n := |traces| - 1;
      assert traces == traces[..n] + [traces[n]];
      ChildrenIn(g, traces[..n], p) + (if Up(g, traces[n]) == p then [traces[n]] else [])
  }

  function Children(g: Links, p: Option<string>): (r: seq<string>)
    requires Valid(g)
    ensures NoDup(r) && forall t :: t in r <==> t in g.order && Up(g, t) == p
  {
    ChildrenIn(g, g.order, p)
  }

  /** The trees of traces that are all at depth d. */
  ghost predicate AllAt(g: Links, ts: seq<string>, d: nat) {
    NoDup(ts) && forall t :: t in ts ==> t in g.parent && Grounded(g, t, d)
  }

  lemma ChildrenAreDeeper(g: Links, t: string, d: nat)
    requires Valid(g) && t in g.parent && Grounded(g, t, d)
    ensures AllAt(g, Children(g, Some(t)), d + 1) && d < |g.order|
  {
    DepthBelowCount(g, t, d);
  }

  ghost function Tree(g: Links, t: string, d: nat): Run
    requires Valid(g) && t in g.parent && Grounded(g, t, d)
    decreases |g.order| - d, 0, 0
  {
    ChildrenAreDeeper(g, t, d);
    Run(t, d, Trees(g, Children(g, Some(t)), d + 1))
  }

  ghost function Trees(g: Links, ts: seq<string>, d: nat): seq<Run>
    requires Valid(g) && AllAt(g, ts, d) && d <= |g.order|
    decreases |g.order| - d, 1, |ts|
  {
    if ts == [] then []
    else
      assert ts[0] in ts;
      NoDupTail(ts);
      [Tree(g, ts[0], d)] + Trees(g, ts[1..], d)
  }

  // ------------------------------------------------------------------ building it

  ghost predicate Wired(g: Links, children: map<string, seq<string>>)
    requires Valid(g)
  {
    forall t :: t in g.parent ==> t in children && children[t] == Children(g, Some(t))
  }

  ghost predicate WiredUpTo(g: Links, i: nat, children: map<string, seq<string>>, roots: seq<string>)
    requires Valid(g) && i <= |g.order|
  {
    && roots == ChildrenIn(g, g.order[..i], None)
    && forall t :: t in g.parent ==> t in children && children[t] == ChildrenIn(g, g.order[..i], Some(t))
  }

  lemma ChildrenSnoc(g: Links, traces: seq<string>, t: string, p: Option<string>)
    requires t in g.parent && forall x :: x in traces ==> x in g.parent
    ensures ChildrenIn(g, traces + [t], p) == ChildrenIn(g, traces, p) + (if Up(g, t) == p then [t] else [])
  {
    assert (traces + [t])[..|traces|] == traces;
  }

  lemma ChildrenExtend(g: Links, i: nat, p: Option<string>)
    requires Valid(g) && i < |g.order|
    ensures ChildrenIn(g, g.order[..i + 1], p) ==
            ChildrenIn(g, g.order[..i], p) + (if Up(g, g.order[i]) == p then [g.order[i]] else [])
  {
    assert g.order[..i + 1] == g.order[..i] + [g.order[i]];
    ChildrenSnoc(g, g.order[..i], g.order[i], p);
  }

  /** Puts every trace into its parent's list of children, or among the roots. */
  method Wire(g: Links) returns (children: map<string, seq<string>>, roots: seq<string>)
    requires Valid(g)
    ensures Wired(g, children) && roots == Children(g, None)
  {
    children := map t | t in g.parent :: [];
    roots := [];
    var i := 0;
    while i < |g.order|
      invariant 0 <= i <= |g.order|
      invariant WiredUpTo(g, i, children, roots)
    {
      var t := g.order[i];
      var p := Up(g, t);
      forall q | q in g.parent ensures ChildrenIn(g, g.order[..i + 1], Some(q)) ==
        ChildrenIn(g, g.order[..i], Some(q)) + (if p == Some(q) then [t] else [])
      {
        ChildrenExtend(g, i, Some(q));
      }
      ChildrenExtend(g, i, None);
      if p.Some? {
        children := children[p.value := children[p.value] + [t]];
      } else {
        roots := roots + [t];
      }
      i := i + 1;
    }
    assert g.order[..i] == g.order;
  }

  lemma AllAtTail(g: Links, ts: seq<string>, d: nat)
    requires AllAt(g, ts, d) && ts != []
    ensures AllAt(g, ts[1..], d) && ts[0] in ts
  {
    NoDupTail(ts);
  }

  /** The trees of the first i traces are built. */
  ghost predicate BuiltUpTo(g: Links, ts: seq<string>, d: nat, i: nat, runs: seq<Run>)
    requires Valid(g) && AllAt(g, ts, d) && d <= |g.order| && i <= |ts|
  {
    AllAt(g, ts[i..], d) && runs + Trees(g, ts[i..], d) == Trees(g, ts, d)
  }

  lemma NextTree(g: Links, ts: seq<string>, d: nat, i: nat, runs: seq<Run>)
    requires Valid(g) && AllAt(g, ts, d) && d <= |g.order| && i < |ts| && BuiltUpTo(g, ts, d, i, runs)
    ensures ts[i] in g.parent && Grounded(g, ts[i], d) && d < |g.order|
    ensures BuiltUpTo(g, ts, d, i + 1, runs + [Tree(g, ts[i], d)])
  {
    assert ts[i] in ts;
    AllAtTail(g, ts[i..], d);
    assert ts[i..][1..] == ts[i + 1..];
    DepthBelowCount(g, ts[i], d);
  }

  /** The run of t with its depth set, and below it those of its children; ends even when other parent links are cyclic. */
  method SetDepth(ghost g: Links, children: map<string, seq<string>>, t: string, d: nat) returns (run: Run)
    requires Valid(g) && Wired(g, children) && t in g.parent && Grounded(g, t, d)
    ensures run == Tree(g, t, d)
    decreases |g.order| - d, 0
  {
    ChildrenAreDeeper(g, t, d);
    var below := SetDepths(g, children, children[t], d + 1);
    run := Run(t, d, below);
  }

  method SetDepths(ghost g: Links, children: map<string, seq<string>>, ts: seq<string>, d: nat)
    returns (runs: seq<Run>)
    requires Valid(g) && Wired(g, children) && AllAt(g, ts, d) && d <= |g.order|
    ensures runs == Trees(g, ts, d)
    decreases |g.order| - d, 1
  {
    runs := [];
    assert ts[0..] == ts;
    var i := 0;
    while i < |ts|
      invariant 0 <= i <= |ts| && BuiltUpTo(g, ts, d, i, runs)
    {
      NextTree(g, ts, d, i, runs);
      var run := SetDepth(g, children, ts[i], d);
      runs := runs + [run];
      i := i + 1;
    }
  }

  /** Only the order of the roots depends on the sort. */
  ghost predicate Reorders(sort: seq<string> -> seq<string>) {
    forall ts {:trigger sort(ts)} :: NoDup(ts) ==> NoDup(sort(ts)) && forall t :: t in sort(ts) <==> t in ts
  }

  ghost function LinksOf(events: seq<Event>): (g: Links)
    ensures Valid(g)
  {
    var order := Traces(events);
    Links(order, map t | t in order :: LastParent(events, t))
  }

  lemma RootsAtZero(g: Links, roots: seq<string>)
    requires Valid(g) && NoDup(roots) && forall t :: t in roots <==> t in Children(g, None)
    ensures AllAt(g, roots, 0)
  {
  }

  /** The roots in the order the sort gives them. */
  ghost function SortedRoots(events: seq<Event>, sort: seq<string> -> seq<string>): (roots: seq<string>)
    requires Reorders(sort)
    ensures NoDup(roots) && AllAt(LinksOf(events), roots, 0)
    ensures forall t :: t in roots <==> t in Children(LinksOf(events), None)
  {
    RootsAtZero(LinksOf(events), sort(Children(LinksOf(events), None)));
    sort(Children(LinksOf(events), None))
  }

  method EventsToRuns(events: seq<Event>, sort: seq<string> -> seq<string>) returns (runs: seq<Run>)
    requires Reorders(sort)
    ensures runs == Trees(LinksOf(events), SortedRoots(events, sort), 0)
  {
    var order, acc := Accumulate(events);
    var g := Links(order, map t | t in acc :: acc[t].parent);
    assert g.parent == LinksOf(events).parent;
    var children, unsorted := Wire(g);
    var roots := sort(unsorted);
    assert roots == SortedRoots(events, sort);
    runs := SetDepths(g, children, roots, 0);
  }

  // ------------------------------------------------------------------ what is in the forest

  /** The traces of a tree with their depths, top down. */
  function Nodes(run: Run): seq<(string, nat)> {
    [(run.trace, run.depth)] + AllNodes(run.children)
  }

  function AllNodes(runs: seq<Run>): seq<(string, nat)> {
    if runs == [] then [] else Nodes(runs[0]) + AllNodes(runs[1..])
  }

  /** x is at depth e, and going up from it to depth d leads to one of the given traces. */
  ghost predicate Under(g: Links, x: string, e: nat, ts: seq<string>, d: nat) {
    x in g.parent && Grounded(g, x, e) && d <= e && Chain(g, x, e)[e - d] in ts
  }

  ghost predicate ListsUnder(g: Links, nodes: seq<(string, nat)>, ts: seq<string>, d: nat) {
    && NoDup(nodes)
    && forall x: string, e: nat {:trigger (x, e) in nodes} :: (x, e) in nodes <==> Under(g, x, e, ts, d)
  }

  lemma {:induction false} ChainStep(g: Links, x: string, e: nat, i: nat)
    requires x in g.parent && Grounded(g, x, e) && i < e
    ensures Chain(g, x, e)[i] in g.parent && Up(g, Chain(g, x, e)[i]) == Some(Chain(g, x, e)[i + 1])
    decreases e
  {
    if i > 0 {
      ChainStep(g, Up(g, x).value, e - 1, i - 1);
    }
  }

  lemma UnderChildren(g: Links, x: string, e: nat, t: string, d: nat)
    requires Valid(g) && t in g.parent && Grounded(g, t, d)
    ensures Under(g, x, e, [t], d) <==> (x == t && e == d) || Under(g, x, e, Children(g, Some(t)), d + 1)
  {
    if x in g.parent && Grounded(g, x, e) && d < e {
      ChainStep(g, x, e, e - d - 1);
    }
  }

  lemma DisjointLists(g: Links, a: seq<(string, nat)>, t: string, b: seq<(string, nat)>, ts: seq<string>, d: nat)
    requires ListsUnder(g, a, [t], d) && ListsUnder(g, b, ts, d) && t !in ts
    ensures NoDup(a + b) && Elems(a + b) == Elems(a) + Elems(b)
  {
    forall n | n in a ensures n !in b {
      assert n == (n.0, n.1);
      assert Under(g, n.0, n.1, [t], d);
    }
    NoDupConcat(a, b);
  }

  lemma {:induction false} TreeLists(g: Links, t: string, d: nat)
    requires Valid(g) && t in g.parent && Grounded(g, t, d)
    ensures ListsUnder(g, Nodes(Tree(g, t, d)), [t], d)
    decreases |g.order| - d, 0, 0
  {
    ChildrenAreDeeper(g, t, d);
    var cs := Children(g, Some(t));
    TreesList(g, cs, d + 1);
    var below := AllNodes(Trees(g, cs, d + 1));
    NoDupConcat([(t, d)], below);
    forall x: string, e: nat ensures (x, e) in [(t, d)] + below <==> Under(g, x, e, [t], d) {
      UnderChildren(g, x, e, t, d);
    }
  }

  lemma {:induction false} TreesList(g: Links, ts: seq<string>, d: nat)
    requires Valid(g) && AllAt(g, ts, d) && d <= |g.order|
    ensures ListsUnder(g, AllNodes(Trees(g, ts, d)), ts, d)
    decreases |g.order| - d, 1, |ts|
  {
    if ts != [] {
      AllAtTail(g, ts, d);
      NoDupTail(ts);
      TreeLists(g, ts[0], d);
      TreesList(g, ts[1..], d);
      DisjointLists(g, Nodes(Tree(g, ts[0], d)), ts[0], AllNodes(Trees(g, ts[1..], d)), ts[1..], d);
    }
  }

  /** The nodes are the traces with a depth, each at its depth. */
  ghost predicate ListsGrounded(g: Links, nodes: seq<(string, nat)>) {
    forall x: string, e: nat {:trigger (x, e) in nodes} :: (x, e) in nodes <==> x in g.parent && Grounded(g, x, e)
  }

  lemma ForestLists(g: Links, roots: seq<string>)
    requires Valid(g) && AllAt(g, roots, 0) && forall t :: t in roots <==> t in Children(g, None)
    ensures var nodes := AllNodes(Trees(g, roots, 0));
            ListsGrounded(g, nodes) && forall i, j :: 0 <= i < j < |nodes| ==> nodes[i].0 != nodes[j].0
  {
    TreesList(g, roots, 0);
    var nodes := AllNodes(Trees(g, roots, 0));
    forall x: string, e: nat ensures (x, e) in nodes <==> x in g.parent && Grounded(g, x, e) {
      if x in g.parent && Grounded(g, x, e) {
        ChainDepth(g, x, e, e);
      }
    }
    forall i, j | 0 <= i < j < |nodes| ensures nodes[i].0 != nodes[j].0 {
      assert (nodes[i].0, nodes[i].1) in nodes && (nodes[j].0, nodes[j].1) in nodes;
      if nodes[i].0 == nodes[j].0 {
        OneDepth(g, nodes[i].0, nodes[i].1, nodes[j].1);
      }
    }
  }

  // ------------------------------------------------------------------ which traces are left out

  /** The k-th trace on the way up. */
  function Ancestor(g: Links, t: string, k: nat): (a: Option<string>)
    requires t in g.parent
    ensures a.Some? ==> a.value in g.parent
    decreases k
  {
    if k == 0 then Some(t)
    else if Up(g, t).None? then None
    else Ancestor(g, Up(g, t).value, k - 1)
  }

  /** Going up meets some trace twice: t is on a cycle of parent links or below one. */
  ghost predicate ReachesCycle(g: Links, t: string)
    requires t in g.parent
  {
    exists i, j :: Repeats(g, t, i, j)
  }

  ghost predicate Repeats(g: Links, t: string, i: nat, j: nat)
    requires t in g.parent
  {
    i < j && Ancestor(g, t, i).Some? && Ancestor(g, t, i) == Ancestor(g, t, j)
  }

  lemma {:induction false} AncestorOnChain(g: Links, t: string, d: nat, k: nat)
    requires t in g.parent && Grounded(g, t, d)
    ensures Ancestor(g, t, k) == if k <= d then Some(Chain(g, t, d)[k]) else None
    decreases k
  {
    if k > 0 && d > 0 {
      AncestorOnChain(g, Up(g, t).value, d - 1, k - 1);
    }
  }

  /** The first n traces on the way up, or fewer when a root is met: then the depth is known. */
  lemma {:induction false} ClimbOrGround(g: Links, t: string, n: nat) returns (c: seq<string>, d: nat)
    requires t in g.parent
    ensures Grounded(g, t, d) || (|c| == n && forall i :: 0 <= i < n ==> Ancestor(g, t, i) == Some(c[i]))
    decreases n
  {
    c, d := [], 0;
    if n > 0 && Up(g, t).Some? {
      c, d := ClimbOrGround(g, Up(g, t).value, n - 1);
      c, d := [t] + c, d + 1;
    }
  }

  /** A trace has a depth exactly when no cycle of parent links is on its way up. */
  lemma GroundedIffNoCycle(g: Links, t: string)
    requires Valid(g) && t in g.parent
    ensures (exists d: nat :: Grounded(g, t, d)) <==> !ReachesCycle(g, t)
  {
    var c, d := ClimbOrGround(g, t, |g.order| + 1);
    if Grounded(g, t, d) {
      forall i: nat, j: nat ensures !Repeats(g, t, i, j) {
        AncestorOnChain(g, t, d, i);
        AncestorOnChain(g, t, d, j);
        if i < j <= d {
          ChainDepth(g, t, d, i);
          ChainDepth(g, t, d, j);
          if Chain(g, t, d)[i] == Chain(g, t, d)[j] {
            OneDepth(g, Chain(g, t, d)[i], d - i, d - j);
          }
        }
      }
    } else {
      forall x | x in c ensures x in g.order {
        var i :| 0 <= i < |c| && c[i] == x;
        assert Ancestor(g, t, i) == Some(c[i]);
      }
      PigeonHole(c, g.order);
      var i, j :| 0 <= i < j < |c| && c[i] == c[j];
      assert Repeats(g, t, i, j);
      CycleIsNotGrounded(g, t, i, j);
    }
  }

  lemma PigeonHole(c: seq<string>, order: seq<string>)
    requires NoDup(order) && |c| > |order| && forall x :: x in c ==> x in order
    ensures exists i, j :: 0 <= i < j < |c| && c[i] == c[j]
  {
    if NoDup(c) {
      NoDupCard(c);
      NoDupCard(order);
      SubsetCard(Elems(c), Elems(order));
    }
  }

  lemma CycleIsNotGrounded(g: Links, t: string, i: nat, j: nat)
    requires t in g.parent && Repeats(g, t, i, j)
    ensures forall d: nat :: !Grounded(g, t, d)
  {
    forall d: nat ensures !Grounded(g, t, d) {
      if Grounded(g, t, d) {
        AncestorOnChain(g, t, d, i);
        AncestorOnChain(g, t, d, j);
        ChainDepth(g, t, d, i);
        ChainDepth(g, t, d, j);
        OneDepth(g, Chain(g, t, d)[i], d - i, d - j);
      }
    }
  }

  /** For every list of events: each trace whose parents lead up to one without a known parent is in the forest exactly
      once, at the depth that takes; the traces on a cycle of parent links or below one are not in it. */
  lemma ForestIsExact(events: seq<Event>, roots: seq<string>, t: string)
    requires t in Traces(events) && NoDup(roots)
    requires forall r :: r in roots <==> r in Children(LinksOf(events), None)
    ensures var g := LinksOf(events);
            && AllAt(g, roots, 0)
            && var nodes := AllNodes(Trees(g, roots, 0));
            && (forall i, j :: 0 <= i < j < |nodes| ==> nodes[i].0 != nodes[j].0)
            && (forall d: nat :: (t, d) in nodes <==> Grounded(g, t, d))
            && ((exists d: nat :: (t, d) in nodes) <==> !ReachesCycle(g, t))
  {
    var g := LinksOf(events);
    RootsAtZero(g, roots);
    ForestLists(g, roots);
    GroundedIffNoCycle(g, t);
  }

  // ------------------------------------------------------------------ the forest and the events

  /** The parent the events name last for t is not empty and is itself a trace of the events. */
  ghost predicate HasKnownParent(events: seq<Event>, t: string, p: string) {
    LastParent(events, t) == Some(p) && p != "" && p in Traces(events)
  }

  lemma UpIsKnownParent(events: seq<Event>, t: string)
    requires t in Traces(events)
    ensures forall p :: Up(LinksOf(events), t) == Some(p) <==> HasKnownParent(events, t, p)
  {
  }

  ghost function Forest(events: seq<Event>, sort: seq<string> -> seq<string>): seq<Run>
    requires Reorders(sort)
  {
    Trees(LinksOf(events), SortedRoots(events, sort), 0)
  }

  lemma OneLevelBelow(g: Links, nodes: seq<(string, nat)>, t: string, p: string)
    requires ListsGrounded(g, nodes) && t in g.parent && Up(g, t) == Some(p)
    ensures (t, 0) !in nodes && forall d: nat :: (t, d + 1) in nodes <==> (p, d) in nodes
  {
    assert !Grounded(g, t, 0);
    forall d: nat ensures (t, d + 1) in nodes <==> (p, d) in nodes {
      assert Grounded(g, t, d + 1) <==> Grounded(g, p, d);
    }
  }

  lemma AtTheTop(g: Links, nodes: seq<(string, nat)>, t: string)
    requires ListsGrounded(g, nodes) && t in g.parent && Up(g, t) == None
    ensures (t, 0) in nodes
  {
    assert Grounded(g, t, 0);
  }

  lemma ForestListsGrounded(events: seq<Event>, sort: seq<string> -> seq<string>)
    requires Reorders(sort)
    ensures ListsGrounded(LinksOf(events), AllNodes(Forest(events, sort)))
  {
    ForestLists(LinksOf(events), SortedRoots(events, sort));
  }

  /** A trace whose last named parent is known stands one level below it, wherever that is, and is no root. */
  lemma ForestFollowsParents(events: seq<Event>, sort: seq<string> -> seq<string>, t: string, p: string)
    requires Reorders(sort) && t in Traces(events) && HasKnownParent(events, t, p)
    ensures var nodes := AllNodes(Forest(events, sort));
            (t, 0) !in nodes && forall d: nat :: (t, d + 1) in nodes <==> (p, d) in nodes
  {
    UpIsKnownParent(events, t);
    ForestListsGrounded(events, sort);
    OneLevelBelow(LinksOf(events), AllNodes(Forest(events, sort)), t, p);
  }

  /** A trace without a known parent is a root. */
  lemma OthersAreRoots(events: seq<Event>, sort: seq<string> -> seq<string>, t: string)
    requires Reorders(sort) && t in Traces(events)
    requires LastParent(events, t) == None || LastParent(events, t) == Some("") ||
             LastParent(events, t).value !in Traces(events)
    ensures (t, 0) in AllNodes(Forest(events, sort))
  {
    UpIsKnownParent(events, t);
    ForestListsGrounded(events, sort);
    AtTheTop(LinksOf(events), AllNodes(Forest(events, sort)), t);
  }

  /** All runs of the forest, at every level. */
  function AllRuns(runs: seq<Run>): seq<Run> {
    if runs == [] then [] else [runs[0]] + AllRuns(runs[0].children) + AllRuns(runs[1..])
  }

  /** The nodes are the runs' traces and depths. */
  lemma {:induction false} NodesAreRuns(runs: seq<Run>, t: string, d: nat)
    ensures (t, d) in AllNodes(runs) <==> exists r :: r in AllRuns(runs) && r.trace == t && r.depth == d
  {
    if runs != [] {
      NodesAreRuns(runs[0].children, t, d);
      NodesAreRuns(runs[1..], t, d);
      var rest := AllRuns(runs[0].children) + AllRuns(runs[1..]);
      assert AllRuns(runs) == [runs[0]] + rest;
      assert forall r :: r in AllRuns(runs) <==>
               r == runs[0] || r in AllRuns(runs[0].children) || r in AllRuns(runs[1..]);
    }
  }

  lemma {:induction false} TreesOf(g: Links, ts: seq<string>, d: nat)
    requires Valid(g) && AllAt(g, ts, d) && d <= |g.order|
    ensures |Trees(g, ts, d)| == |ts| && forall i :: 0 <= i < |ts| ==> Trees(g, ts, d)[i].trace == ts[i]
    decreases |ts|
  {
    if ts != [] {
      AllAtTail(g, ts, d);
      TreesOf(g, ts[1..], d);
    }
  }

  lemma {:induction false} RunsAreTrees(g: Links, ts: seq<string>, d: nat, run: Run) returns (x: string, e: nat)
    requires Valid(g) && AllAt(g, ts, d) && d <= |g.order| && run in AllRuns(Trees(g, ts, d))
    ensures x in g.parent && Grounded(g, x, e) && run == Tree(g, x, e)
    decreases |g.order| - d, |ts|
  {
    assert ts != [];
    AllAtTail(g, ts, d);
    var tree := Tree(g, ts[0], d);
    assert Trees(g, ts, d)[0] == tree && Trees(g, ts, d)[1..] == Trees(g, ts[1..], d);
    if run == tree {
      x, e := ts[0], d;
    } else if run in AllRuns(tree.children) {
      ChildrenAreDeeper(g, ts[0], d);
      x, e := RunsAreTrees(g, Children(g, Some(ts[0])), d + 1, run);
    } else {
      x, e := RunsAreTrees(g, ts[1..], d, run);
    }
  }

  lemma ChildTraces(g: Links, x: string, e: nat, t: string)
    requires Valid(g) && x in g.parent && Grounded(g, x, e)
    ensures (exists c :: c in Tree(g, x, e).children && c.trace == t) <==> t in Children(g, Some(x))
  {
    ChildrenAreDeeper(g, x, e);
    var ts, cs := Children(g, Some(x)), Tree(g, x, e).children;
    TreesOf(g, ts, e + 1);
    if t in ts {
      var i :| 0 <= i < |ts| && ts[i] == t;
      assert cs[i] in cs;
    }
    forall c | c in cs
      ensures c.trace in ts
    {
      var i :| 0 <= i < |cs| && cs[i] == c;
      assert ts[i] == c.trace;
    }
  }

  /** The children of every run in the forest are exactly the traces whose last named parent it is. */
  lemma ChildrenAreTheParents(events: seq<Event>, sort: seq<string> -> seq<string>, run: Run, t: string)
    requires Reorders(sort) && run in AllRuns(Forest(events, sort))
    ensures (exists c :: c in run.children && c.trace == t) <==>
            t in Traces(events) && HasKnownParent(events, t, run.trace)
  {
    var x, e := RunsAreTrees(LinksOf(events), SortedRoots(events, sort), 0, run);
    ChildTraces(LinksOf(events), x, e, t);
    if t in Traces(events) {
      UpIsKnownParent(events, t);
    }
  }
}
