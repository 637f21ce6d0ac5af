/** Type routing under a source whose fan-out field holds a union of item types. */
module Routing {
  import opened Wrappers
  import opened Seqs
  import opened Topology

  /** For each class the classes above it; a class counts as above itself without being listed. */
  type Hierarchy = map<TypeName, set<TypeName>>

  predicate IsSub(h: Hierarchy, t: TypeName, u: TypeName) {
    t == u || (t in h && u in h[t])
  }

  /** The classes above any class form a chain. */
  ghost predicate SingleInheritance(h: Hierarchy) {
    forall t, u, v :: IsSub(h, t, u) && IsSub(h, t, v) ==> IsSub(h, u, v) || IsSub(h, v, u)
  }

  /** An instance: its class, its serialised form and the items of its fan-out field. */
  datatype Model = Model(typ: TypeName, body: string, items: seq<Model>)

  datatype RoutingError =
    | MalformedField
    | ConditionalEdge
    | RelatedMembers(t1: TypeName, t2: TypeName)
    | NoInputType(handler: Agent)
    | DuplicateInputType(handler: Agent)
    | MissingMember(member: TypeName)
    | OrphanHandler(handler: Agent)

  ghost predicate Unrelated(h: Hierarchy, members: seq<TypeName>) {
    forall i, j :: 0 <= i < j < |members| ==> !IsSub(h, members[i], members[j]) && !IsSub(h, members[j], members[i])
  }

  /** Every handler declares an input type, no two the same. */
  ghost predicate Distinct(handlers: seq<Agent>) {
    && (forall d :: d in handlers ==> d.inputType.Some?)
    && (forall i, j :: 0 <= i < j < |handlers| ==> handlers[i].inputType != handlers[j].inputType)
  }

  /** The handlers are distinct and the types they declare are the union members. */
  ghost predicate Claims(members: seq<TypeName>, handlers: seq<Agent>) {
    && Distinct(handlers)
    && (forall d :: d in handlers ==> d.inputType.value in members)
    && (forall t :: t in members ==> exists d :: d in handlers && d.inputType == Some(t))
  }

  ghost predicate WellRouted(h: Hierarchy, members: seq<TypeName>, handlers: seq<Agent>) {
    Unrelated(h, members) && Claims(members, handlers)
  }

  function EdgesOf(g: AgentGroup, source: Agent): seq<Edge> {
    if source in g.edges then g.edges[source] else []
  }

  predicate IsUnion(field: FanOutField) {
    field.ListOf? && |field.members| > 1
  }

  /** The source routes by type: a union field and at least one target. */
  predicate RoutesByType(g: AgentGroup, source: Agent) {
    IsUnion(source.fanOut) && Out(g, source) != []
  }

  ghost predicate RoutingSound(h: Hierarchy, g: AgentGroup, source: Agent) {
    && !source.fanOut.Malformed?
    && (IsUnion(source.fanOut) ==> forall e :: e in EdgesOf(g, source) ==> e.condition.None?)
    && (RoutesByType(g, source) ==> WellRouted(h, source.fanOut.members, Out(g, source)))
  }

  ghost predicate AreRelated(h: Hierarchy, members: seq<TypeName>, t1: TypeName, t2: TypeName) {
    && (exists i, j :: 0 <= i < j < |members| && members[i] == t1 && members[j] == t2)
    && (IsSub(h, t1, t2) || IsSub(h, t2, t1))
  }

  ghost predicate ClaimsAgain(handlers: seq<Agent>, d: Agent) {
    exists i, j :: 0 <= i < j < |handlers| && handlers[j] == d && handlers[i].inputType == d.inputType
  }

  /** The error names something that is wrong with the correspondence of handlers and members. */
  ghost predicate IsTableFault(members: seq<TypeName>, handlers: seq<Agent>, e: RoutingError) {
    match e
    case NoInputType(d) => d in handlers && d.inputType.None?
    case DuplicateInputType(d) => d in handlers && d.inputType.Some? && ClaimsAgain(handlers, d)
    case MissingMember(t) => t in members && forall d :: d in handlers ==> d.inputType != Some(t)
    case OrphanHandler(d) => d in handlers && d.inputType.Some? && d.inputType.value !in members
    case _ => false
  }

  ghost predicate IsFault(h: Hierarchy, g: AgentGroup, source: Agent, e: RoutingError) {
    match e
    case MalformedField => source.fanOut.Malformed?
    case ConditionalEdge => IsUnion(source.fanOut) && exists x :: x in EdgesOf(g, source) && x.condition.Some?
    case RelatedMembers(t1, t2) => RoutesByType(g, source) && AreRelated(h, source.fanOut.members, t1, t2)
    case _ => RoutesByType(g, source) && IsTableFault(source.fanOut.members, Out(g, source), e)
  }

  ghost predicate IsTable(members: seq<TypeName>, handlers: seq<Agent>, table: map<TypeName, Agent>) {
    && table.Keys == Elems(members)
    && (forall d :: d in handlers ==> d.inputType.Some? && d.inputType.value in table && table[d.inputType.value] == d)
    && (forall t :: t in table ==> table[t] in handlers && table[t].inputType == Some(t))
  }

  /** The dispatch table of a source, no table when it does not route by type, or what is wrong with it. */
  method HeterogeneousDispatchFor(h: Hierarchy, g: AgentGroup, source: Agent)
    returns (r: Result<Option<map<TypeName, Agent>>, RoutingError>)
    ensures r.Ok? <==> RoutingSound(h, g, source)
    ensures r.Err? ==> IsFault(h, g, source, r.error)
    ensures r.Ok? ==> (r.value.Some? <==> RoutesByType(g, source))
    ensures r.Ok? && r.value.Some? ==> IsTable(source.fanOut.members, Out(g, source), r.value.value)
  {
    if source.fanOut.Malformed? {
      return Err(MalformedField);
    }
    if source.fanOut.NoField? || |source.fanOut.members| <= 1 {
      return Ok(None);
    }
    var members := source.fanOut.members;
    var edges := EdgesOf(g, source);
    var handlers: seq<Agent> := [];
    for i := 0 to |edges|
      invariant handlers == Targets(edges[..i])
      invariant forall k :: 0 <= k < i ==> edges[k].condition.None?
    {
      if edges[i].condition.Some? {
        assert edges[i] in edges;
        return Err(ConditionalEdge);
      }
      TargetsSnoc(edges, i);
      handlers := handlers + edges[i].to;
    }
    assert edges[..|edges|] == edges;
    if handlers == [] {
      return Ok(None);
    }
    var related := FindRelated(h, members);
    if related.Some? {
      return Err(related.value);
    }
    var table := BuildTable(members, handlers);
    if table.Err? {
      return Err(table.error);
    }
    r := Ok(Some(table.value));
  }

  lemma {:induction false} TargetsSnoc(es: seq<Edge>, i: nat)
    requires i < |es|
    ensures Targets(es[..i + 1]) == Targets(es[..i]) + es[i].to
  {
    if i == 0 {
      assert es[..1] == [es[0]] && es[1..][..0] == [];
      assert Targets([es[0]]) == es[0].to + Targets([]);
    } else {
      TargetsSnoc(es[1..], i - 1);
      assert es[..i + 1][1..] == es[1..][..i] && es[..i][1..] == es[1..][..i - 1];
    }
  }

  method FindRelated(h: Hierarchy, members: seq<TypeName>) returns (r: Option<RoutingError>)
    ensures r.None? <==> Unrelated(h, members)
    ensures r.Some? ==> r.value.RelatedMembers? && AreRelated(h, members, r.value.t1, r.value.t2)
  {
    for i := 0 to |members|
      invariant forall k, j :: 0 <= k < i && k < j < |members| ==>
                  !IsSub(h, members[k], members[j]) && !IsSub(h, members[j], members[k])
    {
      for j := i + 1 to |members|
        invariant forall k :: i < k < j ==> !IsSub(h, members[i], members[k]) && !IsSub(h, members[k], members[i])
      {
        if IsSub(h, members[i], members[j]) || IsSub(h, members[j], members[i]) {
          return Some(RelatedMembers(members[i], members[j]));
        }
      }
    }
    r := None;
  }

  predicate Serves(table: map<TypeName, Agent>, d: Agent) {
    d.inputType.Some? && d.inputType.value in table && table[d.inputType.value] == d
  }

  /** The first n handlers by input type, no two with the same. */
  ghost predicate Indexes(table: map<TypeName, Agent>, handlers: seq<Agent>, n: nat)
    requires n <= |handlers|
  {
    && (forall k :: 0 <= k < n ==> Serves(table, handlers[k]))
    && (forall i, j :: 0 <= i < j < n ==> handlers[i].inputType != handlers[j].inputType)
    && (forall t :: t in table ==> table[t] in handlers[..n] && table[t].inputType == Some(t))
  }

  lemma IndexOneMore(table: map<TypeName, Agent>, handlers: seq<Agent>, n: nat)
    requires n < |handlers| && Indexes(table, handlers, n)
    requires handlers[n].inputType.Some? && handlers[n].inputType.value !in table
    ensures Indexes(table[handlers[n].inputType.value := handlers[n]], handlers, n + 1)
  {
    assert handlers[..n + 1] == handlers[..n] + [handlers[n]];
    assert forall k :: 0 <= k < n ==> Serves(table, handlers[k]) && handlers[k].inputType != handlers[n].inputType;
  }

  lemma Duplicate(table: map<TypeName, Agent>, handlers: seq<Agent>, n: nat)
    requires n < |handlers| && Indexes(table, handlers, n)
    requires handlers[n].inputType.Some? && handlers[n].inputType.value in table
    ensures ClaimsAgain(handlers, handlers[n]) && !Distinct(handlers)
  {
    var k :| 0 <= k < n && handlers[k] == table[handlers[n].inputType.value];
    assert handlers[k].inputType == handlers[n].inputType;
  }

  lemma WholeIndex(table: map<TypeName, Agent>, handlers: seq<Agent>)
    requires Indexes(table, handlers, |handlers|)
    ensures Distinct(handlers)
    ensures forall d :: d in handlers ==> Serves(table, d)
    ensures forall t :: t in table ==> table[t] in handlers && table[t].inputType == Some(t)
  {
    assert handlers[..|handlers|] == handlers;
    forall d | d in handlers ensures Serves(table, d) {
      var k :| 0 <= k < |handlers| && handlers[k] == d;
    }
  }

  method IndexHandlers(handlers: seq<Agent>) returns (r: Result<map<TypeName, Agent>, RoutingError>)
    ensures r.Ok? <==> Distinct(handlers)
    ensures r.Ok? ==> Indexes(r.value, handlers, |handlers|)
    ensures r.Err? ==> r.error.NoInputType? || r.error.DuplicateInputType?
    ensures r.Err? ==> IsTableFault([], handlers, r.error)
  {
    var table: map<TypeName, Agent> := map[];
    for i := 0 to |handlers|
      invariant Indexes(table, handlers, i)
    {
      var handler := handlers[i];
      assert handler in handlers;
      if handler.inputType.None? {
        return Err(NoInputType(handler));
      }
      if handler.inputType.value in table {
        Duplicate(table, handlers, i);
        return Err(DuplicateInputType(handler));
      }
      IndexOneMore(table, handlers, i);
      table := table[handler.inputType.value := handler];
    }
    WholeIndex(table, handlers);
    r := Ok(table);
  }

  method BuildTable(members: seq<TypeName>, handlers: seq<Agent>) returns (r: Result<map<TypeName, Agent>, RoutingError>)
    ensures r.Ok? <==> Claims(members, handlers)
    ensures r.Ok? ==> IsTable(members, handlers, r.value)
    ensures r.Err? ==> IsTableFault(members, handlers, r.error)
  {
    r := IndexHandlers(handlers);
    if r.Err? {
      return;
    }
    WholeIndex(r.value, handlers);
    var missing := FindMissing(members, r.value);
    if missing.Some? {
      return Err(MissingMember(missing.value));
    }
    var orphan := FindOrphan(members, handlers);
    if orphan.Some? {
      return Err(OrphanHandler(orphan.value));
    }
  }

  method FindMissing(members: seq<TypeName>, table: map<TypeName, Agent>) returns (r: Option<TypeName>)
    ensures r.None? <==> forall t :: t in members ==> t in table
    ensures r.Some? ==> r.value in members && r.value !in table
  {
    for i := 0 to |members|
      invariant forall k :: 0 <= k < i ==> members[k] in table
    {
      if members[i] !in table {
        return Some(members[i]);
      }
    }
    r := None;
  }

  method FindOrphan(members: seq<TypeName>, handlers: seq<Agent>) returns (r: Option<Agent>)
    requires forall a :: a in handlers ==> a.inputType.Some?
    ensures r.None? <==> forall a :: a in handlers ==> a.inputType.value in members
    ensures r.Some? ==> r.value in handlers && r.value.inputType.value !in members
  {
    for i := 0 to |handlers|
      invariant forall k :: 0 <= k < i ==> handlers[k].inputType.value in members
    {
      if handlers[i].inputType.value !in members {
        return Some(handlers[i]);
      }
    }
    r := None;
  }

  // ------------------------------------------------------------------ what routing delivers

  /** The items a handler of input type t receives. */
  function Delivered(h: Hierarchy, items: seq<Model>, t: TypeName): seq<Model> {
    if items == [] then []
    else (if IsSub(h, items[0].typ, t) then [items[0]] else []) + Delivered(h, items[1..], t)
  }

  /** All deliveries to handlers of the given input types together. */
  ghost function DeliveredToAll(h: Hierarchy, items: seq<Model>, types: seq<TypeName>): multiset<Model> {
    if types == [] then multiset{}
    else multiset(Delivered(h, items, types[0])) + DeliveredToAll(h, items, types[1..])
  }

  /** How many of the listed types a class falls under. */
  ghost function Takers(h: Hierarchy, types: seq<TypeName>, t: TypeName): nat {
    if types == [] then 0
    else (if IsSub(h, t, types[0]) then 1 else 0) + Takers(h, types[1..], t)
  }

  lemma {:induction false} DeliveredKeepsOrder(h: Hierarchy, items: seq<Model>, t: TypeName)
    ensures IsSubsequence(Delivered(h, items, t), items)
  {
    if items != [] {
      DeliveredKeepsOrder(h, items[1..], t);
      var rest := Delivered(h, items[1..], t);
      assert ([items[0]] + rest)[1..] == rest;
      assert [] + rest == rest;
    }
  }

  lemma {:induction false} DeliveredCount(h: Hierarchy, items: seq<Model>, t: TypeName, m: Model)
    ensures multiset(Delivered(h, items, t))[m] == if IsSub(h, m.typ, t) then multiset(items)[m] else 0
  {
    if items != [] {
      DeliveredCount(h, items[1..], t, m);
      assert items == [items[0]] + items[1..];
    }
  }

  lemma Distribute(n: nat, k: nat)
    ensures n * (1 + k) == n + n * k
  {
  }

  lemma FixedByFactor(n: nat, k: nat)
    ensures n * k == n <==> n == 0 || k == 1
  {
    if n > 0 && k > 1 {
      Distribute(n, k - 1);
    }
  }

  lemma OneMoreType(h: Hierarchy, items: seq<Model>, types: seq<TypeName>, m: Model)
    requires types != []
    ensures DeliveredToAll(h, items, types)[m] ==
            (if IsSub(h, m.typ, types[0]) then multiset(items)[m] else 0) + DeliveredToAll(h, items, types[1..])[m]
  {
    DeliveredCount(h, items, types[0], m);
  }

  lemma {:induction false} DeliveriesCount(h: Hierarchy, items: seq<Model>, types: seq<TypeName>, m: Model)
    ensures DeliveredToAll(h, items, types)[m] == multiset(items)[m] * Takers(h, types, m.typ)
  {
    if types != [] {
      var n, k := multiset(items)[m], Takers(h, types[1..], m.typ);
      DeliveriesCount(h, items, types[1..], m);
      OneMoreType(h, items, types, m);
      Distribute(n, k);
      assert Takers(h, types, m.typ) == if IsSub(h, m.typ, types[0]) then 1 + k else k;
    }
  }

  lemma OnceIffOneTaker(h: Hierarchy, items: seq<Model>, types: seq<TypeName>, m: Model)
    ensures DeliveredToAll(h, items, types)[m] == multiset(items)[m] <==>
            m !in items || Takers(h, types, m.typ) == 1
  {
    DeliveriesCount(h, items, types, m);
    FixedByFactor(multiset(items)[m], Takers(h, types, m.typ));
    assert m in multiset(items) <==> m in items;
  }

  /** Every item arrives exactly once if and only if every item's class falls under exactly one handler type. */
  lemma ConservedIffOneTaker(h: Hierarchy, items: seq<Model>, types: seq<TypeName>)
    ensures DeliveredToAll(h, items, types) == multiset(items) <==>
            forall m :: m in items ==> Takers(h, types, m.typ) == 1
  {
    forall m: Model
      ensures DeliveredToAll(h, items, types)[m] == multiset(items)[m] <==>
              m !in items || Takers(h, types, m.typ) == 1
    {
      OnceIffOneTaker(h, items, types, m);
    }
  }

  lemma {:induction false} UnrelatedHaveOneTaker(h: Hierarchy, types: seq<TypeName>, t: TypeName)
    requires SingleInheritance(h) && Unrelated(h, types)
    ensures Takers(h, types, t) == if exists u :: u in types && IsSub(h, t, u) then 1 else 0
  {
    if types != [] {
      assert Unrelated(h, types[1..]);
      UnrelatedHaveOneTaker(h, types[1..], t);
      if IsSub(h, t, types[0]) {
        forall u | u in types[1..]
          ensures !IsSub(h, t, u)
        {
          var j :| 0 <= j < |types[1..]| && types[1..][j] == u;
          assert types[j + 1] == u;
        }
      }
    }
  }

  function InputTypes(handlers: seq<Agent>): (r: seq<TypeName>)
    requires forall d :: d in handlers ==> d.inputType.Some?
    ensures |r| == |handlers| && forall i :: 0 <= i < |r| ==> Some(r[i]) == handlers[i].inputType
  {
    if handlers == [] then [] else [handlers[0].inputType.value] + InputTypes(handlers[1..])
  }

  lemma RoutedItemsHaveOneTaker(h: Hierarchy, g: AgentGroup, source: Agent, items: seq<Model>)
    requires SingleInheritance(h) && RoutingSound(h, g, source) && RoutesByType(g, source)
    requires forall m :: m in items ==> exists u :: u in source.fanOut.members && IsSub(h, m.typ, u)
    ensures forall m :: m in items ==> Takers(h, InputTypes(Out(g, source)), m.typ) == 1
  {
    var handlers := Out(g, source);
    var types := InputTypes(handlers);
    ClaimedTypesUnrelated(h, source.fanOut.members, handlers);
    forall m | m in items
      ensures Takers(h, types, m.typ) == 1
    {
      UnrelatedHaveOneTaker(h, types, m.typ);
      var u :| u in source.fanOut.members && IsSub(h, m.typ, u);
      var d :| d in handlers && d.inputType == Some(u);
      var i :| 0 <= i < |handlers| && handlers[i] == d;
      assert types[i] == u;
    }
  }

  /** Under single inheritance every item of any list reaches exactly one handler of an accepted source,
      and each handler gets its items in their original order. */
  lemma RoutingConservesItems(h: Hierarchy, g: AgentGroup, source: Agent, items: seq<Model>)
    requires SingleInheritance(h) && RoutingSound(h, g, source) && RoutesByType(g, source)
    requires forall m :: m in items ==> exists u :: u in source.fanOut.members && IsSub(h, m.typ, u)
    ensures DeliveredToAll(h, items, InputTypes(Out(g, source))) == multiset(items)
    ensures forall d :: d in Out(g, source) ==> IsSubsequence(Delivered(h, items, d.inputType.value), items)
  {
    RoutedItemsHaveOneTaker(h, g, source, items);
    ConservedIffOneTaker(h, items, InputTypes(Out(g, source)));
    forall d | d in Out(g, source) {
      DeliveredKeepsOrder(h, items, d.inputType.value);
    }
  }

  lemma ClaimedTypesUnrelated(h: Hierarchy, members: seq<TypeName>, handlers: seq<Agent>)
    requires WellRouted(h, members, handlers)
    ensures Unrelated(h, InputTypes(handlers))
  {
    var types := InputTypes(handlers);
    forall i, j | 0 <= i < j < |types|
      ensures !IsSub(h, types[i], types[j]) && !IsSub(h, types[j], types[i])
    {
      assert handlers[i] in handlers && handlers[j] in handlers;
      assert handlers[i].inputType != handlers[j].inputType;
      var k :| 0 <= k < |members| && members[k] == types[i];
      var l :| 0 <= l < |members| && members[l] == types[j];
      assert k < l || l < k;
    }
  }

  // ------------------------------------------------------------------ multiple inheritance

  const TakesA := Agent("a", Some("A"), NoField, 0)
  const TakesB := Agent("b", Some("B"), NoField, 0)
  const Emitter := Agent("emitter", None, ListOf(["A", "B"]), 0)

  /** A source whose items are of class A or B, and a handler for each. */
  const Fork := AgentGroup("fork", [Emitter, TakesA, TakesB],
                           map[Emitter := [Edge([TakesA, TakesB], None, 1, None)], TakesA := [], TakesB := []])

  /** Class C inherits from both. */
  const Hybrid: Hierarchy := map["C" := {"A", "B"}]

  lemma ForkRoutes()
    ensures EdgesOf(Fork, Emitter) == [Edge([TakesA, TakesB], None, 1, None)]
    ensures Out(Fork, Emitter) == [TakesA, TakesB]
    ensures RoutingSound(Hybrid, Fork, Emitter) && RoutesByType(Fork, Emitter)
  {
    var es := [Edge([TakesA, TakesB], None, 1, None)];
    assert es[1..] == [];
    assert Targets(es) == [TakesA, TakesB];
    var handlers := [TakesA, TakesB];
    assert handlers[0] == TakesA && handlers[1] == TakesB;
    assert TakesA in handlers && TakesB in handlers;
    assert !IsSub(Hybrid, "A", "B") && !IsSub(Hybrid, "B", "A");
  }

  /** With multiple inheritance the validator accepts a source that delivers one item to both of its handlers. */
  lemma MultipleInheritanceDuplicates()
    ensures RoutingSound(Hybrid, Fork, Emitter) && RoutesByType(Fork, Emitter) && !SingleInheritance(Hybrid)
    ensures InputTypes(Out(Fork, Emitter)) == ["A", "B"]
    ensures DeliveredToAll(Hybrid, [Model("C", "", [])], ["A", "B"])[Model("C", "", [])] == 2
  {
    ForkRoutes();
    var m := Model("C", "", []);
    assert IsSub(Hybrid, "C", "A") && IsSub(Hybrid, "C", "B");
    assert !IsSub(Hybrid, "A", "B") && !IsSub(Hybrid, "B", "A");
    DeliveriesCount(Hybrid, [m], ["A", "B"], m);
    assert ["A", "B"][1..] == ["B"];
    assert Takers(Hybrid, ["B"], "C") == 1;
    assert multiset([m])[m] == 1;
  }
}
