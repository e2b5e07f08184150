/**
 One agent per conversation (crates/chisl-ai-agent/src/task_manager.rs).

 `WorkerTaskManager` holds the map from conversations to once-cells.  Its calls are then
 cut into the steps other callers can interleave with: a slot can be taken out of the map
 while callers still hold it and are building into it.
 */
module TaskManager {
  import opened Wrappers

  type ConvId = string
  type Instance = nat
  type CallerId = nat

  datatype AppError = BuildFailed | KillFailed

  // ------------------------------------------------------------------
  // The manager object
  // ------------------------------------------------------------------

  /** Holds at most one value; a failed initialisation leaves it empty. */
  class OnceCell {
    var value: Option<Instance>

    constructor ()
      ensures value == None
    {
      value := None;
    }

    method GetOrTryInit(outcome: Result<Instance, AppError>) returns (r: Result<Instance, AppError>)
      modifies this
      ensures old(value).Some? ==> value == old(value) && r == Success(value.value)
      ensures old(value).None? && outcome.Success? ==> value == Some(outcome.value) && r == outcome
      ensures old(value).None? && outcome.Failure? ==> value == None && r == outcome
    {
      if value.Some? {
        return Success(value.value);
      }
      if outcome.Success? {
        value := Some(outcome.value);
      }
      r := outcome;
    }
  }

  class WorkerTaskManager {
    var tasks: map<ConvId, OnceCell>
    var kills: seq<Instance>  // the agents whose kill was called, in order

    constructor ()
      ensures Valid() && View() == map[] && kills == [] && fresh(Cells())
    {
      tasks := map[];
      kills := [];
    }

    /** No two conversations share a cell. */
    ghost predicate Valid()
      reads this
    {
      forall a, b | a in tasks && b in tasks && tasks[a] == tasks[b] :: a == b
    }

    ghost function Cells(): set<object>
      reads this
    {
      set c | c in tasks :: tasks[c]
    }

    /** The conversations that have a slot, with what is in it. */
    ghost function View(): map<ConvId, Option<Instance>>
      reads this, Cells()
    {
      map c | c in tasks :: tasks[c].value
    }

    method GetTask(conv: ConvId) returns (r: Option<Instance>)
      ensures r == if conv in View() then View()[conv] else None
    {
      r := if conv in tasks then tasks[conv].value else None;
    }

    /** `outcome` is what the factory would return if it is called. */
    method GetOrBuildTask(conv: ConvId, outcome: Result<Instance, AppError>) returns (r: Result<Instance, AppError>)
      requires Valid()
      modifies this`tasks, Cells()
      ensures Valid() && fresh(Cells() - old(Cells()))
      ensures conv in View() && r == (if View()[conv].Some? then Success(View()[conv].value) else outcome)
      ensures View()[conv] ==
              if conv in old(View()) && old(View())[conv].Some? then old(View())[conv]
              else if outcome.Success? then Some(outcome.value) else None
      ensures View() - {conv} == old(View()) - {conv}
    {
      if conv !in tasks {
        var cell := new OnceCell();
        tasks := tasks[conv := cell];
      }
      r := tasks[conv].GetOrTryInit(outcome);
    }

    /** `killed` is what the agent's own kill returns if it is called. */
    method Kill(conv: ConvId, killed: Result<(), AppError>) returns (r: Result<(), AppError>)
      requires Valid()
      modifies this
      ensures Valid() && Cells() <= old(Cells())
      ensures View() == old(View()) - {conv}
      ensures var live := conv in old(View()) && old(View())[conv].Some?;
              && kills == old(kills) + (if live then [old(View())[conv].value] else [])
              && r == (if live then killed else Success(()))
    {
      r := Success(());
      if conv in tasks {
        var cell := tasks[conv];
        tasks := tasks - {conv};
        if cell.value.Some? {
          kills := kills + [cell.value.value];
          r := killed;
        }
      }
    }

    /** Empties the map and kills every agent in it, one call for each conversation that has one. */
    method Clear() returns (ghost order: seq<ConvId>)
      requires Valid()
      modifies this
      ensures Valid() && View() == map[]
      ensures Listing(old(View()), {}, order)
      ensures kills == old(kills) + Agents(old(View()), order)
      ensures forall c :: c in order <==> c in old(View()) && old(View())[c].Some?
      ensures |kills| == |old(kills)| + |order| && forall i | 0 <= i < |order| ::
                kills[|old(kills)| + i] == old(View())[order[i]].value
    {
      hide Listing, Agents, Kept;
      var keys := tasks.Keys;
      ghost var before := View();
      order := [];
      ListingStart(before);
      assert keys == before.Keys;
      while keys != {}
        invariant Valid() && keys <= before.Keys && View() == Kept(before, keys)
        invariant Listing(before, keys, order)
        invariant kills == old(kills) + Agents(before, order)
        decreases keys
      {
        var key :| key in keys;
        ListingStep(before, keys, order, key);
        KeptLess(before, keys, key);
        var ignored := Kill(key, Success(()));
        keys := keys - {key};
        if before[key].Some? {
          order := order + [key];
        }
      }
      NothingKept(before);
      AgentsAt(before, order);
    }

    method ActiveCount() returns (n: nat)
      ensures n == |set c | c in View() && View()[c].Some?|
    {
      n := 0;
      ghost var view := View();
      ghost var order: seq<ConvId> := [];
      var rest := tasks.Keys;
      while rest != {}
        invariant rest <= tasks.Keys
        invariant Listing(view, rest, order) && n == |order|
        decreases rest
      {
        var key :| key in rest;
        ListingStep(view, rest, order, key);
        rest := rest - {key};
        if tasks[key].value.Some? {
          n := n + 1;
          order := order + [key];
        }
      }
      ListingLength(view, order);
      assert view == View();
      assert Active(view) == set c | c in view && view[c].Some?;
    }
  }

  /** The conversations whose agent is built. */
  function Active(view: map<ConvId, Option<Instance>>): set<ConvId> {
    set c | c in view && view[c].Some?
  }

  function Kept(view: map<ConvId, Option<Instance>>, keys: set<ConvId>): map<ConvId, Option<Instance>> {
    map c | c in view && c in keys :: view[c]
  }

  /** One agent for each of these conversations, in order. */
  lemma {:induction false} AgentsAt(view: map<ConvId, Option<Instance>>, order: seq<ConvId>)
    requires Listing(view, {}, order)
    ensures forall c :: c in order <==> c in view && view[c].Some?
    ensures |Agents(view, order)| == |order|
    ensures forall i | 0 <= i < |order| :: Agents(view, order)[i] == view[order[i]].value
  {
    forall i | 0 <= i < |order| ensures order[i] in view && view[order[i]].Some? {
      assert order[i] in order;
    }
    AgentsOfAll(view, order);
  }

  lemma {:induction false} AgentsOfAll(view: map<ConvId, Option<Instance>>, order: seq<ConvId>)
    requires forall i | 0 <= i < |order| :: order[i] in view && view[order[i]].Some?
    ensures |Agents(view, order)| == |order|
    ensures forall i | 0 <= i < |order| :: Agents(view, order)[i] == view[order[i]].value
  {
    if order != [] {
      AgentsOfAll(view, order[..|order| - 1]);
    }
  }

  lemma ListingStart(view: map<ConvId, Option<Instance>>)
    ensures Listing(view, view.Keys, []) && Agents(view, []) == [] && Kept(view, view.Keys) == view
  {
  }

  lemma NothingKept(view: map<ConvId, Option<Instance>>)
    ensures Kept(view, {}) == map[]
  {
  }

  lemma KeptLess(view: map<ConvId, Option<Instance>>, keys: set<ConvId>, key: ConvId)
    ensures Kept(view, keys) - {key} == Kept(view, keys - {key})
    ensures key in keys && key in view ==> key in Kept(view, keys) && Kept(view, keys)[key] == view[key]
  {
  }

  /** `order` names every conversation outside `keys` whose agent is built, each once. */
  ghost predicate Listing(view: map<ConvId, Option<Instance>>, keys: set<ConvId>, order: seq<ConvId>) {
    && (forall c :: c in order <==> c in Active(view) && c !in keys)
    && (forall i, j | 0 <= i < j < |order| :: order[i] != order[j])
  }

  function Agents(view: map<ConvId, Option<Instance>>, order: seq<ConvId>): seq<Instance> {
    if order == [] then [] else Agents(view, order[..|order| - 1]) + AgentOf(view, order[|order| - 1])
  }

  function AgentOf(view: map<ConvId, Option<Instance>>, c: ConvId): seq<Instance> {
    if c in view && view[c].Some? then [view[c].value] else []
  }

  lemma ListingStep(view: map<ConvId, Option<Instance>>, keys: set<ConvId>, order: seq<ConvId>, key: ConvId)
    requires key in keys && keys <= view.Keys && Listing(view, keys, order)
    ensures view[key].None? ==> Listing(view, keys - {key}, order)
    ensures view[key].Some? ==> Listing(view, keys - {key}, order + [key])
    ensures view[key].Some? ==> Agents(view, order + [key]) == Agents(view, order) + [view[key].value]
  {
    assert (order + [key])[..|order|] == order;
  }

  lemma {:induction false} ListingLength(view: map<ConvId, Option<Instance>>, order: seq<ConvId>)
    requires Listing(view, {}, order)
    ensures |order| == |Active(view)|
  {
    DistinctLength(order);
    assert (set c | c in order) == Active(view);
  }

  lemma {:induction false} DistinctLength(order: seq<ConvId>)
    requires forall i, j | 0 <= i < j < |order| :: order[i] != order[j]
    ensures |set c | c in order| == |order|
  {
    if order != [] {
      var init := order[..|order| - 1];
      DistinctLength(init);
      assert (set c | c in order) == (set c | c in init) + {order[|order| - 1]};
    }
  }

  // ------------------------------------------------------------------
  // The same calls, cut where other callers may run
  // ------------------------------------------------------------------

  /** A slot keeps its identity after it has left the map. */
  datatype Slot = Slot(conv: ConvId, serial: nat)

  datatype Cell = Empty | Building(builder: CallerId) | Set(agent: Instance)

  /**
   Where a call stands.  `Remover` is kill, kill_and_wait (one key) or clear (a snapshot of keys);
   `held` is the slot it has taken out of the map and not yet looked into.
   */
  datatype Caller =
    | Waiting(slot: Slot)
    | Running(slot: Slot)                     // the factory call is in progress
    | Returned(slot: Slot, agent: Instance)
    | Errored(slot: Slot)
    | Remover(keys: seq<ConvId>, held: Option<Slot>)

  /** `builtIn`, `killed`, `early` and `abandoned` are history. */
  datatype State = State(
    tasks: map<ConvId, Slot>, cells: map<Slot, Cell>, callers: map<CallerId, Caller>,
    builtIn: map<Instance, Slot>,  // every agent the factory ever built, and the slot it was built into
    killed: multiset<Instance>,    // every call of an agent's kill
    early: set<Slot>,              // slots taken out of the map before their cell was set
    abandoned: set<Slot>)          // slots whose remover looked inside and found nothing to kill

  datatype Event =
    | Enter(c: CallerId, slot: Slot)           // the slot of the conversation, made on demand
    | Acquire(c: CallerId, slot: Slot)         // the cell is empty and free: start the factory
    | Observe(c: CallerId, slot: Slot, agent: Instance)
    | Succeed(c: CallerId, slot: Slot, agent: Instance)
    | Fail(c: CallerId, slot: Slot)
    | Cancel(c: CallerId)                      // the caller's future is dropped
    | StartRemoval(c: CallerId, keys: seq<ConvId>)
    | Remove(c: CallerId, conv: ConvId)
    | KillHeld(c: CallerId, slot: Slot)
    | EndRemoval(c: CallerId)

  predicate At(s: State, c: CallerId, at: Caller) {
    c in s.callers && s.callers[c] == at
  }

  predicate CellIs(s: State, slot: Slot, cell: Cell) {
    slot in s.cells && s.cells[slot] == cell
  }

  predicate Mapped(s: State, slot: Slot) {
    slot.conv in s.tasks && s.tasks[slot.conv] == slot
  }

  predicate IsSet(s: State, slot: Slot) {
    slot in s.cells && s.cells[slot].Set?
  }

  predicate Enabled(s: State, e: Event) {
    match e
    case Enter(c, slot) =>
      c !in s.callers && (if slot.conv in s.tasks then Mapped(s, slot) else slot !in s.cells)
    case Acquire(c, slot) => At(s, c, Waiting(slot)) && CellIs(s, slot, Empty)
    case Observe(c, slot, agent) => At(s, c, Waiting(slot)) && CellIs(s, slot, Set(agent))
    case Succeed(c, slot, agent) => At(s, c, Running(slot)) && agent !in s.builtIn
    case Fail(c, slot) => At(s, c, Running(slot))
    case Cancel(c) => c in s.callers && (s.callers[c].Waiting? || s.callers[c].Running?)
    case StartRemoval(c, keys) => c !in s.callers
    case Remove(c, conv) =>
      c in s.callers && s.callers[c].Remover? && s.callers[c].held == None && [conv] <= s.callers[c].keys
    case KillHeld(c, slot) => c in s.callers && s.callers[c].Remover? && s.callers[c].held == Some(slot)
    case EndRemoval(c) => At(s, c, Remover([], None))
  }

  function Apply(s: State, e: Event): State
    requires Enabled(s, e)
  {
    match e
    case Enter(c, slot) =>
      s.(tasks := s.tasks[slot.conv := slot],
         cells := if slot.conv in s.tasks then s.cells else s.cells[slot := Empty],
         callers := s.callers[c := Waiting(slot)])
    case Acquire(c, slot) =>
      s.(cells := s.cells[slot := Building(c)], callers := s.callers[c := Running(slot)])
    case Observe(c, slot, agent) => s.(callers := s.callers[c := Returned(slot, agent)])
    case Succeed(c, slot, agent) =>
      s.(cells := s.cells[slot := Set(agent)], callers := s.callers[c := Returned(slot, agent)],
         builtIn := s.builtIn[agent := slot])
    case Fail(c, slot) => s.(cells := s.cells[slot := Empty], callers := s.callers[c := Errored(slot)])
    case Cancel(c) =>
      s.(cells := if s.callers[c].Running? then s.cells[s.callers[c].slot := Empty] else s.cells,
         callers := s.callers - {c})
    case StartRemoval(c, keys) => s.(callers := s.callers[c := Remover(keys, None)])
    case Remove(c, conv) =>
      var rest := s.callers[c].keys[1..];
      if conv in s.tasks then
        s.(tasks := s.tasks - {conv},
           callers := s.callers[c := Remover(rest, Some(s.tasks[conv]))],
           early := if IsSet(s, s.tasks[conv]) then s.early else s.early + {s.tasks[conv]})
      else
        s.(callers := s.callers[c := Remover(rest, None)])
    case KillHeld(c, slot) =>
      s.(callers := s.callers[c := Remover(s.callers[c].keys, None)],
         killed := if IsSet(s, slot) then s.killed + multiset{s.cells[slot].agent} else s.killed,
         abandoned := if IsSet(s, slot) then s.abandoned else s.abandoned + {slot})
    case EndRemoval(c) => s.(callers := s.callers - {c})
  }

  const INIT := State(map[], map[], map[], map[], multiset{}, {}, {})

  /** States a run goes through: it starts at INIT and every event is enabled where it occurs. */
  ghost predicate Execution(ss: seq<State>, es: seq<Event>) {
    && |ss| == |es| + 1 && ss[0] == INIT
    && forall i | 0 <= i < |es| :: Enabled(ss[i], es[i]) && ss[i + 1] == Apply(ss[i], es[i])
  }

  // ------------------------------------------------------------------
  // Run without interruption, the steps are the methods of `WorkerTaskManager`
  // ------------------------------------------------------------------

  ghost predicate Reaches(s: State, es: seq<Event>, s': State)
    decreases |es|
  {
    if es == [] then s == s' else Enabled(s, es[0]) && Reaches(Apply(s, es[0]), es[1..], s')
  }

  lemma ReachesFirst(s: State, e: Event, es: seq<Event>, s': State)
    requires Enabled(s, e) && Reaches(Apply(s, e), es, s')
    ensures Reaches(s, [e] + es, s')
  {
    assert ([e] + es)[1..] == es;
  }

  ghost function ViewOf(s: State): map<ConvId, Option<Instance>>
    requires forall conv | conv in s.tasks :: s.tasks[conv] in s.cells
  {
    map conv | conv in s.tasks :: if s.cells[s.tasks[conv]].Set? then Some(s.cells[s.tasks[conv]].agent) else None
  }

  /** The agents killed by removing these conversations one after the other. */
  function KillBag(s: State, keys: seq<ConvId>): multiset<Instance> {
    if keys == [] then multiset{} else
    (if keys[0] in s.tasks && IsSet(s, s.tasks[keys[0]]) then multiset{s.cells[s.tasks[keys[0]]].agent} else multiset{})
    + KillBag(s, keys[1..])
  }

  lemma {:induction false} KillBagSame(s: State, m: State, keys: seq<ConvId>)
    requires m.cells == s.cells && forall k | k in keys :: Slots(m, k) == Slots(s, k)
    ensures KillBag(m, keys) == KillBag(s, keys)
  {
    if keys != [] {
      assert Slots(m, keys[0]) == Slots(s, keys[0]);
      KillBagSame(s, m, keys[1..]);
    }
  }

  function Slots(s: State, conv: ConvId): Option<Slot> {
    if conv in s.tasks then Some(s.tasks[conv]) else None
  }

  lemma {:induction false} KillBagIsAgents(s: State, keys: seq<ConvId>)
    requires forall k | k in s.tasks :: s.tasks[k] in s.cells
    ensures KillBag(s, keys) == multiset(Agents(ViewOf(s), keys))
  {
    if keys != [] {
      KillBagIsAgents(s, keys[1..]);
      AgentsFirst(ViewOf(s), keys);
    }
  }

  lemma {:induction false} AgentsConcat(view: map<ConvId, Option<Instance>>, a: seq<ConvId>, b: seq<ConvId>)
    ensures Agents(view, a + b) == Agents(view, a) + Agents(view, b)
  {
    if b == [] {
      assert a + b == a;
    } else {
      assert (a + b)[..|a + b| - 1] == a + b[..|b| - 1];
      AgentsConcat(view, a, b[..|b| - 1]);
    }
  }

  lemma AgentsFirst(view: map<ConvId, Option<Instance>>, keys: seq<ConvId>)
    requires keys != []
    ensures Agents(view, keys) == AgentOf(view, keys[0]) + Agents(view, keys[1..])
  {
    AgentsConcat(view, [keys[0]], keys[1..]);
    assert [keys[0]] + keys[1..] == keys && [keys[0]][..0] == [];
  }

  /** One key of a removal: taken out and, if it was there, looked into. */
  lemma RemoveOne(s: State, c: CallerId, keys: seq<ConvId>) returns (es: seq<Event>, m: State)
    requires At(s, c, Remover(keys, None)) && keys != []
    ensures At(m, c, Remover(keys[1..], None)) && m.callers - {c} == s.callers - {c}
    ensures m.tasks == s.tasks - {keys[0]} && m.cells == s.cells
    ensures m.killed + KillBag(s, keys[1..]) == s.killed + KillBag(s, keys)
    ensures forall rest, s' :: Reaches(m, rest, s') ==> Reaches(s, es + rest, s')
  {
    hide Reaches;
    var first := Remove(c, keys[0]);
    m := Apply(s, first);
    es := [first];
    if keys[0] in s.tasks {
      var second := KillHeld(c, s.tasks[keys[0]]);
      var m' := Apply(m, second);
      forall rest, s' | Reaches(m', rest, s') ensures Reaches(s, [first, second] + rest, s') {
        ReachesFirst(m, second, rest, s');
        ReachesFirst(s, first, [second] + rest, s');
        assert [first] + ([second] + rest) == [first, second] + rest;
      }
      es, m := [first, second], m';
    } else {
      forall rest, s' | Reaches(m, rest, s') ensures Reaches(s, [first] + rest, s') {
        ReachesFirst(s, first, rest, s');
      }
    }
  }

  function Without(tasks: map<ConvId, Slot>, keys: seq<ConvId>): map<ConvId, Slot> {
    if keys == [] then tasks else Without(tasks - {keys[0]}, keys[1..])
  }

  lemma {:induction false} NothingLeft(tasks: map<ConvId, Slot>, keys: seq<ConvId>)
    requires forall k | k in tasks :: k in keys
    ensures Without(tasks, keys) == map[]
  {
    if keys != [] {
      NothingLeft(tasks - {keys[0]}, keys[1..]);
    }
  }

  lemma KillBagRest(s: State, m: State, keys: seq<ConvId>)
    requires keys != [] && m.cells == s.cells && m.tasks == s.tasks - {keys[0]}
    requires forall i, j | 0 <= i < j < |keys| :: keys[i] != keys[j]
    ensures KillBag(m, keys[1..]) == KillBag(s, keys[1..])
  {
    KillBagSame(s, m, keys[1..]);
  }

  lemma {:induction false} RemoveAll(s: State, c: CallerId, keys: seq<ConvId>) returns (es: seq<Event>, s': State)
    requires At(s, c, Remover(keys, None)) && forall i, j | 0 <= i < j < |keys| :: keys[i] != keys[j]
    ensures Reaches(s, es, s') && s'.callers == s.callers - {c} && s'.cells == s.cells
    ensures s'.tasks == Without(s.tasks, keys) && s'.killed == s.killed + KillBag(s, keys)
    decreases |keys|
  {
    if keys == [] {
      es, s' := [EndRemoval(c)] + [], Apply(s, EndRemoval(c));
      ReachesFirst(s, EndRemoval(c), [], s');
    } else {
      var first, m := RemoveOne(s, c, keys);
      var rest;
      rest, s' := RemoveAll(m, c, keys[1..]);
      es := first + rest;
      KillBagRest(s, m, keys);
    }
  }

  /** An uninterrupted clear, its keys taken from the map in any order, does what `Clear` ensures. */
  lemma UninterruptedClear(s: State, c: CallerId, keys: seq<ConvId>) returns (es: seq<Event>, s': State)
    requires c !in s.callers && forall k | k in s.tasks :: s.tasks[k] in s.cells
    requires (forall k :: k in keys <==> k in s.tasks) && forall i, j | 0 <= i < j < |keys| :: keys[i] != keys[j]
    ensures Reaches(s, es, s') && s'.tasks == map[] && s'.cells == s.cells && s'.callers == s.callers
    ensures s'.killed == s.killed + multiset(Agents(ViewOf(s), keys))
  {
    es, s' := RemovalRuns(s, c, keys);
    KillBagOfView(s, Apply(s, StartRemoval(c, keys)), keys);
    NothingLeft(s.tasks, keys);
  }

  lemma KillBagOfView(s: State, m: State, keys: seq<ConvId>)
    requires m.tasks == s.tasks && m.cells == s.cells && forall k | k in s.tasks :: s.tasks[k] in s.cells
    ensures KillBag(m, keys) == multiset(Agents(ViewOf(s), keys))
  {
    KillBagSame(s, m, keys);
    KillBagIsAgents(s, keys);
  }

  /** An uninterrupted removal of some keys, from the moment its snapshot is taken. */
  lemma RemovalRuns(s: State, c: CallerId, keys: seq<ConvId>) returns (es: seq<Event>, s': State)
    requires c !in s.callers && forall i, j | 0 <= i < j < |keys| :: keys[i] != keys[j]
    ensures Reaches(s, es, s') && s'.callers == s.callers && s'.cells == s.cells
    ensures s'.tasks == Without(s.tasks, keys)
    ensures s'.killed == s.killed + KillBag(Apply(s, StartRemoval(c, keys)), keys)
  {
    var m := Apply(s, StartRemoval(c, keys));
    es, s' := RemoveAll(m, c, keys);
    ReachesFirst(s, StartRemoval(c, keys), es, s');
    es := [StartRemoval(c, keys)] + es;
    assert m.callers - {c} == s.callers;
  }

  /** An uninterrupted kill of any conversation, with a slot or without, does what `Kill` ensures. */
  lemma UninterruptedKill(s: State, c: CallerId, conv: ConvId) returns (es: seq<Event>, s': State)
    requires c !in s.callers && forall k | k in s.tasks :: s.tasks[k] in s.cells
    ensures Reaches(s, es, s') && s'.callers == s.callers && s'.cells == s.cells
    ensures s'.tasks == s.tasks - {conv} && ViewOf(s') == ViewOf(s) - {conv}
    ensures s'.killed == s.killed + multiset(AgentOf(ViewOf(s), conv))
  {
    hide Reaches, KillBag, Agents;
    es, s' := RemovalRuns(s, c, [conv]);
    KillBagOfView(s, Apply(s, StartRemoval(c, [conv])), [conv]);
    AgentsOfOne(ViewOf(s), conv);
    assert [conv][1..] == [];
  }

  lemma AgentsOfOne(view: map<ConvId, Option<Instance>>, conv: ConvId)
    ensures Agents(view, [conv]) == AgentOf(view, conv)
  {
    assert [conv][..0] == [];
  }

  function BuiltState(s: State, c: CallerId, slot: Slot, agent: Instance): State {
    s.(tasks := s.tasks[slot.conv := slot], cells := s.cells[slot := Set(agent)],
       callers := s.callers[c := Returned(slot, agent)], builtIn := s.builtIn[agent := slot])
  }

  function FailedState(s: State, c: CallerId, slot: Slot): State {
    s.(tasks := s.tasks[slot.conv := slot], cells := s.cells[slot := Empty], callers := s.callers[c := Errored(slot)])
  }

  /** The factory has been started for an empty or missing slot. */
  function Begun(s: State, c: CallerId, slot: Slot): State {
    s.(tasks := s.tasks[slot.conv := slot], cells := s.cells[slot := Building(c)],
       callers := s.callers[c := Running(slot)])
  }

  predicate CanBegin(s: State, c: CallerId, slot: Slot) {
    && Enabled(s, Enter(c, slot)) && (slot in s.cells ==> s.cells[slot].Empty?)
    && (slot.conv in s.tasks ==> slot in s.cells)
  }

  lemma BuildBegins(s: State, c: CallerId, slot: Slot)
    requires CanBegin(s, c, slot)
    ensures Enabled(s, Enter(c, slot)) && Enabled(Apply(s, Enter(c, slot)), Acquire(c, slot))
    ensures Apply(Apply(s, Enter(c, slot)), Acquire(c, slot)) == Begun(s, c, slot)
  {
    var s2 := Apply(Apply(s, Enter(c, slot)), Acquire(c, slot));
    assert s2.cells == Begun(s, c, slot).cells && s2.callers == Begun(s, c, slot).callers;
  }

  lemma BuildFails(s: State, c: CallerId, slot: Slot)
    ensures Enabled(Begun(s, c, slot), Fail(c, slot))
    ensures Apply(Begun(s, c, slot), Fail(c, slot)) == FailedState(s, c, slot)
  {
    assert s.cells[slot := Building(c)][slot := Empty] == s.cells[slot := Empty];
    assert s.callers[c := Running(slot)][c := Errored(slot)] == s.callers[c := Errored(slot)];
  }

  lemma BuildSucceeds(s: State, c: CallerId, slot: Slot, agent: Instance)
    requires agent !in s.builtIn
    ensures Enabled(Begun(s, c, slot), Succeed(c, slot, agent))
    ensures Apply(Begun(s, c, slot), Succeed(c, slot, agent)) == BuiltState(s, c, slot, agent)
  {
    assert s.cells[slot := Building(c)][slot := Set(agent)] == s.cells[slot := Set(agent)];
    assert s.callers[c := Running(slot)][c := Returned(slot, agent)] == s.callers[c := Returned(slot, agent)];
  }

  lemma BuildRuns(s: State, c: CallerId, slot: Slot, end: Event)
    requires CanBegin(s, c, slot) && Enabled(Begun(s, c, slot), end)
    ensures Reaches(s, [Enter(c, slot)] + ([Acquire(c, slot)] + ([end] + [])), Apply(Begun(s, c, slot), end))
  {
    hide CanBegin, Enabled, Apply, Begun;
    BuildBegins(s, c, slot);
    var s', s1 := Apply(Begun(s, c, slot), end), Apply(s, Enter(c, slot));
    ReachesFirst(Begun(s, c, slot), end, [], s');
    ReachesFirst(s1, Acquire(c, slot), [end] + [], s');
    ReachesFirst(s, Enter(c, slot), [Acquire(c, slot)] + ([end] + []), s');
  }

  lemma OnlyThisSlotChanges(s: State, c: CallerId, slot: Slot, agent: Instance, conv: ConvId)
    requires conv != slot.conv && (conv in s.tasks ==> s.tasks[conv].conv == conv)
    ensures Lookup(BuiltState(s, c, slot, agent), conv) == Lookup(s, conv) == Lookup(FailedState(s, c, slot), conv)
  {
  }

  /** So does an uninterrupted build: an empty or missing slot ends up mapped and set to the agent built. */
  lemma UninterruptedBuild(s: State, c: CallerId, slot: Slot, agent: Instance)
    requires CanBegin(s, c, slot) && agent !in s.builtIn
    ensures Reaches(s, [Enter(c, slot)] + ([Acquire(c, slot)] + ([Succeed(c, slot, agent)] + [])),
                    BuiltState(s, c, slot, agent))
    ensures Lookup(BuiltState(s, c, slot, agent), slot.conv) == Some(agent)
    ensures forall conv :: conv != slot.conv && (conv in s.tasks ==> s.tasks[conv].conv == conv) ==>
              Lookup(BuiltState(s, c, slot, agent), conv) == Lookup(s, conv)
  {
    hide CanBegin, Enabled, Apply, Begun, Reaches;
    BuildSucceeds(s, c, slot, agent);
    BuildRuns(s, c, slot, Succeed(c, slot, agent));
    forall conv | conv != slot.conv && (conv in s.tasks ==> s.tasks[conv].conv == conv)
      ensures Lookup(BuiltState(s, c, slot, agent), conv) == Lookup(s, conv)
    {
      OnlyThisSlotChanges(s, c, slot, agent, conv);
    }
  }

  /** An uninterrupted build whose factory fails leaves a slot, but no agent, and the caller its error. */
  lemma UninterruptedFailedBuild(s: State, c: CallerId, slot: Slot)
    requires CanBegin(s, c, slot)
    ensures Reaches(s, [Enter(c, slot)] + ([Acquire(c, slot)] + ([Fail(c, slot)] + [])), FailedState(s, c, slot))
    ensures Lookup(FailedState(s, c, slot), slot.conv) == None
    ensures forall conv :: conv != slot.conv && (conv in s.tasks ==> s.tasks[conv].conv == conv) ==>
              Lookup(FailedState(s, c, slot), conv) == Lookup(s, conv)
  {
    hide CanBegin, Enabled, Apply, Begun, Reaches;
    BuildFails(s, c, slot);
    BuildRuns(s, c, slot, Fail(c, slot));
    forall conv | conv != slot.conv && (conv in s.tasks ==> s.tasks[conv].conv == conv)
      ensures Lookup(FailedState(s, c, slot), conv) == Lookup(s, conv)
    {
      OnlyThisSlotChanges(s, c, slot, 0, conv);
    }
  }

  /** A call that finds its slot set returns that agent, builds nothing and leaves all else as it was. */
  lemma UninterruptedLookup(s: State, c: CallerId, slot: Slot, agent: Instance)
    requires c !in s.callers && Mapped(s, slot) && CellIs(s, slot, Set(agent))
    ensures Reaches(s, [Enter(c, slot)] + ([Observe(c, slot, agent)] + []),
                    s.(callers := s.callers[c := Returned(slot, agent)]))
  {
    var s' := s.(callers := s.callers[c := Returned(slot, agent)]);
    var s1 := Apply(s, Enter(c, slot));
    assert s.tasks[slot.conv := slot] == s.tasks;
    assert s1.callers[c := Returned(slot, agent)] == s'.callers;
    ReachesFirst(s1, Observe(c, slot, agent), [], s');
    ReachesFirst(s, Enter(c, slot), [Observe(c, slot, agent)] + [], s');
  }

  // ------------------------------------------------------------------
  // What every step keeps
  // ------------------------------------------------------------------

  predicate HeldBy(s: State, slot: Slot, c: CallerId) {
    c in s.callers && s.callers[c].Remover? && s.callers[c].held == Some(slot)
  }

  ghost predicate Held(s: State, slot: Slot) {
    exists c :: HeldBy(s, slot, c)
  }

  /** The factory runs for a slot exactly when one caller, the one the cell names, is running it. */
  ghost predicate FlightInv(s: State) {
    && (forall slot, c :: CellIs(s, slot, Building(c)) <==> At(s, c, Running(slot)))
    && (forall slot, agent :: CellIs(s, slot, Set(agent)) <==> agent in s.builtIn && s.builtIn[agent] == slot)
    && (forall c | c in s.callers && (s.callers[c].Waiting? || s.callers[c].Errored?) :: s.callers[c].slot in s.cells)
    && (forall c | c in s.callers && s.callers[c].Returned? ::
          CellIs(s, s.callers[c].slot, Set(s.callers[c].agent)))
  }

  ghost predicate MapInv(s: State) {
    && (forall conv | conv in s.tasks :: s.tasks[conv].conv == conv && s.tasks[conv] in s.cells)
    && (forall slot, c | HeldBy(s, slot, c) :: slot in s.cells && !Mapped(s, slot))
    && (forall slot, c, d | HeldBy(s, slot, c) && HeldBy(s, slot, d) :: c == d)
    && (forall slot | slot in s.early :: slot in s.cells && !Mapped(s, slot))
    && (forall slot | slot in s.cells && !IsSet(s, slot) :: Mapped(s, slot) || slot in s.early)
    && (forall slot | slot in s.abandoned :: slot in s.early && !Held(s, slot))
  }

  /** Every slot is in the map, in a remover's hands, killed, or abandoned; the killed ones are nowhere else. */
  ghost predicate FateInv(s: State) {
    && (forall slot | slot in s.cells :: Accounted(s, slot))
    && (forall agent | agent in s.killed ::
          s.killed[agent] == 1 && agent in s.builtIn && Removed(s, s.builtIn[agent]))
  }

  ghost predicate Accounted(s: State, slot: Slot) {
    Mapped(s, slot) || Held(s, slot) || slot in s.abandoned || (IsSet(s, slot) && s.cells[slot].agent in s.killed)
  }

  ghost predicate Removed(s: State, slot: Slot) {
    !Mapped(s, slot) && !Held(s, slot) && slot !in s.abandoned && IsSet(s, slot)
  }

  ghost predicate Inv(s: State) {
    FlightInv(s) && MapInv(s) && FateInv(s)
  }

  /** What the builder of one slot and the caller that acts must know of it. */
  lemma BuilderStep(s: State, e: Event, slot: Slot, c: CallerId)
    requires Enabled(s, e) && (CellIs(s, slot, Building(c)) <==> At(s, c, Running(slot)))
    requires CellIs(s, slot, Building(e.c)) <==> At(s, e.c, Running(slot))
    ensures CellIs(Apply(s, e), slot, Building(c)) <==> At(Apply(s, e), c, Running(slot))
  {
  }

  lemma BuildingStep(s: State, e: Event, slot: Slot, c: CallerId)
    requires FlightInv(s) && MapInv(s) && Enabled(s, e)
    ensures CellIs(Apply(s, e), slot, Building(c)) <==> At(Apply(s, e), c, Running(slot))
  {
    hide MapInv, Enabled, Apply;
    assert CellIs(s, slot, Building(c)) <==> At(s, c, Running(slot));
    assert CellIs(s, slot, Building(e.c)) <==> At(s, e.c, Running(slot));
    BuilderStep(s, e, slot, c);
  }

  lemma SetStep(s: State, e: Event, slot: Slot, agent: Instance)
    requires FlightInv(s) && MapInv(s) && Enabled(s, e)
    ensures CellIs(s, slot, Set(agent)) ==> CellIs(Apply(s, e), slot, Set(agent))
    ensures CellIs(Apply(s, e), slot, Set(agent)) <==>
            agent in Apply(s, e).builtIn && Apply(s, e).builtIn[agent] == slot
  {
    assert CellIs(s, slot, Set(agent)) <==> agent in s.builtIn && s.builtIn[agent] == slot;
    assert CellIs(s, slot, Building(e.c)) <==> At(s, e.c, Running(slot));
    if e.Cancel? && s.callers[e.c].Running? {
      assert CellIs(s, s.callers[e.c].slot, Building(e.c)) <==> At(s, e.c, s.callers[e.c]);
    }
  }

  lemma ReturnedStep(s: State, e: Event, c: CallerId)
    requires FlightInv(s) && MapInv(s) && Enabled(s, e) && c in Apply(s, e).callers && Apply(s, e).callers[c].Returned?
    ensures CellIs(Apply(s, e), Apply(s, e).callers[c].slot, Set(Apply(s, e).callers[c].agent))
  {
    var caller := Apply(s, e).callers[c];
    SetStep(s, e, caller.slot, caller.agent);
    if c in s.callers && s.callers[c] == caller {
      assert CellIs(s, caller.slot, Set(caller.agent));
    }
  }

  lemma WaitingStep(s: State, e: Event, c: CallerId)
    requires FlightInv(s) && MapInv(s) && Enabled(s, e) && c in Apply(s, e).callers
    requires Apply(s, e).callers[c].Waiting? || Apply(s, e).callers[c].Errored?
    ensures Apply(s, e).callers[c].slot in Apply(s, e).cells
  {
    var slot := Apply(s, e).callers[c].slot;
    CellsStay(s, e, slot);
    assert CellIs(s, slot, Building(e.c)) <==> At(s, e.c, Running(slot));
  }

  lemma StepKeepsFlight(s: State, e: Event)
    requires FlightInv(s) && MapInv(s) && Enabled(s, e)
    ensures FlightInv(Apply(s, e))
  {
    hide Apply, Enabled, CellIs, At, MapInv;
    var s' := Apply(s, e);
    forall slot, c ensures CellIs(s', slot, Building(c)) <==> At(s', c, Running(slot)) {
      BuildingStep(s, e, slot, c);
    }
    forall slot, agent
      ensures CellIs(s', slot, Set(agent)) <==> agent in s'.builtIn && s'.builtIn[agent] == slot
    {
      SetStep(s, e, slot, agent);
    }
    forall c | c in s'.callers && s'.callers[c].Returned?
      ensures CellIs(s', s'.callers[c].slot, Set(s'.callers[c].agent))
    {
      ReturnedStep(s, e, c);
    }
    forall c | c in s'.callers && (s'.callers[c].Waiting? || s'.callers[c].Errored?)
      ensures s'.callers[c].slot in s'.cells
    {
      WaitingStep(s, e, c);
    }
  }

  /** Cells are made on entry only, and are never dropped. */
  lemma CellsStay(s: State, e: Event, slot: Slot)
    requires FlightInv(s) && MapInv(s) && Enabled(s, e)
    ensures slot in Apply(s, e).cells <==> slot in s.cells || (e.Enter? && e.slot == slot)
  {
    assert CellIs(s, slot, Building(e.c)) <==> At(s, e.c, Running(slot));
    if e.Cancel? && s.callers[e.c].Running? {
      assert CellIs(s, s.callers[e.c].slot, Building(e.c)) <==> At(s, e.c, s.callers[e.c]);
    }
  }

  /** A slot is taken into a remover's hands only out of the map, and goes into the map only when made. */
  lemma HeldStep(s: State, e: Event, slot: Slot, c: CallerId)
    requires MapInv(s) && Enabled(s, e)
    ensures HeldBy(Apply(s, e), slot, c) <==>
            (HeldBy(s, slot, c) && e != KillHeld(c, slot)) || (e == Remove(c, slot.conv) && Mapped(s, slot))
  {
  }

  lemma MappedStep(s: State, e: Event, slot: Slot)
    requires MapInv(s) && Enabled(s, e)
    ensures Mapped(Apply(s, e), slot) <==>
            (Mapped(s, slot) && !(e.Remove? && e.conv == slot.conv)) || (e.Enter? && e.slot == slot)
  {
  }

  lemma StillAbandoned(s: State, e: Event, slot: Slot)
    requires MapInv(s) && Enabled(s, e) && slot in Apply(s, e).abandoned
    ensures slot in Apply(s, e).early && !Held(Apply(s, e), slot)
  {
    if slot !in s.abandoned {
      assert HeldBy(s, slot, e.c);
    }
    forall c ensures !HeldBy(Apply(s, e), slot, c) {
      HeldStep(s, e, slot, c);
    }
  }

  lemma TasksStep(s: State, e: Event, conv: ConvId)
    requires FlightInv(s) && MapInv(s) && Enabled(s, e) && conv in Apply(s, e).tasks
    ensures Apply(s, e).tasks[conv].conv == conv && Apply(s, e).tasks[conv] in Apply(s, e).cells
  {
    CellsStay(s, e, Apply(s, e).tasks[conv]);
  }

  lemma HeldOnce(s: State, e: Event, slot: Slot, c: CallerId, d: CallerId)
    requires FlightInv(s) && MapInv(s) && Enabled(s, e) && HeldBy(Apply(s, e), slot, c) && HeldBy(Apply(s, e), slot, d)
    ensures slot in Apply(s, e).cells && !Mapped(Apply(s, e), slot) && c == d
  {
    HeldStep(s, e, slot, c);
    HeldStep(s, e, slot, d);
    MappedStep(s, e, slot);
    CellsStay(s, e, slot);
  }

  lemma EarlyStep(s: State, e: Event, slot: Slot)
    requires FlightInv(s) && MapInv(s) && Enabled(s, e)
    ensures var s' := Apply(s, e);
            && (slot in s'.early ==> slot in s'.cells && !Mapped(s', slot))
            && (slot in s'.cells && !IsSet(s', slot) ==> Mapped(s', slot) || slot in s'.early)
  {
    MappedStep(s, e, slot);
    CellsStay(s, e, slot);
    if IsSet(s, slot) {
      SetStep(s, e, slot, s.cells[slot].agent);
      assert CellIs(s, slot, Set(s.cells[slot].agent));
    }
  }

  lemma StepKeepsMap(s: State, e: Event)
    requires FlightInv(s) && MapInv(s) && Enabled(s, e)
    ensures MapInv(Apply(s, e))
  {
    hide Apply, Enabled, HeldBy, Held, Mapped, IsSet, FlightInv;
    var s' := Apply(s, e);
    forall conv | conv in s'.tasks ensures s'.tasks[conv].conv == conv && s'.tasks[conv] in s'.cells {
      TasksStep(s, e, conv);
    }
    forall slot, c, d | HeldBy(s', slot, c) && HeldBy(s', slot, d)
      ensures slot in s'.cells && !Mapped(s', slot) && c == d
    {
      HeldOnce(s, e, slot, c, d);
    }
    forall slot
      ensures slot in s'.early ==> slot in s'.cells && !Mapped(s', slot)
      ensures slot in s'.cells && !IsSet(s', slot) ==> Mapped(s', slot) || slot in s'.early
    {
      EarlyStep(s, e, slot);
    }
    forall slot | slot in s'.abandoned ensures slot in s'.early && !Held(s', slot) {
      StillAbandoned(s, e, slot);
    }
  }

  lemma StepKeepsFate(s: State, e: Event)
    requires Inv(s) && Enabled(s, e)
    ensures FateInv(Apply(s, e))
  {
    var s' := Apply(s, e);
    forall slot | slot in s'.cells ensures Accounted(s', slot) {
      AccountedStep(s, e, slot);
    }
    forall agent | agent in s'.killed
      ensures s'.killed[agent] == 1 && agent in s'.builtIn && Removed(s', s'.builtIn[agent])
    {
      KilledStep(s, e, agent);
    }
  }

  /** A kill is called by a remover that finds its slot set, and by nothing else. */
  lemma KilledCount(s: State, e: Event, agent: Instance)
    requires Enabled(s, e)
    ensures Apply(s, e).killed[agent] ==
            s.killed[agent] + if e.KillHeld? && CellIs(s, e.slot, Set(agent)) then 1 else 0
  {
  }

  /** A held slot stays in its remover's hands until it is looked into. */
  lemma HeldSlotAccounted(s: State, e: Event, slot: Slot, c: CallerId)
    requires MapInv(s) && Enabled(s, e) && HeldBy(s, slot, c)
    ensures Accounted(Apply(s, e), slot)
  {
    HeldStep(s, e, slot, c);
    if e == KillHeld(c, slot) && IsSet(s, slot) {
      KilledCount(s, e, s.cells[slot].agent);
    }
  }

  lemma KilledSlotAccounted(s: State, e: Event, slot: Slot)
    requires Inv(s) && Enabled(s, e) && IsSet(s, slot) && s.cells[slot].agent in s.killed
    ensures Accounted(Apply(s, e), slot)
  {
    SetStep(s, e, slot, s.cells[slot].agent);
    KilledCount(s, e, s.cells[slot].agent);
  }

  lemma MappedSlotAccounted(s: State, e: Event, slot: Slot)
    requires MapInv(s) && Enabled(s, e) && Mapped(s, slot)
    ensures Accounted(Apply(s, e), slot)
  {
    MappedStep(s, e, slot);
    if e.Remove? {
      HeldStep(s, e, slot, e.c);
    }
  }

  lemma AccountedStep(s: State, e: Event, slot: Slot)
    requires Inv(s) && Enabled(s, e) && slot in Apply(s, e).cells
    ensures Accounted(Apply(s, e), slot)
  {
    CellsStay(s, e, slot);
    if slot !in s.cells {
      MappedStep(s, e, slot);
    } else if Mapped(s, slot) {
      MappedSlotAccounted(s, e, slot);
    } else if c :| HeldBy(s, slot, c) {
      HeldSlotAccounted(s, e, slot, c);
    } else if slot !in s.abandoned {
      assert Accounted(s, slot);
      KilledSlotAccounted(s, e, slot);
    }
  }

  /** Only a remover that finds its slot unset abandons it. */
  lemma AbandonedStep(s: State, e: Event, slot: Slot)
    requires Enabled(s, e) && slot in Apply(s, e).abandoned
    ensures slot in s.abandoned || !IsSet(s, slot)
  {
  }

  /** A slot that has been made is not made again. */
  lemma NotEntered(s: State, e: Event, slot: Slot)
    requires Enabled(s, e) && slot in s.cells && !Mapped(s, slot)
    ensures !(e.Enter? && e.slot == slot)
  {
  }

  /** A slot out of the map and out of everybody's hands, with its agent in it, stays so. */
  lemma StaysRemoved(s: State, e: Event, slot: Slot)
    requires Inv(s) && Enabled(s, e) && Removed(s, slot)
    ensures Removed(Apply(s, e), slot)
  {
    hide Apply, Enabled, HeldBy, Mapped, FlightInv, MapInv;
    assert CellIs(s, slot, Set(s.cells[slot].agent));
    SetStep(s, e, slot, s.cells[slot].agent);
    NotEntered(s, e, slot);
    MappedStep(s, e, slot);
    forall c ensures !HeldBy(Apply(s, e), slot, c) {
      HeldStep(s, e, slot, c);
    }
    if slot in Apply(s, e).abandoned {
      AbandonedStep(s, e, slot);
    }
  }

  lemma BecomesRemoved(s: State, e: Event)
    requires Inv(s) && Enabled(s, e) && e.KillHeld? && IsSet(s, e.slot)
    ensures Removed(Apply(s, e), e.slot)
  {
    assert HeldBy(s, e.slot, e.c);
    MappedStep(s, e, e.slot);
    forall c ensures !HeldBy(Apply(s, e), e.slot, c) {
      HeldStep(s, e, e.slot, c);
    }
  }

  lemma KilledStep(s: State, e: Event, agent: Instance)
    requires Inv(s) && Enabled(s, e) && agent in Apply(s, e).killed
    ensures agent in Apply(s, e).builtIn && Removed(Apply(s, e), Apply(s, e).builtIn[agent])
    ensures Apply(s, e).killed[agent] == 1
  {
    KilledCount(s, e, agent);
    if agent in s.killed {
      var slot := s.builtIn[agent];
      assert CellIs(s, slot, Set(agent)) && Removed(s, slot);
      SetStep(s, e, slot, agent);
      StaysRemoved(s, e, slot);
      // The slot is in nobody's hands any more, so it is not the one this event kills.
      assert e.KillHeld? && CellIs(s, e.slot, Set(agent)) ==> e.slot == slot && HeldBy(s, slot, e.c);
    } else {
      SetStep(s, e, e.slot, agent);
      BecomesRemoved(s, e);
    }
  }

  lemma {:induction false} ReachableInv(ss: seq<State>, es: seq<Event>, i: nat)
    requires Execution(ss, es) && i < |ss|
    ensures Inv(ss[i])
  {
    if i > 0 {
      ReachableInv(ss, es, i - 1);
      StepKeepsFlight(ss[i - 1], es[i - 1]);
      StepKeepsMap(ss[i - 1], es[i - 1]);
      StepKeepsFate(ss[i - 1], es[i - 1]);
    }
  }

  // ------------------------------------------------------------------
  // Conservation: where every agent ever built is
  // ------------------------------------------------------------------

  /** What `get_task` returns. */
  function Lookup(s: State, conv: ConvId): Option<Instance> {
    if conv in s.tasks && IsSet(s, s.tasks[conv]) then Some(s.cells[s.tasks[conv]].agent) else None
  }

  ghost predicate InMap(s: State, agent: Instance) {
    exists conv :: Lookup(s, conv) == Some(agent)
  }

  ghost predicate Lost(s: State, agent: Instance) {
    agent in s.builtIn && !InMap(s, agent) && agent !in s.killed
  }

  lemma InMapIffMapped(s: State, agent: Instance)
    requires Inv(s) && agent in s.builtIn
    ensures InMap(s, agent) <==> Mapped(s, s.builtIn[agent])
  {
    assert CellIs(s, s.builtIn[agent], Set(agent));
    if Mapped(s, s.builtIn[agent]) {
      assert Lookup(s, s.builtIn[agent].conv) == Some(agent);
    }
    forall conv | Lookup(s, conv) == Some(agent) ensures s.tasks[conv] == s.builtIn[agent] {
      assert CellIs(s, s.tasks[conv], Set(agent));
    }
  }

  /**
   Every agent is in the map, killed, about to be killed, or was built into a slot already taken out; its kill is
   called at most once, and not while it is in the map.
   */
  lemma Conservation(ss: seq<State>, es: seq<Event>, i: nat, agent: Instance)
    requires Execution(ss, es) && i < |ss| && agent in ss[i].builtIn
    ensures var s := ss[i];
            InMap(s, agent) || agent in s.killed || Held(s, s.builtIn[agent]) || s.builtIn[agent] in s.early
    ensures ss[i].killed[agent] <= if InMap(ss[i], agent) then 0 else 1
    ensures ss[i].builtIn[agent] !in ss[i].early && !Held(ss[i], ss[i].builtIn[agent]) ==> !Lost(ss[i], agent)
  {
    ReachableInv(ss, es, i);
    InMapIffMapped(ss[i], agent);
    assert CellIs(ss[i], ss[i].builtIn[agent], Set(agent));
    assert Accounted(ss[i], ss[i].builtIn[agent]);
  }

  /** With no removal half way, an agent is lost exactly when its remover had found the cell unset. */
  lemma LostIffAbandoned(ss: seq<State>, es: seq<Event>, i: nat, agent: Instance)
    requires Execution(ss, es) && i < |ss| && agent in ss[i].builtIn
    requires !Held(ss[i], ss[i].builtIn[agent])
    ensures Lost(ss[i], agent) <==> ss[i].builtIn[agent] in ss[i].abandoned
  {
    ReachableInv(ss, es, i);
    InMapIffMapped(ss[i], agent);
    assert CellIs(ss[i], ss[i].builtIn[agent], Set(agent));
    assert Accounted(ss[i], ss[i].builtIn[agent]);
  }

  const SLOT := Slot("c", 0)

  /** Enter and start building; another caller kills the conversation; the build then succeeds. */
  function LeakEvents(): seq<Event> {
    [Enter(0, SLOT), Acquire(0, SLOT), StartRemoval(1, ["c"]), Remove(1, "c"), KillHeld(1, SLOT),
     EndRemoval(1), Succeed(0, SLOT, 7)]
  }

  function LeakStates(): seq<State> {
    var building := State(map["c" := SLOT], map[SLOT := Building(0)], map[0 := Running(SLOT)],
                          map[], multiset{}, {}, {});
    var removed := building.(tasks := map[], early := {SLOT});
    var missed := removed.(abandoned := {SLOT});
    [INIT,
     building.(cells := map[SLOT := Empty], callers := map[0 := Waiting(SLOT)]),
     building,
     building.(callers := map[0 := Running(SLOT), 1 := Remover(["c"], None)]),
     removed.(callers := map[0 := Running(SLOT), 1 := Remover([], Some(SLOT))]),
     missed.(callers := map[0 := Running(SLOT), 1 := Remover([], None)]),
     missed,
     missed.(cells := map[SLOT := Set(7)], callers := map[0 := Returned(SLOT, 7)], builtIn := map[7 := SLOT])]
  }

  lemma LeakStep(i: nat)
    requires i < 7
    ensures Enabled(LeakStates()[i], LeakEvents()[i])
    ensures LeakStates()[i + 1] == Apply(LeakStates()[i], LeakEvents()[i])
  {
    if i < 3 {
      LeakBegins(i);
    } else if i == 3 {
      LeakRemoves();
    } else {
      LeakEnds(i);
    }
  }

  lemma LeakBegins(i: nat)
    requires i < 3
    ensures Enabled(LeakStates()[i], LeakEvents()[i])
    ensures LeakStates()[i + 1] == Apply(LeakStates()[i], LeakEvents()[i])
  {
  }

  lemma LeakEnds(i: nat)
    requires 4 <= i < 7
    ensures Enabled(LeakStates()[i], LeakEvents()[i])
    ensures LeakStates()[i + 1] == Apply(LeakStates()[i], LeakEvents()[i])
  {
    if i == 5 {
      assert LeakStates()[5].callers - {1} == LeakStates()[6].callers;
    }
  }

  lemma LeakRemoves()
    ensures Enabled(LeakStates()[3], LeakEvents()[3])
    ensures LeakStates()[4] == Apply(LeakStates()[3], LeakEvents()[3])
  {
    var s, s' := LeakStates()[3], LeakStates()[4];
    assert s.callers[1].keys[1..] == [];
    assert Apply(s, LeakEvents()[3]).callers == s'.callers;
    assert s.tasks - {"c"} == s'.tasks;
  }

  /** A conversation killed while its agent is being built does lose the agent. */
  lemma KillDuringBuildLosesAgent()
    ensures Execution(LeakStates(), LeakEvents())
    ensures Lost(LeakStates()[7], 7) && LeakStates()[7].callers == map[0 := Returned(SLOT, 7)]
  {
    forall i | 0 <= i < 7
      ensures Enabled(LeakStates()[i], LeakEvents()[i])
      ensures LeakStates()[i + 1] == Apply(LeakStates()[i], LeakEvents()[i])
    {
      LeakStep(i);
    }
  }

  // ------------------------------------------------------------------
  // Single flight
  // ------------------------------------------------------------------

  lemma {:induction false} SetCellNeverChanges(ss: seq<State>, es: seq<Event>, i: nat, j: nat, slot: Slot,
                                               agent: Instance)
    requires Execution(ss, es) && i <= j < |ss| && CellIs(ss[i], slot, Set(agent))
    ensures CellIs(ss[j], slot, Set(agent))
  {
    hide Apply, Enabled, FlightInv, MapInv, FateInv;
    if i < j {
      SetCellNeverChanges(ss, es, i, j - 1, slot, agent);
      ReachableInv(ss, es, j - 1);
      SetStep(ss[j - 1], es[j - 1], slot, agent);
    }
  }

  /** At most one factory call at a time for a slot. */
  lemma OneBuilderPerSlot(ss: seq<State>, es: seq<Event>, i: nat, slot: Slot, c: CallerId, d: CallerId)
    requires Execution(ss, es) && i < |ss| && At(ss[i], c, Running(slot)) && At(ss[i], d, Running(slot))
    ensures c == d
  {
    ReachableInv(ss, es, i);
    assert CellIs(ss[i], slot, Building(c)) && CellIs(ss[i], slot, Building(d));
  }

  /** At most one successful factory call for a slot, ever. */
  lemma SingleFlightPerSlot(ss: seq<State>, es: seq<Event>, i: nat, j: nat)
    requires Execution(ss, es) && i < j < |es| && es[i].Succeed? && es[j].Succeed?
    ensures es[i].slot != es[j].slot
  {
    ReachableInv(ss, es, j);
    SetCellNeverChanges(ss, es, i + 1, j, es[i].slot, es[i].agent);
    assert CellIs(ss[j], es[j].slot, Building(es[j].c)) <==> At(ss[j], es[j].c, Running(es[j].slot));
  }

  /** All callers a slot has answered got the same agent, at whatever time. */
  lemma SameAgentForEveryCaller(ss: seq<State>, es: seq<Event>, i: nat, j: nat, c: CallerId, d: CallerId)
    requires Execution(ss, es) && i <= j < |ss|
    requires c in ss[i].callers && ss[i].callers[c].Returned? && d in ss[j].callers && ss[j].callers[d].Returned?
    requires ss[i].callers[c].slot == ss[j].callers[d].slot
    ensures ss[i].callers[c].agent == ss[j].callers[d].agent
  {
    ReachableInv(ss, es, i);
    ReachableInv(ss, es, j);
    SetCellNeverChanges(ss, es, i, j, ss[i].callers[c].slot, ss[i].callers[c].agent);
  }

  lemma {:induction false} UnremovedSlotIsMapped(ss: seq<State>, es: seq<Event>, i: nat, slot: Slot)
    requires Execution(ss, es) && i < |ss| && slot in ss[i].cells
    requires forall m | 0 <= m < i && es[m].Remove? :: es[m].conv != slot.conv
    ensures Mapped(ss[i], slot)
  {
    if i > 0 {
      ReachableInv(ss, es, i - 1);
      CellsStay(ss[i - 1], es[i - 1], slot);
      MappedStep(ss[i - 1], es[i - 1], slot);
      if slot in ss[i - 1].cells {
        UnremovedSlotIsMapped(ss, es, i - 1, slot);
      }
    }
  }

  /** The factory succeeds at most once for a conversation nobody kills or clears. */
  lemma SingleFlightPerConversation(ss: seq<State>, es: seq<Event>, i: nat, j: nat)
    requires Execution(ss, es) && i < j < |es| && es[i].Succeed? && es[j].Succeed?
    requires forall m | 0 <= m < j && es[m].Remove? :: es[m].conv != es[i].slot.conv
    ensures es[i].slot.conv != es[j].slot.conv
  {
    SingleFlightPerSlot(ss, es, i, j);
    if es[i].slot.conv == es[j].slot.conv {
      SetCellNeverChanges(ss, es, i + 1, j, es[i].slot, es[i].agent);
      UnremovedSlotIsMapped(ss, es, j, es[i].slot);
      ReachableInv(ss, es, j);
      assert CellIs(ss[j], es[j].slot, Building(es[j].c)) <==> At(ss[j], es[j].c, Running(es[j].slot));
      UnremovedSlotIsMapped(ss, es, j, es[j].slot);
    }
  }

  /** A failed or dropped build leaves the slot as it was before: whoever waits, or comes, can start over. */
  lemma FailureLeavesSlotRetryable(ss: seq<State>, es: seq<Event>, i: nat, slot: Slot)
    requires Execution(ss, es) && i < |es|
    requires es[i] == Fail(es[i].c, slot) || (es[i].Cancel? && At(ss[i], es[i].c, Running(slot)))
    ensures forall c :: At(ss[i], c, Waiting(slot)) ==> Enabled(ss[i + 1], Acquire(c, slot))
    ensures forall c :: Mapped(ss[i], slot) && c !in ss[i + 1].callers ==> Enabled(ss[i + 1], Enter(c, slot))
    ensures ss[i + 1].tasks == ss[i].tasks && ss[i + 1].builtIn == ss[i].builtIn
  {
  }

  /** From there a newcomer's build, if it succeeds, gives the conversation its agent. */
  lemma FailedBuildCanBeRetried(ss: seq<State>, es: seq<Event>, i: nat, slot: Slot, c: CallerId, agent: Instance)
    requires Execution(ss, es) && i < |es| && es[i] == Fail(es[i].c, slot) && Mapped(ss[i], slot)
    requires c !in ss[i + 1].callers && agent !in ss[i + 1].builtIn
    ensures Reaches(ss[i + 1], [Enter(c, slot)] + ([Acquire(c, slot)] + ([Succeed(c, slot, agent)] + [])),
                    BuiltState(ss[i + 1], c, slot, agent))
    ensures Lookup(BuiltState(ss[i + 1], c, slot, agent), slot.conv) == Some(agent)
  {
    UninterruptedBuild(ss[i + 1], c, slot, agent);
  }

  /** No waiting caller is stuck: it can go on, or the one it waits for can. */
  lemma WaitersMakeProgress(ss: seq<State>, es: seq<Event>, i: nat, c: CallerId, slot: Slot)
    requires Execution(ss, es) && i < |ss| && At(ss[i], c, Waiting(slot))
    ensures || Enabled(ss[i], Acquire(c, slot))
            || (exists agent :: Enabled(ss[i], Observe(c, slot, agent)))
            || (exists d :: Enabled(ss[i], Fail(d, slot)))
  {
    ReachableInv(ss, es, i);
    match ss[i].cells[slot]
    case Empty =>
    case Set(agent) => assert Enabled(ss[i], Observe(c, slot, agent));
    case Building(d) =>
      assert CellIs(ss[i], slot, Building(d));
      assert Enabled(ss[i], Fail(d, slot));
  }
}
