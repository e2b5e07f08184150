/**
 The status of a running agent and its terminal events (crates/chisl-ai-agent/src/agent_runtime.rs).

 `emit_finish` and `emit_error` set the status under a lock and send their event after
 releasing it, so in the transition system the two are separate steps.
 */
module AgentRuntime {
  import opened Wrappers

  datatype Status = Pending | Running | Finished
  datatype Terminal = Finish(sessionId: Option<string>) | Error(message: string)

  /** The status after a write that Finished absorbs. */
  function Absorbed(status: Option<Status>, next: Status): Option<Status> {
    if status == Some(Finished) then status else Some(next)
  }

  class Runtime {
    var status: Option<Status>
    var sent: seq<Terminal>  // the terminal events broadcast so far

    constructor ()
      ensures status == None && sent == []
    {
      status := None;
      sent := [];
    }

    method TransitionTo(next: Status)
      modifies this`status
      ensures status == Absorbed(old(status), next)
      ensures status == if old(status) == Some(Finished) then Some(Finished) else Some(next)
    {
      if status == Some(Finished) {
        return;
      }
      status := Some(next);
    }

    method ResetForNewTurn(next: Status)
      modifies this`status
      ensures status == Some(next)
    {
      status := Some(next);
    }

    method EmitFinish(sessionId: Option<string>)
      modifies this
      ensures status == Some(Finished)
      ensures sent == old(sent) + if old(status) == Some(Finished) then [] else [Finish(sessionId)]
    {
      var alreadyFinished := status == Some(Finished);
      if !alreadyFinished {
        status := Some(Finished);
      }
      if alreadyFinished {
        return;
      }
      sent := sent + [Finish(sessionId)];
    }

    method EmitError(message: string)
      modifies this
      ensures status == Some(Finished)
      ensures sent == old(sent) + if old(status) == Some(Finished) then [] else [Error(message)]
    {
      var alreadyFinished := status == Some(Finished);
      if !alreadyFinished {
        status := Some(Finished);
      }
      if alreadyFinished {
        return;
      }
      sent := sent + [Error(message)];
    }
  }

  // ------------------------------------------------------------------
  // Interleavings
  // ------------------------------------------------------------------

  /** `pending` holds the events of calls that have set the status and not yet sent. */
  datatype State = State(status: Option<Status>, pending: multiset<Terminal>, sent: seq<Terminal>)

  datatype Event =
    | Transition(next: Status)
    | Reset(next: Status)
    | Emit(terminal: Terminal)   // the locked section of emit_finish or emit_error
    | Send(terminal: Terminal)   // its broadcast

  predicate Enabled(s: State, e: Event) {
    e.Send? ==> e.terminal in s.pending
  }

  function Apply(s: State, e: Event): State {
    match e
    case Transition(next) => s.(status := Absorbed(s.status, next))
    case Reset(next) => s.(status := Some(next))
    case Emit(t) =>
      if s.status == Some(Finished) then s
      else s.(status := Some(Finished), pending := s.pending + multiset{t})
    case Send(t) => s.(pending := s.pending - multiset{t}, sent := s.sent + [t])
  }

  const INIT := State(None, multiset{}, [])

  /** The state after `es`, from any state. */
  function After(s: State, es: seq<Event>): State {
    if es == [] then s else Apply(After(s, es[..|es| - 1]), es[|es| - 1])
  }

  ghost predicate Feasible(s: State, es: seq<Event>) {
    forall i | 0 <= i < |es| :: Enabled(After(s, es[..i]), es[i])
  }

  function Resets(es: seq<Event>): nat {
    if es == [] then 0 else Resets(es[..|es| - 1]) + if es[|es| - 1].Reset? then 1 else 0
  }

  predicate Over(s: State) {
    s.status == Some(Finished)
  }

  /** Run by one call after another, the two steps are `EmitFinish` and `EmitError`. */
  lemma UninterruptedEmit(s: State, t: Terminal)
    ensures var s' := Apply(s, Emit(t));
            var done := if Over(s) then s' else Apply(s', Send(t));
            && (!Over(s) ==> Enabled(s', Send(t)))
            && done == State(Some(Finished), s.pending, s.sent + if Over(s) then [] else [t])
  {
    assert s.pending + multiset{t} - multiset{t} == s.pending;
  }

  /** A transition or a reset is one step and does what `TransitionTo` and `ResetForNewTurn` do. */
  lemma StatusSteps(s: State, next: Status)
    ensures Apply(s, Transition(next)) ==
            s.(status := if s.status == Some(Finished) then Some(Finished) else Some(next))
    ensures Apply(s, Reset(next)) == s.(status := Some(next))
  {
  }

  /** Events sent or about to be sent, less the one a finished turn has used up. */
  function Emitted(s: State): int {
    |s.sent| + |s.pending| - if Over(s) then 1 else 0
  }

  lemma StepEmits(s: State, e: Event)
    requires Enabled(s, e)
    ensures Emitted(Apply(s, e)) <= Emitted(s) + if e.Reset? then 1 else 0
  {
  }

  /** In a run from any state they grow by no more than the resets of the run. */
  lemma {:induction false} TerminalEventsBounded(s: State, es: seq<Event>)
    requires Feasible(s, es)
    ensures Emitted(After(s, es)) <= Emitted(s) + Resets(es)
  {
    if es != [] {
      var init := es[..|es| - 1];
      assert forall i | 0 <= i < |init| :: init[..i] == es[..i];
      TerminalEventsBounded(s, init);
      StepEmits(After(s, init), es[|es| - 1]);
    }
  }

  /** From a fresh runtime: never more terminal events than one plus the number of resets. */
  lemma AtMostOneTerminalEventPerTurn(es: seq<Event>)
    requires Feasible(INIT, es)
    ensures |After(INIT, es).sent| <= 1 + Resets(es)
  {
    TerminalEventsBounded(INIT, es);
  }

  /** Finished is left only by a reset. */
  lemma {:induction false} FinishedIsAbsorbing(s: State, es: seq<Event>)
    requires Over(s) && Resets(es) == 0
    ensures Over(After(s, es))
  {
    if es != [] {
      FinishedIsAbsorbing(s, es[..|es| - 1]);
    }
  }

  // ------------------------------------------------------------------
  // Within one turn
  // ------------------------------------------------------------------

  /** However the turn starting in s goes on, subscribers see at most one terminal event until the next reset. */
  ghost predicate OnePerTurn(s: State) {
    forall es | Feasible(s, es) && Resets(es) == 0 :: |After(s, es).sent| <= |s.sent| + 1
  }

  /** Sends that other calls still owe, and one that this turn can add unless it is over. */
  function Owed(s: State): nat {
    |s.pending| + if Over(s) then 0 else 1
  }

  /** The sends happen outside the lock: a turn sees at most one terminal event just when it is owed no more. */
  lemma OnePerTurnIffOwed(s: State)
    ensures OnePerTurn(s) <==> Owed(s) <= 1
  {
    if Owed(s) <= 1 {
      forall es | Feasible(s, es) && Resets(es) == 0 ensures |After(s, es).sent| <= |s.sent| + 1 {
        TerminalEventsBounded(s, es);
      }
    } else if Over(s) {
      TwoSent(s);
    } else {
      OwnAndStale(s);
    }
  }

  lemma OneMoreEvent(s: State, es: seq<Event>, e: Event)
    requires Feasible(s, es) && Enabled(After(s, es), e)
    ensures Feasible(s, es + [e]) && After(s, es + [e]) == Apply(After(s, es), e)
    ensures Resets(es + [e]) == Resets(es) + if e.Reset? then 1 else 0
  {
    var es' := es + [e];
    assert es'[..|es|] == es;
    forall i | 0 <= i < |es'| ensures Enabled(After(s, es'[..i]), es'[i]) {
      if i < |es| {
        assert es'[..i] == es[..i];
      }
    }
  }

  /** With two sends outstanding both can happen before anything else does. */
  lemma TwoSent(s: State)
    requires |s.pending| >= 2
    ensures !OnePerTurn(s)
  {
    var a: Terminal :| a in s.pending;
    assert |s.pending - multiset{a}| == |s.pending| - 1;
    var b: Terminal :| b in s.pending - multiset{a};
    OneMoreEvent(s, [], Send(a));
    OneMoreEvent(s, [] + [Send(a)], Send(b));
    assert |After(s, [] + [Send(a)] + [Send(b)]).sent| == |s.sent| + 2;
  }

  /** With one send outstanding the turn's own event makes two. */
  lemma OwnAndStale(s: State)
    requires !Over(s) && s.pending != multiset{}
    ensures !OnePerTurn(s)
  {
    var stale: Terminal :| stale in s.pending;
    var own := Finish(None);
    OneMoreEvent(s, [], Emit(own));
    OneMoreEvent(s, [] + [Emit(own)], Send(own));
    assert s.pending + multiset{own} - multiset{own} == s.pending;
    OneMoreEvent(s, [] + [Emit(own)] + [Send(own)], Send(stale));
    assert |After(s, [] + [Emit(own)] + [Send(own)] + [Send(stale)]).sent| == |s.sent| + 2;
  }

  /** A turn owed two does begin: an emit interrupted before its send, then the reset of the next turn. */
  lemma LateTerminalEvent(t: Terminal)
    ensures var es := [] + [Emit(t)] + [Reset(Running)];
            && Feasible(INIT, es) && After(INIT, es) == State(Some(Running), multiset{t}, [])
            && !OnePerTurn(After(INIT, es))
  {
    OneMoreEvent(INIT, [], Emit(t));
    OneMoreEvent(INIT, [] + [Emit(t)], Reset(Running));
    assert multiset{} + multiset{t} == multiset{t};
    OnePerTurnIffOwed(State(Some(Running), multiset{t}, []));
  }
}
