/**
 The sessions under the scheduler: in every interleaving the actions taken on one session are a run
 of that session alone, so what is proved of a session's runs holds of every scheduled session.
 */
module SchedulerRuns {
  import opened Results
  import opened Session
  import opened Scheduler
  import opened PluginGate
  import Buffers
  import SessionRuns
  import SessionTraffic
  import Wire

  /** The step is an action, not a deletion, on this session. */
  predicate ActsOn(s: System, step: Step, id: Id)
    requires Enabled(s, step)
  {
    step.Act? && s.workers[step.w].id == id && id in s.live && s.live[id].sess.state.Some?
  }

  /** What the session's actions in an interleaving take from outside. */
  function InputsOf(s: System, steps: seq<Step>, id: Id): seq<Input>
    requires Runnable(s, steps)
    decreases |steps|
  {
    if steps == [] then []
    else (if ActsOn(s, steps[0], id) then [steps[0].inp] else []) + InputsOf(Do(s, steps[0]), steps[1..], id)
  }

  /** What they do, for the record. */
  function EventsOf(s: System, steps: seq<Step>, id: Id): seq<Event>
    requires Runnable(s, steps)
    decreases |steps|
  {
    if steps == [] then []
    else
      (if ActsOn(s, steps[0], id) then [Next(s.live[id].sess, steps[0].inp).event] else [])
      + EventsOf(Do(s, steps[0]), steps[1..], id)
  }

  lemma {:induction false} InputsValid(s: System, steps: seq<Step>, id: Id)
    requires Runnable(s, steps)
    ensures SessionRuns.ValidInputs(InputsOf(s, steps, id))
    decreases |steps|
  {
    hide Do;
    if steps != [] { InputsValid(Do(s, steps[0]), steps[1..], id); }
  }

  /** The session as it is, or as it was when it was deleted. */
  function SessionOf(s: System, id: Id): Option<Sess> {
    if id in s.live then Some(s.live[id].sess) else if id in s.deleted then Some(s.deleted[id]) else None
  }

  /** A step acts on the session, or leaves it as it is. */
  lemma StepOnSession(s: System, step: Step, id: Id)
    requires Enabled(s, step) && SessionOf(s, id).Some? && DeletedTerminated(s)
    ensures SessionOf(Do(s, step), id) ==
            if ActsOn(s, step, id) then Some(Next(s.live[id].sess, step.inp).sess) else SessionOf(s, id)
    ensures DeletedTerminated(Do(s, step))
    ensures id !in s.live ==> id !in Do(s, step).live
  {
    hide Next, ValidInput, Reported, SocketsApart;
  }

  lemma {:induction false} GoneStaysGone(s: System, steps: seq<Step>, id: Id)
    requires Runnable(s, steps) && id !in s.live && id in s.deleted && DeletedTerminated(s)
    ensures SessionOf(RunOf(s, steps), id) == Some(s.deleted[id])
    ensures InputsOf(s, steps, id) == [] && EventsOf(s, steps, id) == []
    decreases |steps|
  {
    hide Do, Enabled;
    if steps != [] {
      StepOnSession(s, steps[0], id);
      GoneStaysGone(Do(s, steps[0]), steps[1..], id);
    }
  }

  /** From a state with the session, the interleaving takes it through a run of its own. */
  lemma {:induction false} SessionRan(s: System, steps: seq<Step>, id: Id)
    requires Runnable(s, steps) && id in s.live && DeletedTerminated(s)
    requires SessionRuns.ValidInputs(InputsOf(s, steps, id))
    ensures var (sess, events) := SessionRuns.Run(s.live[id].sess, InputsOf(s, steps, id));
            SessionOf(RunOf(s, steps), id) == Some(sess) && EventsOf(s, steps, id) == events
    decreases |steps|
  {
    hide Enabled, Next;
    if steps != [] {
      var s', rest := Do(s, steps[0]), InputsOf(Do(s, steps[0]), steps[1..], id);
      StepOnSession(s, steps[0], id);
      InputsValid(s', steps[1..], id);
      hide Do;
      if ActsOn(s, steps[0], id) {
        var inp := steps[0].inp;
        assert InputsOf(s, steps, id) == [inp] + rest && ([inp] + rest)[1..] == rest;
        assert id in s'.live;
        SessionRan(s', steps[1..], id);
        SessionRuns.RunStep(s.live[id].sess, [inp] + rest);
      } else if id in s'.live {
        assert [] + rest == rest;
        SessionRan(s', steps[1..], id);
      } else {
        GoneStaysGone(s', steps[1..], id);
        assert InputsOf(s, steps, id) == [];
      }
    }
  }

  lemma {:induction false} SessionRanFromStart(s: System, steps: seq<Step>, id: Id)
    requires Runnable(s, steps) && id !in s.live && id !in s.deleted && DeletedTerminated(s)
    requires SessionRuns.ValidInputs(InputsOf(s, steps, id))
    ensures var (sess, events) := SessionRuns.Run(NEW_SESSION, InputsOf(s, steps, id));
            && (SessionOf(RunOf(s, steps), id).Some? ==> SessionOf(RunOf(s, steps), id) == Some(sess))
            && EventsOf(s, steps, id) == events
    decreases |steps|
  {
    hide Next;
    if steps != [] {
      var s', rest := Do(s, steps[0]), InputsOf(Do(s, steps[0]), steps[1..], id);
      assert !ActsOn(s, steps[0], id) && [] + rest == rest;
      InputsValid(s', steps[1..], id);
      NewOrAbsent(s, steps[0], id);
      hide Do, Enabled;
      if id in s'.live {
        SessionRan(s', steps[1..], id);
      } else {
        SessionRanFromStart(s', steps[1..], id);
      }
    }
  }

  lemma NewOrAbsent(s: System, step: Step, id: Id)
    requires Enabled(s, step) && id !in s.live && id !in s.deleted && DeletedTerminated(s)
    ensures var s' := Do(s, step);
            DeletedTerminated(s') && id !in s'.deleted && (id in s'.live ==> s'.live[id].sess == NEW_SESSION)
  {
    hide Next, ValidInput, Reported, SocketsApart;
  }

  /** In every interleaving of workers, watcher and arrivals, what is done to one session, deleted or
      not, is a run of a new session on the inputs of its own actions. */
  lemma ScheduledIsRun(workers: nat, steps: seq<Step>, id: Id)
    requires Runnable(Start(workers), steps)
    ensures var inputs := InputsOf(Start(workers), steps, id);
            SessionRuns.ValidInputs(inputs) &&
            var (sess, events) := SessionRuns.Run(NEW_SESSION, inputs);
            && (SessionOf(RunOf(Start(workers), steps), id).Some? ==>
                  SessionOf(RunOf(Start(workers), steps), id) == Some(sess))
            && EventsOf(Start(workers), steps, id) == events
  {
    InputsValid(Start(workers), steps, id);
    SessionRanFromStart(Start(workers), steps, id);
  }

  /** So every scheduled session runs in request cycles. */
  lemma ScheduledInCycles(workers: nat, steps: seq<Step>, id: Id)
    returns (cs: seq<SessionRuns.Cycle>, c: SessionRuns.Cycle, st: State, died: bool)
    requires Runnable(Start(workers), steps)
    ensures SessionRuns.AllowedAll(cs, false) && SessionRuns.Allowed(c, SessionRuns.AfterAll(cs, false))
    ensures forall i | 0 <= i < |cs| :: SessionRuns.Wellformed(cs[i])
    ensures SessionRuns.Visits(st, c) && SessionRuns.Behind(st, c) <= SessionRuns.CycleEvents(c)
    ensures died ==> Needs(st).Some?
    ensures EventsOf(Start(workers), steps, id) ==
            SessionRuns.AllEvents(cs) + SessionRuns.Behind(st, c) + (if died then [Died] else [])
  {
    ScheduledIsRun(workers, steps, id);
    var inputs := InputsOf(Start(workers), steps, id);
    cs, c, st := SessionRuns.RunsAreCycles(inputs);
    died := SessionRuns.Run(NEW_SESSION, inputs).0.state.None?;
  }

  /** And no request of one is forwarded after startup unless every plugin has passed it. */
  lemma ScheduledHasPassed(workers: nat, steps: seq<Step>, id: Id, i: nat)
    requires Runnable(Start(workers), steps) && i < |EventsOf(Start(workers), steps, id)|
    requires EventsOf(Start(workers), steps, id)[i].RequestForwarded?
    ensures var inputs, events := InputsOf(Start(workers), steps, id), EventsOf(Start(workers), steps, id);
            && 2 <= i < |inputs| && SessionRuns.ValidInputs(inputs)
            && (SessionRuns.Before(NEW_SESSION, inputs, i - 2).initiated ==>
                  events[i - 2].PluginsPassed? && AllPass(inputs[i - 2].pre))
  {
    ScheduledIsRun(workers, steps, id);
    var inputs := InputsOf(Start(workers), steps, id);
    EventsMatch(NEW_SESSION, inputs);
    SessionRuns.ForwardedHasPassed(inputs, i);
  }

  /** What is forwarded then is the message of the last query that a plugin set, or what the client sent;
      before startup is done always what the client sent. */
  lemma ScheduledForwards(workers: nat, steps: seq<Step>, id: Id, i: nat)
    requires Runnable(Start(workers), steps) && i < |EventsOf(Start(workers), steps, id)|
    requires EventsOf(Start(workers), steps, id)[i].RequestForwarded?
    ensures var inputs := InputsOf(Start(workers), steps, id);
            var data := EventsOf(Start(workers), steps, id)[i].data;
            3 <= i < |inputs| && SessionRuns.ValidInputs(inputs) &&
            var received, plugins := Buffers.Concat(inputs[i - 3].chunks), inputs[i - 2].pre;
            if SessionRuns.Before(NEW_SESSION, inputs, i - 2).initiated then
              && AllPass(plugins)
              && (NoneSet(plugins) ==> data == received)
              && (forall q | LastSet(plugins, q) :: data == Wire.EncodeQuery(q))
            else data == received
  {
    ScheduledIsRun(workers, steps, id);
    var inputs := InputsOf(Start(workers), steps, id);
    EventsMatch(NEW_SESSION, inputs);
    SessionTraffic.ForwardedIs(inputs, i);
  }

  lemma {:induction false} EventsMatch(s: Sess, inputs: seq<Input>)
    requires SessionRuns.ValidInputs(inputs)
    ensures |SessionRuns.Run(s, inputs).1| <= |inputs|
    decreases |inputs|
  {
    hide Next;
    if inputs != [] && s.state.Some? { EventsMatch(Next(s, inputs[0]).sess, inputs[1..]); }
  }
}
