/**
 The operator's own code: one call of Work and one pass of the watcher's loop, as methods on the
 shared state. Each is proved to be a sequence of the steps that Scheduler interleaves.
 */
module SessionOperators {
  import opened Results
  import opened Session
  import opened Scheduler

  /** The steps of one call of Work by worker w. */
  function WorkSteps(s: System, w: nat, inp: Input): seq<Step> {
    if s.queue == [] then []
    else if s.queue[0] in s.live && s.live[s.queue[0]].sess.state.None? then [Pop(w), Act(w, inp)]
    else [Pop(w), Act(w, inp), HandOn(w)]
  }

  /** The steps of a pass that has handled n events: take each session out of epoll, then submit it. */
  function PassSteps(fds: seq<Fd>, n: nat): seq<Step> {
    if n == 0 then [Collect(fds)] else PassSteps(fds, n - 1) + [Remove] + [Requeue]
  }

  /** The steps can be taken one after the other from s, and lead to t. */
  ghost predicate Leads(s: System, steps: seq<Step>, t: System) {
    Runnable(s, steps) && RunOf(s, steps) == t
  }

  lemma LeadsNowhere(s: System)
    ensures Leads(s, [], s)
  {
  }

  lemma {:induction false} LeadsOn(s: System, steps: seq<Step>, t: System, step: Step)
    requires Leads(s, steps, t) && Enabled(t, step)
    ensures Leads(s, steps + [step], Do(t, step))
    decreases |steps|
  {
    hide Enabled, Do;
    if steps == [] {
      assert steps + [step] == [step] && [step][1..] == [];
      assert Runnable(Do(s, step), []) && RunOf(Do(s, step), []) == Do(s, step);
    } else {
      assert (steps + [step])[0] == steps[0] && (steps + [step])[1..] == steps[1..] + [step];
      LeadsOn(Do(s, steps[0]), steps[1..], t, step);
    }
  }

  // ---------- what is left in epoll ----------

  /** No session is in epoll twice. */
  ghost predicate Single(epoll: map<Fd, Registration>) {
    forall f, g | f in epoll && g in epoll && epoll[f].id == epoll[g].id :: f == g
  }

  /** The rest of epoll after a session's descriptor went. */
  ghost predicate WithoutSession(epoll: map<Fd, Registration>, epoll': map<Fd, Registration>, id: Id) {
    && (forall fd :: fd in epoll' <==> fd in epoll && epoll[fd].id != id)
    && (forall fd | fd in epoll' :: epoll'[fd] == epoll[fd])
  }

  /** The rest of epoll after these descriptors went. */
  ghost predicate WithoutFds(epoll: map<Fd, Registration>, epoll': map<Fd, Registration>, fds: seq<Fd>) {
    && (forall fd :: fd in epoll' <==> fd in epoll && fd !in fds)
    && (forall fd | fd in epoll' :: epoll'[fd] == epoll[fd])
  }

  lemma DroppedOne(epoll: map<Fd, Registration>, epoll1: map<Fd, Registration>, epoll2: map<Fd, Registration>,
                   fds: seq<Fd>, i: nat)
    requires Single(epoll) && Reported(epoll, fds) && i < |fds|
    requires WithoutFds(epoll, epoll1, fds[..i]) && WithoutSession(epoll1, epoll2, Sessions(epoll, fds)[i])
    ensures WithoutFds(epoll, epoll2, fds[..i + 1])
  {
    assert fds[..i + 1] == fds[..i] + [fds[i]];
  }

  /** Where a pass of the watcher is once it has handled i of the events. */
  ghost predicate Passed(s0: System, s: System, own: Owners, fds: seq<Fd>, i: nat) {
    && Reported(s0.epoll, fds) && Single(s0.epoll) && i <= |fds|
    && var ids := Sessions(s0.epoll, fds);
    && Safe(s, own) && Leads(s0, PassSteps(fds, i), s)
    && s.watcher == Batch(ids[i..]) && s.queue == s0.queue + ids[..i] && WithoutFds(s0.epoll, s.epoll, fds[..i])
  }

  lemma StartPass(s: System, own: Owners, fds: seq<Fd>) returns (own': Owners)
    requires Safe(s, own) && Enabled(s, Collect(fds))
    ensures Passed(s, Do(s, Collect(fds)), own', fds, 0)
  {
    hide Safe, Leads, Single, Sessions, Reported, Next;
    own' := StepSafe(s, own, Collect(fds));
    OneDescriptor(s, own);
    hide WithoutFds;
    StartLeads(s, fds);
    NoneDropped(s.epoll, fds);
    assert Reported(s.epoll, fds) && Do(s, Collect(fds)).watcher == Batch(Sessions(s.epoll, fds)[0..]);
  }

  lemma StartLeads(s: System, fds: seq<Fd>)
    requires Enabled(s, Collect(fds))
    ensures Leads(s, PassSteps(fds, 0), Do(s, Collect(fds)))
  {
    hide Enabled, Do;
    LeadsNowhere(s);
    LeadsOn(s, [], s, Collect(fds));
    assert [] + [Collect(fds)] == [Collect(fds)];
  }

  lemma NoneDropped(epoll: map<Fd, Registration>, fds: seq<Fd>)
    ensures WithoutFds(epoll, epoll, fds[..0])
  {
  }

  lemma InPass(s0: System, s: System, own: Owners, fds: seq<Fd>, i: nat)
    requires Passed(s0, s, own, fds, i) && i < |fds|
    ensures Safe(s, own) && s.watcher.Batch? && s.watcher.ids != []
    ensures s.watcher.ids[0] == Sessions(s0.epoll, fds)[i]
  {
    hide Safe, Leads, WithoutFds;
  }

  lemma PassedOne(s0: System, s: System, s': System, own: Owners, own': Owners, fds: seq<Fd>, i: nat)
    requires Passed(s0, s, own, fds, i) && i < |fds| && Safe(s', own') && s.watcher.Batch? && s.watcher.ids != []
    requires Enabled(s, Remove) && Enabled(Do(s, Remove), Requeue) && s' == Do(Do(s, Remove), Requeue)
    requires s'.queue == s.queue + [s.watcher.ids[0]] && s'.watcher == Batch(s.watcher.ids[1..])
    requires WithoutSession(s.epoll, s'.epoll, s.watcher.ids[0])
    ensures Passed(s0, s', own', fds, i + 1)
  {
    hide Safe, Leads, WithoutFds, WithoutSession, Single, Reported, Do, Enabled, Sessions;
    var ids := Sessions(s0.epoll, fds);
    assert ids[i..][1..] == ids[i + 1..];
    DroppedOne(s0.epoll, s.epoll, s'.epoll, fds, i);
    LeadsOn(s0, PassSteps(fds, i), s, Remove);
    LeadsOn(s0, PassSteps(fds, i) + [Remove], Do(s, Remove), Requeue);
  }

  lemma PassDone(s0: System, s: System, own: Owners, fds: seq<Fd>)
    requires Passed(s0, s, own, fds, |fds|)
    ensures Leads(s0, PassSteps(fds, |fds|), s) && Safe(s, own)
    ensures |s.queue| == |s0.queue| + |fds| && s0.queue <= s.queue
    ensures forall i | 0 <= i < |fds| :: fds[i] in s0.epoll && s.queue[|s0.queue| + i] == s0.epoll[fds[i]].id
    ensures WithoutFds(s0.epoll, s.epoll, fds)
  {
    hide Safe, Leads, WithoutFds;
    assert fds[..|fds|] == fds;
  }

  class SessionOperator {
    var queue: seq<Id>
    var epoll: map<Fd, Registration>
    var live: map<Id, Entry>
    var deleted: map<Id, Sess>
    var hands: seq<Worker>
    var batch: Watcher

    ghost function View(): System
      reads this
    {
      System(queue, hands, epoll, batch, live, deleted, None)
    }

    constructor (workers: nat)
      ensures View() == Start(workers)
    {
      queue, epoll, live, deleted := [], map[], map[], map[];
      hands := seq(workers, _ => Idle);
      batch := Batch([]);
    }

    method Submit(id: Id)
      modifies this`queue
      ensures queue == old(queue) + [id]
    {
      queue := queue + [id];
    }

    method AddToWatch(id: Id)
      requires id in live && live[id].sess.interest.Some?
      requires var e := live[id];
               (if e.sess.interest.value.side == Client then e.clientFd else e.serverFd) !in epoll
      modifies this`epoll
      ensures var i := live[id].sess.interest.value;
              var fd := if i.side == Client then live[id].clientFd else live[id].serverFd;
              epoll == old(epoll)[fd := Registration(id, i)]
    {
      var ev := live[id].sess.interest.value;
      epoll := epoll[FdOf(live[id], ev) := Registration(id, ev)];
    }

    /** What a worker does once. own says who has each session; nothing outside it is touched. */
    method Work(w: nat, inp: Input, ghost own: Owners) returns (popped: bool, ghost own': Owners)
      requires Safe(View(), own) && w < |hands| && hands[w].Idle? && ValidInput(inp)
      modifies this
      ensures popped == (old(queue) != [])
      ensures Leads(old(View()), WorkSteps(old(View()), w, inp), View())
      ensures Safe(View(), own')
    {
      hide Safe, Next, Leads;
      ghost var s0 := View();
      LeadsNowhere(s0);
      own' := own;
      popped := queue != [];
      if !popped { return; }
      own' := StepSafe(s0, own', Pop(w));
      LeadsOn(s0, [], s0, Pop(w));
      var id := queue[0];
      queue := queue[1..];
      hands := hands[w := Holding(id)];
      ghost var s1 := View();
      HeldLives(s1, own', w);
      own' := StepSafe(s1, own', Act(w, inp));
      assert [] + [Pop(w)] == [Pop(w)] && [Pop(w)] + [Act(w, inp)] == [Pop(w), Act(w, inp)];
      LeadsOn(s0, [Pop(w)], s1, Act(w, inp));
      var e := live[id];
      if e.sess.state.None? {
        hands := hands[w := Idle];
        live := live - {id};
        deleted := deleted[id := e.sess];
        return;
      }
      live := live[id := e.(sess := Next(e.sess, inp).sess, woken := None)];
      hands := hands[w := Acted(id)];
      ghost var s2 := View();
      own' := StepSafe(s2, own', HandOn(w));
      NoFault(Do(s2, HandOn(w)), own');
      assert [Pop(w), Act(w, inp)] + [HandOn(w)] == [Pop(w), Act(w, inp), HandOn(w)];
      LeadsOn(s0, [Pop(w), Act(w, inp)], s2, HandOn(w));
      if live[id].sess.waiting {
        AddToWatch(id);
      } else {
        Submit(id);
      }
      hands := hands[w := Idle];
    }

    /** The body of the watcher's loop: the session leaves epoll and goes back to the queue. */
    method WakeOne(id: Id, ghost own: Owners) returns (ghost own': Owners)
      requires Safe(View(), own) && batch.Batch? && batch.ids != [] && batch.ids[0] == id
      modifies this
      ensures Enabled(old(View()), Remove) && Enabled(Do(old(View()), Remove), Requeue)
      ensures View() == Do(Do(old(View()), Remove), Requeue) && Safe(View(), own')
      ensures queue == old(queue) + [id] && batch == Batch(old(batch.ids)[1..])
      ensures WithoutSession(old(epoll), epoll, id)
    {
      hide Safe;
      ghost var s := View();
      own' := StepSafe(s, own, Remove);
      NoFault(Do(s, Remove), own');
      OneDescriptor(s, own);
      var e := live[id];
      var fd := FdOf(e, e.sess.interest.value);
      live := live[id := e.(woken := Some(Wake(fd, epoll[fd].interest)))];
      epoll := epoll - {fd};
      batch := Removed(id, batch.ids[1..]);
      own' := StepSafe(View(), own', Requeue);
      Submit(id);
      batch := Batch(batch.ids);
    }

    /** One pass of the watcher over the events that epoll reported: each of these sessions goes
        back to the queue, in order, and its descriptor out of epoll. */
    method Watch(fds: seq<Fd>, ghost own: Owners) returns (ghost own': Owners)
      requires Safe(View(), own) && batch == Batch([]) && |fds| <= 100 && Distinct(fds)
      requires forall i | 0 <= i < |fds| :: fds[i] in epoll
      modifies this
      ensures Leads(old(View()), PassSteps(fds, |fds|), View()) && Safe(View(), own')
      ensures |queue| == |old(queue)| + |fds| && old(queue) <= queue
      ensures forall i | 0 <= i < |fds| :: queue[|old(queue)| + i] == old(epoll)[fds[i]].id
      ensures WithoutFds(old(epoll), epoll, fds)
    {
      hide Passed, Safe, Next;
      ghost var s0 := View();
      own' := StartPass(s0, own, fds);
      var ids := Sessions(epoll, fds);
      batch := Batch(ids);
      assert View() == Do(s0, Collect(fds));
      hide Do, Enabled, Sessions, Leads;
      var i := 0;
      while i < |ids|
        invariant 0 <= i <= |ids| && Passed(s0, View(), own', fds, i)
      {
        ghost var s, own1 := View(), own';
        InPass(s0, s, own1, fds, i);
        own' := WakeOne(ids[i], own');
        PassedOne(s0, s, View(), own1, own', fds, i);
        i := i + 1;
      }
      PassDone(s0, View(), own', fds);
    }
  }

  lemma HeldLives(s: System, own: Owners, w: nat)
    requires Safe(s, own) && w < |s.workers| && !s.workers[w].Idle?
    ensures s.fault.None? && s.workers[w].id in s.live
  {
  }

  /** Epoll has a session under one descriptor only. */
  lemma OneDescriptor(s: System, own: Owners)
    requires Safe(s, own)
    ensures Single(s.epoll)
  {
    forall f, g | f in s.epoll && g in s.epoll && s.epoll[f].id == s.epoll[g].id ensures f == g {
      SameSession(s.epoll, s.live, own, f, g);
    }
  }

  lemma NoFault(s: System, own: Owners)
    requires Safe(s, own)
    ensures s.fault.None?
  {
  }
}
