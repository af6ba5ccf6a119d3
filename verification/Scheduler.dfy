/**
 The session operator: worker threads, one watcher thread, a shared queue and an epoll set pass
 sessions around. Every thread's next atomic step is a step of one shared system; a step that
 would touch a deleted session or misuse epoll records a fault.
 */
module Scheduler {
  import opened Results
  import opened Session

  type Id = nat
  type Fd = nat

  const MAX_EVENTS: nat := 100

  /** The descriptor that the watcher took out of epoll, and what it was registered for. */
  datatype Wake = Wake(fd: Fd, interest: Interest)

  /** A live session with its two sockets. woken is history: what the watcher took out of epoll for it
      since its last action. */
  datatype Entry = Entry(sess: Sess, clientFd: Fd, serverFd: Fd, woken: Option<Wake>)

  datatype Registration = Registration(id: Id, interest: Interest)

  /** A worker between two steps: about to pop, holding a popped session, or past its action. */
  datatype Worker = Idle | Holding(id: Id) | Acted(id: Id)

  /** The watcher: events still to handle, or a session just taken out of epoll. */
  datatype Watcher = Batch(ids: seq<Id>) | Removed(id: Id, ids: seq<Id>)

  datatype Fault = UseAfterDelete | AddPresent | DeleteWrong

  datatype System = System(
    queue: seq<Id>,
    workers: seq<Worker>,
    epoll: map<Fd, Registration>,
    watcher: Watcher,
    live: map<Id, Entry>,
    deleted: map<Id, Sess>,
    fault: Option<Fault>)

  datatype Step =
    | Accept(newId: Id, clientFd: Fd, serverFd: Fd)
    | Pop(w: nat)
    | Act(w: nat, inp: Input)
    | HandOn(w: nat)
    | Collect(fds: seq<Fd>)
    | Remove
    | Requeue

  function Start(workers: nat): System {
    System([], seq(workers, _ => Idle), map[], Batch([]), map[], map[], None)
  }

  function FdOf(e: Entry, i: Interest): Fd {
    if i.side.Client? then e.clientFd else e.serverFd
  }

  predicate Distinct(ids: seq<nat>) {
    forall i, j | 0 <= i < j < |ids| :: ids[i] != ids[j]
  }

  /** epoll_wait reports descriptors that are registered, each once. */
  predicate Reported(epoll: map<Fd, Registration>, fds: seq<Fd>) {
    Distinct(fds) && forall i | 0 <= i < |fds| :: fds[i] in epoll
  }

  /** The session pointers that come with the events. */
  function Sessions(epoll: map<Fd, Registration>, fds: seq<Fd>): (ids: seq<Id>)
    requires Reported(epoll, fds)
    ensures |ids| == |fds|
  {
    seq(|fds|, i requires 0 <= i < |fds| => epoll[fds[i]].id)
  }

  /** When the operating system, the peers or the program text let a step happen. A new session is
      a new object, and its sockets are not those of a live session. */
  predicate Enabled(s: System, step: Step) {
    s.fault.None? &&
    match step
    case Accept(id, c, v) =>
      && id !in s.live && id !in s.deleted && c != v
      && forall i | i in s.live :: SocketsApart(s.live[i], Entry(NEW_SESSION, c, v, None))
    case Pop(w) => w < |s.workers| && s.workers[w].Idle? && s.queue != []
    case Act(w, inp) => w < |s.workers| && s.workers[w].Holding? && ValidInput(inp)
    case HandOn(w) => w < |s.workers| && s.workers[w].Acted?
    case Collect(fds) => s.watcher == Batch([]) && |fds| <= MAX_EVENTS && Reported(s.epoll, fds)
    case Remove => s.watcher.Batch? && s.watcher.ids != []
    case Requeue => s.watcher.Removed?
  }

  function Do(s: System, step: Step): System
    requires Enabled(s, step)
  {
    match step
    case Accept(id, c, v) =>
      s.(live := s.live[id := Entry(NEW_SESSION, c, v, None)], queue := s.queue + [id])
    case Pop(w) =>
      s.(workers := s.workers[w := Holding(s.queue[0])], queue := s.queue[1..])
    case Act(w, inp) =>
      var id := s.workers[w].id;
      if id !in s.live then s.(fault := Some(UseAfterDelete))
      else
        var e := s.live[id];
        if e.sess.state.None? then
          s.(workers := s.workers[w := Idle], live := s.live - {id}, deleted := s.deleted[id := e.sess])
        else
          var e' := e.(sess := Next(e.sess, inp).sess, woken := None);
          s.(workers := s.workers[w := Acted(id)], live := s.live[id := e'])
    case HandOn(w) =>
      var id := s.workers[w].id;
      if id !in s.live then s.(fault := Some(UseAfterDelete))
      else
        var e := s.live[id];
        if !e.sess.waiting then s.(workers := s.workers[w := Idle], queue := s.queue + [id])
        else if e.sess.interest.None? || FdOf(e, e.sess.interest.value) in s.epoll then s.(fault := Some(AddPresent))
        else
          var i := e.sess.interest.value;
          s.(workers := s.workers[w := Idle], epoll := s.epoll[FdOf(e, i) := Registration(id, i)])
    case Collect(fds) => s.(watcher := Batch(Sessions(s.epoll, fds)))
    case Remove =>
      var id := s.watcher.ids[0];
      if id !in s.live then s.(fault := Some(UseAfterDelete))
      else
        var e := s.live[id];
        if e.sess.interest.None? then s.(fault := Some(DeleteWrong))
        else
          var fd := FdOf(e, e.sess.interest.value);
          if fd !in s.epoll || s.epoll[fd].id != id then s.(fault := Some(DeleteWrong))
          else
            s.(epoll := s.epoll - {fd}, watcher := Removed(id, s.watcher.ids[1..]),
               live := s.live[id := e.(woken := Some(Wake(fd, s.epoll[fd].interest)))])
    case Requeue => s.(queue := s.queue + [s.watcher.id], watcher := Batch(s.watcher.ids))
  }

  // ---------- who has a session ----------

  datatype Owner = InQueue | InHand(w: nat, acted: bool) | InEpoll | InBatch | InWatcher

  type Owners = map<Id, Owner>

  predicate QueueOwns(queue: seq<Id>, own: Owners) {
    && Distinct(queue)
    && (forall id | id in queue :: id in own && own[id] == InQueue)
    && (forall id | id in own && own[id] == InQueue :: id in queue)
  }

  function HandOf(w: nat, worker: Worker): Owner
    requires !worker.Idle?
  {
    InHand(w, worker.Acted?)
  }

  predicate WorkersOwn(workers: seq<Worker>, own: Owners) {
    && (forall w | 0 <= w < |workers| && !workers[w].Idle? ::
          workers[w].id in own && own[workers[w].id] == HandOf(w, workers[w]))
    && (forall id | id in own && own[id].InHand? ::
          own[id].w < |workers| && !workers[own[id].w].Idle? && workers[own[id].w].id == id)
  }

  predicate InEpollSet(o: Owner) {
    o.InEpoll? || o.InBatch?
  }

  predicate Registered(epoll: map<Fd, Registration>, id: Id, e: Entry) {
    && e.sess.interest.Some?
    && var fd := FdOf(e, e.sess.interest.value);
       fd in epoll && epoll[fd] == Registration(id, e.sess.interest.value)
  }

  predicate EpollOwns(epoll: map<Fd, Registration>, live: map<Id, Entry>, own: Owners) {
    && (forall fd | fd in epoll ::
          && epoll[fd].id in own && InEpollSet(own[epoll[fd].id])
          && epoll[fd].id in live && live[epoll[fd].id].sess.interest == Some(epoll[fd].interest)
          && fd == FdOf(live[epoll[fd].id], epoll[fd].interest))
    && (forall id | id in own && InEpollSet(own[id]) :: id in live && Registered(epoll, id, live[id]))
  }

  predicate WatcherOwns(watcher: Watcher, own: Owners) {
    && Distinct(watcher.ids)
    && (forall id | id in watcher.ids :: id in own && own[id] == InBatch)
    && (forall id | id in own && own[id] == InBatch :: id in watcher.ids)
    && (watcher.Removed? ==> watcher.id in own && own[watcher.id] == InWatcher)
    && (forall id | id in own && own[id] == InWatcher :: watcher.Removed? && watcher.id == id)
  }

  /** Every live session has exactly one owner: own is a function on the live sessions that says
      of each structure precisely what it holds. */
  predicate Owned(s: System, own: Owners) {
    && own.Keys == s.live.Keys
    && QueueOwns(s.queue, own) && WorkersOwn(s.workers, own)
    && EpollOwns(s.epoll, s.live, own) && WatcherOwns(s.watcher, own)
  }

  predicate SocketsApart(e: Entry, f: Entry) {
    e.clientFd != f.clientFd && e.clientFd != f.serverFd && e.serverFd != f.clientFd && e.serverFd != f.serverFd
  }

  predicate SocketsDisjoint(live: map<Id, Entry>) {
    && (forall i | i in live :: live[i].clientFd != live[i].serverFd)
    && (forall i, j | i in live && j in live && i != j :: SocketsApart(live[i], live[j]))
  }

  /** The watcher took the session's socket on that side out of epoll, registered for just this. */
  predicate WokenFor(e: Entry, i: Interest) {
    e.woken == Some(Wake(if i.side == Client then e.clientFd else e.serverFd, i))
  }

  /** The session keeps its own invariant, waits while in epoll, and when its next action is an
      I/O action it was woken for just that I/O. */
  predicate Fine(e: Entry, o: Owner) {
    && Inv(e.sess)
    && (InEpollSet(o) ==> e.sess.waiting)
    && ((o.InQueue? || o.InWatcher? || (o.InHand? && !o.acted)) && e.sess.state.Some? && Needs(e.sess.state.value).Some?
        ==> WokenFor(e, Needs(e.sess.state.value).value))
  }

  predicate AllFine(live: map<Id, Entry>, own: Owners) {
    forall id | id in live && id in own :: Fine(live[id], own[id])
  }

  predicate DeletedTerminated(s: System) {
    forall id | id in s.deleted :: id !in s.live && s.deleted[id].state.None?
  }

  predicate Safe(s: System, own: Owners) {
    s.fault.None? && Owned(s, own) && SocketsDisjoint(s.live) && AllFine(s.live, own) && DeletedTerminated(s)
  }

  // ---------- moving a session from one owner to another ----------

  lemma QueueEnter(queue: seq<Id>, own: Owners, id: Id)
    requires QueueOwns(queue, own) && (id in own ==> own[id] != InQueue)
    ensures QueueOwns(queue + [id], own[id := InQueue])
  {
  }

  lemma QueueLeave(queue: seq<Id>, own: Owners, o: Owner)
    requires QueueOwns(queue, own) && queue != [] && o != InQueue
    ensures queue[0] in own && own[queue[0]] == InQueue && QueueOwns(queue[1..], own[queue[0] := o])
  {
    assert queue == [queue[0]] + queue[1..];
  }

  lemma QueueElse(queue: seq<Id>, own: Owners, id: Id, o: Owner)
    requires QueueOwns(queue, own) && (id in own ==> own[id] != InQueue) && o != InQueue
    ensures QueueOwns(queue, own[id := o]) && QueueOwns(queue, own - {id})
  {
  }

  lemma WorkersHold(workers: seq<Worker>, own: Owners, w: nat)
    requires WorkersOwn(workers, own) && w < |workers| && !workers[w].Idle?
    ensures workers[w].id in own && own[workers[w].id] == HandOf(w, workers[w])
  {
  }

  lemma WorkersEnter(workers: seq<Worker>, own: Owners, w: nat, worker: Worker, id: Id)
    requires WorkersOwn(workers, own) && w < |workers| && !worker.Idle? && worker.id == id
    requires if workers[w].Idle? then id in own ==> !own[id].InHand? else workers[w].id == id
    ensures WorkersOwn(workers[w := worker], own[id := HandOf(w, worker)])
  {
  }

  lemma WorkersLeave(workers: seq<Worker>, own: Owners, w: nat, o: Owner)
    requires WorkersOwn(workers, own) && w < |workers| && !workers[w].Idle? && !o.InHand?
    ensures WorkersOwn(workers[w := Idle], own[workers[w].id := o])
            && WorkersOwn(workers[w := Idle], own - {workers[w].id})
  {
  }

  lemma WorkersElse(workers: seq<Worker>, own: Owners, id: Id, o: Owner)
    requires WorkersOwn(workers, own) && (id in own ==> !own[id].InHand?) && !o.InHand?
    ensures WorkersOwn(workers, own[id := o])
  {
  }

  lemma EpollElse(epoll: map<Fd, Registration>, live: map<Id, Entry>, own: Owners, id: Id, e: Entry, o: Owner)
    requires EpollOwns(epoll, live, own) && (id in own ==> !InEpollSet(own[id])) && !InEpollSet(o)
    ensures EpollOwns(epoll, live[id := e], own[id := o]) && EpollOwns(epoll, live - {id}, own - {id})
  {
  }

  lemma EpollEnter(epoll: map<Fd, Registration>, live: map<Id, Entry>, own: Owners, id: Id)
    requires EpollOwns(epoll, live, own) && SocketsDisjoint(live) && id in live && (id in own ==> !InEpollSet(own[id]))
    requires live[id].sess.interest.Some?
    ensures var i := live[id].sess.interest.value; var fd := FdOf(live[id], i);
            fd !in epoll && EpollOwns(epoll[fd := Registration(id, i)], live, own[id := InEpoll])
  {
    var i := live[id].sess.interest.value;
    var fd := FdOf(live[id], i);
    forall f | f in epoll ensures f != fd {
      assert SocketsApart(live[id], live[epoll[f].id]);
    }
  }

  lemma EpollLeave(epoll: map<Fd, Registration>, live: map<Id, Entry>, own: Owners, id: Id, e: Entry)
    requires EpollOwns(epoll, live, own) && SocketsDisjoint(live) && id in own && InEpollSet(own[id])
    requires id in live && e.clientFd == live[id].clientFd && e.serverFd == live[id].serverFd
    ensures Registered(epoll, id, live[id])
    ensures var fd := FdOf(live[id], live[id].sess.interest.value);
            EpollOwns(epoll - {fd}, live[id := e], own[id := InWatcher])
  {
    var fd := FdOf(live[id], live[id].sess.interest.value);
    var epoll', live', own' := epoll - {fd}, live[id := e], own[id := InWatcher];
    forall j | j in own' && InEpollSet(own'[j]) ensures j in live' && Registered(epoll', j, live'[j]) {
      assert Registered(epoll, j, live[j]);
      assert SocketsApart(live[id], live[j]);
    }
  }

  lemma WatcherElse(watcher: Watcher, own: Owners, id: Id, o: Owner)
    requires WatcherOwns(watcher, own) && !o.InBatch? && !o.InWatcher?
    requires id in own ==> !own[id].InBatch? && !own[id].InWatcher?
    ensures WatcherOwns(watcher, own[id := o]) && WatcherOwns(watcher, own - {id})
  {
  }

  lemma WatcherRemove(watcher: Watcher, own: Owners)
    requires WatcherOwns(watcher, own) && watcher.Batch? && watcher.ids != []
    ensures watcher.ids[0] in own && own[watcher.ids[0]] == InBatch
    ensures WatcherOwns(Removed(watcher.ids[0], watcher.ids[1..]), own[watcher.ids[0] := InWatcher])
  {
    assert watcher.ids == [watcher.ids[0]] + watcher.ids[1..];
  }

  lemma WatcherRequeue(watcher: Watcher, own: Owners)
    requires WatcherOwns(watcher, own) && watcher.Removed?
    ensures watcher.id in own && own[watcher.id] == InWatcher
    ensures WatcherOwns(Batch(watcher.ids), own[watcher.id := InQueue])
  {
  }

  lemma LiveEnter(live: map<Id, Entry>, own: Owners, id: Id, e: Entry, o: Owner)
    requires SocketsDisjoint(live) && AllFine(live, own) && own.Keys == live.Keys && id !in live && Fine(e, o)
    requires e.clientFd != e.serverFd && forall i | i in live :: SocketsApart(live[i], e)
    ensures SocketsDisjoint(live[id := e]) && AllFine(live[id := e], own[id := o])
  {
    hide Fine;
  }

  lemma LiveUpdate(live: map<Id, Entry>, own: Owners, id: Id, e: Entry, o: Owner)
    requires SocketsDisjoint(live) && AllFine(live, own) && own.Keys == live.Keys && id in live
    requires e.clientFd == live[id].clientFd && e.serverFd == live[id].serverFd && Fine(e, o)
    ensures SocketsDisjoint(live[id := e]) && AllFine(live[id := e], own[id := o])
  {
    hide Fine;
  }

  /** The session changes hands and is otherwise untouched. */
  lemma LiveMove(live: map<Id, Entry>, own: Owners, id: Id, o: Owner)
    requires SocketsDisjoint(live) && AllFine(live, own) && own.Keys == live.Keys && id in live && Fine(live[id], o)
    ensures live[id := live[id]] == live && AllFine(live, own[id := o])
  {
    LiveUpdate(live, own, id, live[id], o);
    assert live[id := live[id]] == live;
  }

  lemma LiveLeave(live: map<Id, Entry>, own: Owners, id: Id)
    requires SocketsDisjoint(live) && AllFine(live, own)
    ensures SocketsDisjoint(live - {id}) && AllFine(live - {id}, own - {id})
  {
    hide Fine;
  }

  lemma FineOf(live: map<Id, Entry>, own: Owners, id: Id)
    requires AllFine(live, own) && id in live && id in own
    ensures Fine(live[id], own[id])
  {
  }

  // ---------- every step keeps the invariant ----------

  lemma StartSafe(workers: nat)
    ensures Safe(Start(workers), map[])
  {
  }

  lemma AcceptSafe(s: System, own: Owners, step: Step)
    requires Safe(s, own) && Enabled(s, step) && step.Accept?
    ensures Safe(Do(s, step), own[step.newId := InQueue])
  {
    hide QueueOwns, WorkersOwn, EpollOwns, WatcherOwns, SocketsDisjoint, AllFine;
    var id, e := step.newId, Entry(NEW_SESSION, step.clientFd, step.serverFd, None);
    QueueEnter(s.queue, own, id);
    WorkersElse(s.workers, own, id, InQueue);
    EpollElse(s.epoll, s.live, own, id, e, InQueue);
    WatcherElse(s.watcher, own, id, InQueue);
    LiveEnter(s.live, own, id, e, InQueue);
  }

  lemma PopSafe(s: System, own: Owners, step: Step)
    requires Safe(s, own) && Enabled(s, step) && step.Pop?
    ensures Safe(Do(s, step), own[s.queue[0] := InHand(step.w, false)])
  {
    hide QueueOwns, WorkersOwn, EpollOwns, WatcherOwns, SocketsDisjoint, AllFine;
    var id, o := s.queue[0], InHand(step.w, false);
    QueueLeave(s.queue, own, o);
    WorkersEnter(s.workers, own, step.w, Holding(id), id);
    FineOf(s.live, own, id);
    LiveMove(s.live, own, id, o);
    EpollElse(s.epoll, s.live, own, id, s.live[id], o);
    WatcherElse(s.watcher, own, id, o);
  }

  lemma DeleteSafe(s: System, own: Owners, step: Step)
    requires Safe(s, own) && Enabled(s, step) && step.Act? && s.live[s.workers[step.w].id].sess.state.None?
    ensures Safe(Do(s, step), own - {s.workers[step.w].id})
  {
    hide QueueOwns, WorkersOwn, EpollOwns, WatcherOwns, SocketsDisjoint, AllFine;
    var id := s.workers[step.w].id;
    WorkersHold(s.workers, own, step.w);
    QueueElse(s.queue, own, id, InEpoll);
    WorkersLeave(s.workers, own, step.w, InQueue);
    LiveLeave(s.live, own, id);
    EpollElse(s.epoll, s.live, own, id, s.live[id], InQueue);
    WatcherElse(s.watcher, own, id, InQueue);
  }

  lemma ActSafe(s: System, own: Owners, step: Step)
    requires Safe(s, own) && Enabled(s, step) && step.Act? && s.live[s.workers[step.w].id].sess.state.Some?
    ensures Safe(Do(s, step), own[s.workers[step.w].id := InHand(step.w, true)])
  {
    hide QueueOwns, WorkersOwn, EpollOwns, WatcherOwns, SocketsDisjoint, AllFine, Inv, Next;
    var id := s.workers[step.w].id;
    WorkersHold(s.workers, own, step.w);
    var e, o := s.live[id], InHand(step.w, true);
    var e' := e.(sess := Next(e.sess, step.inp).sess, woken := None);
    FineOf(s.live, own, id);
    NextKeeps(e.sess, step.inp);
    QueueElse(s.queue, own, id, o);
    WorkersEnter(s.workers, own, step.w, Acted(id), id);
    LiveUpdate(s.live, own, id, e', o);
    EpollElse(s.epoll, s.live, own, id, e', o);
    WatcherElse(s.watcher, own, id, o);
  }

  lemma SubmitSafe(s: System, own: Owners, step: Step)
    requires Safe(s, own) && Enabled(s, step) && step.HandOn? && !s.live[s.workers[step.w].id].sess.waiting
    ensures Safe(Do(s, step), own[s.workers[step.w].id := InQueue])
  {
    hide QueueOwns, WorkersOwn, EpollOwns, WatcherOwns, SocketsDisjoint, AllFine;
    var id := s.workers[step.w].id;
    WorkersHold(s.workers, own, step.w);
    QueueEnter(s.queue, own, id);
    WorkersLeave(s.workers, own, step.w, InQueue);
    FineOf(s.live, own, id);
    LiveMove(s.live, own, id, InQueue);
    EpollElse(s.epoll, s.live, own, id, s.live[id], InQueue);
    WatcherElse(s.watcher, own, id, InQueue);
  }

  lemma WatchSafe(s: System, own: Owners, step: Step)
    requires Safe(s, own) && Enabled(s, step) && step.HandOn? && s.live[s.workers[step.w].id].sess.waiting
    ensures Safe(Do(s, step), own[s.workers[step.w].id := InEpoll])
  {
    hide QueueOwns, WorkersOwn, EpollOwns, WatcherOwns, SocketsDisjoint, AllFine;
    var id := s.workers[step.w].id;
    WorkersHold(s.workers, own, step.w);
    QueueElse(s.queue, own, id, InEpoll);
    WorkersLeave(s.workers, own, step.w, InEpoll);
    FineOf(s.live, own, id);
    LiveMove(s.live, own, id, InEpoll);
    EpollEnter(s.epoll, s.live, own, id);
    WatcherElse(s.watcher, own, id, InEpoll);
  }

  function Gathered(own: Owners, ids: seq<Id>): Owners {
    map id | id in own :: if id in ids then InBatch else own[id]
  }

  /** Distinct descriptors belong to distinct sessions, none of them in the queue or a hand. */
  lemma CollectFrom(epoll: map<Fd, Registration>, live: map<Id, Entry>, watcher: Watcher, own: Owners, fds: seq<Fd>)
    requires EpollOwns(epoll, live, own) && WatcherOwns(watcher, own) && watcher == Batch([]) && Reported(epoll, fds)
    ensures Distinct(Sessions(epoll, fds))
    ensures forall id | id in Sessions(epoll, fds) :: id in own && own[id] == InEpoll
  {
    hide Registered;
    var ids := Sessions(epoll, fds);
    forall id | id in ids ensures id in own && own[id] == InEpoll {
      var i :| 0 <= i < |ids| && ids[i] == id;
      assert fds[i] in epoll && epoll[fds[i]].id == id && id !in watcher.ids;
    }
    forall i, j | 0 <= i < j < |ids| ensures ids[i] != ids[j] {
      assert fds[i] in epoll && fds[j] in epoll && fds[i] != fds[j];
      if ids[i] == ids[j] { SameSession(epoll, live, own, fds[i], fds[j]); }
    }
  }

  lemma SameSession(epoll: map<Fd, Registration>, live: map<Id, Entry>, own: Owners, f: Fd, g: Fd)
    requires EpollOwns(epoll, live, own) && f in epoll && g in epoll && epoll[f].id == epoll[g].id
    ensures f == g
  {
  }

  lemma CollectOthers(queue: seq<Id>, workers: seq<Worker>, watcher: Watcher, own: Owners, ids: seq<Id>)
    requires QueueOwns(queue, own) && WorkersOwn(workers, own) && WatcherOwns(watcher, own) && watcher == Batch([])
    requires Distinct(ids) && forall id | id in ids :: id in own && own[id] == InEpoll
    ensures QueueOwns(queue, Gathered(own, ids)) && WorkersOwn(workers, Gathered(own, ids))
    ensures WatcherOwns(Batch(ids), Gathered(own, ids))
  {
  }

  lemma CollectEpoll(epoll: map<Fd, Registration>, live: map<Id, Entry>, own: Owners, ids: seq<Id>)
    requires EpollOwns(epoll, live, own) && own.Keys == live.Keys && AllFine(live, own)
    requires forall id | id in ids :: id in own && own[id] == InEpoll
    ensures EpollOwns(epoll, live, Gathered(own, ids)) && AllFine(live, Gathered(own, ids))
  {
    hide Inv, Registered;
    forall id | id in live && id in own ensures Fine(live[id], Gathered(own, ids)[id]) {
      FineOf(live, own, id);
    }
  }

  lemma CollectSafe(s: System, own: Owners, step: Step)
    requires Safe(s, own) && Enabled(s, step) && step.Collect?
    ensures Safe(Do(s, step), Gathered(own, Sessions(s.epoll, step.fds)))
  {
    hide QueueOwns, WorkersOwn, EpollOwns, WatcherOwns, SocketsDisjoint, AllFine;
    hide Sessions, Reported;
    var ids := Sessions(s.epoll, step.fds);
    CollectFrom(s.epoll, s.live, s.watcher, own, step.fds);
    CollectOthers(s.queue, s.workers, s.watcher, own, ids);
    CollectEpoll(s.epoll, s.live, own, ids);
  }

  lemma RemoveSafe(s: System, own: Owners, step: Step)
    requires Safe(s, own) && Enabled(s, step) && step.Remove?
    ensures Safe(Do(s, step), own[s.watcher.ids[0] := InWatcher])
  {
    hide QueueOwns, WorkersOwn, EpollOwns, WatcherOwns, SocketsDisjoint, AllFine;
    var id := s.watcher.ids[0];
    WatcherRemove(s.watcher, own);
    var e := s.live[id];
    QueueElse(s.queue, own, id, InWatcher);
    WorkersElse(s.workers, own, id, InWatcher);
    FineOf(s.live, own, id);
    assert e.sess.interest.Some?;
    var i := e.sess.interest.value;
    var e' := e.(woken := Some(Wake(FdOf(e, i), i)));
    EpollLeave(s.epoll, s.live, own, id, e');
    LiveUpdate(s.live, own, id, e', InWatcher);
  }

  lemma RequeueSafe(s: System, own: Owners, step: Step)
    requires Safe(s, own) && Enabled(s, step) && step.Requeue?
    ensures Safe(Do(s, step), own[s.watcher.id := InQueue])
  {
    hide QueueOwns, WorkersOwn, EpollOwns, WatcherOwns, SocketsDisjoint, AllFine;
    var id := s.watcher.id;
    WatcherRequeue(s.watcher, own);
    QueueEnter(s.queue, own, id);
    WorkersElse(s.workers, own, id, InQueue);
    FineOf(s.live, own, id);
    LiveMove(s.live, own, id, InQueue);
    EpollElse(s.epoll, s.live, own, id, s.live[id], InQueue);
  }

  lemma StepSafe(s: System, own: Owners, step: Step) returns (own': Owners)
    requires Safe(s, own) && Enabled(s, step)
    ensures Safe(Do(s, step), own')
  {
    match step
    case Accept(id, _, _) => AcceptSafe(s, own, step); own' := own[id := InQueue];
    case Pop(w) => PopSafe(s, own, step); own' := own[s.queue[0] := InHand(w, false)];
    case Act(w, _) =>
      var id := s.workers[w].id;
      if s.live[id].sess.state.None? {
        DeleteSafe(s, own, step);
        own' := own - {id};
      } else {
        ActSafe(s, own, step);
        own' := own[id := InHand(w, true)];
      }
    case HandOn(w) =>
      var id := s.workers[w].id;
      if s.live[id].sess.waiting {
        WatchSafe(s, own, step);
        own' := own[id := InEpoll];
      } else {
        SubmitSafe(s, own, step);
        own' := own[id := InQueue];
      }
    case Collect(fds) => CollectSafe(s, own, step); own' := Gathered(own, Sessions(s.epoll, fds));
    case Remove => RemoveSafe(s, own, step); own' := own[s.watcher.ids[0] := InWatcher];
    case Requeue => RequeueSafe(s, own, step); own' := own[s.watcher.id := InQueue];
  }

  // ---------- every interleaving ----------

  /** The steps can be taken one after the other from s. */
  predicate Runnable(s: System, steps: seq<Step>)
    decreases |steps|
  {
    steps == [] || (Enabled(s, steps[0]) && Runnable(Do(s, steps[0]), steps[1..]))
  }

  function RunOf(s: System, steps: seq<Step>): System
    requires Runnable(s, steps)
    decreases |steps|
  {
    if steps == [] then s else RunOf(Do(s, steps[0]), steps[1..])
  }

  lemma {:induction false} RunSafe(s: System, own: Owners, steps: seq<Step>) returns (own': Owners)
    requires Safe(s, own) && Runnable(s, steps)
    ensures Safe(RunOf(s, steps), own')
    decreases |steps|
  {
    if steps == [] {
      own' := own;
    } else {
      own' := StepSafe(s, own, steps[0]);
      own' := RunSafe(Do(s, steps[0]), own', steps[1..]);
    }
  }

  /** In every interleaving of workers, watcher and arrivals no step touches a deleted session, adds
      a descriptor that epoll has, or removes another than was added; every live session has exactly
      one owner; and only terminated sessions are deleted, once each. */
  lemma EveryRunSafe(workers: nat, steps: seq<Step>) returns (own: Owners)
    requires Runnable(Start(workers), steps)
    ensures Safe(RunOf(Start(workers), steps), own)
  {
    StartSafe(workers);
    own := RunSafe(Start(workers), map[], steps);
  }

  ghost predicate Held(s: System, w: nat, id: Id) {
    w < |s.workers| && !s.workers[w].Idle? && s.workers[w].id == id
  }

  ghost predicate HeldBySome(s: System, id: Id) {
    exists w :: Held(s, w, id)
  }

  ghost predicate Watched(s: System, fd: Fd, id: Id) {
    fd in s.epoll && s.epoll[fd].id == id
  }

  ghost predicate WatchedBySome(s: System, id: Id) {
    exists fd :: Watched(s, fd, id)
  }

  predicate Taken(s: System, id: Id) {
    s.watcher.Removed? && s.watcher.id == id
  }

  /** Read off the owners: the queue, the workers' hands, epoll and the watcher's hand exclude each
      other and one of them has the session, in one hand and under one descriptor at most. */
  lemma ExactlyOnePlace(s: System, own: Owners, id: Id)
    requires Safe(s, own) && id in s.live
    ensures id in s.queue || HeldBySome(s, id) || WatchedBySome(s, id) || Taken(s, id)
    ensures id in s.queue ==> !HeldBySome(s, id) && !WatchedBySome(s, id) && !Taken(s, id)
    ensures HeldBySome(s, id) ==> !WatchedBySome(s, id) && !Taken(s, id)
    ensures WatchedBySome(s, id) ==> !Taken(s, id)
    ensures forall v, w :: Held(s, v, id) && Held(s, w, id) ==> v == w
    ensures forall f, g :: Watched(s, f, id) && Watched(s, g, id) ==> f == g
  {
    hide Inv, Fine, SocketsDisjoint, AllFine;
    match own[id]
    case InHand(w, _) => assert Held(s, w, id);
    case InEpoll => RegisteredWatched(s, own, id);
    case InBatch => RegisteredWatched(s, own, id);
    case _ =>
  }

  lemma RegisteredWatched(s: System, own: Owners, id: Id)
    requires Owned(s, own) && id in own && InEpollSet(own[id])
    ensures WatchedBySome(s, id)
  {
    assert Registered(s.epoll, id, s.live[id]);
    assert Watched(s, FdOf(s.live[id], s.live[id].sess.interest.value), id);
  }

  /** No receive or forward action runs unless, since the session's previous action, the watcher
      took it out of epoll for the very socket and direction that action uses. */
  lemma ActionsAreWoken(workers: nat, steps: seq<Step>, step: Step)
    requires Runnable(Start(workers), steps) && step.Act? && Enabled(RunOf(Start(workers), steps), step)
    ensures var s := RunOf(Start(workers), steps); var id := s.workers[step.w].id;
            id in s.live && var e := s.live[id];
            && (e.sess.state == Some(ReceiveRequest) ==> e.woken == Some(Wake(e.clientFd, Interest(Client, In))))
            && (e.sess.state == Some(ForwardRequest) ==> e.woken == Some(Wake(e.serverFd, Interest(Server, Out))))
            && (e.sess.state == Some(ReceiveResponse) ==> e.woken == Some(Wake(e.serverFd, Interest(Server, In))))
            && (e.sess.state == Some(ForwardResponse) ==> e.woken == Some(Wake(e.clientFd, Interest(Client, Out))))
  {
    hide Fine, Owned, SocketsDisjoint, AllFine, Runnable, RunOf;
    var own := EveryRunSafe(workers, steps);
    HeldIsWoken(RunOf(Start(workers), steps), own, step);
  }

  lemma HeldIsWoken(s: System, own: Owners, step: Step)
    requires Safe(s, own) && step.Act? && Enabled(s, step)
    ensures s.workers[step.w].id in s.live
    ensures var e := s.live[s.workers[step.w].id];
            e.sess.state.Some? && Needs(e.sess.state.value).Some? ==> WokenFor(e, Needs(e.sess.state.value).value)
  {
    hide QueueOwns, EpollOwns, WatcherOwns, SocketsDisjoint, AllFine, Inv;
    FineOf(s.live, own, s.workers[step.w].id);
  }

  /** In every reachable state what epoll watches is the right socket, for what the session's next
      action needs: the client's to receive a request or forward a response, the server's to forward a
      request or receive a response. */
  lemma RightSocketWatched(workers: nat, steps: seq<Step>, fd: Fd)
    requires Runnable(Start(workers), steps) && fd in RunOf(Start(workers), steps).epoll
    ensures var s := RunOf(Start(workers), steps); var Registration(id, i) := s.epoll[fd];
            id in s.live && var e := s.live[id];
            && (i.side == Client ==> fd == e.clientFd) && (i.side == Server ==> fd == e.serverFd)
            && (e.sess.state == Some(ReceiveRequest) ==> i == Interest(Client, In) && fd == e.clientFd)
            && (e.sess.state == Some(ForwardRequest) ==> i == Interest(Server, Out) && fd == e.serverFd)
            && (e.sess.state == Some(ReceiveResponse) ==> i == Interest(Server, In) && fd == e.serverFd)
            && (e.sess.state == Some(ForwardResponse) ==> i == Interest(Client, Out) && fd == e.clientFd)
            && (e.sess.state.None? || e.sess.state.value in
                  {ReceiveRequest, ForwardRequest, ReceiveResponse, ForwardResponse})
  {
    hide Fine, Owned, SocketsDisjoint, AllFine, Runnable, RunOf;
    var own := EveryRunSafe(workers, steps);
    WatchedFor(RunOf(Start(workers), steps), own, fd);
  }

  lemma WatchedFor(s: System, own: Owners, fd: Fd)
    requires Safe(s, own) && fd in s.epoll
    ensures var Registration(id, i) := s.epoll[fd];
            id in s.live && var e := s.live[id];
            && fd == (if i.side == Client then e.clientFd else e.serverFd)
            && (e.sess.state.Some? ==> Needs(e.sess.state.value) == Some(i))
  {
    hide QueueOwns, WorkersOwn, WatcherOwns, SocketsDisjoint, AllFine;
    var id := s.epoll[fd].id;
    assert id in own && InEpollSet(own[id]);
    FineOf(s.live, own, id);
  }

  // ---------- the queue is first in, first out ----------

  function Pops(steps: seq<Step>): nat {
    if steps == [] then 0 else (if steps[0].Pop? then 1 else 0) + Pops(steps[1..])
  }

  /** A pop gives the worker the front of the queue; every other step leaves the queue or adds at its end. */
  lemma StepQueue(s: System, step: Step)
    requires Enabled(s, step)
    ensures var s' := Do(s, step);
            if step.Pop? then s'.queue == s.queue[1..] && s'.workers[step.w] == Holding(s.queue[0])
            else s.queue <= s'.queue
  {
    hide Next, ValidInput, Reported, SocketsApart;
  }

  /** Whatever else happens, a queued session moves up by one place with each pop and is not overtaken. */
  lemma {:induction false} QueueIsFifo(s: System, steps: seq<Step>, i: nat)
    requires Runnable(s, steps) && i < |s.queue| && Pops(steps) <= i
    ensures var s', n := RunOf(s, steps), i - Pops(steps);
            n < |s'.queue| && s'.queue[n] == s.queue[i]
    decreases |steps|
  {
    hide Enabled, Do;
    if steps != [] {
      StepQueue(s, steps[0]);
      QueueIsFifo(Do(s, steps[0]), steps[1..], if steps[0].Pop? then i - 1 else i);
    }
  }

  // ---------- the workers drain the queue ----------

  /** How many times a session is popped before it reaches epoll or is deleted. */
  function Rank(sess: Sess): nat {
    match sess.state
    case None => 1
    case Some(st) =>
      match st
      case PrepareToReceiveRequest => 1
      case PrepareToForwardRequest => 1
      case PrepareToReceiveResponse => 1
      case PrepareToForwardResponse => 1
      case ReceiveRequest => 3
      case ReceiveResponse => 3
      case ForwardResponse => 3
      case _ => 2
  }

  /** An action either leaves the session waiting or one rank lower. */
  lemma RankFalls(sess: Sess, inp: Input)
    requires Inv(sess) && sess.state.Some? && ValidInput(inp)
    ensures 1 <= Rank(sess) <= 3
    ensures var after := Next(sess, inp).sess; after.waiting || Rank(after) < Rank(sess)
  {
  }

  function QueuedWork(queue: seq<Id>, live: map<Id, Entry>): nat {
    if queue == [] then 0
    else (if queue[0] in live then 3 * Rank(live[queue[0]].sess) else 0) + QueuedWork(queue[1..], live)
  }

  function WorkOf(worker: Worker, live: map<Id, Entry>): nat {
    if worker.Idle? || worker.id !in live then 0
    else
      var sess := live[worker.id].sess;
      if worker.Holding? then 3 * Rank(sess) - 1 else if sess.waiting then 1 else 3 * Rank(sess) + 1
  }

  function HeldWork(workers: seq<Worker>, live: map<Id, Entry>): nat {
    if workers == [] then 0 else WorkOf(workers[0], live) + HeldWork(workers[1..], live)
  }

  /** The worker steps still to come, from the ranks of queued and held sessions. */
  function Work(s: System): nat {
    QueuedWork(s.queue, s.live) + HeldWork(s.workers, s.live)
  }

  predicate OfWorker(step: Step) {
    step.Pop? || step.Act? || step.HandOn?
  }

  /** The two maps agree on every session but one. */
  predicate SameBut(live: map<Id, Entry>, live': map<Id, Entry>, id: Id) {
    && (forall i | i in live && i != id :: i in live' && live'[i] == live[i])
    && (forall i | i in live' && i != id :: i in live)
  }

  lemma {:induction false} QueuedAppend(queue: seq<Id>, id: Id, live: map<Id, Entry>)
    requires id in live
    ensures QueuedWork(queue + [id], live) == QueuedWork(queue, live) + 3 * Rank(live[id].sess)
  {
    if queue == [] {
      assert queue + [id] == [id] && [id][1..] == [];
    } else {
      assert (queue + [id])[1..] == queue[1..] + [id];
      QueuedAppend(queue[1..], id, live);
    }
  }

  /** What is done to a session that is not queued leaves the queue's work as it is. */
  lemma {:induction false} QueuedFrame(queue: seq<Id>, live: map<Id, Entry>, live': map<Id, Entry>, id: Id)
    requires id !in queue && SameBut(live, live', id)
    ensures QueuedWork(queue, live') == QueuedWork(queue, live)
  {
    if queue != [] {
      QueuedFrame(queue[1..], live, live', id);
    }
  }

  /** Replacing one worker, and the session it alone holds, changes the held work by its share. */
  lemma {:induction false} HeldReplace(workers: seq<Worker>, w: nat, worker: Worker, live: map<Id, Entry>,
                                       live': map<Id, Entry>, id: Id)
    requires w < |workers| && SameBut(live, live', id)
    requires forall v | 0 <= v < |workers| && v != w && !workers[v].Idle? :: workers[v].id != id
    ensures HeldWork(workers[w := worker], live') + WorkOf(workers[w], live)
            == HeldWork(workers, live) + WorkOf(worker, live')
  {
    if w == 0 {
      assert workers[0 := worker][1..] == workers[1..];
      HeldFrame(workers[1..], live, live', id);
    } else {
      assert workers[w := worker][1..] == workers[1..][w - 1 := worker];
      WorkFrame(workers[0], live, live', id);
      HeldReplace(workers[1..], w - 1, worker, live, live', id);
    }
  }

  lemma WorkFrame(worker: Worker, live: map<Id, Entry>, live': map<Id, Entry>, id: Id)
    requires SameBut(live, live', id)
    requires worker.Idle? || worker.id != id
    ensures WorkOf(worker, live') == WorkOf(worker, live)
  {
  }

  lemma {:induction false} HeldFrame(workers: seq<Worker>, live: map<Id, Entry>, live': map<Id, Entry>, id: Id)
    requires SameBut(live, live', id)
    requires forall v | 0 <= v < |workers| && !workers[v].Idle? :: workers[v].id != id
    ensures HeldWork(workers, live') == HeldWork(workers, live)
  {
    if workers != [] {
      WorkFrame(workers[0], live, live', id);
      HeldFrame(workers[1..], live, live', id);
    }
  }

  /** A held session is in no other hand and not in the queue. */
  lemma HeldAlone(s: System, own: Owners, w: nat)
    requires Owned(s, own) && w < |s.workers| && !s.workers[w].Idle?
    ensures s.workers[w].id in s.live && s.workers[w].id !in s.queue
    ensures forall v | 0 <= v < |s.workers| && v != w && !s.workers[v].Idle? :: s.workers[v].id != s.workers[w].id
  {
  }

  lemma PopWorks(s: System, own: Owners, step: Step)
    requires Safe(s, own) && Enabled(s, step) && step.Pop?
    ensures Work(Do(s, step)) < Work(s)
  {
    hide WorkersOwn, EpollOwns, WatcherOwns, SocketsDisjoint, AllFine, Inv;
    var id := s.queue[0];
    assert id in own && own[id] == InQueue;
    forall v | 0 <= v < |s.workers| && !s.workers[v].Idle? ensures s.workers[v].id != id {
      HeldAlone(s, own, v);
    }
    HeldReplace(s.workers, step.w, Holding(id), s.live, s.live, id);
  }

  lemma ActWorks(s: System, own: Owners, step: Step)
    requires Safe(s, own) && Enabled(s, step) && step.Act?
    ensures Work(Do(s, step)) < Work(s)
  {
    hide QueueOwns, WorkersOwn, EpollOwns, WatcherOwns, SocketsDisjoint, AllFine, Inv, Next;
    HeldAlone(s, own, step.w);
    var id := s.workers[step.w].id;
    FineOf(s.live, own, id);
    var s' := Do(s, step);
    QueuedFrame(s.queue, s.live, s'.live, id);
    HeldReplace(s.workers, step.w, s'.workers[step.w], s.live, s'.live, id);
    if s.live[id].sess.state.Some? { RankFalls(s.live[id].sess, step.inp); }
  }

  lemma HandOnWorks(s: System, own: Owners, step: Step)
    requires Safe(s, own) && Enabled(s, step) && step.HandOn?
    requires Do(s, step).fault.None?
    ensures Work(Do(s, step)) < Work(s)
  {
    hide QueueOwns, WorkersOwn, EpollOwns, WatcherOwns, SocketsDisjoint, AllFine, Inv;
    HeldAlone(s, own, step.w);
    var id := s.workers[step.w].id;
    HeldReplace(s.workers, step.w, Idle, s.live, s.live, id);
    QueuedAppend(s.queue, id, s.live);
  }

  /** With no new events, every worker step uses up work: the workers take no more steps than the
      ranks of queued and held sessions allow. */
  lemma {:induction false} WorkDrains(s: System, own: Owners, steps: seq<Step>)
    requires Safe(s, own) && Runnable(s, steps) && forall i | 0 <= i < |steps| :: OfWorker(steps[i])
    ensures |steps| + Work(RunOf(s, steps)) <= Work(s)
    decreases |steps|
  {
    hide Owned, SocketsDisjoint, AllFine;
    if steps != [] {
      assert OfWorker(steps[0]);
      var own' := StepSafe(s, own, steps[0]);
      match steps[0] {
        case Pop(_) => PopWorks(s, own, steps[0]);
        case Act(_, _) => ActWorks(s, own, steps[0]);
        case HandOn(_) => HandOnWorks(s, own, steps[0]);
      }
      WorkDrains(Do(s, steps[0]), own', steps[1..]);
    }
  }

  const QUIET_INPUT: Input :=
    Input([], Buffers.Closed, 0, seq(PRE_REQUEST_PLUGINS, _ => PluginRun(None, Pass)),
          seq(POST_RESPONSE_PLUGINS, _ => PluginRun(None, Pass)), false)

  /** When the workers can do nothing more, the queue is empty and every session that is left waits
      in epoll or is with the watcher. */
  lemma DrainedSessionsWait(s: System, own: Owners, id: Id)
    requires Safe(s, own) && |s.workers| > 0 && id in s.live
    requires forall step | OfWorker(step) :: !Enabled(s, step)
    ensures s.queue == [] && !HeldBySome(s, id)
    ensures Taken(s, id) || (WatchedBySome(s, id) && s.live[id].sess.waiting)
  {
    hide Inv, SocketsDisjoint, EpollOwns, WatcherOwns;
    forall w | 0 <= w < |s.workers| ensures s.workers[w].Idle? {
      assert OfWorker(Act(w, QUIET_INPUT)) && OfWorker(HandOn(w));
      assert ValidInput(QUIET_INPUT);
    }
    assert OfWorker(Pop(0));
    ExactlyOnePlace(s, own, id);
    if WatchedBySome(s, id) { WatchedWaits(s, own, id); }
  }

  lemma WatchedWaits(s: System, own: Owners, id: Id)
    requires Safe(s, own) && WatchedBySome(s, id)
    ensures id in s.live && s.live[id].sess.waiting
  {
    var fd :| Watched(s, fd, id);
    FineOf(s.live, own, id);
  }
}
