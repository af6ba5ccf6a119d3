/**
 A double-ended queue shared by many clients, with no positions, sequence or locks in sight; and
 the proof that the deque table behaves as one on every run.
 */
module SharedDeque {
  import opened Results
  import opened DequeTable

  /** One element, and the client that holds it. */
  datatype Cell = Cell(data: Data, holder: Option<Client>)

  type Deque = seq<Cell>

  datatype Result = Result(deque: Deque, reply: Reply)

  /** The last (first) element nobody holds. */
  function LastFree(d: Deque): (r: Option<nat>)
    ensures r.Some? ==> r.value < |d| && d[r.value].holder.None? && forall i | r.value < i < |d| :: d[i].holder.Some?
    ensures r.None? ==> forall i | 0 <= i < |d| :: d[i].holder.Some?
  {
    if d == [] then None
    else if d[|d| - 1].holder.None? then Some(|d| - 1)
    else LastFree(d[..|d| - 1])
  }

  function FirstFree(d: Deque): (r: Option<nat>)
    ensures r.Some? ==> r.value < |d| && d[r.value].holder.None? && forall i | 0 <= i < r.value :: d[i].holder.Some?
    ensures r.None? ==> forall i | 0 <= i < |d| :: d[i].holder.Some?
  {
    if d == [] then None
    else if d[0].holder.None? then Some(0)
    else
      var r := FirstFree(d[1..]);
      if r.None? then None else Some(r.value + 1)
  }

  function Free(d: Deque, at: End): Option<nat> {
    if at.BackEnd? then LastFree(d) else FirstFree(d)
  }

  /** Where the element is that the client holds. */
  function HeldAt(d: Deque, c: Client): (r: Option<nat>)
    ensures r.Some? ==> r.value < |d| && d[r.value].holder == Some(c)
    ensures r.None? ==> forall i | 0 <= i < |d| :: d[i].holder != Some(c)
  {
    if d == [] then None
    else if d[|d| - 1].holder == Some(c) then Some(|d| - 1)
    else HeldAt(d[..|d| - 1], c)
  }

  function Without<T>(s: seq<T>, k: nat): seq<T>
    requires k < |s|
  {
    s[..k] + s[k + 1..]
  }

  function Act(d: Deque, step: Step): Result {
    var mine := HeldAt(d, step.c);
    match step
    case Push(_, at, data, accepted, _) =>
      if mine.Some? || !accepted then Result(d, Failed)
      else Result(if at.BackEnd? then d + [Cell(data, None)] else [Cell(data, None)] + d, Done)
    case Hold(c, at) =>
      var i := Free(d, at);
      if mine.Some? || i.None? then Result(d, Failed)
      else Result(d[i.value := d[i.value].(holder := Some(c))], Item(d[i.value].data))
    case Pop(_) =>
      if mine.None? then Result(d, Failed) else Result(Without(d, mine.value), Done)
    case Release(_) =>
      if mine.None? then Result(d, Done) else Result(d[mine.value := d[mine.value].(holder := None)], Done)
  }

  // ---------- the table as a deque ----------

  /** The client whose transaction has the row locked. */
  ghost predicate Locks(t: Table, c: Client, p: Pos) {
    c in t.held && t.held[c] == p
  }

  ghost predicate CellOf(t: Table, p: Pos, cell: Cell) {
    && p in t.rows && t.rows[p] == cell.data
    && (forall c: Client :: Locks(t, c, p) <==> cell.holder == Some(c))
  }

  predicate Increasing(ps: seq<Pos>) {
    forall i, j | 0 <= i < j < |ps| :: ps[i] < ps[j]
  }

  /** Sorted by position, the table's rows are the deque. */
  ghost predicate Shows(t: Table, ps: seq<Pos>, d: Deque) {
    && |ps| == |d| && Increasing(ps)
    && (forall i | 0 <= i < |ps| :: CellOf(t, ps[i], d[i]))
    && (forall p | p in t.rows :: p in ps)
  }

  lemma HolderShows(t: Table, ps: seq<Pos>, d: Deque, c: Client)
    requires Good(t) && Shows(t, ps, d)
    ensures c in t.held <==> HeldAt(d, c).Some?
    ensures c in t.held ==> ps[HeldAt(d, c).value] == t.held[c]
  {
    if c in t.held {
      assert Locks(t, c, t.held[c]);
      var i :| 0 <= i < |ps| && ps[i] == t.held[c];
      assert CellOf(t, ps[i], d[i]);
    }
    if HeldAt(d, c).Some? {
      var i := HeldAt(d, c).value;
      assert CellOf(t, ps[i], d[i]);
      assert Locks(t, c, ps[i]);
    }
  }

  lemma FreeIffUnlocked(t: Table, ps: seq<Pos>, d: Deque, i: nat)
    requires Shows(t, ps, d) && i < |d|
    ensures d[i].holder.None? <==> ps[i] in Unlocked(t)
  {
    assert CellOf(t, ps[i], d[i]);
    if ps[i] in t.held.Values {
      var c :| c in t.held && t.held[c] == ps[i];
      assert Locks(t, c, ps[i]);
    }
    if d[i].holder.Some? {
      assert Locks(t, d[i].holder.value, ps[i]);
    }
  }

  /** The outermost unlocked row is the outermost free element. */
  lemma FreeShows(t: Table, ps: seq<Pos>, d: Deque, at: End)
    requires Shows(t, ps, d)
    ensures Inhabited(Unlocked(t)) <==> Free(d, at).Some?
    ensures Free(d, at).Some? ==> ps[Free(d, at).value] == Outermost(Unlocked(t), at)
  {
    if Free(d, at).Some? {
      var i := Free(d, at).value;
      FreeIffUnlocked(t, ps, d, i);
      var m := Outermost(Unlocked(t), at);
      var j :| 0 <= j < |ps| && ps[j] == m;
      FreeIffUnlocked(t, ps, d, j);
    }
    if Inhabited(Unlocked(t)) {
      var p :| p in Unlocked(t);
      var j :| 0 <= j < |ps| && ps[j] == p;
      FreeIffUnlocked(t, ps, d, j);
    }
  }

  lemma PushShows(t: Table, ps: seq<Pos>, d: Deque, step: Step) returns (ps': seq<Pos>)
    requires Good(t) && Shows(t, ps, d) && step.Push?
    ensures Do(t, step).reply == Act(d, step).reply && Shows(Do(t, step).table, ps', Act(d, step).deque)
  {
    HolderShows(t, ps, d, step.c);
    var t', d' := Do(t, step).table, Act(d, step).deque;
    ps' := ps;
    if step.c !in t.held && step.accepted {
      PushBeyond(t, step.at);
      var p := PosOf(t.nextSeq, step.at);
      ps' := if step.at.BackEnd? then ps + [p] else [p] + ps;
      hide CellOf, Good;
      forall i | 0 <= i < |ps'| ensures CellOf(t', ps'[i], d'[i]) {
        var j := if step.at.BackEnd? then i else i - 1;
        if 0 <= j < |ps| {
          assert ps'[i] == ps[j] && d'[i] == d[j];
          CellBeside(t, t', p, step.data, ps[j], d[j]);
        } else {
          NewCell(t, t', p, step.data);
        }
      }
    } else {
      SameLocks(t, t', ps, d);
    }
  }

  lemma CellBeside(t: Table, t': Table, p: Pos, data: Data, q: Pos, cell: Cell)
    requires CellOf(t, q, cell) && p != q && t'.rows == t.rows[p := data] && t'.held == t.held
    ensures CellOf(t', q, cell)
  {
    assert forall c: Client :: Locks(t', c, q) <==> Locks(t, c, q);
  }

  lemma NewCell(t: Table, t': Table, p: Pos, data: Data)
    requires Good(t) && p !in t.rows && t'.rows == t.rows[p := data] && t'.held == t.held
    ensures CellOf(t', p, Cell(data, None))
  {
    assert forall c: Client :: !Locks(t', c, p);
  }

  lemma SameLocks(t: Table, t': Table, ps: seq<Pos>, d: Deque)
    requires Shows(t, ps, d) && t'.rows == t.rows && t'.held == t.held
    ensures Shows(t', ps, d)
  {
    forall i | 0 <= i < |ps| ensures CellOf(t', ps[i], d[i]) {
      assert CellOf(t, ps[i], d[i]);
      assert forall c :: Locks(t', c, ps[i]) <==> Locks(t, c, ps[i]);
    }
  }

  /** The client's lock moves on to row k, or to none. */
  lemma Relocked(t: Table, t': Table, ps: seq<Pos>, d: Deque, k: nat, holder: Option<Client>, c: Client)
    requires Shows(t, ps, d) && k < |d| && t'.rows == t.rows
    requires forall e: Client :: e != c ==> (e in t'.held <==> e in t.held) && (e in t.held ==> t'.held[e] == t.held[e])
    requires if holder.Some? then c !in t.held && Locks(t', c, ps[k]) && d[k].holder.None? && holder.value == c
             else Locks(t, c, ps[k]) && c !in t'.held
    ensures Shows(t', ps, d[k := d[k].(holder := holder)])
  {
    var d' := d[k := d[k].(holder := holder)];
    forall i | 0 <= i < |ps| ensures CellOf(t', ps[i], d'[i]) {
      assert CellOf(t, ps[i], d[i]);
      assert i != k ==> ps[i] != ps[k];
      forall e: Client ensures Locks(t', e, ps[i]) <==> d'[i].holder == Some(e) {
        assert Locks(t, e, ps[i]) <==> d[i].holder == Some(e);
      }
    }
  }

  lemma HoldShows(t: Table, ps: seq<Pos>, d: Deque, step: Step)
    requires Good(t) && Shows(t, ps, d) && step.Hold?
    ensures Do(t, step).reply == Act(d, step).reply && Shows(Do(t, step).table, ps, Act(d, step).deque)
  {
    HolderShows(t, ps, d, step.c);
    FreeShows(t, ps, d, step.at);
    if step.c !in t.held && Inhabited(Unlocked(t)) {
      var k := Free(d, step.at).value;
      assert CellOf(t, ps[k], d[k]);
      Relocked(t, Do(t, step).table, ps, d, k, Some(step.c), step.c);
    }
  }

  lemma ReleaseShows(t: Table, ps: seq<Pos>, d: Deque, step: Step)
    requires Good(t) && Shows(t, ps, d) && step.Release?
    ensures Do(t, step).reply == Act(d, step).reply && Shows(Do(t, step).table, ps, Act(d, step).deque)
  {
    HolderShows(t, ps, d, step.c);
    if step.c in t.held {
      Relocked(t, Do(t, step).table, ps, d, HeldAt(d, step.c).value, None, step.c);
    } else {
      SameLocks(t, Do(t, step).table, ps, d);
    }
  }

  lemma RowsWithout(ps: seq<Pos>, k: nat, p: Pos)
    requires Increasing(ps) && k < |ps|
    ensures Increasing(Without(ps, k))
    ensures p in Without(ps, k) <==> p in ps && p != ps[k]
  {
    if p in ps && p != ps[k] {
      var j :| 0 <= j < |ps| && ps[j] == p;
      assert p == if j < k then Without(ps, k)[j] else Without(ps, k)[j - 1];
    }
  }

  lemma CellStays(t: Table, t': Table, c: Client, p: Pos, cell: Cell)
    requires CellOf(t, p, cell) && c in t.held && t.held[c] != p
    requires t' == t.(rows := t.rows - {t.held[c]}, held := t.held - {c})
    ensures CellOf(t', p, cell)
  {
    assert forall e: Client :: Locks(t', e, p) <==> Locks(t, e, p);
  }

  lemma PopShows(t: Table, ps: seq<Pos>, d: Deque, step: Step) returns (ps': seq<Pos>)
    requires Good(t) && Shows(t, ps, d) && step.Pop?
    ensures Do(t, step).reply == Act(d, step).reply && Shows(Do(t, step).table, ps', Act(d, step).deque)
  {
    hide CellOf;
    HolderShows(t, ps, d, step.c);
    ps' := ps;
    if step.c in t.held {
      var k, t' := HeldAt(d, step.c).value, Do(t, step).table;
      ps' := Without(ps, k);
      var d' := Without(d, k);
      assert Act(d, step).deque == d';
      forall i | 0 <= i < |ps'| ensures CellOf(t', ps'[i], d'[i]) {
        var j := if i < k then i else i + 1;
        assert ps'[i] == ps[j] && d'[i] == d[j] && ps[j] != ps[k];
        CellStays(t, t', step.c, ps[j], d[j]);
      }
      RowsWithout(ps, k, 0);
      forall p | p in t'.rows ensures p in ps' { RowsWithout(ps, k, p); }
    }
  }

  lemma StepShows(t: Table, ps: seq<Pos>, d: Deque, step: Step) returns (ps': seq<Pos>)
    requires Good(t) && Shows(t, ps, d)
    ensures Do(t, step).reply == Act(d, step).reply && Shows(Do(t, step).table, ps', Act(d, step).deque)
  {
    ps' := ps;
    match step
    case Push(_, _, _, _, _) => ps' := PushShows(t, ps, d, step);
    case Hold(_, _) => HoldShows(t, ps, d, step);
    case Pop(_) => ps' := PopShows(t, ps, d, step);
    case Release(_) => ReleaseShows(t, ps, d, step);
  }

  // ---------- every run ----------

  function Replies(t: Table, steps: seq<Step>): seq<Reply>
    decreases |steps|
  {
    if steps == [] then [] else [Do(t, steps[0]).reply] + Replies(Do(t, steps[0]).table, steps[1..])
  }

  function DequeReplies(d: Deque, steps: seq<Step>): seq<Reply>
    decreases |steps|
  {
    if steps == [] then [] else [Act(d, steps[0]).reply] + DequeReplies(Act(d, steps[0]).deque, steps[1..])
  }

  function DequeRun(d: Deque, steps: seq<Step>): Deque
    decreases |steps|
  {
    if steps == [] then d else DequeRun(Act(d, steps[0]).deque, steps[1..])
  }

  lemma {:induction false} RunRefines(t: Table, ps: seq<Pos>, d: Deque, steps: seq<Step>) returns (ps': seq<Pos>)
    requires Good(t) && Shows(t, ps, d)
    ensures Replies(t, steps) == DequeReplies(d, steps)
    ensures Shows(RunOf(t, steps), ps', DequeRun(d, steps))
    decreases |steps|
  {
    ps' := ps;
    if steps != [] {
      StepGood(t, steps[0]);
      ps' := StepShows(t, ps, d, steps[0]);
      ps' := RunRefines(Do(t, steps[0]).table, ps', Act(d, steps[0]).deque, steps[1..]);
    }
  }

  /** No run of any clients can tell the table from a shared deque: all replies agree, and sorted by
      position the table's rows are the deque at the end. */
  lemma TableIsDeque(steps: seq<Step>) returns (ps: seq<Pos>)
    ensures Replies(NEW_TABLE, steps) == DequeReplies([], steps)
    ensures Shows(RunOf(NEW_TABLE, steps), ps, DequeRun([], steps))
  {
    ps := RunRefines(NEW_TABLE, [], [], steps);
  }

  /** An element that is let go is back in its old place: holding and releasing changes nothing. */
  lemma HoldThenRelease(d: Deque, c: Client, at: End)
    ensures HeldAt(d, c).None? ==> Act(Act(d, Hold(c, at)).deque, Release(c)).deque == d
  {
    if HeldAt(d, c).None? && Free(d, at).Some? {
      var i := Free(d, at).value;
      var d' := d[i := d[i].(holder := Some(c))];
      assert d'[i].holder == Some(c);
      assert HeldAt(d', c) == Some(i) by {
        assert forall j | 0 <= j < |d'| && j != i :: d'[j] == d[j];
      }
      assert d'[i := d'[i].(holder := None)] == d;
    }
  }

  function Contents(d: Deque): seq<Data> {
    seq(|d|, i requires 0 <= i < |d| => d[i].data)
  }

  /** Holding and letting go never move an element; a push adds at one end; a pop takes out the
      element the client holds and moves no other. */
  lemma OrderKept(d: Deque, step: Step)
    ensures var before, r := Contents(d), Act(d, step);
            Contents(r.deque) ==
              if step.Push? && r.reply.Done? then
                (if step.at.BackEnd? then before + [step.data] else [step.data] + before)
              else if step.Pop? && r.reply.Done? then Without(before, HeldAt(d, step.c).value)
              else before
  {
    var before, after := Contents(d), Contents(Act(d, step).deque);
    match step
    case Push(_, at, data, _, _) =>
      if Act(d, step).reply.Done? { assert after == if at.BackEnd? then before + [data] else [data] + before; }
    case Pop(c) =>
      var mine := HeldAt(d, c);
      if mine.Some? { assert after == Without(before, mine.value); }
    case _ => assert after == before;
  }
}
