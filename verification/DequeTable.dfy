/**
 The table behind a deque that many clients share: positions drawn from a sequence times a
 direction, row locks held by open transactions, and reads that skip locked rows.
 */
module DequeTable {
  type Client = nat
  type Pos = int
  type Data = string

  datatype End = BackEnd | FrontEnd

  /** The rows by position, the next value of the sequence, and the row each client's open
      transaction has locked. A client has one connection, so one transaction at most. */
  datatype Table = Table(rows: map<Pos, Data>, nextSeq: int, held: map<Client, Pos>)

  const NEW_TABLE: Table := Table(map[], 1, map[])

  datatype Reply = Done | Item(data: Data) | Failed

  /** Push: accepted says whether the database takes the data; burn, whether an insert that fails
      has drawn from the sequence. Release is also what abandoning an element does. */
  datatype Step =
    | Push(c: Client, at: End, data: Data, accepted: bool, burn: bool)
    | Hold(c: Client, at: End)
    | Pop(c: Client)
    | Release(c: Client)

  datatype Outcome = Outcome(table: Table, reply: Reply)

  predicate Inhabited(s: set<Pos>) {
    exists p :: p in s
  }

  predicate IsLast(m: Pos, s: set<Pos>) {
    m in s && forall p | p in s :: p <= m
  }

  predicate IsFirst(m: Pos, s: set<Pos>) {
    m in s && forall p | p in s :: m <= p
  }

  lemma {:induction false} HasLast(s: set<Pos>)
    requires Inhabited(s)
    ensures exists m :: IsLast(m, s)
    decreases |s|
  {
    var x :| x in s;
    if Inhabited(s - {x}) {
      HasLast(s - {x});
      var m :| IsLast(m, s - {x});
      LastWith(s, x, m);
    } else {
      assert forall p | p in s :: p == x || p in s - {x};
      assert IsLast(x, s);
    }
  }

  lemma LastWith(s: set<Pos>, x: Pos, m: Pos)
    requires x in s && IsLast(m, s - {x})
    ensures IsLast(if x < m then m else x, s)
  {
    assert forall p | p in s :: p == x || p in s - {x};
  }

  lemma {:induction false} HasFirst(s: set<Pos>)
    requires Inhabited(s)
    ensures exists m :: IsFirst(m, s)
    decreases |s|
  {
    var x :| x in s;
    if Inhabited(s - {x}) {
      HasFirst(s - {x});
      var m :| IsFirst(m, s - {x});
      FirstWith(s, x, m);
    } else {
      assert forall p | p in s :: p == x || p in s - {x};
      assert IsFirst(x, s);
    }
  }

  lemma FirstWith(s: set<Pos>, x: Pos, m: Pos)
    requires x in s && IsFirst(m, s - {x})
    ensures IsFirst(if m < x then m else x, s)
  {
    assert forall p | p in s :: p == x || p in s - {x};
  }

  /** ORDER BY _pos DESC (ASC) LIMIT 1. */
  function Outermost(s: set<Pos>, at: End): (m: Pos)
    requires Inhabited(s)
    ensures m in s
    ensures forall p | p in s :: if at.BackEnd? then p <= m else m <= p
  {
    if at.BackEnd? then
      HasLast(s);
      var m :| IsLast(m, s);
      m
    else
      HasFirst(s);
      var m :| IsFirst(m, s);
      m
  }

  function Unlocked(t: Table): set<Pos> {
    set p | p in t.rows && p !in t.held.Values
  }

  function PosOf(seqNo: int, at: End): Pos {
    if at.BackEnd? then seqNo else -seqNo
  }

  function Do(t: Table, step: Step): Outcome {
    match step
    case Push(c, at, data, accepted, burn) =>
      if c in t.held then Outcome(t, Failed)
      else if !accepted then Outcome(t.(nextSeq := if burn then t.nextSeq + 1 else t.nextSeq), Failed)
      else Outcome(t.(rows := t.rows[PosOf(t.nextSeq, at) := data], nextSeq := t.nextSeq + 1), Done)
    case Hold(c, at) =>
      if c in t.held || !Inhabited(Unlocked(t)) then Outcome(t, Failed)
      else
        var p := Outermost(Unlocked(t), at);
        Outcome(t.(held := t.held[c := p]), Item(t.rows[p]))
    case Pop(c) =>
      if c !in t.held then Outcome(t, Failed)
      else Outcome(t.(rows := t.rows - {t.held[c]}, held := t.held - {c}), Done)
    case Release(c) => Outcome(t.(held := t.held - {c}), Done)
  }

  // ---------- the invariant ----------

  /** Positions lie strictly within the sequence and are never zero; a locked row exists and is
      locked by one client. */
  predicate Good(t: Table) {
    && t.nextSeq >= 1
    && (forall p | p in t.rows :: p != 0 && -t.nextSeq < p < t.nextSeq)
    && (forall c | c in t.held :: t.held[c] in t.rows)
    && (forall c, d | c in t.held && d in t.held && t.held[c] == t.held[d] :: c == d)
  }

  lemma StepGood(t: Table, step: Step)
    requires Good(t)
    ensures Good(Do(t, step).table)
  {
    if step.Hold? && step.c !in t.held && Inhabited(Unlocked(t)) {
      var p := Outermost(Unlocked(t), step.at);
      assert forall c | c in t.held :: t.held[c] in t.held.Values;
    }
  }

  /** A new row lands beyond every other: behind them all, or in front of them all. */
  lemma PushBeyond(t: Table, at: End)
    requires Good(t)
    ensures PosOf(t.nextSeq, at) != 0
    ensures forall p | p in t.rows :: if at.BackEnd? then p < PosOf(t.nextSeq, at) else PosOf(t.nextSeq, at) < p
  {
  }

  // ---------- conservation ----------

  /** History: every row ever inserted, and the positions popped, in order. */
  datatype History = History(pushed: map<Pos, Data>, popped: seq<Pos>)

  function Recorded(t: Table, h: History, step: Step): History {
    match step
    case Push(_, at, data, _, _) =>
      if Do(t, step).reply.Done? then h.(pushed := h.pushed[PosOf(t.nextSeq, at) := data]) else h
    case Pop(c) => if c in t.held then h.(popped := h.popped + [t.held[c]]) else h
    case _ => h
  }

  /** What was pushed is what was popped, each once, and what is still stored. */
  predicate Conserved(t: Table, h: History) {
    && (forall i, j | 0 <= i < j < |h.popped| :: h.popped[i] != h.popped[j])
    && (forall p | p in h.popped :: p in h.pushed && p !in t.rows)
    && (forall p | p in t.rows :: p in h.pushed && h.pushed[p] == t.rows[p])
    && (forall p | p in h.pushed :: p in h.popped || p in t.rows)
    && (forall p | p in h.pushed :: -t.nextSeq < p < t.nextSeq)
  }

  lemma StepConserved(t: Table, h: History, step: Step)
    requires Good(t) && Conserved(t, h)
    ensures Conserved(Do(t, step).table, Recorded(t, h, step))
  {
    var t', h' := Do(t, step).table, Recorded(t, h, step);
    if step.Pop? && step.c in t.held {
      assert h'.popped == h.popped + [t.held[step.c]];
    }
  }

  /** No step takes away a row but a pop by the client that holds it, or changes what is stored. */
  lemma RowsStay(t: Table, step: Step, p: Pos)
    requires Good(t) && p in t.rows
    ensures p in Do(t, step).table.rows ==> Do(t, step).table.rows[p] == t.rows[p]
    ensures p !in Do(t, step).table.rows <==> step.Pop? && step.c in t.held && t.held[step.c] == p
  {
  }

  function RunOf(t: Table, steps: seq<Step>): Table
    decreases |steps|
  {
    if steps == [] then t else RunOf(Do(t, steps[0]).table, steps[1..])
  }

  function HistoryOf(t: Table, h: History, steps: seq<Step>): History
    decreases |steps|
  {
    if steps == [] then h else HistoryOf(Do(t, steps[0]).table, Recorded(t, h, steps[0]), steps[1..])
  }

  lemma {:induction false} RunConserved(t: Table, h: History, steps: seq<Step>)
    requires Good(t) && Conserved(t, h)
    ensures Good(RunOf(t, steps)) && Conserved(RunOf(t, steps), HistoryOf(t, h, steps))
    decreases |steps|
  {
    if steps != [] {
      StepGood(t, steps[0]);
      StepConserved(t, h, steps[0]);
      RunConserved(Do(t, steps[0]).table, Recorded(t, h, steps[0]), steps[1..]);
    }
  }

  /** On every run by any clients, an element is held by one client at most and popped at most
      once, and the pushed elements are exactly the popped and the stored ones. */
  lemma EveryRunConserved(steps: seq<Step>)
    ensures var t := RunOf(NEW_TABLE, steps);
            Good(t) && Conserved(t, HistoryOf(NEW_TABLE, History(map[], []), steps))
  {
    RunConserved(NEW_TABLE, History(map[], []), steps);
  }
}
