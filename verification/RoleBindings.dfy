/**
 Role bindings as a transition system: the statements that the proxy commands emit, the trigger
 that copies a parent row's bindings to a child row, and the cascades of the foreign keys.
 */
module RoleBindings {
  import opened Results

  type Table = string
  type Id = int
  type Ref = nat
  type Inh = nat

  /** The inheritance of a binding made on the row itself. */
  const OWN: Inh := 0

  datatype RowId = RowId(table: Table, id: Id)

  datatype Inheritance = Inheritance(src: Table, dst: Table)

  /** Primary key of a binding in the bindings table of one table. */
  datatype Key = Key(table: Table, id: Id, inh: Inh, ref: Ref)

  datatype Grant = Grant(role: string, principal: string, ts: int)

  type Bindings = map<Key, Grant>

  datatype Db = Db(
    enabled: set<Table>,
    rows: set<RowId>,
    roles: set<string>,
    inhs: map<Inh, Inheritance>,
    nextInh: Inh,
    refs: map<Ref, RowId>,
    nextRef: Ref,
    bindings: Bindings)

  const EMPTY: Db := Db({}, {}, {}, map[], 1, map[], 1, map[])

  /** What a scalar subquery for a row's id gives: NULL, one id, or an error. */
  datatype Target = NoRow | One(id: Id) | Many

  datatype Step =
    | Enable(table: Table)
    | CreateRole(role: string)
    | DropRole(role: string)
    | CreateInheritance(inheritance: Inheritance)
    | DropInheritance(inh: Inh)
    | BindRole(table: Table, role: string, principal: string, target: Target, now: int)
    | UnbindRole(table: Table, role: string, principal: string, target: Target)
    | Upsert(row: RowId, order: seq<Inh>, parents: map<Inh, Target>, survivors: set<Key>, now: int)
    | DeleteRow(row: RowId)

  /** A statement that fails changes nothing but the sequence it drew from. */
  datatype Outcome = Outcome(db: Db, ok: bool)

  // ---------- the trigger ----------

  /** The bindings of one row. */
  function KeysOf(b: Bindings, row: RowId): set<Key> {
    set k | k in b && k.table == row.table && k.id == row.id
  }

  /** One INSERT may not touch the same key twice, so the parent's refs must differ. */
  predicate DistinctRefs(b: Bindings, parent: RowId) {
    forall k, l | k in KeysOf(b, parent) && l in KeysOf(b, parent) && k.ref == l.ref :: k == l
  }

  function RefsOf(b: Bindings, parent: RowId): set<Ref> {
    set k | k in KeysOf(b, parent) :: k.ref
  }

  /** The parent's one binding with this ref. */
  function KeyWith(b: Bindings, parent: RowId, r: Ref): (k: Key)
    requires DistinctRefs(b, parent) && r in RefsOf(b, parent)
    ensures k in KeysOf(b, parent) && k.ref == r
  {
    var k :| k in KeysOf(b, parent) && k.ref == r;
    k
  }

  function GrantsOf(b: Bindings, parent: RowId): map<Ref, Grant>
    requires DistinctRefs(b, parent)
  {
    map r | r in RefsOf(b, parent) :: b[KeyWith(b, parent, r)]
  }

  lemma GrantOfKey(b: Bindings, parent: RowId, k: Key)
    requires DistinctRefs(b, parent) && k in KeysOf(b, parent)
    ensures k.ref in GrantsOf(b, parent) && GrantsOf(b, parent)[k.ref] == b[k]
  {
    assert k.ref in RefsOf(b, parent);
  }

  predicate Under(k: Key, row: RowId, h: Inh) {
    k.table == row.table && k.id == row.id && k.inh == h
  }

  /** The DELETE's condition: some returned row has another ref. */
  predicate Displaced(k: Key, row: RowId, h: Inh, grants: map<Ref, Grant>) {
    Under(k, row, h) && exists r :: r in grants && r != k.ref
  }

  predicate Copied(k: Key, row: RowId, h: Inh, grants: map<Ref, Grant>) {
    Under(k, row, h) && k.ref in grants
  }

  function CopyKeys(row: RowId, h: Inh, grants: map<Ref, Grant>): set<Key> {
    set r | r in grants :: Key(row.table, row.id, h, r)
  }

  /** Whether the binding is there after the statement. A row that the statement both updates and
      deletes may survive or not: survivors decides. */
  predicate Stays(k: Key, b: Bindings, row: RowId, h: Inh, grants: map<Ref, Grant>, survivors: set<Key>) {
    if Copied(k, row, h, grants) then k !in b || !Displaced(k, row, h, grants) || k in survivors
    else k in b && !Displaced(k, row, h, grants)
  }

  /** The trigger's statement: insert the parent's bindings, on conflict renew the time stamp
      alone, and delete the bindings under this inheritance with another ref. */
  function Merge(b: Bindings, row: RowId, h: Inh, grants: map<Ref, Grant>, survivors: set<Key>, now: int): Bindings {
    map k | k in b.Keys + CopyKeys(row, h, grants) && Stays(k, b, row, h, grants, survivors) ::
      if Copied(k, row, h, grants) then (if k in b then b[k] else grants[k.ref]).(ts := now) else b[k]
  }

  function InheritOne(b: Bindings, enabled: set<Table>, row: RowId, h: Inh, src: Table, parent: Target,
                      survivors: set<Key>, now: int): Option<Bindings>
  {
    if src !in enabled || parent.Many? then None
    else if parent.NoRow? then Some(b)
    else if !DistinctRefs(b, RowId(src, parent.id)) then None
    else Some(Merge(b, row, h, GrantsOf(b, RowId(src, parent.id)), survivors, now))
  }

  /** The trigger's loop over the inheritances into the row's table. */
  function InheritAll(b: Bindings, db: Db, row: RowId, order: seq<Inh>, parents: map<Inh, Target>,
                      survivors: set<Key>, now: int): Option<Bindings>
    requires forall i | 0 <= i < |order| :: order[i] in db.inhs && order[i] in parents
    decreases |order|
  {
    if order == [] then Some(b)
    else
      var r := InheritOne(b, db.enabled, row, order[0], db.inhs[order[0]].src, parents[order[0]], survivors, now);
      if r.None? then None else InheritAll(r.value, db, row, order[1..], parents, survivors, now)
  }

  // ---------- the statements ----------

  /** The inheritances into a table, each once, in any order. */
  predicate OrderOf(order: seq<Inh>, db: Db, table: Table) {
    && (forall h | h in db.inhs :: db.inhs[h].dst == table <==> h in order)
    && (forall h | h in order :: h in db.inhs)
    && (forall i, j | 0 <= i < j < |order| :: order[i] != order[j])
  }

  predicate Enabled(db: Db, step: Step) {
    step.Upsert? ==> OrderOf(step.order, db, step.row.table) && forall h | h in step.order :: h in step.parents
  }

  function OwnRefs(b: Bindings, row: RowId, role: string, principal: string): set<Ref> {
    set k | k in b && Under(k, row, OWN) && b[k].role == role && b[k].principal == principal :: k.ref
  }

  function WithoutRefs(b: Bindings, gone: set<Ref>): Bindings {
    map k | k in b && k.ref !in gone :: b[k]
  }

  function Do(db: Db, step: Step): Outcome
    requires Enabled(db, step)
  {
    match step
    case Enable(t) => if t in db.enabled then Outcome(db, false) else Outcome(db.(enabled := db.enabled + {t}), true)
    case CreateRole(role) =>
      if role in db.roles then Outcome(db, false) else Outcome(db.(roles := db.roles + {role}), true)
    case DropRole(role) =>
      if exists k :: k in db.bindings && db.bindings[k].role == role then Outcome(db, false)
      else Outcome(db.(roles := db.roles - {role}), true)
    case CreateInheritance(i) =>
      if i in db.inhs.Values then Outcome(db.(nextInh := db.nextInh + 1), false)
      else Outcome(db.(inhs := db.inhs[db.nextInh := i], nextInh := db.nextInh + 1), true)
    case DropInheritance(h) =>
      if h == OWN then Outcome(db, true)
      else
        var left := map k | k in db.bindings && k.inh != h :: db.bindings[k];
        Outcome(db.(inhs := db.inhs - {h}, bindings := left), true)
    case BindRole(t, role, principal, target, now) =>
      if t !in db.enabled then Outcome(db, false)
      else
        var r := db.nextRef;
        if !target.One? || role !in db.roles || RowId(t, target.id) !in db.rows then
          Outcome(db.(nextRef := r + 1), false)
        else
          Outcome(db.(nextRef := r + 1, refs := db.refs[r := RowId(t, target.id)],
                      bindings := db.bindings[Key(t, target.id, OWN, r) := Grant(role, principal, now)]), true)
    case UnbindRole(t, role, principal, target) =>
      if t !in db.enabled || target.Many? then Outcome(db, false)
      else if target.NoRow? then Outcome(db, true)
      else
        var gone := OwnRefs(db.bindings, RowId(t, target.id), role, principal);
        Outcome(db.(refs := db.refs - gone, bindings := WithoutRefs(db.bindings, gone)), true)
    case Upsert(row, order, parents, survivors, now) =>
      var db' := db.(rows := db.rows + {row});
      if row.table !in db.enabled then Outcome(db', true)
      else
        var b := InheritAll(db.bindings, db, row, order, parents, survivors, now);
        if b.None? then Outcome(db, false) else Outcome(db'.(bindings := b.value), true)
    case DeleteRow(row) =>
      var left := map k | k in db.bindings && RowId(k.table, k.id) != row :: db.bindings[k];
      Outcome(db.(rows := db.rows - {row}, bindings := left), true)
  }

  // ---------- the invariant ----------

  /** History: what the BIND that drew a ref granted, and on which row. */
  datatype Bound = Bound(role: string, principal: string, row: RowId)

  type Log = map<Ref, Bound>

  function Logged(db: Db, log: Log, step: Step): Log
    requires Enabled(db, step)
  {
    if step.BindRole? && Do(db, step).ok then
      log[db.nextRef := Bound(step.role, step.principal, RowId(step.table, step.target.id))]
    else log
  }

  predicate RefsGood(refs: map<Ref, RowId>, nextRef: Ref, log: Log) {
    && (forall r | r in log :: r < nextRef)
    && (forall r | r in refs :: r in log && log[r].row == refs[r])
  }

  predicate InhsGood(inhs: map<Inh, Inheritance>, nextInh: Inh) {
    OWN < nextInh && forall h | h in inhs :: OWN < h < nextInh
  }

  /** The binding's foreign keys hold, and it grants what the BIND of its ref granted. */
  predicate BindingGood(k: Key, g: Grant, db: Db, log: Log) {
    && k.ref in db.refs && k.ref in log
    && g.role == log[k.ref].role && g.principal == log[k.ref].principal
    && g.role in db.roles && RowId(k.table, k.id) in db.rows && k.table in db.enabled
    && if k.inh == OWN then db.refs[k.ref] == RowId(k.table, k.id)
       else k.inh in db.inhs && db.inhs[k.inh].dst == k.table
  }

  predicate BindingsGood(b: Bindings, db: Db, log: Log) {
    forall k | k in b :: BindingGood(k, b[k], db, log)
  }

  predicate Good(db: Db, log: Log) {
    RefsGood(db.refs, db.nextRef, log) && InhsGood(db.inhs, db.nextInh) && BindingsGood(db.bindings, db, log)
  }

  lemma MergeGood(b: Bindings, db: Db, log: Log, row: RowId, h: Inh, parent: RowId, survivors: set<Key>, now: int)
    requires BindingsGood(b, db, log) && DistinctRefs(b, parent)
    requires h != OWN && h in db.inhs && db.inhs[h].dst == row.table && row.table in db.enabled && row in db.rows
    ensures BindingsGood(Merge(b, row, h, GrantsOf(b, parent), survivors, now), db, log)
  {
    var grants := GrantsOf(b, parent);
    var b' := Merge(b, row, h, grants, survivors, now);
    forall k | k in b' ensures BindingGood(k, b'[k], db, log) {
      if Copied(k, row, h, grants) && k !in b {
        var l := KeyWith(b, parent, k.ref);
        assert BindingGood(l, b[l], db, log);
      }
    }
  }

  lemma {:induction false} InheritAllGood(b: Bindings, db: Db, log: Log, row: RowId, order: seq<Inh>,
                                          parents: map<Inh, Target>, survivors: set<Key>, now: int)
    requires InhsGood(db.inhs, db.nextInh) && BindingsGood(b, db, log) && row.table in db.enabled && row in db.rows
    requires forall i | 0 <= i < |order| ::
               order[i] in db.inhs && order[i] in parents && db.inhs[order[i]].dst == row.table
    ensures var r := InheritAll(b, db, row, order, parents, survivors, now);
            r.Some? ==> BindingsGood(r.value, db, log)
    decreases |order|
  {
    hide BindingsGood, Merge;
    if order != [] {
      var h := order[0];
      var r := InheritOne(b, db.enabled, row, h, db.inhs[h].src, parents[h], survivors, now);
      if r.Some? {
        if parents[h].One? { MergeGood(b, db, log, row, h, RowId(db.inhs[h].src, parents[h].id), survivors, now); }
        InheritAllGood(r.value, db, log, row, order[1..], parents, survivors, now);
      }
    }
  }

  lemma BindingsFrame(b: Bindings, db: Db, db': Db, log: Log)
    requires BindingsGood(b, db, log) && db'.refs == db.refs && db'.roles == db.roles && db'.inhs == db.inhs
    requires db.rows <= db'.rows && db.enabled <= db'.enabled
    ensures BindingsGood(b, db', log)
  {
  }

  lemma UpsertGood(db: Db, log: Log, step: Step)
    requires Good(db, log) && Enabled(db, step) && step.Upsert?
    ensures Good(Do(db, step).db, log)
  {
    hide BindingsGood, InheritAll;
    var row := step.row;
    var db' := db.(rows := db.rows + {row});
    BindingsFrame(db.bindings, db, db', log);
    if row.table in db.enabled {
      InheritAllFrame(db.bindings, db, db', row, step.order, step.parents, step.survivors, step.now);
      InheritAllGood(db.bindings, db', log, row, step.order, step.parents, step.survivors, step.now);
      var r := InheritAll(db.bindings, db', row, step.order, step.parents, step.survivors, step.now);
      if r.Some? { BindingsFrame(r.value, db', db'.(bindings := r.value), log); }
    }
  }

  /** The trigger reads no more of the database than its inheritances and tables. */
  lemma {:induction false} InheritAllFrame(b: Bindings, db: Db, db': Db, row: RowId, order: seq<Inh>,
                                           parents: map<Inh, Target>, survivors: set<Key>, now: int)
    requires db'.inhs == db.inhs && db'.enabled == db.enabled
    requires forall i | 0 <= i < |order| :: order[i] in db.inhs && order[i] in parents
    ensures InheritAll(b, db', row, order, parents, survivors, now)
            == InheritAll(b, db, row, order, parents, survivors, now)
    decreases |order|
  {
    if order != [] {
      var r := InheritOne(b, db.enabled, row, order[0], db.inhs[order[0]].src, parents[order[0]], survivors, now);
      if r.Some? { InheritAllFrame(r.value, db, db', row, order[1..], parents, survivors, now); }
    }
  }

  lemma BindGood(db: Db, log: Log, step: Step)
    requires Good(db, log) && step.BindRole?
    ensures Good(Do(db, step).db, Logged(db, log, step))
  {
    var db', log' := Do(db, step).db, Logged(db, log, step);
    forall k | k in db'.bindings ensures BindingGood(k, db'.bindings[k], db', log') {
      if k in db.bindings { assert BindingGood(k, db.bindings[k], db, log); }
    }
  }

  lemma UnbindGood(db: Db, log: Log, step: Step)
    requires Good(db, log) && step.UnbindRole?
    ensures Good(Do(db, step).db, log)
  {
  }

  lemma CommandGood(db: Db, log: Log, step: Step)
    requires Good(db, log) && !step.Upsert? && !step.BindRole? && !step.UnbindRole?
    ensures Good(Do(db, step).db, log)
  {
  }

  lemma StepGood(db: Db, log: Log, step: Step)
    requires Good(db, log) && Enabled(db, step)
    ensures Good(Do(db, step).db, Logged(db, log, step))
  {
    hide Good;
    match step
    case Upsert(_, _, _, _, _) => UpsertGood(db, log, step);
    case BindRole(_, _, _, _, _) => BindGood(db, log, step);
    case UnbindRole(_, _, _, _) => UnbindGood(db, log, step);
    case _ => CommandGood(db, log, step);
  }

  // ---------- UNBIND ----------

  /** The row has a binding of its own with this ref, for this role and principal. */
  predicate Chosen(b: Bindings, row: RowId, role: string, principal: string, r: Ref) {
    var k := Key(row.table, row.id, OWN, r);
    k in b && b[k].role == role && b[k].principal == principal
  }

  lemma OwnRefsChosen(b: Bindings, row: RowId, role: string, principal: string, r: Ref)
    ensures r in OwnRefs(b, row, role, principal) <==> Chosen(b, row, role, principal, r)
  {
    if Chosen(b, row, role, principal, r) {
      var k := Key(row.table, row.id, OWN, r);
      assert Under(k, row, OWN);
    }
  }

  /** UNBIND takes away, in every table, exactly the bindings with a ref of the row's own bindings
      for the role and principal; all of them grant that role to that principal; the rest is
      untouched and refers only to refs that remain. */
  lemma UnbindExact(db: Db, log: Log, step: Step, k: Key)
    requires Good(db, log) && step.UnbindRole? && step.table in db.enabled && step.target.One?
    ensures var row, db' := RowId(step.table, step.target.id), Do(db, step).db;
            && Do(db, step).ok
            && (k in db'.bindings <==> k in db.bindings && !Chosen(db.bindings, row, step.role, step.principal, k.ref))
            && (k in db'.bindings ==> db'.bindings[k] == db.bindings[k] && k.ref in db'.refs)
            && (k in db.bindings && k !in db'.bindings ==>
                  && db.bindings[k].role == step.role && db.bindings[k].principal == step.principal
                  && db.refs[k.ref] == row)
  {
    var row := RowId(step.table, step.target.id);
    OwnRefsChosen(db.bindings, row, step.role, step.principal, k.ref);
    if k in db.bindings {
      assert BindingGood(k, db.bindings[k], db, log);
      var own := Key(row.table, row.id, OWN, k.ref);
      if own in db.bindings { assert BindingGood(own, db.bindings[own], db, log); }
    }
  }

  function OwnKey(refs: map<Ref, RowId>, r: Ref): Key
    requires r in refs
  {
    Key(refs[r].table, refs[r].id, OWN, r)
  }

  /** A copy of what was bound on this row to this principal. */
  predicate CopyOf(k: Key, db: Db, row: RowId, role: string, principal: string) {
    && k in db.bindings && k.ref in db.refs && db.refs[k.ref] == row
    && db.bindings[k].role == role && db.bindings[k].principal == principal
  }

  /** The copy's own binding is still on the row it was made for. */
  predicate Rooted(k: Key, db: Db) {
    k.ref in db.refs && OwnKey(db.refs, k.ref) in db.bindings
  }

  /** UNBIND leaves a copy exactly when the copy's own binding was no longer on the row. */
  lemma UnbindLeavesIff(db: Db, log: Log, step: Step, k: Key)
    requires Good(db, log) && step.UnbindRole? && step.table in db.enabled && step.target.One?
    ensures var row, db' := RowId(step.table, step.target.id), Do(db, step).db;
            CopyOf(k, db', row, step.role, step.principal) <==>
            CopyOf(k, db, row, step.role, step.principal) && !Rooted(k, db)
  {
    var row := RowId(step.table, step.target.id);
    UnbindExact(db, log, step, k);
    OwnRefsChosen(db.bindings, row, step.role, step.principal, k.ref);
    if CopyOf(k, db, row, step.role, step.principal) && Rooted(k, db) {
      var own := OwnKey(db.refs, k.ref);
      assert BindingGood(own, db.bindings[own], db, log) && BindingGood(k, db.bindings[k], db, log);
    }
  }

  /** UNBIND leaves no copy of what was bound on the row if and only if every copy was rooted. */
  lemma UnbindCompleteIff(db: Db, log: Log, step: Step)
    requires Good(db, log) && step.UnbindRole? && step.table in db.enabled && step.target.One?
    ensures var row, db' := RowId(step.table, step.target.id), Do(db, step).db;
            (forall k :: !CopyOf(k, db', row, step.role, step.principal))
            <==> (forall k | CopyOf(k, db, row, step.role, step.principal) :: Rooted(k, db))
  {
    hide CopyOf, Rooted, Do, Good;
    var row, db' := RowId(step.table, step.target.id), Do(db, step).db;
    forall k
      ensures CopyOf(k, db', row, step.role, step.principal) <==>
              CopyOf(k, db, row, step.role, step.principal) && !Rooted(k, db)
    {
      UnbindLeavesIff(db, log, step, k);
    }
    if k :| CopyOf(k, db, row, step.role, step.principal) && !Rooted(k, db) {
      assert CopyOf(k, db', row, step.role, step.principal);
    }
  }

  lemma {:induction false} InheritAllKeepsOwn(b: Bindings, db: Db, row: RowId, order: seq<Inh>,
                                              parents: map<Inh, Target>, survivors: set<Key>, now: int, k: Key)
    requires forall i | 0 <= i < |order| :: order[i] in db.inhs && order[i] in parents && order[i] != OWN
    requires k.inh == OWN
    ensures var r := InheritAll(b, db, row, order, parents, survivors, now);
            r.Some? ==> (k in r.value <==> k in b) && (k in b ==> r.value[k] == b[k])
    decreases |order|
  {
    if order != [] {
      var r := InheritOne(b, db.enabled, row, order[0], db.inhs[order[0]].src, parents[order[0]], survivors, now);
      if r.Some? { InheritAllKeepsOwn(r.value, db, row, order[1..], parents, survivors, now, k); }
    }
  }

  lemma UpsertRoots(db: Db, log: Log, step: Step, r: Ref)
    requires Good(db, log) && Enabled(db, step) && step.Upsert? && r in db.refs
    ensures Do(db, step).db.refs == db.refs
    ensures OwnKey(db.refs, r) in Do(db, step).db.bindings <==> OwnKey(db.refs, r) in db.bindings
  {
    hide InheritAll, BindingsGood, RefsGood;
    assert forall i | 0 <= i < |step.order| :: step.order[i] in step.order;
    if step.row.table in db.enabled {
      InheritAllKeepsOwn(db.bindings, db, step.row, step.order, step.parents, step.survivors, step.now,
                         OwnKey(db.refs, r));
    }
  }

  /** A ref that a statement leaves keeps its own binding, or stays without one; only the deletion of
      the row it is on takes the binding away. */
  lemma RootsStay(db: Db, log: Log, step: Step, r: Ref)
    requires Good(db, log) && Enabled(db, step) && r in db.refs && r in Do(db, step).db.refs
    ensures Do(db, step).db.refs[r] == db.refs[r]
    ensures OwnKey(db.refs, r) in Do(db, step).db.bindings <==>
            OwnKey(db.refs, r) in db.bindings && step != DeleteRow(db.refs[r])
  {
    hide BindingsGood;
    if step.Upsert? { UpsertRoots(db, log, step, r); }
  }

  /** Deleting a row strands the copies other rows have of its bindings: UNBIND on the row, before
      or after a row with its id is put back, no longer reaches them. */
  lemma DeletedRowStrandsCopies(db: Db, log: Log, row: RowId, k: Key, unbind: Step)
    requires Good(db, log) && unbind.UnbindRole? && unbind.target.One? && RowId(unbind.table, unbind.target.id) == row
    requires k in db.bindings && db.refs[k.ref] == row && RowId(k.table, k.id) != row
    ensures var db' := Do(Do(db, DeleteRow(row)).db, unbind).db; k in db'.bindings && db'.bindings[k] == db.bindings[k]
  {
    var db1 := Do(db, DeleteRow(row)).db;
    StepGood(db, log, DeleteRow(row));
    if row.table in db.enabled { UnbindExact(db1, log, unbind, k); }
  }
}
