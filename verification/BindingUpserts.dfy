/**
 What a statement does to the bindings, key by key: an upsert under every inheritance into the row's
 table, and every other statement. Told by the bindings before it, without reference to the trigger.
 */
module BindingUpserts {
  import opened Results
  import opened RoleBindings
  import opened BindingTrigger

  /** The row has this ref, under whatever inheritance. */
  predicate HasRef(b: Bindings, row: RowId, r: Ref) {
    exists k :: k in b && k.table == row.table && k.id == row.id && k.ref == r
  }

  predicate HasNone(b: Bindings, row: RowId) {
    forall k | k in b :: !(k.table == row.table && k.id == row.id)
  }

  /** The row has another ref beside this one. */
  predicate HasOther(b: Bindings, row: RowId, r: Ref) {
    exists k :: k in b && k.table == row.table && k.id == row.id && k.ref != r
  }

  /** The row has some ref twice, under different inheritances. */
  predicate RepeatsRef(b: Bindings, row: RowId) {
    exists k, l :: && k in b && l in b && k != l && k.ref == l.ref
                   && k.table == row.table && k.id == row.id && l.table == row.table && l.id == row.id
  }

  /** An upsert that fires the trigger. */
  predicate Fires(db: Db, step: Step) {
    step.Upsert? && Enabled(db, step) && step.row.table in db.enabled
  }

  function ParentOf(db: Db, h: Inh, id: Id): RowId
    requires h in db.inhs
  {
    RowId(db.inhs[h].src, id)
  }

  // ---------- the grants of a parent ----------

  lemma GrantsAre(b: Bindings, parent: RowId, r: Ref)
    requires DistinctRefs(b, parent)
    ensures r in GrantsOf(b, parent) <==> HasRef(b, parent, r)
    ensures r in GrantsOf(b, parent) ==>
              exists k :: && k in b && k.table == parent.table && k.id == parent.id && k.ref == r
                          && GrantsOf(b, parent)[r] == b[k]
  {
    if HasRef(b, parent, r) {
      var k :| k in b && k.table == parent.table && k.id == parent.id && k.ref == r;
      assert k in KeysOf(b, parent);
      GrantOfKey(b, parent, k);
    }
  }

  lemma SeveralIff(b: Bindings, parent: RowId, r: Ref)
    requires DistinctRefs(b, parent) && HasRef(b, parent, r)
    ensures Several(GrantsOf(b, parent)) <==> HasOther(b, parent, r)
  {
    hide GrantsOf, DistinctRefs;
    var grants := GrantsOf(b, parent);
    GrantsAre(b, parent, r);
    if Several(grants) {
      var p, q :| p in grants && q in grants && p != q;
      GrantsAre(b, parent, p);
      GrantsAre(b, parent, q);
    }
    if HasOther(b, parent, r) {
      var k :| k in b && k.table == parent.table && k.id == parent.id && k.ref != r;
      GrantsAre(b, parent, k.ref);
    }
  }

  lemma NoGrantsIff(b: Bindings, parent: RowId)
    requires DistinctRefs(b, parent)
    ensures GrantsOf(b, parent) == map[] <==> HasNone(b, parent)
  {
    if !HasNone(b, parent) {
      var k :| k in b && k.table == parent.table && k.id == parent.id;
      GrantsAre(b, parent, k.ref);
    } else {
      assert KeysOf(b, parent) == {};
    }
  }

  lemma DistinctIff(b: Bindings, parent: RowId)
    ensures DistinctRefs(b, parent) <==> !RepeatsRef(b, parent)
  {
  }

  // ---------- the upsert ----------

  lemma OrderedOf(db: Db, step: Step)
    requires Enabled(db, step) && step.Upsert?
    ensures Ordered(db, step.order, step.parents)
    ensures forall i | 0 <= i < |step.order| :: step.order[i] in db.inhs && step.order[i] in step.parents
    ensures AgreeOutside(db.bindings, db.bindings, step.row, {})
  {
    assert forall i | 0 <= i < |step.order| :: step.order[i] in step.order;
  }

  /** An upsert whose trigger succeeds leaves under each inheritance from another row what Alone says. */
  lemma UpsertAt(db: Db, step: Step, k: Key)
    requires Fires(db, step) && Do(db, step).ok
    ensures k.inh in step.order ==> k.inh in db.inhs && k.inh in step.parents
    ensures var b' := Do(db, step).db.bindings;
            if k.table == step.row.table && k.id == step.row.id && k.inh in step.order then
              FromOther(db, step.row, k.inh, step.parents) ==>
                var r0 := Alone(db.bindings, db, step.row, k.inh, step.parents, step.survivors, step.now);
                r0.Some? && Agree(r0.value, b', k)
            else Agree(db.bindings, b', k)
  {
    hide Alone, InheritOne, AgreeOutside, Agree;
    OrderedOf(db, step);
    InheritAllAt(db.bindings, db.bindings, db, step.row, step.order, step.parents, step.survivors, step.now, {}, k);
  }

  /** An upsert that succeeds touches no binding of another row, none that the row has of its own or
      under an inheritance the trigger does not take, and none under an inheritance for which the row's
      parent column is NULL. */
  lemma UpsertLeaves(db: Db, step: Step, k: Key)
    requires Fires(db, step) && Do(db, step).ok
    requires RowId(k.table, k.id) == step.row && k.inh in step.order ==> step.parents[k.inh].NoRow?
    ensures var b' := Do(db, step).db.bindings; (k in b' <==> k in db.bindings) && (k in b' ==> b'[k] == db.bindings[k])
  {
    UpsertAt(db, step, k);
    hide Do;
  }

  /** Under an inheritance whose parent is another row with no bindings the row keeps what it has.
      Otherwise it ends with the parent's refs, of which one that it had before is sure to stay only if
      the parent has no other. */
  lemma UpsertRefs(db: Db, step: Step, h: Inh, r: Ref)
    requires Fires(db, step) && Do(db, step).ok && h in step.order && step.parents[h].One?
    requires h in db.inhs && ParentOf(db, h, step.parents[h].id) != step.row
    ensures var b, b', parent := db.bindings, Do(db, step).db.bindings, ParentOf(db, h, step.parents[h].id);
            var k := Key(step.row.table, step.row.id, h, r);
            k in b' <==> if HasNone(b, parent) then k in b
                         else HasRef(b, parent, r) && (k !in b || !HasOther(b, parent, r) || k in step.survivors)
  {
    hide Do, Merge, GrantsOf, DistinctRefs;
    var b, row, parent := db.bindings, step.row, ParentOf(db, h, step.parents[h].id);
    var k := Key(row.table, row.id, h, r);
    UpsertAt(db, step, k);
    MergedAt(b, db, step, h, parent);
    var grants := GrantsOf(b, parent);
    RefsAfterMerge(b, row, h, grants, step.survivors, step.now, r);
    InRefsUnder(b, row, h, r);
    InRefsUnder(Merge(b, row, h, grants, step.survivors, step.now), row, h, r);
    GrantsAre(b, parent, r);
    NoGrantsIff(b, parent);
    if HasRef(b, parent, r) { SeveralIff(b, parent, r); }
  }

  lemma MergedAt(b: Bindings, db: Db, step: Step, h: Inh, parent: RowId)
    requires step.Upsert? && h in db.inhs && h in step.parents && step.parents[h].One?
    requires parent == ParentOf(db, h, step.parents[h].id)
    requires Alone(b, db, step.row, h, step.parents, step.survivors, step.now).Some?
    ensures DistinctRefs(b, parent)
    ensures Alone(b, db, step.row, h, step.parents, step.survivors, step.now)
            == Some(Merge(b, step.row, h, GrantsOf(b, parent), step.survivors, step.now))
  {
    hide DistinctRefs, GrantsOf, Merge;
  }

  /** What the row then has under the inheritance: a new binding is a copy of the parent's with the same
      ref, one that it had before keeps its role and principal; both get the new time stamp, unless the
      parent has no binding, when nothing changes. */
  lemma UpsertGrants(db: Db, step: Step, h: Inh, r: Ref)
    requires Fires(db, step) && Do(db, step).ok && h in step.order && step.parents[h].One?
    requires h in db.inhs && ParentOf(db, h, step.parents[h].id) != step.row
    requires Key(step.row.table, step.row.id, h, r) in Do(db, step).db.bindings
    ensures var b, b', parent := db.bindings, Do(db, step).db.bindings, ParentOf(db, h, step.parents[h].id);
            var k := Key(step.row.table, step.row.id, h, r);
            if HasNone(b, parent) then k in b && b'[k] == b[k]
            else if k in b then b'[k] == Grant(b[k].role, b[k].principal, step.now)
            else exists l :: && l in b && l.table == parent.table && l.id == parent.id && l.ref == r
                             && b'[k] == Grant(b[l].role, b[l].principal, step.now)
  {
    hide Do, GrantsOf, DistinctRefs;
    var b, row, parent := db.bindings, step.row, ParentOf(db, h, step.parents[h].id);
    var k := Key(row.table, row.id, h, r);
    UpsertRefs(db, step, h, r);
    UpsertAt(db, step, k);
    MergedAt(b, db, step, h, parent);
    GrantsAre(b, parent, r);
    NoGrantsIff(b, parent);
    MergedGrant(b, row, h, GrantsOf(b, parent), step.survivors, step.now, r);
    assert !HasNone(b, parent) ==> r in GrantsOf(b, parent);
    hide Merge;
  }

  lemma MergedGrant(b: Bindings, row: RowId, h: Inh, grants: map<Ref, Grant>, survivors: set<Key>, now: int, r: Ref)
    ensures var k, b' := Key(row.table, row.id, h, r), Merge(b, row, h, grants, survivors, now);
            k in b' ==> b'[k] == if r in grants then (if k in b then b[k] else grants[r]).(ts := now) else b[k]
  {
  }

  /** When no row is its own parent an upsert fails exactly when, for some inheritance into the table,
      the source table has no access control, the parent query gives several rows, or the parent has a
      ref twice; then nothing changes. Without access control on the table it never fails. */
  lemma UpsertSucceedsIff(db: Db, step: Step)
    requires Enabled(db, step) && step.Upsert?
    requires forall h | h in step.order :: h in db.inhs && FromOther(db, step.row, h, step.parents)
    ensures Do(db, step).ok <==>
            (step.row.table in db.enabled ==> forall h | h in step.order ::
              && db.inhs[h].src in db.enabled && step.parents[h] != Many
              && (step.parents[h].One? ==> !RepeatsRef(db.bindings, ParentOf(db, h, step.parents[h].id))))
    ensures if Do(db, step).ok then Do(db, step).db.rows == db.rows + {step.row} else Do(db, step).db == db
    ensures step.row.table !in db.enabled ==> Do(db, step).db.bindings == db.bindings
  {
    hide Alone, AgreeOutside, RepeatsRef, DistinctRefs, FromOther;
    OrderedOf(db, step);
    InheritAllSome(db.bindings, db.bindings, db, step.row, step.order, step.parents, step.survivors, step.now, {});
    forall h | h in step.order
      ensures Alone(db.bindings, db, step.row, h, step.parents, step.survivors, step.now).Some? <==>
              && db.inhs[h].src in db.enabled && step.parents[h] != Many
              && (step.parents[h].One? ==> !RepeatsRef(db.bindings, ParentOf(db, h, step.parents[h].id)))
    {
      AloneIff(db, step, h);
    }
    hide InheritAll;
  }

  lemma AloneIff(db: Db, step: Step, h: Inh)
    requires step.Upsert? && h in db.inhs && h in step.parents
    ensures Alone(db.bindings, db, step.row, h, step.parents, step.survivors, step.now).Some? <==>
            && db.inhs[h].src in db.enabled && step.parents[h] != Many
            && (step.parents[h].One? ==> !RepeatsRef(db.bindings, ParentOf(db, h, step.parents[h].id)))
  {
    hide RepeatsRef, DistinctRefs, Merge, GrantsOf;
    if step.parents[h].One? { DistinctIff(db.bindings, ParentOf(db, h, step.parents[h].id)); }
  }

  // ---------- the other statements ----------

  /** Apart from upserts a binding goes away only with its row, with its inheritance, or by an UNBIND of
      the row that has the ref as its own for that role and principal; what stays is as it was. */
  lemma GoesIff(db: Db, log: Log, step: Step, k: Key)
    requires Good(db, log) && Enabled(db, step) && !step.Upsert? && k in db.bindings
    ensures k in Do(db, step).db.bindings ==> Do(db, step).db.bindings[k] == db.bindings[k]
    ensures k !in Do(db, step).db.bindings <==>
            match step
            case DeleteRow(row) => row == RowId(k.table, k.id)
            case DropInheritance(h) => h == k.inh && h != OWN
            case UnbindRole(t, role, principal, One(id)) =>
              t in db.enabled && Chosen(db.bindings, RowId(t, id), role, principal, k.ref)
            case _ => false
  {
    assert BindingGood(k, db.bindings[k], db, log);
    if step.UnbindRole? && step.target.One? {
      OwnRefsChosen(db.bindings, RowId(step.table, step.target.id), step.role, step.principal, k.ref);
    }
  }

  /** Apart from upserts a binding appears only by a BIND that succeeds, as the row's own, under the ref it
      drew; and a BIND succeeds exactly when the table has access control, the row is there and is the
      one the command means, and so is the role. */
  lemma ComesIff(db: Db, log: Log, step: Step, k: Key)
    requires Good(db, log) && Enabled(db, step) && !step.Upsert? && k !in db.bindings
    ensures k in Do(db, step).db.bindings <==>
            && step.BindRole? && step.target.One? && step.table in db.enabled && step.role in db.roles
            && RowId(step.table, step.target.id) in db.rows && k == Key(step.table, step.target.id, OWN, db.nextRef)
    ensures k in Do(db, step).db.bindings ==>
              && Do(db, step).ok && Do(db, step).db.bindings[k] == Grant(step.role, step.principal, step.now)
              && Do(db, step).db.refs == db.refs[db.nextRef := RowId(step.table, step.target.id)]
  {
  }

  // ---------- tables, roles and inheritances ----------

  /** No two inheritances have the same source and destination. */
  predicate DistinctInhs(db: Db) {
    forall g, h | g in db.inhs && h in db.inhs && db.inhs[g] == db.inhs[h] :: g == h
  }

  /** Access control stays on; a role goes only by a DROP of it, and only while nothing is bound to it;
      an inheritance comes only by a CREATE, with a new id and as the only one of its kind, and goes with all
      its bindings; inheritances stay distinct. */
  lemma CatalogueKept(db: Db, log: Log, step: Step)
    requires Good(db, log) && Enabled(db, step) && DistinctInhs(db)
    ensures var db' := Do(db, step).db;
            && DistinctInhs(db') && db.enabled <= db'.enabled && db.nextInh <= db'.nextInh
            && (forall role | role in db.roles && role !in db'.roles ::
                  step == DropRole(role) && forall k | k in db.bindings :: db.bindings[k].role != role)
            && (forall h | h in db'.inhs && h !in db.inhs ::
                  step == CreateInheritance(db'.inhs[h]) && h == db.nextInh && h < db'.nextInh)
            && (forall h | h in db.inhs && h !in db'.inhs ::
                  step == DropInheritance(h) && forall k | k in db'.bindings :: k.inh != h)
            && (forall h | h in db.inhs && h in db'.inhs :: db'.inhs[h] == db.inhs[h])
    ensures step.CreateInheritance? ==> (Do(db, step).ok <==> forall h | h in db.inhs :: db.inhs[h] != step.inheritance)
    ensures step.DropRole? ==> (Do(db, step).ok <==> forall k | k in db.bindings :: db.bindings[k].role != step.role)
  {
    hide InheritAll, BindingsGood, OrderOf;
  }
}
