/**
 What the inheritance trigger leaves on a row: under one inheritance, and under all of them in
 whatever order they come.
 */
module BindingTrigger {
  import opened Results
  import opened RoleBindings

  // ---------- one inheritance ----------

  function RefsUnder(b: Bindings, row: RowId, h: Inh): set<Ref> {
    set k | k in b && Under(k, row, h) :: k.ref
  }

  predicate Several(grants: map<Ref, Grant>) {
    exists r, q :: r in grants && q in grants && r != q
  }

  lemma InRefsUnder(b: Bindings, row: RowId, h: Inh, r: Ref)
    ensures r in RefsUnder(b, row, h) <==> Key(row.table, row.id, h, r) in b
  {
    var k := Key(row.table, row.id, h, r);
    if k in b { assert Under(k, row, h); }
  }

  /** Which refs the row has under an inheritance after the trigger. */
  lemma RefsAfterMerge(b: Bindings, row: RowId, h: Inh, grants: map<Ref, Grant>, survivors: set<Key>, now: int, r: Ref)
    ensures r in RefsUnder(Merge(b, row, h, grants, survivors, now), row, h) <==>
            if r in grants then
              r !in RefsUnder(b, row, h) || !Several(grants) || Key(row.table, row.id, h, r) in survivors
            else r in RefsUnder(b, row, h) && grants == map[]
  {
    var k := Key(row.table, row.id, h, r);
    InRefsUnder(b, row, h, r);
    InRefsUnder(Merge(b, row, h, grants, survivors, now), row, h, r);
    if r in grants {
      assert k in CopyKeys(row, h, grants) && Copied(k, row, h, grants);
    }
    if grants != map[] && r !in grants {
      var q :| q in grants;
      assert Displaced(k, row, h, grants);
    }
  }

  /** Whatever the database lets survive, the row ends with exactly the parent's refs if and only
      if the parent has one binding, or several that the row all lacked, or none and so has the row. */
  lemma MergeExactIff(b: Bindings, row: RowId, h: Inh, grants: map<Ref, Grant>)
    ensures (forall survivors: set<Key>, now: int ::
               RefsUnder(Merge(b, row, h, grants, survivors, now), row, h) == grants.Keys)
            <==> if grants == map[] then RefsUnder(b, row, h) == {}
                 else !Several(grants) || RefsUnder(b, row, h) !! grants.Keys
  {
    var refs := RefsUnder(b, row, h);
    if grants == map[] && refs != {} {
      var r :| r in refs;
      RefsAfterMerge(b, row, h, grants, {}, 0, r);
    } else if Several(grants) && exists r :: r in refs && r in grants {
      var r :| r in refs && r in grants;
      RefsAfterMerge(b, row, h, grants, {}, 0, r);
    } else {
      forall survivors: set<Key>, now: int
        ensures RefsUnder(Merge(b, row, h, grants, survivors, now), row, h) == grants.Keys
      {
        forall r ensures r in RefsUnder(Merge(b, row, h, grants, survivors, now), row, h) <==> r in grants {
          RefsAfterMerge(b, row, h, grants, survivors, now, r);
        }
      }
    }
  }

  /** Every binding the row has under the inheritance is then a fresh copy of one of the parent's,
      with its role and principal, unless the parent had none. */
  lemma MergeCopiesParent(b: Bindings, db: Db, log: Log, row: RowId, h: Inh, parent: RowId, survivors: set<Key>,
                          now: int, k: Key)
    requires BindingsGood(b, db, log) && DistinctRefs(b, parent) && KeysOf(b, parent) != {}
    requires k in Merge(b, row, h, GrantsOf(b, parent), survivors, now) && Under(k, row, h)
    ensures var b' := Merge(b, row, h, GrantsOf(b, parent), survivors, now);
            exists l :: l in KeysOf(b, parent) && l.ref == k.ref && b'[k] == b[l].(ts := now)
  {
    var grants := GrantsOf(b, parent);
    var l0 :| l0 in KeysOf(b, parent);
    GrantOfKey(b, parent, l0);
    assert k.ref in grants;
    var l := KeyWith(b, parent, k.ref);
    if k in b {
      assert BindingGood(k, b[k], db, log) && BindingGood(l, b[l], db, log);
    }
  }

  // ---------- the order of the inheritances ----------

  predicate Agree(b: Bindings, b': Bindings, k: Key) {
    (k in b <==> k in b') && (k in b ==> b'[k] == b[k])
  }

  predicate OnRow(k: Key, row: RowId, hs: set<Inh>) {
    k.table == row.table && k.id == row.id && k.inh in hs
  }

  ghost predicate AgreeOutside(b: Bindings, b': Bindings, row: RowId, hs: set<Inh>) {
    forall k: Key :: OnRow(k, row, hs) || Agree(b, b', k)
  }

  /** Under this inheritance the row's parent, if any, is another row. */
  predicate FromOther(db: Db, row: RowId, h: Inh, parents: map<Inh, Target>)
    requires h in db.inhs && h in parents
  {
    parents[h].One? ==> RowId(db.inhs[h].src, parents[h].id) != row
  }

  lemma GrantsAgree(b: Bindings, b': Bindings, row: RowId, hs: set<Inh>, parent: RowId)
    requires AgreeOutside(b, b', row, hs) && parent != row
    ensures DistinctRefs(b, parent) <==> DistinctRefs(b', parent)
    ensures DistinctRefs(b, parent) ==> GrantsOf(b, parent) == GrantsOf(b', parent)
  {
    forall k ensures k in KeysOf(b, parent) <==> k in KeysOf(b', parent) {
      assert OnRow(k, row, hs) || Agree(b, b', k);
    }
    assert KeysOf(b, parent) == KeysOf(b', parent);
    forall k | k in KeysOf(b, parent) ensures b'[k] == b[k] {
      assert OnRow(k, row, hs) || Agree(b, b', k);
    }
  }

  lemma MergeAgrees(b: Bindings, b': Bindings, row: RowId, hs: set<Inh>, h: Inh, grants: map<Ref, Grant>,
                    survivors: set<Key>, now: int)
    requires AgreeOutside(b, b', row, hs) && h !in hs
    ensures AgreeOutside(Merge(b, row, h, grants, survivors, now), Merge(b', row, h, grants, survivors, now), row, hs)
  {
    var m, m' := Merge(b, row, h, grants, survivors, now), Merge(b', row, h, grants, survivors, now);
    forall k: Key ensures OnRow(k, row, hs) || Agree(m, m', k) {
      assert OnRow(k, row, hs) || Agree(b, b', k);
    }
  }

  lemma MergeOnly(b: Bindings, row: RowId, h: Inh, grants: map<Ref, Grant>, survivors: set<Key>, now: int)
    ensures AgreeOutside(b, Merge(b, row, h, grants, survivors, now), row, {h})
  {
  }

  lemma OneAgrees(b: Bindings, b': Bindings, db: Db, row: RowId, hs: set<Inh>, h: Inh, parent: Target,
                  survivors: set<Key>, now: int)
    requires AgreeOutside(b, b', row, hs) && h !in hs && h in db.inhs
    requires parent.One? ==> RowId(db.inhs[h].src, parent.id) != row
    ensures var r := InheritOne(b, db.enabled, row, h, db.inhs[h].src, parent, survivors, now);
            var r' := InheritOne(b', db.enabled, row, h, db.inhs[h].src, parent, survivors, now);
            && r.None? == r'.None?
            && (r.Some? ==> AgreeOutside(r.value, r'.value, row, hs) && AgreeOutside(b, r.value, row, {h}))
  {
    hide AgreeOutside, DistinctRefs, GrantsOf, Merge;
    SelfAgrees(b, row, {h});
    if parent.One? {
      var p := RowId(db.inhs[h].src, parent.id);
      GrantsAgree(b, b', row, hs, p);
      if DistinctRefs(b, p) {
        MergeAgrees(b, b', row, hs, h, GrantsOf(b, p), survivors, now);
        MergeOnly(b, row, h, GrantsOf(b, p), survivors, now);
      }
    }
  }

  lemma SelfAgrees(b: Bindings, row: RowId, hs: set<Inh>)
    ensures AgreeOutside(b, b, row, hs)
  {
  }

  /** What one inheritance alone would leave, from the bindings before the trigger. */
  function Alone(b: Bindings, db: Db, row: RowId, h: Inh, parents: map<Inh, Target>, survivors: set<Key>,
                 now: int): Option<Bindings>
    requires h in db.inhs && h in parents
  {
    InheritOne(b, db.enabled, row, h, db.inhs[h].src, parents[h], survivors, now)
  }

  predicate Ordered(db: Db, order: seq<Inh>, parents: map<Inh, Target>) {
    && (forall h | h in order :: h in db.inhs && h in parents)
    && (forall i, j | 0 <= i < j < |order| :: order[i] != order[j])
  }

  lemma OneOnly(b: Bindings, db: Db, row: RowId, h: Inh, parent: Target, survivors: set<Key>, now: int)
    requires h in db.inhs
    ensures var r := InheritOne(b, db.enabled, row, h, db.inhs[h].src, parent, survivors, now);
            r.Some? ==> AgreeOutside(b, r.value, row, {h})
  {
    hide AgreeOutside, DistinctRefs, GrantsOf, Merge;
    SelfAgrees(b, row, {h});
    if parent.One? && DistinctRefs(b, RowId(db.inhs[h].src, parent.id)) {
      MergeOnly(b, row, h, GrantsOf(b, RowId(db.inhs[h].src, parent.id)), survivors, now);
    }
  }

  /** The first turn of the loop changes the row's bindings under its inheritance alone. */
  lemma FirstStep(b0: Bindings, b: Bindings, db: Db, row: RowId, order: seq<Inh>, parents: map<Inh, Target>,
                  survivors: set<Key>, now: int, hs: set<Inh>)
    requires order != [] && Ordered(db, order, parents) && AgreeOutside(b0, b, row, hs)
    ensures order[0] in db.inhs && order[0] in parents && Ordered(db, order[1..], parents)
    ensures var r := Alone(b, db, row, order[0], parents, survivors, now);
            r.Some? ==> AgreeOutside(b0, r.value, row, hs + {order[0]}) && AgreeOutside(b, r.value, row, {order[0]})
  {
    hide InheritOne;
    var h := order[0];
    assert h in order && forall g | g in order[1..] :: g in order;
    OneOnly(b, db, row, h, parents[h], survivors, now);
    var r := Alone(b, db, row, h, parents, survivors, now);
    if r.Some? {
      forall k: Key ensures OnRow(k, row, hs + {h}) || Agree(b0, r.value, k) {
        assert OnRow(k, row, hs) || Agree(b0, b, k);
        assert OnRow(k, row, {h}) || Agree(b, r.value, k);
      }
    }
  }

  /** When no row is its own parent the loop fails exactly when one of its inheritances alone would. */
  lemma {:induction false} InheritAllSome(b0: Bindings, b: Bindings, db: Db, row: RowId, order: seq<Inh>,
                                          parents: map<Inh, Target>, survivors: set<Key>, now: int, hs: set<Inh>)
    requires Ordered(db, order, parents) && (forall h | h in order :: h !in hs) && AgreeOutside(b0, b, row, hs)
    requires forall h | h in order :: FromOther(db, row, h, parents)
    ensures InheritAll(b, db, row, order, parents, survivors, now).Some?
            <==> forall h | h in order :: Alone(b0, db, row, h, parents, survivors, now).Some?
    decreases |order|
  {
    hide InheritOne, AgreeOutside;
    if order != [] {
      var h := order[0];
      FirstStep(b0, b, db, row, order, parents, survivors, now, hs);
      assert forall g :: g in order <==> g == h || g in order[1..];
      assert h in order && FromOther(db, row, h, parents);
      OneAgrees(b0, b, db, row, hs, h, parents[h], survivors, now);
      var r := Alone(b, db, row, h, parents, survivors, now);
      if r.Some? { InheritAllSome(b0, r.value, db, row, order[1..], parents, survivors, now, hs + {h}); }
    }
  }

  /** When the loop succeeds, each inheritance whose parent is another row has left on the row what it
      alone would leave, whatever the others did; and what is not under one of them is untouched. */
  lemma {:induction false} InheritAllAt(b0: Bindings, b: Bindings, db: Db, row: RowId, order: seq<Inh>,
                                        parents: map<Inh, Target>, survivors: set<Key>, now: int, hs: set<Inh>, k: Key)
    requires Ordered(db, order, parents) && (forall h | h in order :: h !in hs) && AgreeOutside(b0, b, row, hs)
    requires InheritAll(b, db, row, order, parents, survivors, now).Some?
    ensures var b' := InheritAll(b, db, row, order, parents, survivors, now).value;
            if k.table == row.table && k.id == row.id && k.inh in order then
              FromOther(db, row, k.inh, parents) ==>
                var r0 := Alone(b0, db, row, k.inh, parents, survivors, now); r0.Some? && Agree(r0.value, b', k)
            else Agree(b, b', k)
    decreases |order|
  {
    hide InheritOne;
    if order != [] {
      var h := order[0];
      FirstStep(b0, b, db, row, order, parents, survivors, now, hs);
      assert forall g :: g in order <==> g == h || g in order[1..];
      var r := Alone(b, db, row, h, parents, survivors, now);
      InheritAllAt(b0, r.value, db, row, order[1..], parents, survivors, now, hs + {h}, k);
      assert OnRow(k, row, {h}) || Agree(b, r.value, k);
      if k.inh == h && FromOther(db, row, h, parents) {
        OneAgrees(b0, b, db, row, hs, h, parents[h], survivors, now);
        assert OnRow(k, row, hs) || Agree(Alone(b0, db, row, h, parents, survivors, now).value, r.value, k);
      }
    }
  }

  /** The loop's query gives the inheritances in no particular order; when no row is its own
      parent, the order makes no difference. */
  lemma TriggerOrderFree(db: Db, row: RowId, order: seq<Inh>, order': seq<Inh>, parents: map<Inh, Target>,
                         survivors: set<Key>, now: int)
    requires OrderOf(order, db, row.table) && OrderOf(order', db, row.table)
    requires forall h | h in db.inhs :: h in parents && FromOther(db, row, h, parents)
    ensures InheritAll(db.bindings, db, row, order, parents, survivors, now)
            == InheritAll(db.bindings, db, row, order', parents, survivors, now)
  {
    hide InheritOne;
    var b := db.bindings;
    var r := InheritAll(b, db, row, order, parents, survivors, now);
    var r' := InheritAll(b, db, row, order', parents, survivors, now);
    SelfAgrees(b, row, {});
    InheritAllSome(b, b, db, row, order, parents, survivors, now, {});
    InheritAllSome(b, b, db, row, order', parents, survivors, now, {});
    SameMembers(db, row.table, order, order');
    if r.Some? && r'.Some? {
      forall k: Key ensures Agree(r.value, r'.value, k) {
        InheritAllAt(b, b, db, row, order, parents, survivors, now, {}, k);
        InheritAllAt(b, b, db, row, order', parents, survivors, now, {}, k);
      }
      AgreeEverywhere(r.value, r'.value);
    }
  }

  lemma SameMembers(db: Db, table: Table, order: seq<Inh>, order': seq<Inh>)
    requires OrderOf(order, db, table) && OrderOf(order', db, table)
    ensures forall h :: h in order <==> h in order'
  {
    forall h ensures h in order <==> h in order' {
      assert h in order ==> h in db.inhs;
      assert h in order' ==> h in db.inhs;
    }
  }

  lemma AgreeEverywhere(b: Bindings, b': Bindings)
    requires forall k: Key :: Agree(b, b', k)
    ensures b == b'
  {
    assert forall k: Key :: Agree(b, b', k) ==> (k in b <==> k in b');
  }
}
