/**
 The statements as methods on the tables they change. Each is proved to be the step of
 RoleBindings with the same name.
 */
module AccessControl {
  import opened RoleBindings

  class Tables {
    var enabled: set<Table>
    var rows: set<RowId>
    var roles: set<string>
    var inhs: map<Inh, Inheritance>
    var nextInh: Inh
    var refs: map<Ref, RowId>
    var nextRef: Ref
    var bindings: Bindings

    ghost function View(): Db
      reads this
    {
      Db(enabled, rows, roles, inhs, nextInh, refs, nextRef, bindings)
    }

    constructor ()
      ensures View() == EMPTY
    {
      enabled, rows, roles, inhs, nextInh := {}, {}, {}, map[], 1;
      refs, nextRef, bindings := map[], 1, map[];
    }

    method BindAccessRole(table: Table, role: string, principal: string, target: Target, now: int) returns (ok: bool)
      modifies this`refs, this`nextRef, this`bindings
      ensures Outcome(View(), ok) == Do(old(View()), BindRole(table, role, principal, target, now))
    {
      if table !in enabled { return false; }
      var r := nextRef;
      nextRef := nextRef + 1;
      if !target.One? || role !in roles || RowId(table, target.id) !in rows { return false; }
      refs := refs[r := RowId(table, target.id)];
      bindings := bindings[Key(table, target.id, OWN, r) := Grant(role, principal, now)];
      ok := true;
    }

    /** Deletes refs; the bindings follow by their foreign key. */
    method UnbindAccessRole(table: Table, role: string, principal: string, target: Target) returns (ok: bool)
      modifies this`refs, this`bindings
      ensures Outcome(View(), ok) == Do(old(View()), UnbindRole(table, role, principal, target))
    {
      if table !in enabled || target.Many? { return false; }
      if target.NoRow? { return true; }
      var gone := OwnRefs(bindings, RowId(table, target.id), role, principal);
      refs := refs - gone;
      bindings := WithoutRefs(bindings, gone);
      ok := true;
    }

    /** The trigger: one statement for each inheritance into the table. When one of them fails,
        so does the statement that fired the trigger. */
    method SetAccessBindings(row: RowId, order: seq<Inh>, parents: map<Inh, Target>, survivors: set<Key>,
                             now: int) returns (ok: bool)
      requires forall i | 0 <= i < |order| :: order[i] in inhs && order[i] in parents
      modifies this`bindings
      ensures var r := InheritAll(old(bindings), View(), row, order, parents, survivors, now);
              ok == r.Some? && bindings == if ok then r.value else old(bindings)
    {
      var b, i := bindings, 0;
      assert order[0..] == order;
      while i < |order|
        invariant 0 <= i <= |order| && bindings == old(bindings)
        invariant InheritAll(b, View(), row, order[i..], parents, survivors, now)
                  == InheritAll(bindings, View(), row, order, parents, survivors, now)
      {
        assert order[i..][0] == order[i] && order[i..][1..] == order[i + 1..];
        var h := order[i];
        var r := InheritOne(b, enabled, row, h, inhs[h].src, parents[h], survivors, now);
        if r.None? { return false; }
        b := r.value;
        i := i + 1;
      }
      ghost var before := View();
      bindings := b;
      InheritAllFrame(old(bindings), before, View(), row, order, parents, survivors, now);
      ok := true;
    }

    method UpsertRow(row: RowId, order: seq<Inh>, parents: map<Inh, Target>, survivors: set<Key>,
                     now: int) returns (ok: bool)
      requires RoleBindings.Enabled(View(), Upsert(row, order, parents, survivors, now))
      modifies this`rows, this`bindings
      ensures Outcome(View(), ok) == Do(old(View()), Upsert(row, order, parents, survivors, now))
    {
      ok := true;
      if row.table in enabled {
        assert forall i | 0 <= i < |order| :: order[i] in order;
        ghost var before := View();
        ok := SetAccessBindings(row, order, parents, survivors, now);
        InheritAllFrame(before.bindings, before, View(), row, order, parents, survivors, now);
      }
      if ok { rows := rows + {row}; }
    }

    method Delete(row: RowId)
      modifies this`rows, this`bindings
      ensures Outcome(View(), true) == Do(old(View()), DeleteRow(row))
    {
      rows := rows - {row};
      bindings := map k | k in bindings && RowId(k.table, k.id) != row :: bindings[k];
    }
  }
}
