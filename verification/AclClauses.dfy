/**
 What the walk does with every key of a node in each of its three modes, when it throws, and when
 it puts the inserted join in the node's place. The laws hold of all nodes and fix the walk.
 */
module AclClauses {
  import opened Results
  import opened Json
  import opened QueryAcler

  // ---------- values that are no objects ----------

  lemma PrimitiveStays(m: Mode, j: Json, tracked: set<string>)
    requires Primitive(j)
    ensures Rewrite(m, j, tracked) == Ok(j)
  {
  }

  /** An array is walked element by element, each in the mode of the array. */
  lemma EveryItem(m: Mode, items: seq<Json>, tracked: set<string>)
    ensures var r := Rewrite(m, Arr(items), tracked);
            && (r.Ok? <==> forall i | 0 <= i < |items| :: Rewrite(m, items[i], tracked).Ok?)
            && (r.Ok? ==> r.value.Arr? && |r.value.items| == |items| && forall i | 0 <= i < |items| ::
                  Rewrite(m, items[i], tracked) == Ok(r.value.items[i]))
  {
    ItemsWalked(m, items, tracked);
  }

  lemma {:induction false} ItemsWalked(m: Mode, items: seq<Json>, tracked: set<string>)
    ensures var r := WalkItems(m, items, tracked, InsertedJoin);
            && (r.Ok? <==> forall i | 0 <= i < |items| :: Rewrite(m, items[i], tracked).Ok?)
            && (r.Ok? ==> |r.value| == |items| && forall i | 0 <= i < |items| ::
                  Rewrite(m, items[i], tracked) == Ok(r.value[i]))
  {
    hide Walk;
    if items != [] {
      ItemsWalked(m, items[1..], tracked);
      assert forall i | 1 <= i < |items| :: items[i] == items[1..][i - 1];
      assert forall i | 0 <= i < |items| - 1 :: items[1..][i] == items[i + 1];
    }
  }

  // ---------- top mode ----------

  /** Outside SELECT every key is entered, SelectStmt in SELECT mode, the others in top mode. */
  lemma TopKeys(fields: seq<Field>, tracked: set<string>)
    ensures var r := Rewrite(Top, Obj(fields), tracked);
            && (r.Ok? <==> forall i | 0 <= i < |fields| ::
                  Rewrite(if fields[i].key == "SelectStmt" then InSelect else Top, fields[i].val, tracked).Ok?)
            && (r.Ok? ==> r.value.Obj? && |r.value.fields| == |fields| && forall i | 0 <= i < |fields| ::
                  && r.value.fields[i].key == fields[i].key
                  && Rewrite(if fields[i].key == "SelectStmt" then InSelect else Top, fields[i].val, tracked)
                     == Ok(r.value.fields[i].val))
  {
    TopWalked(fields, tracked);
  }

  lemma {:induction false} TopWalked(fields: seq<Field>, tracked: set<string>)
    ensures var r := WalkFields(Top, fields, tracked, InsertedJoin);
            && (r.Ok? <==> forall i | 0 <= i < |fields| ::
                  Rewrite(if fields[i].key == "SelectStmt" then InSelect else Top, fields[i].val, tracked).Ok?)
            && (r.Ok? ==> r.value.Kept? && |r.value.fields| == |fields| && forall i | 0 <= i < |fields| ::
                  && r.value.fields[i].key == fields[i].key
                  && Rewrite(if fields[i].key == "SelectStmt" then InSelect else Top, fields[i].val, tracked)
                     == Ok(r.value.fields[i].val))
  {
    hide Walk;
    if fields != [] {
      TopWalked(fields[1..], tracked);
      assert forall i | 1 <= i < |fields| :: fields[i] == fields[1..][i - 1];
      assert forall i | 0 <= i < |fields| - 1 :: fields[1..][i] == fields[i + 1];
    }
  }

  // ---------- SELECT mode ----------

  /** In SELECT mode fromClause is entered in FROM mode; intoClause, whereClause and targetList are
      skipped; every other clause is entered in SELECT mode. */
  lemma SelectKeys(fields: seq<Field>, tracked: set<string>)
    ensures var r := Rewrite(InSelect, Obj(fields), tracked);
            && (r.Ok? <==> forall i | 0 <= i < |fields| ::
                  fields[i].key == "intoClause" || fields[i].key == "whereClause" || fields[i].key == "targetList" ||
                  Rewrite(if fields[i].key == "fromClause" then InFrom else InSelect, fields[i].val, tracked).Ok?)
            && (r.Ok? ==> r.value.Obj? && |r.value.fields| == |fields| && forall i | 0 <= i < |fields| ::
                  && r.value.fields[i].key == fields[i].key
                  && if fields[i].key == "intoClause" || fields[i].key == "whereClause" || fields[i].key == "targetList"
                     then r.value.fields[i].val == fields[i].val
                     else Rewrite(if fields[i].key == "fromClause" then InFrom else InSelect, fields[i].val, tracked)
                          == Ok(r.value.fields[i].val))
  {
    SelectWalked(fields, tracked);
  }

  lemma {:induction false} SelectWalked(fields: seq<Field>, tracked: set<string>)
    ensures var r := WalkFields(InSelect, fields, tracked, InsertedJoin);
            && (r.Ok? <==> forall i | 0 <= i < |fields| ::
                  fields[i].key == "intoClause" || fields[i].key == "whereClause" || fields[i].key == "targetList" ||
                  Rewrite(if fields[i].key == "fromClause" then InFrom else InSelect, fields[i].val, tracked).Ok?)
            && (r.Ok? ==> r.value.Kept? && |r.value.fields| == |fields| && forall i | 0 <= i < |fields| ::
                  && r.value.fields[i].key == fields[i].key
                  && if fields[i].key == "intoClause" || fields[i].key == "whereClause" || fields[i].key == "targetList"
                     then r.value.fields[i].val == fields[i].val
                     else Rewrite(if fields[i].key == "fromClause" then InFrom else InSelect, fields[i].val, tracked)
                          == Ok(r.value.fields[i].val))
  {
    hide Walk;
    if fields != [] {
      SelectWalked(fields[1..], tracked);
      assert forall i | 1 <= i < |fields| :: fields[i] == fields[1..][i - 1];
      assert forall i | 0 <= i < |fields| - 1 :: fields[1..][i] == fields[i + 1];
    }
  }

  // ---------- FROM mode ----------

  /** The field is the RangeVar of a tracked table. */
  predicate TrackedTable(f: Field, tracked: set<string>) {
    f.key == "RangeVar" && TextAt(f.val, "relname").Ok? && TextAt(f.val, "relname").value in tracked
  }

  /** The walk of a FROM clause gets past the field: a RangeVar must hold a name. */
  predicate Passable(f: Field, tracked: set<string>) {
    if f.key == "RangeVar" then TextAt(f.val, "relname").Ok?
    else Rewrite(if f.key == "SelectStmt" then InSelect else InFrom, f.val, tracked).Ok?
  }

  /** The alias the value gives: none without the key, else the text it must hold. */
  predicate Aliased(v: Json, alias: Option<string>)
    requires v.Obj?
  {
    match Lookup(v.fields, "alias")
    case None => alias == None
    case Some(a) => alias.Some? && TextAt(a, "aliasname") == Ok(alias.value)
  }

  /** In FROM mode a node without a tracked table keeps its RangeVar, and every other key is entered,
      SelectStmt in SELECT mode, the rest in FROM mode. */
  lemma FromKeys(fields: seq<Field>, tracked: set<string>)
    requires forall i | 0 <= i < |fields| :: !TrackedTable(fields[i], tracked)
    ensures var r := Rewrite(InFrom, Obj(fields), tracked);
            && (r.Ok? <==> forall i | 0 <= i < |fields| :: Passable(fields[i], tracked))
            && (r.Ok? ==> r.value.Obj? && |r.value.fields| == |fields| && forall i | 0 <= i < |fields| ::
                  && r.value.fields[i].key == fields[i].key
                  && if fields[i].key == "RangeVar" then r.value.fields[i].val == fields[i].val
                     else Rewrite(if fields[i].key == "SelectStmt" then InSelect else InFrom, fields[i].val, tracked)
                          == Ok(r.value.fields[i].val))
  {
    FromWalked(fields, tracked);
  }

  lemma Untracked(f: Field, tracked: set<string>)
    requires f.key == "RangeVar" && !TrackedTable(f, tracked)
    ensures var r := Replacement(f.val, tracked, InsertedJoin);
            if TextAt(f.val, "relname").Ok? then r == Ok(None) else r.Thrown?
  {
  }

  lemma {:induction false} FromWalked(fields: seq<Field>, tracked: set<string>)
    requires forall i | 0 <= i < |fields| :: !TrackedTable(fields[i], tracked)
    ensures var r := WalkFields(InFrom, fields, tracked, InsertedJoin);
            && (r.Ok? <==> forall i | 0 <= i < |fields| :: Passable(fields[i], tracked))
            && (r.Ok? ==> r.value.Kept? && |r.value.fields| == |fields| && forall i | 0 <= i < |fields| ::
                  && r.value.fields[i].key == fields[i].key
                  && if fields[i].key == "RangeVar" then r.value.fields[i].val == fields[i].val
                     else Rewrite(if fields[i].key == "SelectStmt" then InSelect else InFrom, fields[i].val, tracked)
                          == Ok(r.value.fields[i].val))
  {
    hide Walk, Replacement, TextAt, TrackedTable;
    if fields != [] {
      FromWalked(fields[1..], tracked);
      if fields[0].key == "RangeVar" { Untracked(fields[0], tracked); }
      assert forall i | 1 <= i < |fields| :: fields[i] == fields[1..][i - 1];
      assert forall i | 0 <= i < |fields| - 1 :: fields[1..][i] == fields[i + 1];
    }
  }

  /** The first tracked table of a node decides it: once the walk gets past the fields before, the
      join inserted for its name and alias takes the place of the whole node. */
  lemma FromReplaced(fields: seq<Field>, n: nat, alias: Option<string>, tracked: set<string>)
    requires n < |fields| && TrackedTable(fields[n], tracked)
    requires forall i | 0 <= i < n :: !TrackedTable(fields[i], tracked)
    ensures var r := Rewrite(InFrom, Obj(fields), tracked);
            && (r.Ok? ==> forall i | 0 <= i < n :: Passable(fields[i], tracked))
            && (r.Ok? ==> exists a :: Aliased(fields[n].val, a))
            && ((forall i | 0 <= i < n :: Passable(fields[i], tracked)) && Aliased(fields[n].val, alias) ==>
                  r == Ok(InsertedJoin(TextAt(fields[n].val, "relname").value, alias)))
  {
    FromDecided(fields, n, alias, tracked);
  }

  lemma Decided(v: Json, alias: Option<string>, tracked: set<string>)
    requires TextAt(v, "relname").Ok? && TextAt(v, "relname").value in tracked
    ensures var r := Replacement(v, tracked, InsertedJoin);
            && (r.Ok? ==> r.value.Some? && exists a :: Aliased(v, a))
            && (Aliased(v, alias) ==> r == Ok(Some(InsertedJoin(TextAt(v, "relname").value, alias))))
  {
    hide InsertedJoin;
    if Lookup(v.fields, "alias").None? {
      assert Aliased(v, None);
    } else {
      var a := TextAt(Lookup(v.fields, "alias").value, "aliasname");
      if a.Ok? { assert Aliased(v, Some(a.value)); }
    }
  }

  lemma {:induction false} FromDecided(fields: seq<Field>, n: nat, alias: Option<string>, tracked: set<string>)
    requires n < |fields| && TrackedTable(fields[n], tracked)
    requires forall i | 0 <= i < n :: !TrackedTable(fields[i], tracked)
    ensures var r := WalkFields(InFrom, fields, tracked, InsertedJoin);
            && (r.Ok? ==> r.value.Replaced? && forall i | 0 <= i < n :: Passable(fields[i], tracked))
            && (r.Ok? ==> exists a :: Aliased(fields[n].val, a))
            && ((forall i | 0 <= i < n :: Passable(fields[i], tracked)) && Aliased(fields[n].val, alias) ==>
                  r == Ok(Replaced(InsertedJoin(TextAt(fields[n].val, "relname").value, alias))))
    decreases n
  {
    hide Walk, Replacement, TextAt, InsertedJoin, Aliased;
    if n == 0 {
      Decided(fields[0].val, alias, tracked);
    } else {
      assert fields[1..][n - 1] == fields[n];
      assert forall i | 1 <= i < n :: fields[i] == fields[1..][i - 1];
      assert forall i | 0 <= i < n - 1 :: fields[1..][i] == fields[i + 1];
      FromDecided(fields[1..], n - 1, alias, tracked);
      if fields[0].key == "RangeVar" { Untracked(fields[0], tracked); }
    }
  }
}
