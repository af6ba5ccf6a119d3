/**
 Exactly which tracked tables of a tree the walk leaves bare, without the inserted join: those it
 skips over with a clause, and those it meets outside a FROM clause.
 */
module AclCoverage {
  import opened Results
  import opened Json
  import opened QueryAcler
  import opened AclErasure

  /** The name, if the node is a tracked table: the parser writes one under the key RangeVar in a FROM
      clause, and as the bare value of relation or rel where a statement or INTO names its target. */
  function OwnName(j: Json, tracked: set<string>): seq<string> {
    var relname := TextAt(j, "relname");
    if relname.Ok? && relname.value in tracked then [relname.value] else []
  }

  /** The tracked tables that stand in a tree other than in an inserted join, in order. */
  function Bare(j: Json, tracked: set<string>): seq<string>
    decreases j, 1
  {
    if Inserted(j).Some? then []
    else
      match j
      case Arr(items) => BareItems(items, tracked)
      case Obj(fields) => OwnName(j, tracked) + BareFields(fields, tracked)
      case _ => []
  }

  function BareItems(items: seq<Json>, tracked: set<string>): seq<string>
    decreases items, 0
  {
    if items == [] then [] else Bare(items[0], tracked) + BareItems(items[1..], tracked)
  }

  function BareFields(fields: seq<Field>, tracked: set<string>): seq<string>
    decreases fields, 0
  {
    if fields == [] then [] else Bare(fields[0].val, tracked) + BareFields(fields[1..], tracked)
  }

  /** A node of a FROM clause that holds a tracked table as its RangeVar is replaced as a whole. */
  predicate Replaces(m: Mode, fields: seq<Field>, tracked: set<string>) {
    m.InFrom? && exists i :: 0 <= i < |fields| && fields[i].key == "RangeVar" && OwnName(fields[i].val, tracked) != []
  }

  /** The tracked tables of a tree that the walk in mode m does not reach as a RangeVar of a FROM
      clause, in order: all of a clause that SELECT mode skips, and elsewhere all it meets otherwise. */
  function Unreached(m: Mode, j: Json, tracked: set<string>): seq<string>
    decreases j, 1
  {
    match j
    case Arr(items) => UnreachedItems(m, items, tracked)
    case Obj(fields) =>
      if Replaces(m, fields, tracked) then [] else OwnName(j, tracked) + UnreachedFields(m, fields, tracked)
    case _ => []
  }

  function UnreachedItems(m: Mode, items: seq<Json>, tracked: set<string>): seq<string>
    decreases items, 0
  {
    if items == [] then [] else Unreached(m, items[0], tracked) + UnreachedItems(m, items[1..], tracked)
  }

  function UnreachedFields(m: Mode, fields: seq<Field>, tracked: set<string>): seq<string>
    decreases fields, 0
  {
    if fields == [] then []
    else
      var Field(key, val) := fields[0];
      (if m.InSelect? && key in ["intoClause", "whereClause", "targetList"] then Bare(val, tracked)
       else if m.InFrom? && key == "RangeVar" then Bare(val, tracked)
       else if m.InSelect? && key == "fromClause" then Unreached(InFrom, val, tracked)
       else if !m.InSelect? && key == "SelectStmt" then Unreached(InSelect, val, tracked)
       else Unreached(m, val, tracked))
      + UnreachedFields(m, fields[1..], tracked)
  }

  // ---------- what a walk leaves of a node ----------

  lemma {:induction false} NeverReplaced(m: Mode, fields: seq<Field>, tracked: set<string>)
    requires !m.InFrom? && WalkFields(m, fields, tracked, InsertedJoin).Ok?
    ensures WalkFields(m, fields, tracked, InsertedJoin).value.Kept?
  {
    if fields != [] { NeverReplaced(m, fields[1..], tracked); }
  }

  lemma {:induction false} ReplacedIff(m: Mode, fields: seq<Field>, tracked: set<string>)
    requires WalkFields(m, fields, tracked, InsertedJoin).Ok?
    ensures WalkFields(m, fields, tracked, InsertedJoin).value.Replaced? <==> Replaces(m, fields, tracked)
  {
    if !m.InFrom? {
      NeverReplaced(m, fields, tracked);
    } else if fields != [] {
      var f, rest := fields[0], fields[1..];
      if f.key != "RangeVar" || OwnName(f.val, tracked) == [] {
        ReplacedIff(m, rest, tracked);
        assert Replaces(m, fields, tracked) <==> Replaces(m, rest, tracked) by {
          assert forall i | 1 <= i < |fields| :: fields[i] == rest[i - 1];
          assert forall i | 0 <= i < |rest| :: rest[i] == fields[i + 1];
        }
      }
    }
  }

  /** A kept node keeps its own name. */
  lemma {:induction false} RelnameKept(m: Mode, fields: seq<Field>, tracked: set<string>)
    requires WalkFields(m, fields, tracked, InsertedJoin).Ok?
    requires WalkFields(m, fields, tracked, InsertedJoin).value.Kept?
    ensures TextAt(Obj(WalkFields(m, fields, tracked, InsertedJoin).value.fields), "relname")
            == TextAt(Obj(fields), "relname")
  {
    if fields != [] {
      var f, rest := fields[0], WalkFields(m, fields[1..], tracked, InsertedJoin);
      assert rest.Ok? && rest.value.Kept?;
      RelnameKept(m, fields[1..], tracked);
      var fs' := WalkFields(m, fields, tracked, InsertedJoin).value.fields;
      assert fs'[1..] == rest.value.fields && fs'[0].key == f.key;
      assert f.key == "relname" ==> Dispatch(m, f.key) == Enter(m);
      if f.key == "relname" { StrStays(m, f.val, tracked); }
    }
  }

  lemma StrStays(m: Mode, j: Json, tracked: set<string>)
    requires Walk(m, j, tracked, InsertedJoin).Ok?
    ensures j.Str? ==> Walk(m, j, tracked, InsertedJoin).value == j
    ensures Walk(m, j, tracked, InsertedJoin).value.Str? ==> j.Str?
  {
    if j.Obj? && WalkFields(m, j.fields, tracked, InsertedJoin).value.Replaced? { OnlyInserts(m, j.fields, tracked); }
  }

  // ---------- bare after is unreached before ----------

  /** The tracked tables left bare in a rewritten tree are, in order, exactly those of the original
      that the walk did not reach as a RangeVar of a FROM clause. */
  lemma {:induction false} BareIsUnreached(m: Mode, j: Json, tracked: set<string>)
    requires Fresh(j) && Rewrite(m, j, tracked).Ok?
    ensures Bare(Rewrite(m, j, tracked).value, tracked) == Unreached(m, j, tracked)
    decreases j, 1
  {
    match j
    case Arr(items) => BareItemsAre(m, items, tracked);
    case Obj(fields) =>
      var out := WalkFields(m, fields, tracked, InsertedJoin).value;
      ReplacedIff(m, fields, tracked);
      if out.Replaced? {
        OnlyInserts(m, fields, tracked);
        var n, a :| WalkFields(m, fields, tracked, InsertedJoin) == Ok(Replaced(InsertedJoin(n, a)));
        InsertedRecognised(n, a);
      } else {
        KeptNotInserted(m, fields, out.fields, tracked);
        RelnameKept(m, fields, tracked);
        BareFieldsAre(m, fields, tracked);
      }
    case _ =>
  }

  lemma {:induction false} BareItemsAre(m: Mode, items: seq<Json>, tracked: set<string>)
    requires (forall i | 0 <= i < |items| :: Fresh(items[i])) && WalkItems(m, items, tracked, InsertedJoin).Ok?
    ensures BareItems(WalkItems(m, items, tracked, InsertedJoin).value, tracked) == UnreachedItems(m, items, tracked)
    decreases items, 0
  {
    if items != [] {
      BareIsUnreached(m, items[0], tracked);
      BareItemsAre(m, items[1..], tracked);
      var all := WalkItems(m, items, tracked, InsertedJoin).value;
      var rest := WalkItems(m, items[1..], tracked, InsertedJoin).value;
      assert all[0] == Walk(m, items[0], tracked, InsertedJoin).value && all[1..] == rest;
    }
  }

  lemma UnreachedFirst(m: Mode, fields: seq<Field>, tracked: set<string>)
    requires fields != []
    ensures UnreachedFields(m, fields, tracked) ==
            (if Dispatch(m, fields[0].key).Enter?
             then Unreached(Dispatch(m, fields[0].key).mode, fields[0].val, tracked)
             else Bare(fields[0].val, tracked))
            + UnreachedFields(m, fields[1..], tracked)
  {
    hide Unreached, Bare;
  }

  lemma {:induction false} BareFieldsAre(m: Mode, fields: seq<Field>, tracked: set<string>)
    requires forall i | 0 <= i < |fields| :: Fresh(fields[i].val)
    requires WalkFields(m, fields, tracked, InsertedJoin).Ok?
             && WalkFields(m, fields, tracked, InsertedJoin).value.Kept?
    ensures BareFields(WalkFields(m, fields, tracked, InsertedJoin).value.fields, tracked)
            == UnreachedFields(m, fields, tracked)
    decreases fields, 0
  {
    if fields != [] {
      var f := fields[0];
      var fs' := WalkFields(m, fields, tracked, InsertedJoin).value.fields;
      var rest := WalkFields(m, fields[1..], tracked, InsertedJoin);
      assert rest.Ok? && rest.value.Kept?;
      BareFieldsAre(m, fields[1..], tracked);
      UnreachedFirst(m, fields, tracked);
      hide Unreached, UnreachedFields;
      match Dispatch(m, f.key)
      case Enter(m') =>
        var val' := Walk(m', f.val, tracked, InsertedJoin).value;
        BareIsUnreached(m', f.val, tracked);
        assert fs'[0] == Field(f.key, val') && fs'[1..] == rest.value.fields;
      case _ =>
        assert fs'[0] == f && fs'[1..] == rest.value.fields;
    }
  }

  // ---------- tables that stay bare ----------

  /** A SELECT with one clause. */
  function Selecting(clause: string, val: Json): Json {
    Node("SelectStmt", Node(clause, val))
  }

  /** The value of a WHERE clause that reads from a table in a sub-query. */
  function Subquery(name: string): Json {
    Node("SubLink", Node("subselect", Selecting("fromClause", Arr([TableNode(name, None)]))))
  }

  /** Whatever is in an INTO, WHERE or target clause comes through as it was. */
  lemma SkippedKept(clause: string, val: Json, tracked: set<string>)
    requires clause in ["intoClause", "whereClause", "targetList"]
    ensures Rewrite(Top, Selecting(clause, val), tracked) == Ok(Selecting(clause, val))
  {
    var body := Node(clause, val);
    var fs, top := body.fields, [Field("SelectStmt", body)];
    assert fs[1..] == [] && fs + [] == fs && top[1..] == [] && top + [] == top;
    assert WalkFields(InSelect, fs, tracked, InsertedJoin) == Ok(Kept(fs));
    assert Walk(InSelect, body, tracked, InsertedJoin) == Ok(body);
    assert WalkFields(Top, top, tracked, InsertedJoin) == Ok(Kept(top));
  }

  lemma NodeBare(key: string, val: Json, tracked: set<string>)
    requires key != "relname" && Inserted(Node(key, val)).None?
    ensures Bare(Node(key, val), tracked) == Bare(val, tracked)
  {
    var fields := [Field(key, val)];
    assert fields[1..] == [];
    assert Lookup(fields, "relname") == None;
    assert BareFields(fields, tracked) == Bare(val, tracked) + [];
  }

  lemma NameBare(name: string, tracked: set<string>)
    ensures Bare(Obj(TableFields(name, None)), tracked) == if name in tracked then [name] else []
  {
    var fs := TableFields(name, None);
    assert fs == [Field("inh", Bool(true)), Field("relname", Str(name)), Field("relpersistence", Str("p"))];
    TableLookups(name, None);
    assert fs[1..] == [fs[1], fs[2]] && fs[1..][1..] == [fs[2]] && fs[1..][1..][1..] == [];
    assert BareFields(fs[1..][1..], tracked) == [];
    assert BareFields(fs[1..], tracked) == [];
    assert BareFields(fs, tracked) == [];
    assert Inserted(Obj(fs)).None?;
  }

  lemma TableBare(name: string, tracked: set<string>)
    ensures Bare(TableNode(name, None), tracked) == if name in tracked then [name] else []
  {
    var fs := TableFields(name, None);
    assert |fs| == 3;
    NameBare(name, tracked);
    NodeBare("RangeVar", Obj(fs), tracked);
  }

  lemma SelectingBare(clause: string, val: Json, tracked: set<string>)
    requires clause != "relname" && Inserted(Node(clause, val)).None?
    ensures Bare(Selecting(clause, val), tracked) == Bare(val, tracked)
  {
    NodeBare(clause, val, tracked);
    NodeBare("SelectStmt", Node(clause, val), tracked);
  }

  lemma SubqueryBare(name: string, tracked: set<string>)
    ensures Bare(Subquery(name), tracked) == if name in tracked then [name] else []
    ensures Inserted(Node("whereClause", Subquery(name))).None?
  {
    var tables := [TableNode(name, None)];
    var inner := Selecting("fromClause", Arr(tables));
    TableBare(name, tracked);
    assert tables[1..] == [] && BareItems(tables, tracked) == Bare(tables[0], tracked) + [];
    SelectingBare("fromClause", Arr(tables), tracked);
    NodeBare("subselect", inner, tracked);
    NodeBare("SubLink", Node("subselect", inner), tracked);
  }

  /** A tracked table in the FROM clause of a sub-query in WHERE: the walk skips it and changes
      nothing, so the table stays bare. */
  lemma WhereStaysBare(name: string, tracked: set<string>)
    requires name in tracked
    ensures var q := Selecting("whereClause", Subquery(name));
            Rewrite(Top, q, tracked) == Ok(q) && Bare(q, tracked) == [name]
  {
    hide Rewrite, Bare, Inserted, Subquery;
    SkippedKept("whereClause", Subquery(name), tracked);
    SubqueryBare(name, tracked);
    SelectingBare("whereClause", Subquery(name), tracked);
  }

  /** So does the tracked table that a SELECT writes INTO. */
  lemma IntoStaysBare(name: string, tracked: set<string>)
    requires name in tracked
    ensures var q := Selecting("intoClause", Node("rel", Obj(TableFields(name, None))));
            Rewrite(Top, q, tracked) == Ok(q) && Bare(q, tracked) == [name]
  {
    var rel := Node("rel", Obj(TableFields(name, None)));
    assert |TableFields(name, None)| == 3;
    SkippedKept("intoClause", rel, tracked);
    NameBare(name, tracked);
    NodeBare("rel", Obj(TableFields(name, None)), tracked);
    SelectingBare("intoClause", rel, tracked);
  }

  // ---------- the target of a statement ----------

  /** DELETE FROM name, or any other statement with a target of its own. */
  function Targeting(stmt: string, name: string): Json {
    Node(stmt, Node("relation", Obj(TableFields(name, None))))
  }

  /** The walk steps over a node that it enters and that comes back unchanged. */
  lemma TopUnchanged(key: string, val: Json, tracked: set<string>)
    requires key != "SelectStmt" && Rewrite(Top, val, tracked) == Ok(val)
    ensures Rewrite(Top, Node(key, val), tracked) == Ok(Node(key, val))
  {
    var fields := [Field(key, val)];
    assert fields[1..] == [] && fields + [] == fields;
    assert WalkFields(Top, fields, tracked, InsertedJoin) == Ok(Kept(fields));
  }

  lemma PlainUnchanged(fs: seq<Field>, tracked: set<string>)
    requires forall i | 0 <= i < |fs| :: Primitive(fs[i].val) && fs[i].key != "SelectStmt"
    ensures WalkFields(Top, fs, tracked, InsertedJoin) == Ok(Kept(fs))
  {
    if fs != [] {
      PlainUnchanged(fs[1..], tracked);
      assert fs == [fs[0]] + fs[1..];
    }
  }

  /** A tracked table that a statement deletes from, inserts into or updates stays bare. */
  lemma TargetStaysBare(stmt: string, name: string, tracked: set<string>)
    requires name in tracked && stmt in ["DeleteStmt", "InsertStmt", "UpdateStmt"]
    ensures Rewrite(Top, Targeting(stmt, name), tracked) == Ok(Targeting(stmt, name))
    ensures Bare(Targeting(stmt, name), tracked) == [name]
  {
    var fs := TableFields(name, None);
    assert |fs| == 3;
    var relation := Node("relation", Obj(fs));
    PlainUnchanged(fs, tracked);
    TopUnchanged("relation", Obj(fs), tracked);
    TopUnchanged(stmt, relation, tracked);
    NameBare(name, tracked);
    NodeBare("relation", Obj(fs), tracked);
    NodeBare(stmt, relation, tracked);
  }
}
