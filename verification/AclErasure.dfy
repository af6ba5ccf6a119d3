/**
 The rewrite only inserts: collapsing the inserted joins of a rewritten tree gives back the
 original tree, up to the fields of a tracked RangeVar that the template does not carry over;
 and the clauses a SELECT mode walk skips come through untouched.
 */
module AclErasure {
  import opened Results
  import opened Json
  import opened QueryAcler

  /** Does the tree have the key of a join anywhere? */
  predicate JoinFree(j: Json)
    decreases j, 1
  {
    match j
    case Arr(items) => forall i | 0 <= i < |items| :: JoinFree(items[i])
    case Obj(fields) => forall i | 0 <= i < |fields| :: fields[i].key != "JoinExpr" && JoinFree(fields[i].val)
    case _ => true
  }

  /** The table an inserted join stands for; None for any other node. */
  function Inserted(j: Json): Option<(string, Option<string>)> {
    if !(j.Obj? && |j.fields| == 1 && j.fields[0].val.Obj? && |j.fields[0].val.fields| == 4) then None
    else
      var larg := j.fields[0].val.fields[1].val;
      if !(larg.Obj? && |larg.fields| == 1 && larg.fields[0].val.Obj?) then None
      else
        var table := larg.fields[0].val;
        match (TextAt(table, "relname"), Lookup(table.fields, "alias"))
        case (Ok(n), None) => if j == InsertedJoin(n, None) then Some((n, None)) else None
        case (Ok(n), Some(a)) =>
          (match TextAt(a, "aliasname")
           case Ok(s) => if j == InsertedJoin(n, Some(s)) then Some((n, Some(s))) else None
           case _ => None)
        case _ => None
  }

  /** Collapses every inserted join to the table it was inserted for. */
  function Erase(j: Json): Json
    decreases j, 1
  {
    match Inserted(j)
    case Some((n, a)) => TableNode(n, a)
    case None =>
      match j
      case Arr(items) => Arr(seq(|items|, i requires 0 <= i < |items| => Erase(items[i])))
      case Obj(fields) => Obj(seq(|fields|, i requires 0 <= i < |fields| => Field(fields[i].key, Erase(fields[i].val))))
      case _ => j
  }

  /** The original tree with every tracked table in a FROM position reduced to what the template
      keeps of it: its name and alias. */
  function Strip(m: Mode, j: Json, tracked: set<string>): Result<Json> {
    Walk(m, j, tracked, TableNode)
  }

  /** No part of the tree is already an inserted join. */
  predicate Fresh(j: Json)
    decreases j, 1
  {
    Inserted(j).None? &&
    match j
    case Arr(items) => forall i | 0 <= i < |items| :: Fresh(items[i])
    case Obj(fields) => forall i | 0 <= i < |fields| :: Fresh(fields[i].val)
    case _ => true
  }

  // ---------- inserted joins are recognised ----------

  lemma TableLookups(n: string, a: Option<string>)
    ensures Lookup(TableFields(n, a), "relname") == Some(Str(n))
    ensures Lookup(TableFields(n, a), "alias") == if a.Some? then Some(Node("aliasname", Str(a.value))) else None
  {
    var fs := TableFields(n, a);
    if a.Some? {
      assert fs[1..] == [Field("inh", Bool(true)), Field("relname", Str(n)), Field("relpersistence", Str("p"))];
      assert fs[1..][1..] == [Field("relname", Str(n)), Field("relpersistence", Str("p"))];
      assert fs[0].key == "alias" && fs[1].key == "inh" && fs[2].key == "relname";
      assert Lookup(fs[1..][1..], "relname") == Some(Str(n));
      assert Lookup(fs[1..], "relname") == Some(Str(n));
    } else {
      assert fs == [Field("inh", Bool(true)), Field("relname", Str(n)), Field("relpersistence", Str("p"))];
      assert fs[1..] == [Field("relname", Str(n)), Field("relpersistence", Str("p"))];
      assert fs[1..][1..] == [Field("relpersistence", Str("p"))];
      assert fs[1..][1..][1..] == [];
      assert fs[0].key == "inh" && fs[1].key == "relname" && fs[2].key == "relpersistence";
      assert Lookup(fs[1..][1..], "alias") == None;
      assert Lookup(fs[1..], "alias") == None;
    }
  }

  lemma InsertedRecognised(n: string, a: Option<string>)
    ensures Inserted(InsertedJoin(n, a)) == Some((n, a))
  {
    TableLookups(n, a);
    assert InsertedJoin(n, a).fields[0].val.fields[1] == Field("larg", TableNode(n, a));
    if a.Some? { assert Lookup([Field("aliasname", Str(a.value))], "aliasname") == Some(Str(a.value)); }
  }

  // ---------- a walk that inserts nothing changes nothing ----------

  lemma InsertedHasJoin(n: string, a: Option<string>)
    ensures !JoinFree(InsertedJoin(n, a))
  {
    assert InsertedJoin(n, a).fields[0].key == "JoinExpr";
  }

  lemma {:induction false} JoinFreeUnchanged(m: Mode, j: Json, tracked: set<string>)
    requires Rewrite(m, j, tracked).Ok? && JoinFree(Rewrite(m, j, tracked).value)
    ensures Rewrite(m, j, tracked) == Ok(j)
    decreases j, 1
  {
    match j
    case Arr(items) => JoinFreeItems(m, items, tracked);
    case Obj(fields) =>
      var out := WalkFields(m, fields, tracked, InsertedJoin).value;
      JoinFreeFields(m, fields, tracked);
    case _ =>
  }

  lemma {:induction false} JoinFreeItems(m: Mode, items: seq<Json>, tracked: set<string>)
    requires var out := WalkItems(m, items, tracked, InsertedJoin);
             out.Ok? && forall i | 0 <= i < |out.value| :: JoinFree(out.value[i])
    ensures WalkItems(m, items, tracked, InsertedJoin) == Ok(items)
    decreases items, 0
  {
    if items != [] {
      var out := WalkItems(m, items, tracked, InsertedJoin).value;
      var rest := WalkItems(m, items[1..], tracked, InsertedJoin).value;
      assert out[0] == Walk(m, items[0], tracked, InsertedJoin).value;
      forall i | 0 <= i < |rest| ensures JoinFree(rest[i]) { assert rest[i] == out[i + 1]; }
      JoinFreeUnchanged(m, items[0], tracked);
      JoinFreeItems(m, items[1..], tracked);
      assert items == [items[0]] + items[1..];
    }
  }

  predicate JoinFreeOutcome(out: Outcome) {
    match out
    case Kept(fs) => forall i | 0 <= i < |fs| :: JoinFree(fs[i].val)
    case Replaced(node) => JoinFree(node)
  }

  /** What a walk leaves of one field that it keeps. */
  function Kept1(m: Mode, f: Field, tracked: set<string>): Result<Json> {
    match Dispatch(m, f.key)
    case Enter(m') => Walk(m', f.val, tracked, InsertedJoin)
    case _ => Ok(f.val)
  }

  lemma KeptFirst(m: Mode, fields: seq<Field>, tracked: set<string>)
    requires fields != []
    requires var out := WalkFields(m, fields, tracked, InsertedJoin); out.Ok? && JoinFreeOutcome(out.value)
    ensures Kept1(m, fields[0], tracked).Ok?
    ensures WalkFields(m, fields, tracked, InsertedJoin)
            == Prepend([Field(fields[0].key, Kept1(m, fields[0], tracked).value)],
                       WalkFields(m, fields[1..], tracked, InsertedJoin))
  {
    hide JoinFree, Walk, Replacement;
    var f := fields[0];
    if Dispatch(m, f.key).Relation? && Replacement(f.val, tracked, InsertedJoin).value.Some? {
      ReplacementIsInserted(f.val, tracked);
      assert false;
    }
  }

  lemma PrependFree(f: Field, rest: Result<Outcome>)
    requires var out := Prepend([f], rest); out.Ok? && JoinFreeOutcome(out.value)
    ensures rest.Ok? && JoinFreeOutcome(rest.value)
    ensures rest.value.Kept? ==> JoinFree(f.val)
  {
    hide JoinFree;
    if rest.value.Kept? {
      var fs := [f] + rest.value.fields;
      assert fs[0] == f;
      forall i | 0 <= i < |rest.value.fields| ensures JoinFree(rest.value.fields[i].val) {
        assert rest.value.fields[i] == fs[i + 1];
      }
    }
  }

  lemma {:induction false} JoinFreeFields(m: Mode, fields: seq<Field>, tracked: set<string>)
    requires var out := WalkFields(m, fields, tracked, InsertedJoin); out.Ok? && JoinFreeOutcome(out.value)
    ensures WalkFields(m, fields, tracked, InsertedJoin) == Ok(Kept(fields))
    decreases fields, 0
  {
    if fields != [] {
      hide JoinFreeOutcome, JoinFree, Walk, Dispatch, WalkFields;
      var f := fields[0];
      KeptFirst(m, fields, tracked);
      PrependFree(Field(f.key, Kept1(m, f, tracked).value), WalkFields(m, fields[1..], tracked, InsertedJoin));
      JoinFreeFields(m, fields[1..], tracked);
      if Dispatch(m, f.key).Enter? { JoinFreeUnchanged(Dispatch(m, f.key).mode, f.val, tracked); }
      assert fields == [f] + fields[1..];
    }
  }

  lemma ReplacementIsInserted(v: Json, tracked: set<string>)
    requires var r := Replacement(v, tracked, InsertedJoin); r.Ok? && r.value.Some?
    ensures exists n, a :: Replacement(v, tracked, InsertedJoin) == Ok(Some(InsertedJoin(n, a)))
                        && Replacement(v, tracked, TableNode) == Ok(Some(TableNode(n, a)))
    ensures !JoinFree(Replacement(v, tracked, InsertedJoin).value.value)
  {
    var n := TextAt(v, "relname").value;
    if Lookup(v.fields, "alias").None? {
      InsertedHasJoin(n, None);
      assert Replacement(v, tracked, InsertedJoin) == Ok(Some(InsertedJoin(n, None)));
      assert Replacement(v, tracked, TableNode) == Ok(Some(TableNode(n, None)));
    } else {
      var a := TextAt(Lookup(v.fields, "alias").value, "aliasname").value;
      InsertedHasJoin(n, Some(a));
      assert Replacement(v, tracked, InsertedJoin) == Ok(Some(InsertedJoin(n, Some(a))));
      assert Replacement(v, tracked, TableNode) == Ok(Some(TableNode(n, Some(a))));
    }
  }

  // ---------- an inserted join holds no other join ----------

  lemma JoinFreeNode(key: string, val: Json)
    requires key != "JoinExpr" && JoinFree(val)
    ensures JoinFree(Node(key, val))
  {
  }

  lemma JoinFreeString(s: string)
    ensures JoinFree(StringNode(s))
  {
    JoinFreeNode("str", Str(s));
    JoinFreeNode("String", Node("str", Str(s)));
  }

  lemma JoinFreeColumn(ref: string, col: string)
    ensures JoinFree(ColumnNode(ref, col))
  {
    JoinFreeString(ref);
    JoinFreeString(col);
    JoinFreeNode("fields", Arr([StringNode(ref), StringNode(col)]));
    JoinFreeNode("ColumnRef", Node("fields", Arr([StringNode(ref), StringNode(col)])));
  }

  lemma JoinFreeEquals(l: Json, r: Json)
    requires JoinFree(l) && JoinFree(r)
    ensures JoinFree(EqualsNode(l, r))
  {
    JoinFreeString("=");
    JoinFreeNode("A_Expr", EqualsNode(l, r).fields[0].val);
  }

  lemma JoinFreeAnd(x: Json, y: Json, z: Json)
    requires JoinFree(x) && JoinFree(y) && JoinFree(z)
    ensures JoinFree(Node("BoolExpr", Obj([Field("args", Arr([x, y, z])), Field("boolop", Str("AND_EXPR"))])))
  {
    assert JoinFree(Arr([x, y, z]));
    JoinFreeNode("BoolExpr", Obj([Field("args", Arr([x, y, z])), Field("boolop", Str("AND_EXPR"))]));
  }

  lemma JoinFreeQuals(ref: string, op: string)
    ensures JoinFree(QualsNode(ref, op))
  {
    var user := CurrentUserNode();
    JoinFreeNode("SQLValueFunction", user.fields[0].val);
    JoinFreeString(op);
    JoinFreeNode("val", StringNode(op));
    JoinFreeNode("A_Const", Node("val", StringNode(op)));
    JoinFreeColumn(ref, "id");
    JoinFreeColumn(ref + "__acls__", "_id");
    JoinFreeColumn(ref + "__acls__", "_principal");
    JoinFreeColumn(ref + "__acls__", "_operation");
    JoinFreeEquals(ColumnNode(ref, "id"), ColumnNode(ref + "__acls__", "_id"));
    JoinFreeEquals(ColumnNode(ref + "__acls__", "_principal"), user);
    JoinFreeEquals(ColumnNode(ref + "__acls__", "_operation"), Node("A_Const", Node("val", StringNode(op))));
    JoinFreeAnd(EqualsNode(ColumnNode(ref, "id"), ColumnNode(ref + "__acls__", "_id")),
                EqualsNode(ColumnNode(ref + "__acls__", "_principal"), user),
                EqualsNode(ColumnNode(ref + "__acls__", "_operation"), Node("A_Const", Node("val", StringNode(op)))));
  }

  lemma JoinFreeTable(n: string, a: Option<string>)
    ensures JoinFree(TableNode(n, a))
  {
    if a.Some? { JoinFreeNode("aliasname", Str(a.value)); }
    JoinFreeNode("RangeVar", Obj(TableFields(n, a)));
  }

  lemma JoinFreeArguments(n: string, a: Option<string>)
    ensures var fs := InsertedJoin(n, a).fields[0].val.fields;
            |fs| == 4 && forall i | 0 <= i < 4 :: JoinFree(fs[i].val)
  {
    JoinFreeTable(n, a);
    JoinFreeTable(n + "__acls__", if a.Some? then Some(a.value + "__acls__") else None);
    JoinFreeQuals(if a.Some? then a.value else n, "SELECT");
  }

  // ---------- nothing but a replaced node becomes an inserted join ----------

  lemma {:induction false} InsertedOnlyIf(j: Json)
    requires Inserted(j).Some?
    ensures j == InsertedJoin(Inserted(j).value.0, Inserted(j).value.1)
  {
  }

  /** A node that the walk keeps and that ends as an inserted join was one before. */
  lemma KeptInserted(m: Mode, fields: seq<Field>, fields': seq<Field>, tracked: set<string>)
    requires WalkFields(m, fields, tracked, InsertedJoin) == Ok(Kept(fields')) && Inserted(Obj(fields')).Some?
    ensures fields == fields'
  {
    InsertedOnlyIf(Obj(fields'));
    var (n, a) := Inserted(Obj(fields')).value;
    KeptLength(m, fields, fields', tracked);
    assert fields[1..] == [];
    assert fields'[0].key == "JoinExpr" == fields[0].key;
    var v, v' := fields[0].val, fields'[0].val;
    assert Walk(m, v, tracked, InsertedJoin) == Ok(v') && v'.Obj? && |v'.fields| == 4;
    JoinFreeArguments(n, a);
    assert v.Obj?;
    if WalkFields(m, v.fields, tracked, InsertedJoin).value.Replaced? {
      OnlyInserts(m, v.fields, tracked);
    } else {
      JoinFreeFields(m, v.fields, tracked);
    }
    assert fields == [Field("JoinExpr", v)] && fields' == [Field("JoinExpr", v')];
  }

  lemma KeptNotInserted(m: Mode, fields: seq<Field>, fields': seq<Field>, tracked: set<string>)
    requires Inserted(Obj(fields)).None? && WalkFields(m, fields, tracked, InsertedJoin) == Ok(Kept(fields'))
    ensures Inserted(Obj(fields')).None?
  {
    if Inserted(Obj(fields')).Some? { KeptInserted(m, fields, fields', tracked); }
  }

  /** A walk that keeps a node keeps its keys, in order. */
  lemma {:induction false} KeptLength(m: Mode, fields: seq<Field>, fields': seq<Field>, tracked: set<string>)
    requires WalkFields(m, fields, tracked, InsertedJoin) == Ok(Kept(fields'))
    ensures |fields| == |fields'|
    ensures forall i | 0 <= i < |fields| :: fields'[i].key == fields[i].key
    ensures forall i | 0 <= i < |fields| ::
              var (key, val, val') := (fields[i].key, fields[i].val, fields'[i].val);
              if m.InSelect? && key in ["intoClause", "whereClause", "targetList"] then val' == val
              else if m.InFrom? && key == "RangeVar" then val' == val
              else
                var m' := if m.InSelect? && key == "fromClause" then InFrom
                          else if !m.InSelect? && key == "SelectStmt" then InSelect else m;
                Rewrite(m', val, tracked) == Ok(val')
  {
    if fields != [] {
      var rest' := fields'[1..];
      assert WalkFields(m, fields[1..], tracked, InsertedJoin) == Ok(Kept(rest'));
      KeptLength(m, fields[1..], rest', tracked);
      assert forall i | 1 <= i < |fields| :: fields[i] == fields[1..][i - 1] && fields'[i] == rest'[i - 1];
    }
  }

  lemma {:induction false} OnlyInserts(m: Mode, fields: seq<Field>, tracked: set<string>)
    requires var out := WalkFields(m, fields, tracked, InsertedJoin); out.Ok? && out.value.Replaced?
    ensures exists n, a :: WalkFields(m, fields, tracked, InsertedJoin) == Ok(Replaced(InsertedJoin(n, a)))
  {
    var f := fields[0];
    if Dispatch(m, f.key).Relation? && Replacement(f.val, tracked, InsertedJoin).value.Some? {
      ReplacementIsInserted(f.val, tracked);
    } else {
      assert WalkFields(m, fields[1..], tracked, InsertedJoin) == WalkFields(m, fields, tracked, InsertedJoin);
      OnlyInserts(m, fields[1..], tracked);
    }
  }

  // ---------- erasing undoes the rewrite ----------

  function EraseFields(fs: seq<Field>): seq<Field> {
    seq(|fs|, i requires 0 <= i < |fs| => Field(fs[i].key, Erase(fs[i].val)))
  }

  function EraseItems(js: seq<Json>): seq<Json> {
    seq(|js|, i requires 0 <= i < |js| => Erase(js[i]))
  }

  function EraseOutcome(out: Outcome): Outcome {
    match out
    case Kept(fs) => Kept(EraseFields(fs))
    case Replaced(node) => Replaced(Erase(node))
  }

  function ThenErase(r: Result<Json>): Result<Json> {
    if r.Ok? then Ok(Erase(r.value)) else r
  }

  lemma {:induction false} FreshUnchanged(j: Json)
    requires Fresh(j)
    ensures Erase(j) == j
  {
    match j
    case Arr(items) =>
      forall i | 0 <= i < |items| ensures Erase(items[i]) == items[i] { FreshUnchanged(items[i]); }
      assert Erase(j).items == items;
    case Obj(fields) =>
      forall i | 0 <= i < |fields| ensures Field(fields[i].key, Erase(fields[i].val)) == fields[i] {
        FreshUnchanged(fields[i].val);
      }
      assert Erase(j).fields == fields;
    case _ =>
  }

  /** Collapsing the inserted joins of a rewritten tree gives exactly the original, with tracked
      tables reduced to name and alias; and a walk throws for one just when it does for the other. */
  lemma {:induction false} EraseRewrite(m: Mode, j: Json, tracked: set<string>)
    requires Fresh(j)
    ensures ThenErase(Rewrite(m, j, tracked)) == Strip(m, j, tracked)
    decreases j, 1
  {
    match j
    case Arr(items) =>
      EraseRewriteItems(m, items, tracked);
      var r := WalkItems(m, items, tracked, InsertedJoin);
      if r.Ok? { assert Erase(Arr(r.value)) == Arr(EraseItems(r.value)); }
    case Obj(fields) =>
      EraseRewriteFields(m, fields, tracked);
      var r := WalkFields(m, fields, tracked, InsertedJoin);
      if r.Ok? && r.value.Kept? {
        KeptNotInserted(m, fields, r.value.fields, tracked);
        assert Erase(Obj(r.value.fields)) == Obj(EraseFields(r.value.fields));
      }
    case _ =>
  }

  lemma {:induction false} EraseRewriteItems(m: Mode, items: seq<Json>, tracked: set<string>)
    requires forall i | 0 <= i < |items| :: Fresh(items[i])
    ensures WalkItems(m, items, tracked, TableNode) ==
            match WalkItems(m, items, tracked, InsertedJoin)
            case Ok(js) => Ok(EraseItems(js))
            case Thrown(e) => Thrown(e)
    decreases items, 0
  {
    if items == [] {
      assert EraseItems([]) == [];
    } else {
      EraseRewrite(m, items[0], tracked);
      EraseRewriteItems(m, items[1..], tracked);
      var head, rest := Walk(m, items[0], tracked, InsertedJoin), WalkItems(m, items[1..], tracked, InsertedJoin);
      if head.Ok? && rest.Ok? {
        assert EraseItems([head.value] + rest.value) == [Erase(head.value)] + EraseItems(rest.value);
      }
    }
  }

  lemma {:induction false} EraseRewriteFields(m: Mode, fields: seq<Field>, tracked: set<string>)
    requires forall i | 0 <= i < |fields| :: Fresh(fields[i].val)
    ensures WalkFields(m, fields, tracked, TableNode) ==
            match WalkFields(m, fields, tracked, InsertedJoin)
            case Ok(out) => Ok(EraseOutcome(out))
            case Thrown(e) => Thrown(e)
    decreases fields, 0
  {
    if fields == [] {
      assert EraseFields([]) == [];
    } else {
      var f, rest := fields[0], WalkFields(m, fields[1..], tracked, InsertedJoin);
      EraseRewriteFields(m, fields[1..], tracked);
      match Dispatch(m, f.key)
      case Skip =>
        FreshUnchanged(f.val);
        ErasePrepend(f, rest);
      case Enter(m') =>
        EraseRewrite(m', f.val, tracked);
        var val' := Walk(m', f.val, tracked, InsertedJoin);
        if val'.Ok? { ErasePrepend(Field(f.key, val'.value), rest); }
      case Relation =>
        FreshUnchanged(f.val);
        ErasePrepend(f, rest);
        var r := Replacement(f.val, tracked, InsertedJoin);
        if r.Ok? && r.value.Some? {
          ReplacementIsInserted(f.val, tracked);
          var n, a :| r == Ok(Some(InsertedJoin(n, a)))
                      && Replacement(f.val, tracked, TableNode) == Ok(Some(TableNode(n, a)));
          InsertedRecognised(n, a);
        }
    }
  }

  lemma ErasePrepend(f: Field, rest: Result<Outcome>)
    ensures var f' := Field(f.key, Erase(f.val));
            Prepend([f'], if rest.Ok? then Ok(EraseOutcome(rest.value)) else rest) ==
            match Prepend([f], rest) case Ok(out) => Ok(EraseOutcome(out)) case Thrown(e) => Thrown(e)
  {
    if rest.Ok? && rest.value.Kept? {
      assert EraseFields([f] + rest.value.fields) == [Field(f.key, Erase(f.val))] + EraseFields(rest.value.fields);
    }
  }

  // ---------- clauses that are skipped ----------

  /** In SELECT mode a node keeps its keys in order, and its INTO, WHERE and target clauses are
      the very same trees. */
  lemma ClausesUntouched(fields: seq<Field>, tracked: set<string>)
    requires Rewrite(InSelect, Obj(fields), tracked).Ok?
    ensures var r := Rewrite(InSelect, Obj(fields), tracked).value;
            && r.Obj? && |r.fields| == |fields|
            && (forall i | 0 <= i < |fields| :: r.fields[i].key == fields[i].key)
            && (forall i | 0 <= i < |fields| && fields[i].key in ["intoClause", "whereClause", "targetList"] ::
                  r.fields[i] == fields[i])
  {
    SelectKeeps(fields, tracked);
    KeptLength(InSelect, fields, WalkFields(InSelect, fields, tracked, InsertedJoin).value.fields, tracked);
  }

  lemma {:induction false} SelectKeeps(fields: seq<Field>, tracked: set<string>)
    requires WalkFields(InSelect, fields, tracked, InsertedJoin).Ok?
    ensures WalkFields(InSelect, fields, tracked, InsertedJoin).value.Kept?
  {
    if fields != [] { SelectKeeps(fields[1..], tracked); }
  }
}
