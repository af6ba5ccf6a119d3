/**
 Parse trees as the parser gives them also say where in the text each node was. These fields make no
 difference: dropping them before the walk or after it is the same, so what is proved of the bare
 parse tree of a query holds of every tree that is this one but for such fields.
 */
module AclLocations {
  import opened Results
  import opened Json
  import opened QueryAcler
  import AclErasure
  import Sql
  import SqlAcl
  import SqlJson

  /** A number that says where something stands in the text, or of which version the tree is. */
  predicate Located(f: Field) {
    f.key in ["location", "stmt_location", "stmt_len", "version"] && Primitive(f.val)
  }

  function Drop(j: Json): Json
    decreases j, 1
  {
    match j
    case Arr(items) => Arr(DropItems(items))
    case Obj(fields) => Obj(DropFields(fields))
    case _ => j
  }

  function DropItems(items: seq<Json>): seq<Json>
    decreases items, 0
  {
    if items == [] then [] else [Drop(items[0])] + DropItems(items[1..])
  }

  function DropFields(fields: seq<Field>): seq<Field>
    decreases fields, 0
  {
    if fields == [] then []
    else if Located(fields[0]) then DropFields(fields[1..])
    else [Field(fields[0].key, Drop(fields[0].val))] + DropFields(fields[1..])
  }

  function DropOutcome(out: Outcome): Outcome {
    match out
    case Kept(fs) => Kept(DropFields(fs))
    case Replaced(node) => Replaced(Drop(node))
  }

  lemma {:induction false} DropJoined(fs: seq<Field>, gs: seq<Field>)
    ensures DropFields(fs + gs) == DropFields(fs) + DropFields(gs)
  {
    hide Drop;
    if fs == [] {
      assert fs + gs == gs;
    } else {
      assert (fs + gs)[1..] == fs[1..] + gs;
      DropJoined(fs[1..], gs);
    }
  }

  // ---------- the texts the walk looks at ----------

  lemma {:induction false} DropLookup(fields: seq<Field>, key: string)
    requires key in ["relname", "alias", "aliasname"]
    ensures var r := Lookup(fields, key);
            Lookup(DropFields(fields), key) == if r.Some? then Some(Drop(r.value)) else None
  {
    hide Drop;
    if fields != [] {
      DropLookup(fields[1..], key);
      if !Located(fields[0]) {
        assert DropFields(fields)[1..] == DropFields(fields[1..]);
      }
    }
  }

  lemma DropText(j: Json, key: string)
    requires key in ["relname", "alias", "aliasname"]
    ensures TextAt(Drop(j), key) == TextAt(j, key)
  {
    if j.Obj? { DropLookup(j.fields, key); }
  }

  // ---------- the template says nothing of positions ----------

  lemma DropNode(key: string, val: Json)
    requires !Located(Field(key, val)) && Drop(val) == val
    ensures Drop(Node(key, val)) == Node(key, val)
  {
    var fs := [Field(key, val)];
    assert fs[1..] == [] && DropFields([]) == [] && DropFields(fs) == [Field(key, Drop(val))] + DropFields(fs[1..]);
  }

  lemma {:induction false} DropNone(fs: seq<Field>)
    requires forall i | 0 <= i < |fs| :: !Located(fs[i]) && Drop(fs[i].val) == fs[i].val
    ensures DropFields(fs) == fs && Drop(Obj(fs)) == Obj(fs)
  {
    hide Located;
    if fs != [] {
      assert forall i | 0 <= i < |fs| - 1 :: fs[1..][i] == fs[i + 1];
      DropNone(fs[1..]);
      assert fs == [fs[0]] + fs[1..];
    }
  }

  lemma {:induction false} DropNoItem(js: seq<Json>)
    requires forall i | 0 <= i < |js| :: Drop(js[i]) == js[i]
    ensures DropItems(js) == js && Drop(Arr(js)) == Arr(js)
  {
    if js != [] {
      assert forall i | 0 <= i < |js| - 1 :: js[1..][i] == js[i + 1];
      DropNoItem(js[1..]);
      assert js == [js[0]] + js[1..];
    }
  }

  lemma DropString(s: string)
    ensures Drop(StringNode(s)) == StringNode(s)
  {
    DropNode("str", Str(s));
    DropNode("String", Node("str", Str(s)));
  }

  lemma DropColumn(ref: string, col: string)
    ensures Drop(ColumnNode(ref, col)) == ColumnNode(ref, col)
  {
    var names := [StringNode(ref), StringNode(col)];
    DropString(ref);
    DropString(col);
    DropNoItem(names);
    DropNode("fields", Arr(names));
    DropNode("ColumnRef", Node("fields", Arr(names)));
  }

  lemma DropEquals(l: Json, r: Json)
    requires Drop(l) == l && Drop(r) == r
    ensures Drop(EqualsNode(l, r)) == EqualsNode(l, r)
  {
    var names := [StringNode("=")];
    DropString("=");
    DropNoItem(names);
    var fs := [Field("kind", Str("AEXPR_OP")), Field("lexpr", l), Field("name", Arr(names)), Field("rexpr", r)];
    DropNone(fs);
    DropNode("A_Expr", Obj(fs));
  }

  lemma DropQuals(ref: string, op: string)
    ensures Drop(QualsNode(ref, op)) == QualsNode(ref, op)
  {
    hide Drop, Located;
    var operation := Node("A_Const", Node("val", StringNode(op)));
    DropOthers(op);
    DropColumn(ref, "id");
    DropColumn(ref + "__acls__", "_id");
    DropColumn(ref + "__acls__", "_principal");
    DropColumn(ref + "__acls__", "_operation");
    DropEquals(ColumnNode(ref, "id"), ColumnNode(ref + "__acls__", "_id"));
    DropEquals(ColumnNode(ref + "__acls__", "_principal"), CurrentUserNode());
    DropEquals(ColumnNode(ref + "__acls__", "_operation"), operation);
    DropAnd([EqualsNode(ColumnNode(ref, "id"), ColumnNode(ref + "__acls__", "_id")),
             EqualsNode(ColumnNode(ref + "__acls__", "_principal"), CurrentUserNode()),
             EqualsNode(ColumnNode(ref + "__acls__", "_operation"), operation)]);
  }

  lemma DropOthers(op: string)
    ensures Drop(CurrentUserNode()) == CurrentUserNode()
    ensures Drop(Node("A_Const", Node("val", StringNode(op)))) == Node("A_Const", Node("val", StringNode(op)))
  {
    var user := [Field("op", Str("SVFOP_CURRENT_USER")), Field("typmod", Num(-1))];
    DropNone(user);
    DropNode("SQLValueFunction", Obj(user));
    DropString(op);
    DropNode("val", StringNode(op));
    DropNode("A_Const", Node("val", StringNode(op)));
  }

  lemma DropAnd(args: seq<Json>)
    requires forall i | 0 <= i < |args| :: Drop(args[i]) == args[i]
    ensures Drop(AndNode(args)) == AndNode(args)
  {
    var fs := [Field("args", Arr(args)), Field("boolop", Str("AND_EXPR"))];
    DropNoItem(args);
    DropNone(fs);
    DropNode("BoolExpr", Obj(fs));
  }

  lemma DropTable(name: string, alias: Option<string>)
    ensures Drop(TableNode(name, alias)) == TableNode(name, alias)
  {
    var fs := TableFields(name, alias);
    if alias.Some? { DropNode("aliasname", Str(alias.value)); }
    DropNone(fs);
    DropNode("RangeVar", Obj(fs));
  }

  lemma DropInserted(name: string, alias: Option<string>)
    ensures Drop(InsertedJoin(name, alias)) == InsertedJoin(name, alias)
  {
    var ref := if alias.Some? then alias.value else name;
    var view := TableNode(name + "__acls__", if alias.Some? then Some(alias.value + "__acls__") else None);
    DropTable(name, alias);
    DropTable(name + "__acls__", if alias.Some? then Some(alias.value + "__acls__") else None);
    DropQuals(ref, "SELECT");
    hide Drop, TableNode, QualsNode;
    DropJoin(TableNode(name, alias), QualsNode(ref, "SELECT"), view);
  }

  lemma DropJoin(l: Json, quals: Json, r: Json)
    requires Drop(l) == l && Drop(quals) == quals && Drop(r) == r && !Primitive(l) && !Primitive(quals) && !Primitive(r)
    ensures var j := JoinNode("JOIN_INNER", l, [Field("quals", quals)], r); Drop(j) == j
  {
    var fs := [Field("jointype", Str("JOIN_INNER")), Field("larg", l), Field("quals", quals), Field("rarg", r)];
    assert [Field("jointype", Str("JOIN_INNER")), Field("larg", l)] + [Field("quals", quals)] + [Field("rarg", r)]
        == fs;
    DropNone(fs);
    DropNode("JoinExpr", Obj(fs));
  }

  lemma DropReplacement(v: Json, tracked: set<string>)
    ensures Replacement(Drop(v), tracked, InsertedJoin) == Replacement(v, tracked, InsertedJoin)
    ensures var r := Replacement(v, tracked, InsertedJoin);
            r.Ok? && r.value.Some? ==> Drop(r.value.value) == r.value.value
  {
    hide InsertedJoin;
    DropText(v, "relname");
    if TextAt(v, "relname").Ok? {
      var name := TextAt(v, "relname").value;
      DropLookup(v.fields, "alias");
      DropInserted(name, None);
      if Lookup(v.fields, "alias").Some? {
        var a := Lookup(v.fields, "alias").value;
        DropText(a, "aliasname");
        if TextAt(a, "aliasname").Ok? { DropInserted(name, Some(TextAt(a, "aliasname").value)); }
      }
    }
  }

  // ---------- the walk ----------

  function ThenDrop(r: Result<Json>): Result<Json> {
    if r.Ok? then Ok(Drop(r.value)) else r
  }

  /** Dropping the positions and then rewriting is rewriting and then dropping them, in every mode,
      exceptions included. */
  lemma {:induction false} DropRewrite(m: Mode, j: Json, tracked: set<string>)
    ensures Rewrite(m, Drop(j), tracked) == ThenDrop(Rewrite(m, j, tracked))
    decreases j, 1
  {
    match j
    case Arr(items) => DropWalkItems(m, items, tracked);
    case Obj(fields) => DropWalkFields(m, fields, tracked);
    case _ =>
  }

  lemma {:induction false} DropWalkItems(m: Mode, items: seq<Json>, tracked: set<string>)
    ensures WalkItems(m, DropItems(items), tracked, InsertedJoin) ==
            match WalkItems(m, items, tracked, InsertedJoin)
            case Ok(js) => Ok(DropItems(js))
            case Thrown(e) => Thrown(e)
    decreases items, 0
  {
    hide Drop, Walk;
    if items != [] {
      DropRewrite(m, items[0], tracked);
      DropWalkItems(m, items[1..], tracked);
      assert DropItems(items)[1..] == DropItems(items[1..]);
      var head, rest := Walk(m, items[0], tracked, InsertedJoin), WalkItems(m, items[1..], tracked, InsertedJoin);
      if head.Ok? && rest.Ok? {
        assert ([head.value] + rest.value)[1..] == rest.value;
      }
    }
  }

  lemma DropPrepend(f: Field, rest: Result<Outcome>)
    ensures Prepend(DropFields([f]), if rest.Ok? then Ok(DropOutcome(rest.value)) else rest) ==
            match Prepend([f], rest) case Ok(out) => Ok(DropOutcome(out)) case Thrown(e) => Thrown(e)
  {
    hide Drop, Located;
    if rest.Ok? && rest.value.Kept? { DropJoined([f], rest.value.fields); }
  }

  lemma WalkPrimitive(m: Mode, j: Json, tracked: set<string>)
    requires Walk(m, j, tracked, InsertedJoin).Ok?
    ensures Primitive(j) ==> Walk(m, j, tracked, InsertedJoin) == Ok(j)
    ensures !Primitive(j) ==> !Primitive(Walk(m, j, tracked, InsertedJoin).value)
  {
    if j.Obj? && WalkFields(m, j.fields, tracked, InsertedJoin).value.Replaced? {
      AclErasure.OnlyInserts(m, j.fields, tracked);
    }
  }

  lemma {:induction false} DropWalkFields(m: Mode, fields: seq<Field>, tracked: set<string>)
    ensures WalkFields(m, DropFields(fields), tracked, InsertedJoin) ==
            match WalkFields(m, fields, tracked, InsertedJoin)
            case Ok(out) => Ok(DropOutcome(out))
            case Thrown(e) => Thrown(e)
    decreases fields, 0
  {
    if fields != [] {
      hide Drop, Walk, Replacement;
      var f, rest := fields[0], WalkFields(m, fields[1..], tracked, InsertedJoin);
      DropWalkFields(m, fields[1..], tracked);
      if Located(f) {
        LocatedEntered(m, f, tracked);
        DropPrepend(f, rest);
        NoneIn(rest);
      } else {
        assert DropFields(fields)[1..] == DropFields(fields[1..]);
        match Dispatch(m, f.key)
        case Skip => DropPrepend(f, rest);
        case Enter(m') =>
          DropRewrite(m', f.val, tracked);
          var val' := Walk(m', f.val, tracked, InsertedJoin);
          if val'.Ok? {
            WalkPrimitive(m', f.val, tracked);
            DropPrepend(Field(f.key, val'.value), rest);
          }
        case Relation =>
          DropReplacement(f.val, tracked);
          DropPrepend(f, rest);
      }
    }
  }

  lemma LocatedEntered(m: Mode, f: Field, tracked: set<string>)
    requires Located(f)
    ensures Dispatch(m, f.key) == Enter(m) && Walk(m, f.val, tracked, InsertedJoin) == Ok(f.val)
    ensures DropFields([f]) == []
  {
  }

  lemma NoneIn(rest: Result<Outcome>)
    ensures rest.Ok? ==> Prepend([], Ok(DropOutcome(rest.value))) == Ok(DropOutcome(rest.value))
  {
    hide DropFields, Drop;
    if rest.Ok? && rest.value.Kept? {
      assert [] + DropFields(rest.value.fields) == DropFields(rest.value.fields);
    }
  }

  /** A tree that is the parse tree of a query but for positions is rewritten to one that is the parse tree
      of the typed rewrite but for positions; the answer of that is, as a set, the original answer over
      the permitted rows. */
  lemma LocatedSecured(j: Json, q: Sql.Query, tracked: set<string>, db: Sql.Database, ctx: Sql.Context)
    requires Drop(j) == SqlJson.Statement(q) && Sql.ScopedQuery(q) && SqlAcl.ClashFree(q, tracked)
    ensures Rewrite(Top, j, tracked).Ok?
    ensures Drop(Rewrite(Top, j, tracked).value) == SqlJson.Statement(SqlAcl.AclQuery(q, tracked))
    ensures forall t :: t in Sql.EvalQuery(SqlAcl.AclQuery(q, tracked), db, ctx) <==>
                        t in Sql.EvalQuery(q, SqlAcl.RestrictDb(db, tracked, ctx), ctx)
  {
    hide Rewrite, Drop;
    DropRewrite(Top, j, tracked);
    SqlJson.StatementSecured(q, tracked, db, ctx);
  }
}
