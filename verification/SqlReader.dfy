/**
 Reads a parse tree as the database would, by the names its keys and enumerations have there. What
 the typed fragment and the template are built from is read back as what it stands for.
 */
module SqlReader {
  import opened Results
  import opened Json
  import opened QueryAcler
  import opened SqlJson
  import Sql
  import SqlAcl

  // ---------- reading ----------

  lemma {:induction false} LookupInside(fields: seq<Field>, key: string)
    ensures var r := Lookup(fields, key); r.Some? ==> exists i :: 0 <= i < |fields| && fields[i].val == r.value
  {
    if fields != [] && fields[0].key != key {
      LookupInside(fields[1..], key);
      assert forall i | 0 <= i < |fields| - 1 :: fields[1..][i] == fields[i + 1];
    }
  }

  /** The value under a key of an object. */
  function Part(j: Json, key: string): (r: Result<Json>)
    ensures r.Ok? ==> r.value < j
  {
    if !j.Obj? then Thrown("no object")
    else
      LookupInside(j.fields, key);
      match Lookup(j.fields, key)
      case Some(v) => Ok(v)
      case None => Thrown("no such key")
  }

  predicate Has(j: Json, key: string) {
    j.Obj? && Lookup(j.fields, key).Some?
  }

  /** A node is an object with one field, whose key is its kind. */
  predicate Kind(j: Json, kind: string) {
    j.Obj? && |j.fields| == 1 && j.fields[0].key == kind
  }

  function Body(j: Json): Json
    requires j.Obj? && |j.fields| == 1
  {
    j.fields[0].val
  }

  function ReadString(j: Json): Result<string> {
    if Kind(j, "String") then TextAt(Body(j), "str") else Thrown("no string")
  }

  function ReadColumn(v: Json): Result<Sql.Expr> {
    var names :- Part(v, "fields");
    if !(names.Arr? && |names.items| == 2) then Thrown("no qualified column")
    else
      var ref :- ReadString(names.items[0]);
      var col :- ReadString(names.items[1]);
      Ok(Sql.Col(ref, col))
  }

  function ReadConst(v: Json): Result<Sql.Expr> {
    var val :- Part(v, "val");
    if Kind(val, "Null") then Ok(Sql.Const(Sql.Null))
    else if Kind(val, "Integer") then
      var i :- Part(Body(val), "ival");
      if i.Num? then Ok(Sql.Const(Sql.Int(i.n))) else Thrown("no number")
    else
      var s :- ReadString(val);
      Ok(Sql.Const(Sql.Text(s)))
  }

  /** A text cast to bool. */
  function ReadCast(v: Json): Result<Sql.Expr> {
    var arg :- Part(v, "arg");
    var target :- Part(v, "typeName");
    var names :- Part(target, "names");
    if !(Kind(arg, "A_Const") && names.Arr? && |names.items| == 2) then Thrown("no cast to bool")
    else
      var schema :- ReadString(names.items[0]);
      var name :- ReadString(names.items[1]);
      var val :- ReadConst(Body(arg));
      if schema != "pg_catalog" || name != "bool" then Thrown("no cast to bool")
      else if val == Sql.Const(Sql.Text("t")) then Ok(Sql.Const(Sql.Bool(true)))
      else if val == Sql.Const(Sql.Text("f")) then Ok(Sql.Const(Sql.Bool(false)))
      else Thrown("no truth value")
  }

  function ReadExpr(j: Json): Result<Sql.Expr>
    decreases j, 1
  {
    if Kind(j, "ColumnRef") then ReadColumn(Body(j))
    else if Kind(j, "A_Const") then ReadConst(Body(j))
    else if Kind(j, "TypeCast") then ReadCast(Body(j))
    else if Kind(j, "SQLValueFunction") then
      var op :- TextAt(Body(j), "op");
      if op == "SVFOP_CURRENT_USER" then Ok(Sql.CurrentUser) else Thrown("another function")
    else if Kind(j, "A_Expr") then
      var kind :- TextAt(Body(j), "kind");
      var name :- Part(Body(j), "name");
      var left :- Part(Body(j), "lexpr");
      var right :- Part(Body(j), "rexpr");
      if kind != "AEXPR_OP" || !name.Arr? || |name.items| != 1 || ReadString(name.items[0]) != Ok("=") then
        Thrown("another operator")
      else
        var l :- ReadExpr(left);
        var r :- ReadExpr(right);
        Ok(Sql.Eq(l, r))
    else if Kind(j, "BoolExpr") then
      var op :- TextAt(Body(j), "boolop");
      var args :- Part(Body(j), "args");
      if op != "AND_EXPR" || !args.Arr? then Thrown("another connective")
      else
        var es :- ReadExprs(args.items);
        Ok(Sql.And(es))
    else if Kind(j, "FuncCall") then
      var name :- Part(Body(j), "funcname");
      var args :- Part(Body(j), "args");
      if !name.Arr? || |name.items| != 1 || !args.Arr? then Thrown("no plain call")
      else
        var op :- ReadString(name.items[0]);
        var es :- ReadExprs(args.items);
        Ok(Sql.Call(op, es))
    else Thrown("no expression")
  }

  function ReadExprs(js: seq<Json>): Result<seq<Sql.Expr>>
    decreases js, 0
  {
    if js == [] then Ok([])
    else
      var e :- ReadExpr(js[0]);
      var es :- ReadExprs(js[1..]);
      Ok([e] + es)
  }

  /** A condition that may be missing. */
  function ReadQuals(j: Json, key: string): Result<Option<Sql.Expr>> {
    if !Has(j, key) then Ok(None)
    else
      var quals :- Part(j, key);
      var e :- ReadExpr(quals);
      Ok(Some(e))
  }

  /** A permanent table, read with the tables that inherit from it. */
  function ReadTable(v: Json): Result<Sql.FromItem> {
    var name :- TextAt(v, "relname");
    var persistence :- TextAt(v, "relpersistence");
    var inh :- Part(v, "inh");
    if persistence != "p" || inh != Bool(true) then Thrown("another kind of table")
    else if !Has(v, "alias") then Ok(Sql.Table(name, None))
    else
      var alias :- Part(v, "alias");
      var aliasname :- TextAt(alias, "aliasname");
      Ok(Sql.Table(name, Some(aliasname)))
  }

  function ReadJoinType(text: string): Result<Sql.JoinType> {
    if text == "JOIN_INNER" then Ok(Sql.Inner)
    else if text == "JOIN_LEFT" then Ok(Sql.Left)
    else if text == "JOIN_RIGHT" then Ok(Sql.Right)
    else if text == "JOIN_FULL" then Ok(Sql.Full)
    else Thrown("another join")
  }

  function ReadSetOp(text: string, all: bool): Result<Sql.SetOp> {
    if text == "SETOP_UNION" then Ok(if all then Sql.UnionAll else Sql.Union)
    else if text == "SETOP_INTERSECT" && !all then Ok(Sql.Intersect)
    else if text == "SETOP_EXCEPT" && !all then Ok(Sql.Except)
    else Thrown("another set operation")
  }

  function ReadTarget(j: Json): Result<Sql.Target> {
    if !Kind(j, "ResTarget") then Thrown("no target")
    else
      var name :- TextAt(Body(j), "name");
      var val :- Part(Body(j), "val");
      var e :- ReadExpr(val);
      Ok(Sql.Target(name, e))
  }

  function ReadTargets(js: seq<Json>): Result<seq<Sql.Target>> {
    if js == [] then Ok([])
    else
      var t :- ReadTarget(js[0]);
      var ts :- ReadTargets(js[1..]);
      Ok([t] + ts)
  }

  function ReadFrom(j: Json): Result<Sql.FromItem>
    decreases j, 1
  {
    if Kind(j, "RangeVar") then ReadTable(Body(j))
    else if Kind(j, "JoinExpr") then
      var text :- TextAt(Body(j), "jointype");
      var kind :- ReadJoinType(text);
      var left :- Part(Body(j), "larg");
      var right :- Part(Body(j), "rarg");
      var l :- ReadFrom(left);
      var r :- ReadFrom(right);
      var quals :- ReadQuals(Body(j), "quals");
      Ok(Sql.Join(kind, l, r, quals))
    else if Kind(j, "RangeSubselect") then
      var alias :- Part(Body(j), "alias");
      var aliasname :- TextAt(alias, "aliasname");
      var sub :- Part(Body(j), "subquery");
      if !Kind(sub, "SelectStmt") then Thrown("no sub-select")
      else
        var q :- ReadQuery(Body(sub));
        Ok(Sql.Subselect(q, aliasname))
    else Thrown("no FROM item")
  }

  function ReadFroms(js: seq<Json>): Result<seq<Sql.FromItem>>
    decreases js, 0
  {
    if js == [] then Ok([])
    else
      var f :- ReadFrom(js[0]);
      var fs :- ReadFroms(js[1..]);
      Ok([f] + fs)
  }

  /** The value of a list that may be missing. */
  function Listed(j: Json, key: string): (r: Result<seq<Json>>)
    ensures r.Ok? ==> forall i | 0 <= i < |r.value| :: r.value[i] < j
  {
    if !Has(j, key) then Ok([])
    else
      var list :- Part(j, key);
      if list.Arr? then Ok(list.items) else Thrown("no list")
  }

  function ReadQuery(j: Json): Result<Sql.Query>
    decreases j, 1
  {
    var op :- TextAt(j, "op");
    if op == "SETOP_NONE" then
      var from :- if Has(j, "fromClause") then Part(j, "fromClause") else Ok(Arr([]));
      var targets :- Listed(j, "targetList");
      var filter :- ReadQuals(j, "whereClause");
      if !from.Arr? then Thrown("no list")
      else
        var fs :- if Has(j, "fromClause") then ReadFroms(from.items) else Ok([]);
        var ts :- ReadTargets(targets);
        Ok(Sql.Select(ts, fs, filter))
    else
      var kind :- ReadSetOp(op, Has(j, "all") && Part(j, "all") == Ok(Bool(true)));
      var left :- Part(j, "larg");
      var right :- Part(j, "rarg");
      var l :- ReadQuery(left);
      var r :- ReadQuery(right);
      Ok(Sql.Combine(kind, l, r))
  }

  function ReadStatement(j: Json): Result<Sql.Query> {
    var stmts :- Part(j, "stmts");
    if !stmts.Arr? || |stmts.items| != 1 then Thrown("not one statement")
    else
      var stmt :- Part(stmts.items[0], "stmt");
      if Kind(stmt, "SelectStmt") then ReadQuery(Body(stmt)) else Thrown("no SELECT")
  }

  // ---------- reading back ----------

  lemma {:induction false} LookupAt(fields: seq<Field>, i: nat)
    requires i < |fields| && forall k | 0 <= k < i :: fields[k].key != fields[i].key
    ensures Lookup(fields, fields[i].key) == Some(fields[i].val)
    decreases i
  {
    if i > 0 {
      assert fields[1..][i - 1] == fields[i] && forall k | 0 <= k < i - 1 :: fields[1..][k] == fields[k + 1];
      LookupAt(fields[1..], i - 1);
    }
  }

  lemma {:induction false} LookupNone(fields: seq<Field>, key: string)
    requires forall k | 0 <= k < |fields| :: fields[k].key != key
    ensures Lookup(fields, key) == None
  {
    if fields != [] {
      assert forall k | 0 <= k < |fields| - 1 :: fields[1..][k] == fields[k + 1];
      LookupNone(fields[1..], key);
    }
  }

  lemma PartAt(fields: seq<Field>, i: nat)
    requires i < |fields| && forall k | 0 <= k < i :: fields[k].key != fields[i].key
    ensures Has(Obj(fields), fields[i].key) && Part(Obj(fields), fields[i].key) == Ok(fields[i].val)
    ensures fields[i].val.Str? ==> TextAt(Obj(fields), fields[i].key) == Ok(fields[i].val.s)
  {
    LookupAt(fields, i);
  }

  lemma StringRead(s: string)
    ensures ReadString(StringNode(s)) == Ok(s)
  {
    PartAt([Field("str", Str(s))], 0);
  }

  lemma ColumnRead(ref: string, col: string)
    ensures ReadExpr(ColumnNode(ref, col)) == Ok(Sql.Col(ref, col))
  {
    StringRead(ref);
    StringRead(col);
    PartAt([Field("fields", Arr([StringNode(ref), StringNode(col)]))], 0);
  }

  lemma ConstRead(val: Json)
    ensures Part(Body(ConstNode(val)), "val") == Ok(val) && Kind(ConstNode(val), "A_Const")
  {
    PartAt([Field("val", val)], 0);
  }

  lemma ValRead(v: Sql.Val)
    ensures ReadExpr(ValNode(v)) == Ok(Sql.Const(v))
  {
    match v
    case Null => ConstRead(Node("Null", Obj([])));
    case Int(i) =>
      ConstRead(Node("Integer", Node("ival", Num(i))));
      PartAt([Field("ival", Num(i))], 0);
    case Text(s) =>
      ConstRead(StringNode(s));
      StringRead(s);
    case Bool(b) => BoolRead(b);
  }

  lemma BoolRead(b: bool)
    ensures ReadExpr(ValNode(Sql.Bool(b))) == Ok(Sql.Const(Sql.Bool(b)))
  {
    var text := StringNode(if b then "t" else "f");
    var fs := [Field("arg", ConstNode(text)), Field("typeName", BoolType())];
    ConstRead(text);
    StringRead(if b then "t" else "f");
    StringRead("pg_catalog");
    StringRead("bool");
    PartAt(fs, 0);
    PartAt(fs, 1);
    PartAt(BoolType().fields, 0);
    assert ReadConst(Body(ConstNode(text))) == Ok(Sql.Const(Sql.Text(if b then "t" else "f")));
    assert ReadCast(Obj(fs)) == Ok(Sql.Const(Sql.Bool(b)));
  }

  lemma CurrentUserRead()
    ensures ReadExpr(CurrentUserNode()) == Ok(Sql.CurrentUser)
  {
    PartAt([Field("op", Str("SVFOP_CURRENT_USER")), Field("typmod", Num(-1))], 0);
  }

  lemma EqualsParts(l: Json, r: Json)
    ensures Kind(EqualsNode(l, r), "A_Expr")
    ensures var body := Body(EqualsNode(l, r));
            && TextAt(body, "kind") == Ok("AEXPR_OP") && Part(body, "name") == Ok(Arr([StringNode("=")]))
            && Part(body, "lexpr") == Ok(l) && Part(body, "rexpr") == Ok(r)
  {
    hide Part, TextAt;
    var fs := [Field("kind", Str("AEXPR_OP")), Field("lexpr", l), Field("name", Arr([StringNode("=")])),
               Field("rexpr", r)];
    PartAt(fs, 0);
    PartAt(fs, 1);
    PartAt(fs, 2);
    PartAt(fs, 3);
    assert Body(EqualsNode(l, r)) == Obj(fs);
  }

  lemma EqualsRead(l: Json, r: Json)
    requires ReadExpr(l).Ok? && ReadExpr(r).Ok?
    ensures ReadExpr(EqualsNode(l, r)) == Ok(Sql.Eq(ReadExpr(l).value, ReadExpr(r).value))
  {
    hide Part, TextAt, ReadString, EqualsNode, StringNode;
    EqualsParts(l, r);
    StringRead("=");
  }

  lemma AndRead(args: seq<Json>)
    requires ReadExprs(args).Ok?
    ensures ReadExpr(AndNode(args)) == Ok(Sql.And(ReadExprs(args).value))
  {
    var fs := [Field("args", Arr(args)), Field("boolop", Str("AND_EXPR"))];
    PartAt(fs, 0);
    PartAt(fs, 1);
  }

  lemma CallRead(op: string, args: seq<Json>)
    requires ReadExprs(args).Ok?
    ensures ReadExpr(Node("FuncCall", Obj([Field("args", Arr(args)), Field("funcname", Arr([StringNode(op)]))])))
            == Ok(Sql.Call(op, ReadExprs(args).value))
  {
    var fs := [Field("args", Arr(args)), Field("funcname", Arr([StringNode(op)]))];
    PartAt(fs, 0);
    PartAt(fs, 1);
    StringRead(op);
  }

  /** An expression is read back from its parse tree. */
  lemma {:induction false} ExprRead(e: Sql.Expr)
    ensures ReadExpr(ExprNode(e)) == Ok(e)
    decreases e, 1
  {
    hide ReadExpr, ReadExprs;
    match e
    case Col(ref, col) => ColumnRead(ref, col);
    case Const(v) => ValRead(v);
    case CurrentUser => CurrentUserRead();
    case Eq(l, r) =>
      ExprRead(l);
      ExprRead(r);
      EqualsRead(ExprNode(l), ExprNode(r));
    case And(args) =>
      ExprsRead(args);
      AndRead(ExprNodes(args));
    case Call(op, args) =>
      ExprsRead(args);
      CallRead(op, ExprNodes(args));
  }

  lemma {:induction false} ExprsRead(es: seq<Sql.Expr>)
    ensures ReadExprs(ExprNodes(es)) == Ok(es)
    decreases es, 0
  {
    hide ReadExpr, ExprNode;
    if es != [] {
      ExprRead(es[0]);
      ExprsRead(es[1..]);
      assert ExprNodes(es)[1..] == ExprNodes(es[1..]) && es == [es[0]] + es[1..];
    }
  }

  lemma TableShape(name: string, alias: Option<string>)
    ensures var fs, k := TableFields(name, alias), if alias.Some? then 1 else 0;
            && |fs| == k + 3 && fs[k] == Field("inh", Bool(true))
            && fs[k + 1] == Field("relname", Str(name)) && fs[k + 2] == Field("relpersistence", Str("p"))
            && (alias.Some? ==> fs[0] == Field("alias", Node("aliasname", Str(alias.value))))
  {
  }

  lemma TableParts(name: string, alias: Option<string>)
    ensures var j := Obj(TableFields(name, alias));
            && TextAt(j, "relname") == Ok(name) && TextAt(j, "relpersistence") == Ok("p")
            && Part(j, "inh") == Ok(Bool(true))
            && if alias.Some? then Has(j, "alias") && Part(j, "alias") == Ok(Node("aliasname", Str(alias.value)))
               else !Has(j, "alias")
  {
    hide Part, TextAt, Has, TableFields;
    TableShape(name, alias);
    var fs, k := TableFields(name, alias), if alias.Some? then 1 else 0;
    PartAt(fs, k);
    PartAt(fs, k + 1);
    PartAt(fs, k + 2);
    if alias.Some? { PartAt(fs, 0); } else { HasNot(fs, "alias"); }
  }

  lemma TableRead(name: string, alias: Option<string>)
    ensures ReadFrom(TableNode(name, alias)) == Ok(Sql.Table(name, alias))
  {
    if alias.Some? { PartAt([Field("aliasname", Str(alias.value))], 0); }
    hide Part, TextAt, Has, TableFields;
    TableParts(name, alias);
  }

  lemma QualsRead(fs: seq<Field>, key: string, e: Option<Sql.Expr>, i: nat)
    requires if e.None? then (forall k | 0 <= k < |fs| :: fs[k].key != key)
             else i < |fs| && fs[i] == Field(key, ExprNode(e.value)) && forall k | 0 <= k < i :: fs[k].key != key
    ensures ReadQuals(Obj(fs), key) == Ok(e)
  {
    hide ReadExpr;
    if e.Some? {
      ExprRead(e.value);
      PartAt(fs, i);
    } else {
      LookupNone(fs, key);
    }
  }

  lemma JoinRead(kind: Sql.JoinType, l: Json, quals: Option<Sql.Expr>, r: Json)
    requires ReadFrom(l).Ok? && ReadFrom(r).Ok?
    ensures ReadFrom(JoinNode(JoinTypeText(kind), l, OptionalField("quals", quals), r))
            == Ok(Sql.Join(kind, ReadFrom(l).value, ReadFrom(r).value, quals))
  {
    var text := JoinTypeText(kind);
    var fs := [Field("jointype", Str(text)), Field("larg", l)] + OptionalField("quals", quals) + [Field("rarg", r)];
    PartAt(fs, 0);
    PartAt(fs, 1);
    PartAt(fs, if quals.Some? then 3 else 2);
    QualsRead(fs, "quals", quals, 2);
    JoinTypeRead(kind);
    var j := JoinNode(text, l, OptionalField("quals", quals), r);
    assert Kind(j, "JoinExpr") && Body(j) == Obj(fs);
    hide Part, TextAt, ReadQuals, ReadJoinType, JoinTypeText, OptionalField;
  }

  lemma JoinTypeRead(kind: Sql.JoinType)
    ensures ReadJoinType(JoinTypeText(kind)) == Ok(kind)
  {
  }

  lemma SubselectRead(body: Json, alias: string)
    requires ReadQuery(body).Ok?
    ensures ReadFrom(Node("RangeSubselect", Obj([Field("alias", Node("aliasname", Str(alias))),
                                                 Field("subquery", Node("SelectStmt", body))])))
            == Ok(Sql.Subselect(ReadQuery(body).value, alias))
  {
    hide ReadQuery;
    var fs := [Field("alias", Node("aliasname", Str(alias))), Field("subquery", Node("SelectStmt", body))];
    PartAt(fs, 0);
    PartAt(fs, 1);
    PartAt([Field("aliasname", Str(alias))], 0);
  }

  /** A FROM item is read back from its parse tree. */
  lemma {:induction false} FromRead(f: Sql.FromItem)
    ensures ReadFrom(FromNode(f)) == Ok(f)
    decreases f, 1
  {
    hide ReadFrom, ReadQuery;
    match f
    case Table(name, alias) => TableRead(name, alias);
    case Join(kind, l, r, quals) =>
      FromRead(l);
      FromRead(r);
      JoinRead(kind, FromNode(l), quals, FromNode(r));
    case Subselect(q, alias) =>
      QueryRead(q);
      SubselectRead(SelectBody(q), alias);
  }

  lemma {:induction false} FromsRead(fs: seq<Sql.FromItem>)
    ensures ReadFroms(FromNodes(fs)) == Ok(fs)
    decreases fs, 0
  {
    hide ReadFrom, FromNode;
    if fs != [] {
      FromRead(fs[0]);
      FromsRead(fs[1..]);
      assert FromNodes(fs)[1..] == FromNodes(fs[1..]) && fs == [fs[0]] + fs[1..];
    }
  }

  lemma TargetRead(t: Sql.Target)
    ensures ReadTarget(TargetNode(t)) == Ok(t)
  {
    hide ReadExpr;
    var fs := [Field("name", Str(t.name)), Field("val", ExprNode(t.expr))];
    ExprRead(t.expr);
    PartAt(fs, 0);
    PartAt(fs, 1);
  }

  lemma {:induction false} TargetsRead(ts: seq<Sql.Target>)
    ensures ReadTargets(TargetNodes(ts)) == Ok(ts)
  {
    hide ReadTarget, TargetNode;
    if ts != [] {
      TargetRead(ts[0]);
      TargetsRead(ts[1..]);
      assert TargetNodes(ts)[1..] == TargetNodes(ts[1..]) && ts == [ts[0]] + ts[1..];
    }
  }

  lemma SelectParts(targets: seq<Sql.Target>, from: seq<Sql.FromItem>, filter: Option<Sql.Expr>, j: Json)
    requires j == SelectBody(Sql.Select(targets, from, filter))
    ensures TextAt(j, "op") == Ok("SETOP_NONE") && ReadQuals(j, "whereClause") == Ok(filter)
    ensures if from == [] then !Has(j, "fromClause")
            else Has(j, "fromClause") && Part(j, "fromClause") == Ok(Arr(FromNodes(from)))
    ensures if targets == [] then !Has(j, "targetList")
            else Has(j, "targetList") && Part(j, "targetList") == Ok(Arr(TargetNodes(targets)))
  {
    hide FromNodes, TargetNodes, ExprNode, Part, TextAt, Has, ReadQuals;
    var fs := j.fields;
    var k := if from == [] then 0 else 1;
    SelectFields(targets, from, filter, fs);
    assert j == Obj(fs);
    hide SelectBody;
    PartAt(fs, k + 1);
    if from == [] { HasNot(fs, "fromClause"); } else { PartAt(fs, 0); }
    if targets == [] { HasNot(fs, "targetList"); } else { PartAt(fs, k + 2); }
    QualsRead(fs, "whereClause", filter, if targets == [] then k + 2 else k + 3);
  }

  lemma SelectRead(targets: seq<Sql.Target>, from: seq<Sql.FromItem>, filter: Option<Sql.Expr>)
    requires ReadFroms(FromNodes(from)) == Ok(from)
    ensures ReadQuery(SelectBody(Sql.Select(targets, from, filter))) == Ok(Sql.Select(targets, from, filter))
  {
    hide ReadFroms, FromNodes, ReadTargets, TargetNodes, ReadExpr, ExprNode, Part, TextAt, Has, ReadQuals, SelectBody;
    SelectParts(targets, from, filter, SelectBody(Sql.Select(targets, from, filter)));
    TargetsRead(targets);
    NoTargetsRead();
  }

  lemma NoTargetsRead()
    ensures ReadTargets([]) == Ok([])
  {
  }

  lemma SelectFields(targets: seq<Sql.Target>, from: seq<Sql.FromItem>, filter: Option<Sql.Expr>, fs: seq<Field>)
    requires fs == SelectBody(Sql.Select(targets, from, filter)).fields
    ensures var k := if from == [] then 0 else 1;
            var n := if targets == [] then k + 2 else k + 3;
            && |fs| == n + (if filter.None? then 0 else 1)
            && (from != [] ==> fs[0] == Field("fromClause", Arr(FromNodes(from))))
            && fs[k].key == "limitOption" && fs[k + 1] == Field("op", Str("SETOP_NONE"))
            && (targets != [] ==> fs[k + 2] == Field("targetList", Arr(TargetNodes(targets))))
            && (filter.Some? ==> fs[n] == Field("whereClause", ExprNode(filter.value)))
  {
    hide FromNodes, TargetNodes, ExprNode;
  }

  lemma CombineShape(op: Sql.SetOp, l: Json, r: Json)
    ensures var fs, k := CombineBody(op, l, r).fields, if op.UnionAll? then 1 else 0;
            && |fs| == k + 4 && fs[k] == Field("larg", l) && fs[k + 1].key == "limitOption"
            && fs[k + 2] == Field("op", Str(SetOpText(op))) && fs[k + 3] == Field("rarg", r)
            && (op.UnionAll? ==> fs[0] == Field("all", Bool(true)))
  {
    hide SetOpText;
  }

  lemma CombineFields(op: Sql.SetOp, l: Json, r: Json)
    ensures var j := CombineBody(op, l, r);
            && TextAt(j, "op") == Ok(SetOpText(op)) && Part(j, "larg") == Ok(l) && Part(j, "rarg") == Ok(r)
            && (op.UnionAll? <==> Has(j, "all") && Part(j, "all") == Ok(Bool(true)))
  {
    hide Part, TextAt, Has, SetOpText;
    var fs := CombineBody(op, l, r).fields;
    var k := if op.UnionAll? then 1 else 0;
    CombineShape(op, l, r);
    assert CombineBody(op, l, r) == Obj(fs);
    hide CombineBody;
    PartAt(fs, k);
    PartAt(fs, k + 2);
    PartAt(fs, k + 3);
    if op.UnionAll? { PartAt(fs, 0); } else { HasNot(fs, "all"); }
  }

  lemma HasNot(fs: seq<Field>, key: string)
    requires forall k | 0 <= k < |fs| :: fs[k].key != key
    ensures !Has(Obj(fs), key)
  {
    LookupNone(fs, key);
  }

  lemma CombineRead(op: Sql.SetOp, l: Json, r: Json)
    requires ReadQuery(l).Ok? && ReadQuery(r).Ok?
    ensures ReadQuery(CombineBody(op, l, r)) == Ok(Sql.Combine(op, ReadQuery(l).value, ReadQuery(r).value))
  {
    hide Part, TextAt, Has, CombineBody, SetOpText, ReadSetOp;
    CombineFields(op, l, r);
    SetOpRead(op);
  }

  lemma SetOpRead(op: Sql.SetOp)
    ensures ReadSetOp(SetOpText(op), op.UnionAll?) == Ok(op) && SetOpText(op) != "SETOP_NONE"
  {
  }

  /** A query is read back from the body of its parse tree. */
  lemma {:induction false} QueryRead(q: Sql.Query)
    ensures ReadQuery(SelectBody(q)) == Ok(q)
    decreases q, 1
  {
    hide ReadQuery;
    match q
    case Select(targets, from, filter) =>
      FromsRead(from);
      SelectRead(targets, from, filter);
    case Combine(op, l, r) =>
      QueryRead(l);
      QueryRead(r);
      CombineRead(op, SelectBody(l), SelectBody(r));
  }

  lemma StatementRead(q: Sql.Query)
    ensures ReadStatement(Statement(q)) == Ok(q)
  {
    hide ReadQuery, SelectBody;
    QueryRead(q);
    var stmt := Node("SelectStmt", SelectBody(q));
    PartAt([Field("stmt", stmt)], 0);
    PartAt([Field("stmts", Arr([Node("stmt", stmt)]))], 0);
  }

  /** The template reads as an inner join of the table with its access view under the same alias, on equal
      ids, the current user as principal and the operation SELECT. */
  lemma InsertedRead(name: string, alias: Option<string>)
    ensures var ref := if alias.Some? then alias.value else name;
            ReadFrom(InsertedJoin(name, alias)) == Ok(Sql.Join(
              Sql.Inner,
              Sql.Table(name, alias),
              Sql.Table(name + "__acls__", if alias.Some? then Some(alias.value + "__acls__") else None),
              Some(Sql.And([Sql.Eq(Sql.Col(ref, "id"), Sql.Col(ref + "__acls__", "_id")),
                            Sql.Eq(Sql.Col(ref + "__acls__", "_principal"), Sql.CurrentUser),
                            Sql.Eq(Sql.Col(ref + "__acls__", "_operation"), Sql.Const(Sql.Text("SELECT")))]))))
  {
    hide ReadFrom, ReadExpr, ExprNode, QualsNode, TableNode, JoinNode;
    var ref := if alias.Some? then alias.value else name;
    var viewAlias := if alias.Some? then Some(alias.value + "__acls__") else None;
    var quals := Sql.And([Sql.Eq(Sql.Col(ref, "id"), Sql.Col(ref + "__acls__", "_id")),
                          Sql.Eq(Sql.Col(ref + "__acls__", "_principal"), Sql.CurrentUser),
                          Sql.Eq(Sql.Col(ref + "__acls__", "_operation"), Sql.Const(Sql.Text("SELECT")))]);
    QualsAgree(ref);
    assert SqlAcl.AclQuals(ref) == quals;
    TableRead(name, alias);
    TableRead(name + "__acls__", viewAlias);
    JoinRead(Sql.Inner, TableNode(name, alias), Some(quals), TableNode(name + "__acls__", viewAlias));
  }

  /** End to end, as the database reads it: the rewritten parse tree of a query reads as a query whose
      answer is, as a set, that of the original over the permitted rows. */
  lemma RewriteRead(q: Sql.Query, tracked: set<string>, db: Sql.Database, ctx: Sql.Context)
    requires Sql.ScopedQuery(q) && SqlAcl.ClashFree(q, tracked)
    ensures ReadStatement(Statement(q)) == Ok(q)
    ensures var r := Rewrite(Top, Statement(q), tracked);
            r.Ok? && ReadStatement(r.value).Ok? &&
            forall t :: t in Sql.EvalQuery(ReadStatement(r.value).value, db, ctx) <==>
                        t in Sql.EvalQuery(q, SqlAcl.RestrictDb(db, tracked, ctx), ctx)
  {
    hide Rewrite, Statement, ReadStatement;
    StatementRead(q);
    StatementRead(SqlAcl.AclQuery(q, tracked));
    StatementSecured(q, tracked, db, ctx);
  }
}
