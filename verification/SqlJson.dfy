/**
 The parse tree of a typed query, and the proof that the tree walk of the query acler is the
 typed rewrite: what SqlAcl proves of the typed rewrite holds of the code's.
 */
module SqlJson {
  import opened Results
  import opened Json
  import opened QueryAcler
  import AclErasure
  import Sql
  import SqlAcl

  function ConstNode(val: Json): Json {
    Node("A_Const", Node("val", val))
  }

  function BoolType(): Json {
    Obj([Field("names", Arr([StringNode("pg_catalog"), StringNode("bool")])), Field("typemod", Num(-1))])
  }

  /** A constant; the parser writes a truth value as a cast of the text t or f. */
  function ValNode(v: Sql.Val): Json {
    match v
    case Null => ConstNode(Node("Null", Obj([])))
    case Bool(b) =>
      Node("TypeCast", Obj([Field("arg", ConstNode(StringNode(if b then "t" else "f"))),
                            Field("typeName", BoolType())]))
    case Int(i) => ConstNode(Node("Integer", Node("ival", Num(i))))
    case Text(s) => ConstNode(StringNode(s))
  }

  function ExprNode(e: Sql.Expr): Json
    decreases e, 1
  {
    match e
    case Col(ref, col) => ColumnNode(ref, col)
    case Const(v) => ValNode(v)
    case CurrentUser => CurrentUserNode()
    case Eq(l, r) => EqualsNode(ExprNode(l), ExprNode(r))
    case And(args) => AndNode(ExprNodes(args))
    case Call(op, args) =>
      Node("FuncCall", Obj([Field("args", Arr(ExprNodes(args))), Field("funcname", Arr([StringNode(op)]))]))
  }

  function ExprNodes(es: seq<Sql.Expr>): seq<Json>
    decreases es, 0
  {
    if es == [] then [] else [ExprNode(es[0])] + ExprNodes(es[1..])
  }

  function JoinTypeText(kind: Sql.JoinType): string {
    match kind
    case Inner => "JOIN_INNER"
    case Left => "JOIN_LEFT"
    case Right => "JOIN_RIGHT"
    case Full => "JOIN_FULL"
  }

  function OptionalField(key: string, e: Option<Sql.Expr>): seq<Field> {
    if e.Some? then [Field(key, ExprNode(e.value))] else []
  }

  function FromNode(f: Sql.FromItem): Json
    decreases f, 1
  {
    match f
    case Table(name, alias) => TableNode(name, alias)
    case Join(kind, l, r, quals) =>
      JoinNode(JoinTypeText(kind), FromNode(l), OptionalField("quals", quals), FromNode(r))
    case Subselect(q, alias) =>
      Node("RangeSubselect", Obj([Field("alias", Node("aliasname", Str(alias))),
                                  Field("subquery", Node("SelectStmt", SelectBody(q)))]))
  }

  function FromNodes(fs: seq<Sql.FromItem>): seq<Json>
    decreases fs, 0
  {
    if fs == [] then [] else [FromNode(fs[0])] + FromNodes(fs[1..])
  }

  function TargetNode(t: Sql.Target): Json {
    Node("ResTarget", Obj([Field("name", Str(t.name)), Field("val", ExprNode(t.expr))]))
  }

  function TargetNodes(ts: seq<Sql.Target>): seq<Json> {
    if ts == [] then [] else [TargetNode(ts[0])] + TargetNodes(ts[1..])
  }

  function LimitField(): Field {
    Field("limitOption", Str("LIMIT_OPTION_DEFAULT"))
  }

  function SetOpText(op: Sql.SetOp): string {
    match op
    case Union => "SETOP_UNION"
    case UnionAll => "SETOP_UNION"
    case Intersect => "SETOP_INTERSECT"
    case Except => "SETOP_EXCEPT"
  }

  function SelectTail(targets: seq<Sql.Target>, filter: Option<Sql.Expr>): seq<Field> {
    [LimitField(), Field("op", Str("SETOP_NONE"))]
    + (if targets == [] then [] else [Field("targetList", Arr(TargetNodes(targets)))])
    + OptionalField("whereClause", filter)
  }

  function CombineBody(op: Sql.SetOp, l: Json, r: Json): Json {
    Obj((if op.UnionAll? then [Field("all", Bool(true))] else [])
        + [Field("larg", l), LimitField(), Field("op", Str(SetOpText(op))), Field("rarg", r)])
  }

  /** The body of a SelectStmt; the arms of a set operation are bodies themselves, without a
      SelectStmt key of their own. */
  function SelectBody(q: Sql.Query): Json
    decreases q, 1
  {
    match q
    case Select(targets, from, filter) =>
      Obj((if from == [] then [] else [Field("fromClause", Arr(FromNodes(from)))])
          + SelectTail(targets, filter))
    case Combine(op, l, r) => CombineBody(op, SelectBody(l), SelectBody(r))
  }

  /** The parse tree of a statement. */
  function Statement(q: Sql.Query): Json {
    Node("stmts", Arr([Node("stmt", Node("SelectStmt", SelectBody(q)))]))
  }

  // ---------- the walk over known shapes ----------

  type Repl = (string, Option<string>) -> Json

  /** In mode m the walk turns field f into f'. */
  ghost predicate Turns(m: Mode, f: Field, f': Field, tracked: set<string>, repl: Repl) {
    f.key == f'.key &&
    match Dispatch(m, f.key)
    case Skip => f == f'
    case Enter(m') => Walk(m', f.val, tracked, repl) == Ok(f'.val)
    case Relation => f == f' && Replacement(f.val, tracked, repl) == Ok(None)
  }

  lemma {:induction false} TurnsAll(m: Mode, fs: seq<Field>, fs': seq<Field>, tracked: set<string>, repl: Repl)
    requires |fs| == |fs'| && forall i | 0 <= i < |fs| :: Turns(m, fs[i], fs'[i], tracked, repl)
    ensures WalkFields(m, fs, tracked, repl) == Ok(Kept(fs'))
    ensures Walk(m, Obj(fs), tracked, repl) == Ok(Obj(fs'))
  {
    if fs != [] {
      assert Turns(m, fs[0], fs'[0], tracked, repl);
      TurnsAll(m, fs[1..], fs'[1..], tracked, repl);
      assert fs' == [fs'[0]] + fs'[1..];
    } else {
      assert fs' == [];
    }
  }

  lemma {:induction false} WalkAll(m: Mode, js: seq<Json>, js': seq<Json>, tracked: set<string>, repl: Repl)
    requires |js| == |js'| && forall i | 0 <= i < |js| :: Walk(m, js[i], tracked, repl) == Ok(js'[i])
    ensures WalkItems(m, js, tracked, repl) == Ok(js')
    ensures Walk(m, Arr(js), tracked, repl) == Ok(Arr(js'))
  {
    if js != [] {
      assert Walk(m, js[0], tracked, repl) == Ok(js'[0]);
      WalkAll(m, js[1..], js'[1..], tracked, repl);
      assert js' == [js'[0]] + js'[1..];
    } else {
      assert js' == [];
    }
  }

  /** The walk in FROM mode leaves j as it is. */
  ghost predicate Inert(j: Json, tracked: set<string>) {
    Walk(InFrom, j, tracked, InsertedJoin) == Ok(j)
  }

  lemma InertObj(fs: seq<Field>, tracked: set<string>)
    requires forall i | 0 <= i < |fs| ::
               fs[i].key != "RangeVar" && fs[i].key != "SelectStmt" && Inert(fs[i].val, tracked)
    ensures Inert(Obj(fs), tracked)
  {
    TurnsAll(InFrom, fs, fs, tracked, InsertedJoin);
  }

  lemma InertNode(key: string, val: Json, tracked: set<string>)
    requires key != "RangeVar" && key != "SelectStmt" && Inert(val, tracked)
    ensures Inert(Node(key, val), tracked)
  {
    InertObj([Field(key, val)], tracked);
  }

  lemma InertArr(js: seq<Json>, tracked: set<string>)
    requires forall i | 0 <= i < |js| :: Inert(js[i], tracked)
    ensures Inert(Arr(js), tracked)
  {
    WalkAll(InFrom, js, js, tracked, InsertedJoin);
  }

  lemma InertString(s: string, tracked: set<string>)
    ensures Inert(StringNode(s), tracked)
  {
    InertNode("str", Str(s), tracked);
    InertNode("String", Node("str", Str(s)), tracked);
  }

  lemma InertConst(val: Json, tracked: set<string>)
    requires Inert(val, tracked)
    ensures Inert(ConstNode(val), tracked)
  {
    InertNode("val", val, tracked);
    InertNode("A_Const", Node("val", val), tracked);
  }

  lemma InertVal(v: Sql.Val, tracked: set<string>)
    ensures Inert(ValNode(v), tracked)
  {
    match v
    case Null =>
      InertObj([], tracked);
      InertNode("Null", Obj([]), tracked);
      InertConst(Node("Null", Obj([])), tracked);
    case Bool(b) =>
      var text, names := StringNode(if b then "t" else "f"), [StringNode("pg_catalog"), StringNode("bool")];
      InertString(if b then "t" else "f", tracked);
      InertConst(text, tracked);
      InertString("pg_catalog", tracked);
      InertString("bool", tracked);
      InertArr(names, tracked);
      InertObj([Field("names", Arr(names)), Field("typemod", Num(-1))], tracked);
      var fs := [Field("arg", ConstNode(text)), Field("typeName", BoolType())];
      InertObj(fs, tracked);
      InertNode("TypeCast", Obj(fs), tracked);
    case Int(i) =>
      InertNode("ival", Num(i), tracked);
      InertNode("Integer", Node("ival", Num(i)), tracked);
      InertConst(Node("Integer", Node("ival", Num(i))), tracked);
    case Text(s) =>
      InertString(s, tracked);
      InertConst(StringNode(s), tracked);
  }

  /** Join conditions hold no table, so the FROM walk passes over them. */
  lemma {:induction false} InertExpr(e: Sql.Expr, tracked: set<string>)
    ensures Inert(ExprNode(e), tracked)
    decreases e, 1
  {
    match e
    case Col(ref, col) =>
      InertString(ref, tracked);
      InertString(col, tracked);
      InertArr([StringNode(ref), StringNode(col)], tracked);
      InertNode("fields", Arr([StringNode(ref), StringNode(col)]), tracked);
      InertNode("ColumnRef", Node("fields", Arr([StringNode(ref), StringNode(col)])), tracked);
    case Const(v) => InertVal(v, tracked);
    case CurrentUser =>
      InertObj([Field("op", Str("SVFOP_CURRENT_USER")), Field("typmod", Num(-1))], tracked);
      InertNode("SQLValueFunction", CurrentUserNode().fields[0].val, tracked);
    case Eq(l, r) =>
      InertExpr(l, tracked);
      InertExpr(r, tracked);
      InertString("=", tracked);
      InertArr([StringNode("=")], tracked);
      var fs := [Field("kind", Str("AEXPR_OP")), Field("lexpr", ExprNode(l)),
                 Field("name", Arr([StringNode("=")])), Field("rexpr", ExprNode(r))];
      InertObj(fs, tracked);
      InertNode("A_Expr", Obj(fs), tracked);
    case And(args) =>
      InertExprs(args, tracked);
      InertArr(ExprNodes(args), tracked);
      var fs := [Field("args", Arr(ExprNodes(args))), Field("boolop", Str("AND_EXPR"))];
      InertObj(fs, tracked);
      InertNode("BoolExpr", Obj(fs), tracked);
    case Call(op, args) =>
      InertExprs(args, tracked);
      InertArr(ExprNodes(args), tracked);
      InertString(op, tracked);
      InertArr([StringNode(op)], tracked);
      var fs := [Field("args", Arr(ExprNodes(args))), Field("funcname", Arr([StringNode(op)]))];
      InertObj(fs, tracked);
      InertNode("FuncCall", Obj(fs), tracked);
  }

  lemma {:induction false} InertExprs(es: seq<Sql.Expr>, tracked: set<string>)
    ensures forall i | 0 <= i < |ExprNodes(es)| :: Inert(ExprNodes(es)[i], tracked)
    decreases es, 0
  {
    if es != [] {
      InertExpr(es[0], tracked);
      InertExprs(es[1..], tracked);
    }
  }

  // ---------- the typed rewrite is the tree walk ----------

  lemma QualsAgree(ref: string)
    ensures ExprNode(SqlAcl.AclQuals(ref)) == QualsNode(ref, "SELECT")
  {
    var aref := SqlAcl.AclName(ref);
    var a, b, c :=
      Sql.Eq(Sql.Col(ref, "id"), Sql.Col(aref, "_id")), Sql.Eq(Sql.Col(aref, "_principal"), Sql.CurrentUser),
      Sql.Eq(Sql.Col(aref, "_operation"), Sql.Const(Sql.Text("SELECT")));
    assert [b, c][1..] == [c] && [a, b, c][1..] == [b, c];
    assert ExprNodes([c]) == [ExprNode(c)];
    assert ExprNodes([b, c]) == [ExprNode(b), ExprNode(c)];
    assert ExprNodes([a, b, c]) == [ExprNode(a), ExprNode(b), ExprNode(c)];
    assert ExprNode(Sql.Col(ref, "id")) == ColumnNode(ref, "id");
    assert ExprNode(Sql.Col(aref, "_id")) == ColumnNode(aref, "_id");
    assert ExprNode(Sql.Col(aref, "_principal")) == ColumnNode(aref, "_principal");
    assert ExprNode(Sql.Col(aref, "_operation")) == ColumnNode(aref, "_operation");
    assert ExprNode(Sql.Const(Sql.Text("SELECT"))) == ConstNode(StringNode("SELECT"));
  }

  lemma TableReplacement(name: string, alias: Option<string>, tracked: set<string>, repl: Repl)
    ensures Replacement(Obj(TableFields(name, alias)), tracked, repl)
            == Ok(if name in tracked then Some(repl(name, alias)) else None)
  {
    AclErasure.TableLookups(name, alias);
    if alias.Some? { assert Lookup([Field("aliasname", Str(alias.value))], "aliasname") == Some(Str(alias.value)); }
  }

  lemma TableAgrees(name: string, alias: Option<string>, tracked: set<string>)
    ensures Rewrite(InFrom, TableNode(name, alias), tracked)
            == Ok(FromNode(SqlAcl.AclFrom(Sql.Table(name, alias), tracked)))
  {
    TableReplacement(name, alias, tracked, InsertedJoin);
    var f := Field("RangeVar", Obj(TableFields(name, alias)));
    assert [f][1..] == [];
    if name in tracked {
      var ref := Sql.RefName(name, alias);
      QualsAgree(ref);
      var acl := Sql.Table(SqlAcl.AclName(name), SqlAcl.AclAlias(alias));
      var viewAlias := if alias.Some? then Some(alias.value + "__acls__") else None;
      assert FromNode(acl) == TableNode(name + "__acls__", viewAlias);
      assert OptionalField("quals", Some(SqlAcl.AclQuals(ref))) == [Field("quals", QualsNode(ref, "SELECT"))];
      var f' := Sql.Join(Sql.Inner, Sql.Table(name, alias), acl, Some(SqlAcl.AclQuals(ref)));
      assert FromNode(f') == InsertedJoin(name, alias);
      assert Replacement(f.val, tracked, InsertedJoin) == Ok(Some(InsertedJoin(name, alias)));
      assert [f][0] == f && Dispatch(InFrom, f.key) == Relation;
      assert WalkFields(InFrom, [f], tracked, InsertedJoin) == Ok(Replaced(InsertedJoin(name, alias)));
    } else {
      TurnsAll(InFrom, [f], [f], tracked, InsertedJoin);
    }
  }

  lemma {:induction false} FromAgrees(f: Sql.FromItem, tracked: set<string>)
    ensures Rewrite(InFrom, FromNode(f), tracked) == Ok(FromNode(SqlAcl.AclFrom(f, tracked)))
    decreases f, 1
  {
    match f
    case Table(name, alias) => TableAgrees(name, alias, tracked);
    case Subselect(q, alias) =>
      BodyAgrees(q, tracked);
      var q' := SqlAcl.AclQuery(q, tracked);
      var a := Field("alias", Node("aliasname", Str(alias)));
      var s, s' := Field("SelectStmt", SelectBody(q)), Field("SelectStmt", SelectBody(q'));
      InertNode("aliasname", Str(alias), tracked);
      TurnsAll(InFrom, [s], [s'], tracked, InsertedJoin);
      TurnsAll(InFrom, [a, Field("subquery", Obj([s]))], [a, Field("subquery", Obj([s']))], tracked, InsertedJoin);
      TurnsAll(InFrom, [Field("RangeSubselect", Obj([a, Field("subquery", Obj([s]))]))],
               [Field("RangeSubselect", Obj([a, Field("subquery", Obj([s']))]))], tracked, InsertedJoin);
    case Join(kind, l, r, quals) =>
      FromAgrees(l, tracked);
      FromAgrees(r, tracked);
      if quals.Some? { InertExpr(quals.value, tracked); }
      JoinAgrees(JoinTypeText(kind), FromNode(l), FromNode(SqlAcl.AclFrom(l, tracked)),
                 OptionalField("quals", quals), FromNode(r), FromNode(SqlAcl.AclFrom(r, tracked)), tracked);
  }

  lemma JoinAgrees(jointype: string, l: Json, l': Json, quals: seq<Field>, r: Json, r': Json, tracked: set<string>)
    requires Rewrite(InFrom, l, tracked) == Ok(l') && Rewrite(InFrom, r, tracked) == Ok(r')
    requires |quals| <= 1 && forall i | 0 <= i < |quals| :: quals[i].key == "quals" && Inert(quals[i].val, tracked)
    ensures Rewrite(InFrom, JoinNode(jointype, l, quals, r), tracked) == Ok(JoinNode(jointype, l', quals, r'))
  {
    var fs := [Field("jointype", Str(jointype)), Field("larg", l)] + quals + [Field("rarg", r)];
    var fs' := [Field("jointype", Str(jointype)), Field("larg", l')] + quals + [Field("rarg", r')];
    forall i | 0 <= i < |fs| ensures Turns(InFrom, fs[i], fs'[i], tracked, InsertedJoin) {
      if 2 <= i < 2 + |quals| { assert fs[i] == fs'[i] == quals[i - 2]; }
    }
    TurnsAll(InFrom, fs, fs', tracked, InsertedJoin);
    TurnsAll(InFrom, [Field("JoinExpr", Obj(fs))], [Field("JoinExpr", Obj(fs'))], tracked, InsertedJoin);
  }

  lemma {:induction false} FromsAgree(fs: seq<Sql.FromItem>, tracked: set<string>)
    ensures WalkItems(InFrom, FromNodes(fs), tracked, InsertedJoin) == Ok(FromNodes(SqlAcl.AclFroms(fs, tracked)))
    decreases fs, 0
  {
    if fs != [] {
      FromAgrees(fs[0], tracked);
      FromsAgree(fs[1..], tracked);
      assert SqlAcl.AclFroms(fs, tracked)[1..] == SqlAcl.AclFroms(fs[1..], tracked);
      assert FromNodes(fs)[1..] == FromNodes(fs[1..]);
    }
  }

  lemma SelectAgrees(js: seq<Json>, js': seq<Json>, absent: bool, targets: seq<Sql.Target>, filter: Option<Sql.Expr>,
                     tracked: set<string>)
    requires WalkItems(InFrom, js, tracked, InsertedJoin) == Ok(js')
    ensures var head := if absent then [] else [Field("fromClause", Arr(js))];
            var head' := if absent then [] else [Field("fromClause", Arr(js'))];
            Rewrite(InSelect, Obj(head + SelectTail(targets, filter)), tracked) ==
            Ok(Obj(head' + SelectTail(targets, filter)))
  {
    var tail := SelectTail(targets, filter);
    var fs := (if absent then [] else [Field("fromClause", Arr(js))]) + tail;
    var fs' := (if absent then [] else [Field("fromClause", Arr(js'))]) + tail;
    var k := if absent then 0 else 1;
    forall i | 0 <= i < |tail| ensures Turns(InSelect, tail[i], tail[i], tracked, InsertedJoin) {}
    forall i | 0 <= i < |fs| ensures Turns(InSelect, fs[i], fs'[i], tracked, InsertedJoin) {
      if i >= k { assert fs[i] == tail[i - k] == fs'[i]; }
    }
    TurnsAll(InSelect, fs, fs', tracked, InsertedJoin);
  }

  /** On the body of a SelectStmt the code's walk computes the body of the rewritten query. */
  lemma {:induction false} BodyAgrees(q: Sql.Query, tracked: set<string>)
    ensures Rewrite(InSelect, SelectBody(q), tracked) == Ok(SelectBody(SqlAcl.AclQuery(q, tracked)))
    decreases q, 1
  {
    match q
    case Select(targets, from, filter) =>
      FromsAgree(from, tracked);
      SelectAgrees(FromNodes(from), FromNodes(SqlAcl.AclFroms(from, tracked)), from == [], targets, filter, tracked);
    case Combine(op, l, r) =>
      BodyAgrees(l, tracked);
      BodyAgrees(r, tracked);
      CombineAgrees(op, SelectBody(l), SelectBody(SqlAcl.AclQuery(l, tracked)), SelectBody(r),
                    SelectBody(SqlAcl.AclQuery(r, tracked)), tracked);
  }

  lemma CombineAgrees(op: Sql.SetOp, l: Json, l': Json, r: Json, r': Json, tracked: set<string>)
    requires Rewrite(InSelect, l, tracked) == Ok(l') && Rewrite(InSelect, r, tracked) == Ok(r')
    ensures Rewrite(InSelect, CombineBody(op, l, r), tracked) == Ok(CombineBody(op, l', r'))
  {
    TurnsAll(InSelect, CombineBody(op, l, r).fields, CombineBody(op, l', r').fields, tracked, InsertedJoin);
  }

  /** On the parse tree of any query of the fragment, the code's rewrite returns the parse tree
      of the typed rewrite. */
  lemma StatementAgrees(q: Sql.Query, tracked: set<string>)
    ensures Rewrite(Top, Statement(q), tracked) == Ok(Statement(SqlAcl.AclQuery(q, tracked)))
  {
    BodyAgrees(q, tracked);
    var s, s' := [Field("SelectStmt", SelectBody(q))], [Field("SelectStmt", SelectBody(SqlAcl.AclQuery(q, tracked)))];
    TurnsAll(Top, s, s', tracked, InsertedJoin);
    TurnsAll(Top, [Field("stmt", Obj(s))], [Field("stmt", Obj(s'))], tracked, InsertedJoin);
    WalkAll(Top, [Node("stmt", Obj(s))], [Node("stmt", Obj(s'))], tracked, InsertedJoin);
    TurnsAll(Top, [Field("stmts", Arr([Node("stmt", Obj(s))]))], [Field("stmts", Arr([Node("stmt", Obj(s'))]))],
             tracked, InsertedJoin);
  }

  /** End to end: rewriting the parse tree gives the parse tree of a query whose answer over the
      whole database is, as a set, the original answer over the permitted rows. */
  lemma StatementSecured(q: Sql.Query, tracked: set<string>, db: Sql.Database, ctx: Sql.Context)
    requires Sql.ScopedQuery(q) && SqlAcl.ClashFree(q, tracked)
    ensures Rewrite(Top, Statement(q), tracked) == Ok(Statement(SqlAcl.AclQuery(q, tracked)))
    ensures forall t :: t in Sql.EvalQuery(SqlAcl.AclQuery(q, tracked), db, ctx) <==>
                        t in Sql.EvalQuery(q, SqlAcl.RestrictDb(db, tracked, ctx), ctx)
  {
    StatementAgrees(q, tracked);
    SqlAcl.QuerySame(q, tracked, db, ctx);
  }
}
