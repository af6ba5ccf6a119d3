/**
 The access-control rewrite of a parsed query, as a walk over its JSON tree in three modes.
 Walk is the specification; class QueryAcler holds the three recursive procedures that loop
 over a node's fields and overwrite them one by one.
 */
module QueryAcler {
  import opened Results
  import opened Json

  // ---------- the join inserted for a table ----------

  function TableFields(relname: string, alias: Option<string>): seq<Field> {
    (if alias.Some? then [Field("alias", Node("aliasname", Str(alias.value)))] else [])
    + [Field("inh", Bool(true)), Field("relname", Str(relname)), Field("relpersistence", Str("p"))]
  }

  function TableNode(relname: string, alias: Option<string>): Json {
    Node("RangeVar", Obj(TableFields(relname, alias)))
  }

  function StringNode(s: string): Json {
    Node("String", Node("str", Str(s)))
  }

  function ColumnNode(ref: string, col: string): Json {
    Node("ColumnRef", Node("fields", Arr([StringNode(ref), StringNode(col)])))
  }

  function EqualsNode(l: Json, r: Json): Json {
    Node("A_Expr", Obj([Field("kind", Str("AEXPR_OP")), Field("lexpr", l),
                        Field("name", Arr([StringNode("=")])), Field("rexpr", r)]))
  }

  function CurrentUserNode(): Json {
    Node("SQLValueFunction", Obj([Field("op", Str("SVFOP_CURRENT_USER")), Field("typmod", Num(-1))]))
  }

  function AndNode(args: seq<Json>): Json {
    Node("BoolExpr", Obj([Field("args", Arr(args)), Field("boolop", Str("AND_EXPR"))]))
  }

  function JoinNode(jointype: string, larg: Json, quals: seq<Field>, rarg: Json): Json {
    Node("JoinExpr", Obj([Field("jointype", Str(jointype)), Field("larg", larg)] + quals + [Field("rarg", rarg)]))
  }

  function QualsNode(ref: string, op: string): Json {
    AndNode([EqualsNode(ColumnNode(ref, "id"), ColumnNode(ref + "__acls__", "_id")),
             EqualsNode(ColumnNode(ref + "__acls__", "_principal"), CurrentUserNode()),
             EqualsNode(ColumnNode(ref + "__acls__", "_operation"), Node("A_Const", Node("val", StringNode(op))))])
  }

  /** The expanded template: the table, its access view, and the three-way condition. */
  function InsertedJoin(relname: string, alias: Option<string>): Json {
    var ref := if alias.Some? then alias.value else relname;
    JoinNode("JOIN_INNER", TableNode(relname, alias), [Field("quals", QualsNode(ref, "SELECT"))],
             TableNode(relname + "__acls__", if alias.Some? then Some(alias.value + "__acls__") else None))
  }

  // ---------- the walk ----------

  /** Which of the three procedures is at work: Acl, AclSelectStmt, AclSelectStmtFromClause. */
  datatype Mode = Top | InSelect | InFrom

  datatype Action = Skip | Enter(mode: Mode) | Relation

  function Dispatch(m: Mode, key: string): Action {
    match m
    case Top => if key == "SelectStmt" then Enter(InSelect) else Enter(Top)
    case InSelect =>
      if key == "fromClause" then Enter(InFrom)
      else if key == "intoClause" || key == "whereClause" || key == "targetList" then Skip
      else Enter(InSelect)
    case InFrom =>
      if key == "RangeVar" then Relation
      else if key == "SelectStmt" then Enter(InSelect)
      else Enter(InFrom)
  }

  /** What replaces the node of a tracked table; None leaves an untracked one alone. */
  function Replacement(v: Json, tracked: set<string>, repl: (string, Option<string>) -> Json): Result<Option<Json>> {
    var relname :- TextAt(v, "relname");
    if relname !in tracked then Ok(None)
    else if Lookup(v.fields, "alias").None? then Ok(Some(repl(relname, None)))
    else
      var aliasname :- TextAt(Lookup(v.fields, "alias").value, "aliasname");
      Ok(Some(repl(relname, Some(aliasname))))
  }

  /** A node's fields after the walk, or the node that took its place. */
  datatype Outcome = Kept(fields: seq<Field>) | Replaced(node: Json)

  function Prepend(done: seq<Field>, rest: Result<Outcome>): Result<Outcome> {
    match rest
    case Ok(Kept(fs)) => Ok(Kept(done + fs))
    case _ => rest
  }

  function Walk(m: Mode, j: Json, tracked: set<string>, repl: (string, Option<string>) -> Json): Result<Json>
    decreases j, 1
  {
    match j
    case Arr(items) =>
      var items' :- WalkItems(m, items, tracked, repl);
      Ok(Arr(items'))
    case Obj(fields) =>
      var out :- WalkFields(m, fields, tracked, repl);
      Ok(match out case Kept(fs) => Obj(fs) case Replaced(node) => node)
    case _ => Ok(j)
  }

  function WalkItems(m: Mode, items: seq<Json>, tracked: set<string>,
                     repl: (string, Option<string>) -> Json): Result<seq<Json>>
    decreases items, 0
  {
    if items == [] then Ok([])
    else
      var head :- Walk(m, items[0], tracked, repl);
      var rest :- WalkItems(m, items[1..], tracked, repl);
      Ok([head] + rest)
  }

  function WalkFields(m: Mode, fields: seq<Field>, tracked: set<string>,
                      repl: (string, Option<string>) -> Json): Result<Outcome>
    decreases fields, 0
  {
    if fields == [] then Ok(Kept([]))
    else
      var Field(key, val) := fields[0];
      match Dispatch(m, key)
      case Skip => Prepend([fields[0]], WalkFields(m, fields[1..], tracked, repl))
      case Enter(m') =>
        var val' :- Walk(m', val, tracked, repl);
        Prepend([Field(key, val')], WalkFields(m, fields[1..], tracked, repl))
      case Relation =>
        var r :- Replacement(val, tracked, repl);
        match r
        case Some(node) => Ok(Replaced(node))
        case None => Prepend([fields[0]], WalkFields(m, fields[1..], tracked, repl))
  }

  /** The rewrite itself: every tracked table in a FROM position becomes the inserted join. */
  function Rewrite(m: Mode, j: Json, tracked: set<string>): Result<Json> {
    Walk(m, j, tracked, InsertedJoin)
  }

  // ---------- the three procedures ----------

  class Query {
    var valid: bool
    var json: Json

    constructor (j: Json)
      ensures valid && json == j
    {
      valid, json := true, j;
    }
  }

  class QueryAcler {
    /** The relations the schema tracker knows; empty without a tracker. */
    const tracked: set<string>

    constructor (tracked: set<string>)
      ensures this.tracked == tracked
    {
      this.tracked := tracked;
    }

    /** Rewrites the query in place; an exception abandons it. */
    method AclQuery(q: Query) returns (thrown: bool)
      modifies q
      ensures thrown == Rewrite(Top, old(q.json), tracked).Thrown?
      ensures q.valid == old(q.valid)
      ensures q.json == if thrown then old(q.json) else Rewrite(Top, old(q.json), tracked).value
    {
      var r := Acl(q.json);
      thrown := r.Thrown?;
      if r.Ok? { q.json := r.value; }
    }

    method Acl(j: Json) returns (r: Result<Json>)
      ensures r == Rewrite(Top, j, tracked)
      decreases j, 2
    {
      if j.Arr? {
        var items :- EachItem(Top, j.items);
        return Ok(Arr(items));
      } else if j.Obj? {
        var i, fields := 0, j.fields;
        Started(Top, j.fields, tracked);
        while i < |fields|
          invariant 0 <= i <= |fields| && Progress(Top, j.fields, fields, i, tracked)
        {
          var Field(key, val) := fields[i];
          var val' := val;
          if key == "SelectStmt" {
            val' :- AclSelectStmt(val);
          } else if !Primitive(val) {
            val' :- Acl(val);
          }
          Stepped(Top, j.fields, fields, i, val', tracked);
          fields := fields[i := Field(key, val')];
          i := i + 1;
        }
        Finished(Top, j.fields, fields, tracked);
        return Ok(Obj(fields));
      }
      return Ok(j);
    }

    method AclSelectStmt(j: Json) returns (r: Result<Json>)
      ensures r == Rewrite(InSelect, j, tracked)
      decreases j, 2
    {
      if j.Arr? {
        var items :- EachItem(InSelect, j.items);
        return Ok(Arr(items));
      } else if j.Obj? {
        var i, fields := 0, j.fields;
        Started(InSelect, j.fields, tracked);
        while i < |fields|
          invariant 0 <= i <= |fields| && Progress(InSelect, j.fields, fields, i, tracked)
        {
          var Field(key, val) := fields[i];
          var val' := val;
          if key == "fromClause" {
            val' :- AclSelectStmtFromClause(val);
          } else if key == "intoClause" || key == "whereClause" || key == "targetList" {
          } else if !Primitive(val) {
            val' :- AclSelectStmt(val);
          }
          Stepped(InSelect, j.fields, fields, i, val', tracked);
          fields := fields[i := Field(key, val')];
          i := i + 1;
        }
        Finished(InSelect, j.fields, fields, tracked);
        return Ok(Obj(fields));
      }
      return Ok(j);
    }

    method AclSelectStmtFromClause(j: Json) returns (r: Result<Json>)
      ensures r == Rewrite(InFrom, j, tracked)
      decreases j, 2
    {
      if j.Arr? {
        var items :- EachItem(InFrom, j.items);
        return Ok(Arr(items));
      } else if j.Obj? {
        var i, fields := 0, j.fields;
        Started(InFrom, j.fields, tracked);
        while i < |fields|
          invariant 0 <= i <= |fields| && Progress(InFrom, j.fields, fields, i, tracked)
        {
          var Field(key, val) := fields[i];
          var val' := val;
          if key == "RangeVar" {
            var relname :- TextAt(val, "relname");
            if relname in tracked {
              var alias := None;
              if Lookup(val.fields, "alias").Some? {
                var aliasname :- TextAt(Lookup(val.fields, "alias").value, "aliasname");
                alias := Some(aliasname);
              }
              return Ok(InsertedJoin(relname, alias));
            }
          } else if key == "SelectStmt" {
            val' :- AclSelectStmt(val);
          } else if !Primitive(val) {
            val' :- AclSelectStmtFromClause(val);
          }
          Stepped(InFrom, j.fields, fields, i, val', tracked);
          fields := fields[i := Field(key, val')];
          i := i + 1;
        }
        Finished(InFrom, j.fields, fields, tracked);
        return Ok(Obj(fields));
      }
      return Ok(j);
    }

    /** The loop of any of the three over an array, whose keys are indices and match nothing. */
    method EachItem(m: Mode, js: seq<Json>) returns (r: Result<seq<Json>>)
      ensures r == WalkItems(m, js, tracked, InsertedJoin)
      decreases js, 3
    {
      var i, items := 0, js;
      assert js[0..] == js && forall rest: seq<Json> :: items[..0] + rest == rest;
      while i < |items|
        invariant 0 <= i <= |items| == |js| && items[i..] == js[i..]
        invariant WalkItems(m, js, tracked, InsertedJoin)
               == match WalkItems(m, js[i..], tracked, InsertedJoin)
                  case Ok(rest) => Ok(items[..i] + rest)
                  case Thrown(e) => Thrown(e)
      {
        var item := items[i];
        assert item == js[i] && js[i..][1..] == js[i + 1..];
        if !Primitive(item) {
          match m
          case Top => item :- Acl(item);
          case InSelect => item :- AclSelectStmt(item);
          case InFrom => item :- AclSelectStmtFromClause(item);
        }
        items := items[i := item];
        i := i + 1;
        assert items[..i] == items[..i - 1] + [item];
        assert forall rest: seq<Json> :: items[..i - 1] + ([item] + rest) == items[..i] + rest;
      }
      assert js[i..] == [] && items[..i] + [] == items;
      return Ok(items);
    }
  }

  /** The loop invariant: the first i fields are finished, the others untouched, and the walk of
      the whole node is the finished prefix followed by the walk of the rest. */
  ghost predicate Progress(m: Mode, all: seq<Field>, fields: seq<Field>, i: nat, tracked: set<string>) {
    && i <= |fields| == |all| && fields[i..] == all[i..]
    && WalkFields(m, all, tracked, InsertedJoin)
       == Prepend(fields[..i], WalkFields(m, all[i..], tracked, InsertedJoin))
  }

  lemma Started(m: Mode, all: seq<Field>, tracked: set<string>)
    ensures Progress(m, all, all, 0, tracked)
  {
    assert all[0..] == all;
    var walk := WalkFields(m, all, tracked, InsertedJoin);
    if walk.Ok? && walk.value.Kept? {
      assert all[..0] + walk.value.fields == walk.value.fields;
    }
  }

  lemma Finished(m: Mode, all: seq<Field>, fields: seq<Field>, tracked: set<string>)
    requires Progress(m, all, fields, |fields|, tracked)
    ensures Rewrite(m, Obj(all), tracked) == Ok(Obj(fields))
  {
    assert all[|all|..] == [] && fields[..|fields|] + [] == fields;
  }

  /** One turn of a loop that keeps the field: the finished prefix grows by it. */
  lemma Stepped(m: Mode, all: seq<Field>, fields: seq<Field>, i: nat, val': Json, tracked: set<string>)
    requires i < |fields| && Progress(m, all, fields, i, tracked)
    requires match Dispatch(m, fields[i].key)
             case Skip => val' == fields[i].val
             case Enter(m') => Walk(m', fields[i].val, tracked, InsertedJoin) == Ok(val')
             case Relation => val' == fields[i].val && Replacement(val', tracked, InsertedJoin) == Ok(None)
    ensures Progress(m, all, fields[i := Field(fields[i].key, val')], i + 1, tracked)
  {
    var f' := Field(fields[i].key, val');
    assert fields[i] == fields[i..][0] == all[i..][0] == all[i];
    assert all[i..][1..] == all[i + 1..];
    assert fields[i := f'][i + 1..] == fields[i..][1..];
    assert fields[i := f'][..i + 1] == fields[..i] + [f'];
    var rest := WalkFields(m, all[i + 1..], tracked, InsertedJoin);
    if rest.Ok? && rest.value.Kept? {
      assert fields[..i] + ([f'] + rest.value.fields) == fields[i := f'][..i + 1] + rest.value.fields;
    }
  }
}
