/**
 The part of SQL whose FROM clauses the access-control rewrite touches: tables,
 the four join types, sub-selects and set operations, with a bag-valued evaluator.

 A FROM item evaluates to a sequence of environments; an environment gives, for
 every visible reference name, the row currently bound to it.
 */
module Sql {
  import opened Results

  datatype Val = Null | Bool(b: bool) | Int(i: int) | Text(s: string)

  type Row = map<string, Val>
  type Tuple = seq<Val>
  type Env = map<string, Row>
  type Database = map<string, seq<Row>>

  /** What an expression may depend on besides its environment: the current user, and
      the meaning of the operators and functions other than "=" and AND. */
  datatype Context = Context(user: string, call: (string, seq<Val>) -> Val)

  datatype Expr =
    | Col(ref: string, col: string)
    | Const(v: Val)
    | CurrentUser
    | Eq(l: Expr, r: Expr)
    | And(args: seq<Expr>)
    | Call(op: string, args: seq<Expr>)

  datatype JoinType = Inner | Left | Right | Full

  datatype FromItem =
    | Table(name: string, alias: Option<string>)
    | Join(kind: JoinType, left: FromItem, right: FromItem, quals: Option<Expr>)
    | Subselect(query: Query, subAlias: string)

  datatype Target = Target(name: string, expr: Expr)

  datatype SetOp = Union | UnionAll | Intersect | Except

  datatype Query =
    | Select(targets: seq<Target>, from: seq<FromItem>, filter: Option<Expr>)
    | Combine(op: SetOp, larg: Query, rarg: Query)

  // ---------- expressions ----------

  function Field(row: Row, col: string): Val {
    if col in row then row[col] else Null
  }

  function EvalExpr(e: Expr, env: Env, ctx: Context): Val
    decreases e, 1
  {
    match e
    case Col(ref, col) => if ref in env then Field(env[ref], col) else Null
    case Const(v) => v
    case CurrentUser => Text(ctx.user)
    case Eq(l, r) =>
      var a, b := EvalExpr(l, env, ctx), EvalExpr(r, env, ctx);
      if a == Null || b == Null then Null else Bool(a == b)
    case And(args) => Conjunction(EvalExprs(args, env, ctx))
    case Call(op, args) => ctx.call(op, EvalExprs(args, env, ctx))
  }

  function EvalExprs(es: seq<Expr>, env: Env, ctx: Context): (vs: seq<Val>)
    ensures |vs| == |es|
    decreases es, 0
  {
    if es == [] then [] else [EvalExpr(es[0], env, ctx)] + EvalExprs(es[1..], env, ctx)
  }

  /** Three-valued AND. */
  function Conjunction(vs: seq<Val>): Val {
    if Bool(false) in vs then Bool(false)
    else if forall v | v in vs :: v == Bool(true) then Bool(true)
    else Null
  }

  /** An absent condition holds; otherwise SQL keeps a row only when the condition is true. */
  predicate Meets(quals: Option<Expr>, env: Env, ctx: Context) {
    quals.None? || EvalExpr(quals.value, env, ctx) == Bool(true)
  }

  // ---------- joins ----------

  function Pairs(x: Env, ys: seq<Env>, quals: Option<Expr>, ctx: Context): seq<Env> {
    if ys == [] then []
    else (if Meets(quals, x + ys[0], ctx) then [x + ys[0]] else []) + Pairs(x, ys[1..], quals, ctx)
  }

  function Matched(xs: seq<Env>, ys: seq<Env>, quals: Option<Expr>, ctx: Context): seq<Env> {
    if xs == [] then [] else Pairs(xs[0], ys, quals, ctx) + Matched(xs[1..], ys, quals, ctx)
  }

  predicate HasRight(x: Env, ys: seq<Env>, quals: Option<Expr>, ctx: Context) {
    exists y | y in ys :: Meets(quals, x + y, ctx)
  }

  predicate HasLeft(xs: seq<Env>, y: Env, quals: Option<Expr>, ctx: Context) {
    exists x | x in xs :: Meets(quals, x + y, ctx)
  }

  /** The null-extended side of an outer join: every reference bound to a row of nulls. */
  function Nulls(refs: seq<string>): Env {
    map r | r in refs :: map[]
  }

  function LeftOnly(xs: seq<Env>, ys: seq<Env>, rrefs: seq<string>, quals: Option<Expr>, ctx: Context): seq<Env> {
    if xs == [] then []
    else (if HasRight(xs[0], ys, quals, ctx) then [] else [xs[0] + Nulls(rrefs)])
         + LeftOnly(xs[1..], ys, rrefs, quals, ctx)
  }

  function RightOnly(xs: seq<Env>, ys: seq<Env>, lrefs: seq<string>, quals: Option<Expr>, ctx: Context): seq<Env> {
    if ys == [] then []
    else (if HasLeft(xs, ys[0], quals, ctx) then [] else [Nulls(lrefs) + ys[0]])
         + RightOnly(xs, ys[1..], lrefs, quals, ctx)
  }

  function JoinEnvs(kind: JoinType, xs: seq<Env>, ys: seq<Env>, lrefs: seq<string>, rrefs: seq<string>,
                    quals: Option<Expr>, ctx: Context): seq<Env>
  {
    Matched(xs, ys, quals, ctx)
    + (if kind.Left? || kind.Full? then LeftOnly(xs, ys, rrefs, quals, ctx) else [])
    + (if kind.Right? || kind.Full? then RightOnly(xs, ys, lrefs, quals, ctx) else [])
  }

  // ---------- names ----------

  function RefName(name: string, alias: Option<string>): string {
    if alias.Some? then alias.value else name
  }

  /** The reference names a FROM item makes visible. */
  function Refs(f: FromItem): seq<string> {
    match f
    case Table(name, alias) => [RefName(name, alias)]
    case Join(_, l, r, _) => Refs(l) + Refs(r)
    case Subselect(_, alias) => [alias]
  }

  function Names(refs: seq<string>): set<string> {
    set r | r in refs
  }

  function RefsOf(fs: seq<FromItem>): seq<string> {
    if fs == [] then [] else Refs(fs[0]) + RefsOf(fs[1..])
  }

  function Columns(q: Query): seq<string> {
    match q
    case Select(targets, _, _) => seq(|targets|, i requires 0 <= i < |targets| => targets[i].name)
    case Combine(_, l, _) => Columns(l)
  }

  // ---------- queries ----------

  function EvalFrom(f: FromItem, db: Database, ctx: Context): seq<Env>
    decreases f, 1
  {
    match f
    case Table(name, alias) => Bind(RefName(name, alias), if name in db then db[name] else [])
    case Join(kind, l, r, quals) =>
      JoinEnvs(kind, EvalFrom(l, db, ctx), EvalFrom(r, db, ctx), Refs(l), Refs(r), quals, ctx)
    case Subselect(q, alias) => Bind(alias, Label(Columns(q), EvalQuery(q, db, ctx)))
  }

  /** A comma-separated FROM list is the product of its items. */
  function EvalFroms(fs: seq<FromItem>, db: Database, ctx: Context): seq<Env>
    decreases fs, 0
  {
    if fs == [] then [map[]]
    else Matched(EvalFrom(fs[0], db, ctx), EvalFroms(fs[1..], db, ctx), None, ctx)
  }

  function EvalQuery(q: Query, db: Database, ctx: Context): seq<Tuple>
    decreases q, 1
  {
    match q
    case Select(targets, from, filter) => Project(targets, filter, EvalFroms(from, db, ctx), ctx)
    case Combine(op, l, r) => CombineTuples(op, EvalQuery(l, db, ctx), EvalQuery(r, db, ctx))
  }

  function Bind(ref: string, rows: seq<Row>): seq<Env> {
    seq(|rows|, i requires 0 <= i < |rows| => map[ref := rows[i]])
  }

  function Label(cols: seq<string>, ts: seq<Tuple>): seq<Row> {
    seq(|ts|, i requires 0 <= i < |ts| => LabelTuple(cols, ts[i]))
  }

  function LabelTuple(cols: seq<string>, t: Tuple): Row {
    if cols == [] || t == [] then map[] else LabelTuple(cols[1..], t[1..])[cols[0] := t[0]]
  }

  function TargetTuple(targets: seq<Target>, env: Env, ctx: Context): Tuple {
    seq(|targets|, i requires 0 <= i < |targets| => EvalExpr(targets[i].expr, env, ctx))
  }

  function Project(targets: seq<Target>, filter: Option<Expr>, envs: seq<Env>, ctx: Context): seq<Tuple> {
    if envs == [] then []
    else (if Meets(filter, envs[0], ctx) then [TargetTuple(targets, envs[0], ctx)] else [])
         + Project(targets, filter, envs[1..], ctx)
  }

  function Keep(ts: seq<Tuple>, us: seq<Tuple>, present: bool): seq<Tuple> {
    if ts == [] then []
    else (if (ts[0] in us) == present then [ts[0]] else []) + Keep(ts[1..], us, present)
  }

  function Dedup(ts: seq<Tuple>): seq<Tuple> {
    if ts == [] then []
    else if ts[0] in ts[1..] then Dedup(ts[1..])
    else [ts[0]] + Dedup(ts[1..])
  }

  function CombineTuples(op: SetOp, ts: seq<Tuple>, us: seq<Tuple>): seq<Tuple> {
    match op
    case Union => Dedup(ts + us)
    case UnionAll => ts + us
    case Intersect => Dedup(Keep(ts, us, true))
    case Except => Dedup(Keep(ts, us, false))
  }

  // ---------- scoping ----------

  predicate Distinct(s: seq<string>) {
    forall i, j | 0 <= i < j < |s| :: s[i] != s[j]
  }

  predicate ScopedExpr(e: Expr, refs: seq<string>)
    decreases e, 1
  {
    match e
    case Col(ref, _) => ref in refs
    case Const(_) => true
    case CurrentUser => true
    case Eq(l, r) => ScopedExpr(l, refs) && ScopedExpr(r, refs)
    case And(args) => ScopedExprs(args, refs)
    case Call(_, args) => ScopedExprs(args, refs)
  }

  predicate ScopedExprs(es: seq<Expr>, refs: seq<string>)
    decreases es, 0
  {
    es == [] || (ScopedExpr(es[0], refs) && ScopedExprs(es[1..], refs))
  }

  predicate ScopedQuals(quals: Option<Expr>, refs: seq<string>) {
    quals.Some? ==> ScopedExpr(quals.value, refs)
  }

  /** Conditions name only references that are visible where they stand. */
  predicate ScopedFrom(f: FromItem)
    decreases f, 1
  {
    match f
    case Table(_, _) => true
    case Join(_, l, r, quals) => ScopedFrom(l) && ScopedFrom(r) && ScopedQuals(quals, Refs(f))
    case Subselect(q, _) => ScopedQuery(q)
  }

  predicate ScopedFroms(fs: seq<FromItem>)
    decreases fs, 0
  {
    fs == [] || (ScopedFrom(fs[0]) && ScopedFroms(fs[1..]))
  }

  /** Every SELECT's reference names are distinct and its expressions use only them. */
  predicate ScopedQuery(q: Query)
    decreases q, 1
  {
    match q
    case Select(targets, from, filter) =>
      && ScopedFroms(from)
      && Distinct(RefsOf(from))
      && ScopedQuals(filter, RefsOf(from))
      && forall i | 0 <= i < |targets| :: ScopedExpr(targets[i].expr, RefsOf(from))
    case Combine(_, l, r) => ScopedQuery(l) && ScopedQuery(r)
  }
}
