/**
 The access-control rewrite on typed queries, and its meaning: evaluating the rewritten
 query gives, as a set, exactly the original query over the permitted rows.
 */
module SqlAcl {
  import opened Results
  import opened Sql

  /** The name, or the reference, of the access view that goes with a table. */
  function AclName(n: string): string {
    n + "__acls__"
  }

  function AclAlias(alias: Option<string>): Option<string> {
    if alias.Some? then Some(AclName(alias.value)) else None
  }

  /** The three-way condition of the inserted join. */
  function AclQuals(ref: string): Expr {
    And([
          Eq(Col(ref, "id"), Col(AclName(ref), "_id")),
          Eq(Col(AclName(ref), "_principal"), CurrentUser),
          Eq(Col(AclName(ref), "_operation"), Const(Text("SELECT")))
        ])
  }

  function AclFrom(f: FromItem, tracked: set<string>): FromItem
    decreases f, 1
  {
    match f
    case Table(name, alias) =>
      if name in tracked then
        Join(Inner, f, Table(AclName(name), AclAlias(alias)), Some(AclQuals(RefName(name, alias))))
      else f
    case Join(kind, l, r, quals) => Join(kind, AclFrom(l, tracked), AclFrom(r, tracked), quals)
    case Subselect(q, alias) => Subselect(AclQuery(q, tracked), alias)
  }

  function AclFroms(fs: seq<FromItem>, tracked: set<string>): (r: seq<FromItem>)
    ensures |r| == |fs|
    decreases fs, 0
  {
    if fs == [] then [] else [AclFrom(fs[0], tracked)] + AclFroms(fs[1..], tracked)
  }

  function AclQuery(q: Query, tracked: set<string>): Query
    decreases q, 1
  {
    match q
    case Select(targets, from, filter) => Select(targets, AclFroms(from, tracked), filter)
    case Combine(op, l, r) => Combine(op, AclQuery(l, tracked), AclQuery(r, tracked))
  }

  // ---------- what the rewrite is meant to achieve ----------

  /** An access row grants a table row to the current user for SELECT. */
  predicate Grants(row: Row, acl: Row, ctx: Context) {
    && Field(row, "id") != Null
    && Field(acl, "_id") == Field(row, "id")
    && Field(acl, "_principal") == Text(ctx.user)
    && Field(acl, "_operation") == Text("SELECT")
  }

  predicate Permitted(row: Row, acls: seq<Row>, ctx: Context) {
    exists a | a in acls :: Grants(row, a, ctx)
  }

  function PermittedRows(rows: seq<Row>, acls: seq<Row>, ctx: Context): seq<Row> {
    if rows == [] then []
    else (if Permitted(rows[0], acls, ctx) then [rows[0]] else []) + PermittedRows(rows[1..], acls, ctx)
  }

  function Rows(db: Database, name: string): seq<Row> {
    if name in db then db[name] else []
  }

  /** The database in which every tracked table keeps only the rows granted to the user. */
  function RestrictDb(db: Database, tracked: set<string>, ctx: Context): Database {
    map name | name in db ::
      if name in tracked then PermittedRows(db[name], Rows(db, AclName(name)), ctx) else db[name]
  }

  /** References of the tracked tables of a FROM item; each gets an access reference beside it. */
  function TrackedRefs(f: FromItem, tracked: set<string>): seq<string> {
    match f
    case Table(name, alias) => if name in tracked then [RefName(name, alias)] else []
    case Join(_, l, r, _) => TrackedRefs(l, tracked) + TrackedRefs(r, tracked)
    case Subselect(_, _) => []
  }

  function TrackedRefsOf(fs: seq<FromItem>, tracked: set<string>): seq<string> {
    if fs == [] then [] else TrackedRefs(fs[0], tracked) + TrackedRefsOf(fs[1..], tracked)
  }

  predicate NoClash(trackedRefs: seq<string>, refs: seq<string>) {
    forall r | r in trackedRefs :: AclName(r) !in refs
  }

  /** No tracked reference has its access reference already taken beside it. */
  predicate ClashFreeFrom(f: FromItem, tracked: set<string>)
    decreases f, 1
  {
    match f
    case Table(_, _) => true
    case Join(_, l, r, _) => ClashFreeFrom(l, tracked) && ClashFreeFrom(r, tracked)
    case Subselect(q, _) => ClashFree(q, tracked)
  }

  predicate ClashFreeFroms(fs: seq<FromItem>, tracked: set<string>)
    decreases fs, 0
  {
    fs == [] || (ClashFreeFrom(fs[0], tracked) && ClashFreeFroms(fs[1..], tracked))
  }

  predicate ClashFree(q: Query, tracked: set<string>)
    decreases q, 1
  {
    match q
    case Select(_, from, _) =>
      ClashFreeFroms(from, tracked) && NoClash(TrackedRefsOf(from, tracked), RefsOf(from))
    case Combine(_, l, r) => ClashFree(l, tracked) && ClashFree(r, tracked)
  }

  // ---------- environments seen through the original references ----------

  function Only(x: Env, refs: seq<string>): Env {
    map r | r in x && r in refs :: x[r]
  }

  /** The same environments, as sets, once inserted references are forgotten. */
  ghost predicate Same(xs: seq<Env>, ys: seq<Env>, refs: seq<string>) {
    && (forall x | x in xs :: Only(x, refs) in ys)
    && (forall y | y in ys :: exists x :: x in xs && Only(x, refs) == y)
  }

  predicate Bound(xs: seq<Env>, refs: seq<string>) {
    forall x | x in xs :: x.Keys == Names(refs)
  }

  lemma BoundSplit(xs: seq<Env>, refs: seq<string>)
    requires Bound(xs, refs) && xs != []
    ensures xs[0].Keys == Names(refs) && Bound(xs[1..], refs)
  {
    hide Names;
  }

  lemma {:induction false} EvalLocal(e: Expr, env: Env, refs: seq<string>, ctx: Context)
    requires ScopedExpr(e, refs)
    ensures EvalExpr(e, env, ctx) == EvalExpr(e, Only(env, refs), ctx)
    decreases e, 1
  {
    match e
    case Col(ref, col) =>
    case Const(v) =>
    case CurrentUser =>
    case Eq(l, r) => EvalLocal(l, env, refs, ctx); EvalLocal(r, env, refs, ctx);
    case And(args) => EvalsLocal(args, env, refs, ctx);
    case Call(op, args) => EvalsLocal(args, env, refs, ctx);
  }

  lemma {:induction false} EvalsLocal(es: seq<Expr>, env: Env, refs: seq<string>, ctx: Context)
    requires ScopedExprs(es, refs)
    ensures EvalExprs(es, env, ctx) == EvalExprs(es, Only(env, refs), ctx)
    decreases es, 0
  {
    if es != [] {
      EvalLocal(es[0], env, refs, ctx);
      EvalsLocal(es[1..], env, refs, ctx);
    }
  }

  lemma MeetsLocal(quals: Option<Expr>, env: Env, refs: seq<string>, ctx: Context)
    requires ScopedQuals(quals, refs)
    ensures Meets(quals, env, ctx) == Meets(quals, Only(env, refs), ctx)
  {
    if quals.Some? { EvalLocal(quals.value, env, refs, ctx); }
  }

  // ---------- membership in the join combinators ----------

  lemma {:induction false} InPairs(e: Env, x: Env, ys: seq<Env>, quals: Option<Expr>, ctx: Context)
    ensures e in Pairs(x, ys, quals, ctx) <==> exists y :: y in ys && Meets(quals, x + y, ctx) && e == x + y
  {
    if ys != [] {
      InPairs(e, x, ys[1..], quals, ctx);
      assert forall y :: y in ys <==> y == ys[0] || y in ys[1..];
    }
  }

  lemma {:induction false} InMatched(e: Env, xs: seq<Env>, ys: seq<Env>, quals: Option<Expr>, ctx: Context)
    ensures e in Matched(xs, ys, quals, ctx) <==>
            exists x, y :: x in xs && y in ys && Meets(quals, x + y, ctx) && e == x + y
  {
    if xs != [] {
      InPairs(e, xs[0], ys, quals, ctx);
      InMatched(e, xs[1..], ys, quals, ctx);
      assert forall x :: x in xs <==> x == xs[0] || x in xs[1..];
    }
  }

  lemma {:induction false} InLeftOnly(e: Env, xs: seq<Env>, ys: seq<Env>, rrefs: seq<string>,
                                      quals: Option<Expr>, ctx: Context)
    ensures e in LeftOnly(xs, ys, rrefs, quals, ctx) <==>
            exists x :: x in xs && !HasRight(x, ys, quals, ctx) && e == x + Nulls(rrefs)
  {
    if xs != [] {
      InLeftOnly(e, xs[1..], ys, rrefs, quals, ctx);
      assert forall x :: x in xs <==> x == xs[0] || x in xs[1..];
    }
  }

  lemma {:induction false} InRightOnly(e: Env, xs: seq<Env>, ys: seq<Env>, lrefs: seq<string>,
                                       quals: Option<Expr>, ctx: Context)
    ensures e in RightOnly(xs, ys, lrefs, quals, ctx) <==>
            exists y :: y in ys && !HasLeft(xs, y, quals, ctx) && e == Nulls(lrefs) + y
  {
    if ys != [] {
      InRightOnly(e, xs, ys[1..], lrefs, quals, ctx);
      assert forall y :: y in ys <==> y == ys[0] || y in ys[1..];
    }
  }

  // ---------- joins respect Same ----------

  /** The references a and b of two inputs stay visible and apart among a' and b'. */
  ghost predicate KeptApart(a': seq<string>, b': seq<string>, a: seq<string>, b: seq<string>) {
    && (forall r | r in a :: r in a' && r !in b' && r !in b)
    && (forall r | r in b :: r in b' && r !in a' && r !in a)
  }

  /** One join, seen from both sides: the original inputs xs, ys with references a, b; the
      rewritten inputs xs', ys' with more references a', b' that clash with neither. */
  ghost predicate JoinInputs(xs': seq<Env>, ys': seq<Env>, xs: seq<Env>, ys: seq<Env>,
                             a': seq<string>, b': seq<string>, a: seq<string>, b: seq<string>)
  {
    && Bound(xs', a') && Bound(ys', b') && Bound(xs, a) && Bound(ys, b)
    && Same(xs', xs, a) && Same(ys', ys, b) && KeptApart(a', b', a, b)
  }

  lemma OnlySum(x': Env, y': Env, a': seq<string>, b': seq<string>, a: seq<string>, b: seq<string>)
    requires x'.Keys == Names(a') && y'.Keys == Names(b')
    requires forall r | r in a :: r in a' && r !in b'
    requires forall r | r in b :: r in b' && r !in a'
    ensures Only(x' + y', a + b) == Only(x', a) + Only(y', b)
  {
  }

  lemma MeetsSum(quals: Option<Expr>, x': Env, y': Env, a': seq<string>, b': seq<string>,
                 a: seq<string>, b: seq<string>, ctx: Context)
    requires x'.Keys == Names(a') && y'.Keys == Names(b')
    requires forall r | r in a :: r in a' && r !in b'
    requires forall r | r in b :: r in b' && r !in a'
    requires ScopedQuals(quals, a + b)
    ensures Only(x' + y', a + b) == Only(x', a) + Only(y', b)
    ensures Meets(quals, x' + y', ctx) == Meets(quals, Only(x', a) + Only(y', b), ctx)
  {
    OnlySum(x', y', a', b', a, b);
    MeetsLocal(quals, x' + y', a + b, ctx);
  }

  lemma MatchedForth(e: Env, xs': seq<Env>, ys': seq<Env>, xs: seq<Env>, ys: seq<Env>,
                     a': seq<string>, b': seq<string>, a: seq<string>, b: seq<string>,
                     quals: Option<Expr>, ctx: Context)
    requires JoinInputs(xs', ys', xs, ys, a', b', a, b) && ScopedQuals(quals, a + b)
             && e in Matched(xs', ys', quals, ctx)
    ensures Only(e, a + b) in Matched(xs, ys, quals, ctx)
  {
    hide Meets, Matched, Only, ScopedQuals;
    InMatched(e, xs', ys', quals, ctx);
    var x', y' :| x' in xs' && y' in ys' && Meets(quals, x' + y', ctx) && e == x' + y';
    MeetsSum(quals, x', y', a', b', a, b, ctx);
    InMatched(Only(e, a + b), xs, ys, quals, ctx);
  }

  lemma MatchedBack(e: Env, xs': seq<Env>, ys': seq<Env>, xs: seq<Env>, ys: seq<Env>,
                    a': seq<string>, b': seq<string>, a: seq<string>, b: seq<string>,
                    quals: Option<Expr>, ctx: Context) returns (e': Env)
    requires JoinInputs(xs', ys', xs, ys, a', b', a, b) && ScopedQuals(quals, a + b) && e in Matched(xs, ys, quals, ctx)
    ensures e' in Matched(xs', ys', quals, ctx) && Only(e', a + b) == e
  {
    hide Meets, Matched, Only, ScopedQuals;
    InMatched(e, xs, ys, quals, ctx);
    var x, y :| x in xs && y in ys && Meets(quals, x + y, ctx) && e == x + y;
    var x' :| x' in xs' && Only(x', a) == x;
    var y' :| y' in ys' && Only(y', b) == y;
    MeetsSum(quals, x', y', a', b', a, b, ctx);
    InMatched(x' + y', xs', ys', quals, ctx);
    e' := x' + y';
  }

  lemma MatchedSame(xs': seq<Env>, ys': seq<Env>, xs: seq<Env>, ys: seq<Env>,
                    a': seq<string>, b': seq<string>, a: seq<string>, b: seq<string>,
                    quals: Option<Expr>, ctx: Context)
    requires JoinInputs(xs', ys', xs, ys, a', b', a, b) && ScopedQuals(quals, a + b)
    ensures Same(Matched(xs', ys', quals, ctx), Matched(xs, ys, quals, ctx), a + b)
  {
    hide JoinInputs, Matched, Only, ScopedQuals;
    forall e | e in Matched(xs', ys', quals, ctx)
      ensures Only(e, a + b) in Matched(xs, ys, quals, ctx)
    {
      MatchedForth(e, xs', ys', xs, ys, a', b', a, b, quals, ctx);
    }
    forall e | e in Matched(xs, ys, quals, ctx)
      ensures exists e' :: e' in Matched(xs', ys', quals, ctx) && Only(e', a + b) == e
    {
      var _ := MatchedBack(e, xs', ys', xs, ys, a', b', a, b, quals, ctx);
    }
  }

  lemma HasRightSame(x': Env, xs': seq<Env>, ys': seq<Env>, xs: seq<Env>, ys: seq<Env>,
                     a': seq<string>, b': seq<string>, a: seq<string>, b: seq<string>,
                     quals: Option<Expr>, ctx: Context)
    requires JoinInputs(xs', ys', xs, ys, a', b', a, b) && ScopedQuals(quals, a + b) && x' in xs'
    ensures HasRight(x', ys', quals, ctx) == HasRight(Only(x', a), ys, quals, ctx)
  {
    hide Meets, Matched, Only, ScopedQuals;
    if HasRight(x', ys', quals, ctx) {
      var y' :| y' in ys' && Meets(quals, x' + y', ctx);
      MeetsSum(quals, x', y', a', b', a, b, ctx);
      assert Only(y', b) in ys;
    }
    if HasRight(Only(x', a), ys, quals, ctx) {
      var y :| y in ys && Meets(quals, Only(x', a) + y, ctx);
      var y' :| y' in ys' && Only(y', b) == y;
      MeetsSum(quals, x', y', a', b', a, b, ctx);
    }
  }

  lemma HasLeftSame(y': Env, xs': seq<Env>, ys': seq<Env>, xs: seq<Env>, ys: seq<Env>,
                    a': seq<string>, b': seq<string>, a: seq<string>, b: seq<string>,
                    quals: Option<Expr>, ctx: Context)
    requires JoinInputs(xs', ys', xs, ys, a', b', a, b) && ScopedQuals(quals, a + b) && y' in ys'
    ensures HasLeft(xs', y', quals, ctx) == HasLeft(xs, Only(y', b), quals, ctx)
  {
    hide Meets, Matched, Only, ScopedQuals;
    if HasLeft(xs', y', quals, ctx) {
      var x' :| x' in xs' && Meets(quals, x' + y', ctx);
      MeetsSum(quals, x', y', a', b', a, b, ctx);
      assert Only(x', a) in xs;
    }
    if HasLeft(xs, Only(y', b), quals, ctx) {
      var x :| x in xs && Meets(quals, x + Only(y', b), ctx);
      var x' :| x' in xs' && Only(x', a) == x;
      MeetsSum(quals, x', y', a', b', a, b, ctx);
    }
  }

  lemma NullsOnly(a': seq<string>, a: seq<string>)
    requires forall r | r in a :: r in a'
    ensures Only(Nulls(a'), a) == Nulls(a) && Nulls(a').Keys == Names(a')
  {
  }

  lemma LeftOnlyForth(e: Env, xs': seq<Env>, ys': seq<Env>, xs: seq<Env>, ys: seq<Env>,
                      a': seq<string>, b': seq<string>, a: seq<string>, b: seq<string>,
                      quals: Option<Expr>, ctx: Context)
    requires JoinInputs(xs', ys', xs, ys, a', b', a, b) && ScopedQuals(quals, a + b)
             && e in LeftOnly(xs', ys', b', quals, ctx)
    ensures Only(e, a + b) in LeftOnly(xs, ys, b, quals, ctx)
  {
    NullsOnly(b', b);
    hide HasRight, LeftOnly, Only, Nulls, ScopedQuals, Meets;
    InLeftOnly(e, xs', ys', b', quals, ctx);
    var x' :| x' in xs' && !HasRight(x', ys', quals, ctx) && e == x' + Nulls(b');
    HasRightSame(x', xs', ys', xs, ys, a', b', a, b, quals, ctx);
    OnlySum(x', Nulls(b'), a', b', a, b);
    InLeftOnly(Only(e, a + b), xs, ys, b, quals, ctx);
  }

  lemma LeftOnlyBack(e: Env, xs': seq<Env>, ys': seq<Env>, xs: seq<Env>, ys: seq<Env>,
                     a': seq<string>, b': seq<string>, a: seq<string>, b: seq<string>,
                     quals: Option<Expr>, ctx: Context) returns (e': Env)
    requires JoinInputs(xs', ys', xs, ys, a', b', a, b) && ScopedQuals(quals, a + b)
             && e in LeftOnly(xs, ys, b, quals, ctx)
    ensures e' in LeftOnly(xs', ys', b', quals, ctx) && Only(e', a + b) == e
  {
    NullsOnly(b', b);
    hide HasRight, LeftOnly, Only, Nulls, ScopedQuals, Meets;
    InLeftOnly(e, xs, ys, b, quals, ctx);
    var x :| x in xs && !HasRight(x, ys, quals, ctx) && e == x + Nulls(b);
    var x' :| x' in xs' && Only(x', a) == x;
    HasRightSame(x', xs', ys', xs, ys, a', b', a, b, quals, ctx);
    OnlySum(x', Nulls(b'), a', b', a, b);
    e' := x' + Nulls(b');
    InLeftOnly(e', xs', ys', b', quals, ctx);
  }

  lemma LeftOnlySame(xs': seq<Env>, ys': seq<Env>, xs: seq<Env>, ys: seq<Env>,
                     a': seq<string>, b': seq<string>, a: seq<string>, b: seq<string>,
                     quals: Option<Expr>, ctx: Context)
    requires JoinInputs(xs', ys', xs, ys, a', b', a, b) && ScopedQuals(quals, a + b)
    ensures Same(LeftOnly(xs', ys', b', quals, ctx), LeftOnly(xs, ys, b, quals, ctx), a + b)
  {
    hide JoinInputs, LeftOnly, Only, ScopedQuals;
    forall e | e in LeftOnly(xs', ys', b', quals, ctx) ensures Only(e, a + b) in LeftOnly(xs, ys, b, quals, ctx) {
      LeftOnlyForth(e, xs', ys', xs, ys, a', b', a, b, quals, ctx);
    }
    forall e | e in LeftOnly(xs, ys, b, quals, ctx)
      ensures exists e' :: e' in LeftOnly(xs', ys', b', quals, ctx) && Only(e', a + b) == e
    {
      var _ := LeftOnlyBack(e, xs', ys', xs, ys, a', b', a, b, quals, ctx);
    }
  }

  lemma RightOnlyForth(e: Env, xs': seq<Env>, ys': seq<Env>, xs: seq<Env>, ys: seq<Env>,
                       a': seq<string>, b': seq<string>, a: seq<string>, b: seq<string>,
                       quals: Option<Expr>, ctx: Context)
    requires JoinInputs(xs', ys', xs, ys, a', b', a, b) && ScopedQuals(quals, a + b)
             && e in RightOnly(xs', ys', a', quals, ctx)
    ensures Only(e, a + b) in RightOnly(xs, ys, a, quals, ctx)
  {
    NullsOnly(a', a);
    hide HasLeft, RightOnly, Only, Nulls, ScopedQuals, Meets;
    InRightOnly(e, xs', ys', a', quals, ctx);
    var y' :| y' in ys' && !HasLeft(xs', y', quals, ctx) && e == Nulls(a') + y';
    HasLeftSame(y', xs', ys', xs, ys, a', b', a, b, quals, ctx);
    OnlySum(Nulls(a'), y', a', b', a, b);
    InRightOnly(Only(e, a + b), xs, ys, a, quals, ctx);
  }

  lemma RightOnlyBack(e: Env, xs': seq<Env>, ys': seq<Env>, xs: seq<Env>, ys: seq<Env>,
                      a': seq<string>, b': seq<string>, a: seq<string>, b: seq<string>,
                      quals: Option<Expr>, ctx: Context) returns (e': Env)
    requires JoinInputs(xs', ys', xs, ys, a', b', a, b) && ScopedQuals(quals, a + b)
             && e in RightOnly(xs, ys, a, quals, ctx)
    ensures e' in RightOnly(xs', ys', a', quals, ctx) && Only(e', a + b) == e
  {
    NullsOnly(a', a);
    hide HasLeft, RightOnly, Only, Nulls, ScopedQuals, Meets;
    InRightOnly(e, xs, ys, a, quals, ctx);
    var y :| y in ys && !HasLeft(xs, y, quals, ctx) && e == Nulls(a) + y;
    var y' :| y' in ys' && Only(y', b) == y;
    HasLeftSame(y', xs', ys', xs, ys, a', b', a, b, quals, ctx);
    OnlySum(Nulls(a'), y', a', b', a, b);
    e' := Nulls(a') + y';
    InRightOnly(e', xs', ys', a', quals, ctx);
  }

  lemma RightOnlySame(xs': seq<Env>, ys': seq<Env>, xs: seq<Env>, ys: seq<Env>,
                      a': seq<string>, b': seq<string>, a: seq<string>, b: seq<string>,
                      quals: Option<Expr>, ctx: Context)
    requires JoinInputs(xs', ys', xs, ys, a', b', a, b) && ScopedQuals(quals, a + b)
    ensures Same(RightOnly(xs', ys', a', quals, ctx), RightOnly(xs, ys, a, quals, ctx), a + b)
  {
    hide JoinInputs, RightOnly, Only, ScopedQuals;
    forall e | e in RightOnly(xs', ys', a', quals, ctx) ensures Only(e, a + b) in RightOnly(xs, ys, a, quals, ctx) {
      RightOnlyForth(e, xs', ys', xs, ys, a', b', a, b, quals, ctx);
    }
    forall e | e in RightOnly(xs, ys, a, quals, ctx)
      ensures exists e' :: e' in RightOnly(xs', ys', a', quals, ctx) && Only(e', a + b) == e
    {
      var _ := RightOnlyBack(e, xs', ys', xs, ys, a', b', a, b, quals, ctx);
    }
  }

  lemma SameConcat(xs': seq<Env>, ys': seq<Env>, xs: seq<Env>, ys: seq<Env>, refs: seq<string>)
    requires Same(xs', xs, refs) && Same(ys', ys, refs)
    ensures Same(xs' + ys', xs + ys, refs)
  {
    forall y | y in xs + ys
      ensures exists x :: x in xs' + ys' && Only(x, refs) == y
    {
      if y in xs {
        var x :| x in xs' && Only(x, refs) == y;
        assert x in xs' + ys';
      } else {
        var x :| x in ys' && Only(x, refs) == y;
        assert x in xs' + ys';
      }
    }
  }

  lemma JoinSame(kind: JoinType, xs': seq<Env>, ys': seq<Env>, xs: seq<Env>, ys: seq<Env>,
                 a': seq<string>, b': seq<string>, a: seq<string>, b: seq<string>,
                 quals: Option<Expr>, ctx: Context)
    requires JoinInputs(xs', ys', xs, ys, a', b', a, b) && ScopedQuals(quals, a + b)
    ensures Same(JoinEnvs(kind, xs', ys', a', b', quals, ctx), JoinEnvs(kind, xs, ys, a, b, quals, ctx), a + b)
  {
    MatchedSame(xs', ys', xs, ys, a', b', a, b, quals, ctx);
    LeftOnlySame(xs', ys', xs, ys, a', b', a, b, quals, ctx);
    RightOnlySame(xs', ys', xs, ys, a', b', a, b, quals, ctx);
    var m', m := Matched(xs', ys', quals, ctx), Matched(xs, ys, quals, ctx);
    var l' := if kind.Left? || kind.Full? then LeftOnly(xs', ys', b', quals, ctx) else [];
    var l := if kind.Left? || kind.Full? then LeftOnly(xs, ys, b, quals, ctx) else [];
    var r' := if kind.Right? || kind.Full? then RightOnly(xs', ys', a', quals, ctx) else [];
    var r := if kind.Right? || kind.Full? then RightOnly(xs, ys, a, quals, ctx) else [];
    SameConcat(m', l', m, l, a + b);
    SameConcat(m' + l', r', m + l, r, a + b);
  }

  // ---------- every environment binds exactly the visible references ----------

  lemma MatchedBound(xs: seq<Env>, ys: seq<Env>, a: seq<string>, b: seq<string>, quals: Option<Expr>, ctx: Context)
    requires Bound(xs, a) && Bound(ys, b)
    ensures Bound(Matched(xs, ys, quals, ctx), a + b)
  {
    forall e | e in Matched(xs, ys, quals, ctx)
      ensures e.Keys == Names(a + b)
    {
      InMatched(e, xs, ys, quals, ctx);
    }
  }

  lemma JoinBound(kind: JoinType, xs: seq<Env>, ys: seq<Env>, a: seq<string>, b: seq<string>,
                  quals: Option<Expr>, ctx: Context)
    requires Bound(xs, a) && Bound(ys, b)
    ensures Bound(JoinEnvs(kind, xs, ys, a, b, quals, ctx), a + b)
  {
    MatchedBound(xs, ys, a, b, quals, ctx);
    forall e | e in JoinEnvs(kind, xs, ys, a, b, quals, ctx)
      ensures e.Keys == Names(a + b)
    {
      InLeftOnly(e, xs, ys, b, quals, ctx);
      InRightOnly(e, xs, ys, a, quals, ctx);
    }
  }

  lemma {:induction false} FromBound(f: FromItem, db: Database, ctx: Context)
    ensures Bound(EvalFrom(f, db, ctx), Refs(f))
  {
    match f
    case Table(_, _) =>
    case Subselect(_, _) =>
    case Join(kind, l, r, quals) =>
      FromBound(l, db, ctx);
      FromBound(r, db, ctx);
      JoinBound(kind, EvalFrom(l, db, ctx), EvalFrom(r, db, ctx), Refs(l), Refs(r), quals, ctx);
  }

  lemma {:induction false} FromsBound(fs: seq<FromItem>, db: Database, ctx: Context)
    ensures Bound(EvalFroms(fs, db, ctx), RefsOf(fs))
  {
    if fs != [] {
      FromBound(fs[0], db, ctx);
      FromsBound(fs[1..], db, ctx);
      MatchedBound(EvalFrom(fs[0], db, ctx), EvalFroms(fs[1..], db, ctx), Refs(fs[0]), RefsOf(fs[1..]), None, ctx);
    }
  }

  // ---------- reference names before and after ----------

  lemma {:induction false} AclRefs(f: FromItem, tracked: set<string>)
    ensures forall r :: r in Refs(AclFrom(f, tracked)) <==>
                        r in Refs(f) || exists t :: t in TrackedRefs(f, tracked) && r == AclName(t)
    ensures forall t :: t in TrackedRefs(f, tracked) ==> t in Refs(f)
  {
    match f
    case Table(_, _) =>
    case Subselect(_, _) =>
    case Join(_, l, r, _) =>
      AclRefs(l, tracked);
      AclRefs(r, tracked);
  }

  lemma {:induction false} AclRefsOf(fs: seq<FromItem>, tracked: set<string>)
    ensures forall r :: r in RefsOf(AclFroms(fs, tracked)) <==>
                        r in RefsOf(fs) || exists t :: t in TrackedRefsOf(fs, tracked) && r == AclName(t)
    ensures forall t :: t in TrackedRefsOf(fs, tracked) ==> t in RefsOf(fs)
  {
    if fs != [] {
      AclRefs(fs[0], tracked);
      AclRefsOf(fs[1..], tracked);
    }
  }

  lemma DistinctParts(a: seq<string>, b: seq<string>)
    requires Distinct(a + b)
    ensures Distinct(a) && Distinct(b) && forall r | r in a :: r !in b
  {
    forall i, j | 0 <= i < j < |a| ensures a[i] != a[j] { assert (a + b)[i] == a[i] && (a + b)[j] == a[j]; }
    forall i, j | 0 <= i < j < |b| ensures b[i] != b[j] {
      assert (a + b)[|a| + i] == b[i] && (a + b)[|a| + j] == b[j];
    }
    forall i, j | 0 <= i < |a| && 0 <= j < |b| ensures a[i] != b[j] {
      assert (a + b)[i] == a[i] && (a + b)[|a| + j] == b[j];
    }
  }

  // ---------- the inserted join ----------

  lemma AndOfThree(a: Expr, b: Expr, c: Expr, env: Env, ctx: Context)
    ensures EvalExpr(And([a, b, c]), env, ctx) == Bool(true) <==>
            EvalExpr(a, env, ctx) == Bool(true) && EvalExpr(b, env, ctx) == Bool(true)
                && EvalExpr(c, env, ctx) == Bool(true)
  {
    var x, y, z := EvalExpr(a, env, ctx), EvalExpr(b, env, ctx), EvalExpr(c, env, ctx);
    assert [b, c][1..] == [c] && [a, b, c][1..] == [b, c];
    assert EvalExprs([c], env, ctx) == [z];
    assert EvalExprs([b, c], env, ctx) == [y, z];
    assert EvalExprs([a, b, c], env, ctx) == [x, y, z];
    var vs := [x, y, z];
    assert x == vs[0] && y == vs[1] && z == vs[2];
    assert x in vs && y in vs && z in vs;
  }

  lemma ColIn(env: Env, ref: string, col: string, ctx: Context)
    requires ref in env
    ensures EvalExpr(Col(ref, col), env, ctx) == Field(env[ref], col)
  {
  }

  lemma AclQualsMean(row: Row, acl: Row, ref: string, ctx: Context)
    ensures Meets(Some(AclQuals(ref)), map[ref := row] + map[AclName(ref) := acl], ctx) <==> Grants(row, acl, ctx)
  {
    var aref := AclName(ref);
    var env: Env := map[ref := row] + map[aref := acl];
    assert |aref| == |ref| + 8;
    assert env[ref] == row && env[aref] == acl;
    var a, b, c := Eq(Col(ref, "id"), Col(aref, "_id")), Eq(Col(aref, "_principal"), CurrentUser),
      Eq(Col(aref, "_operation"), Const(Text("SELECT")));
    assert AclQuals(ref) == And([a, b, c]);
    AndOfThree(a, b, c, env, ctx);
    ColIn(env, ref, "id", ctx);
    ColIn(env, aref, "_id", ctx);
    ColIn(env, aref, "_principal", ctx);
    ColIn(env, aref, "_operation", ctx);
    assert EvalExpr(a, env, ctx) == Bool(true) <==> Field(row, "id") != Null && Field(acl, "_id") == Field(row, "id");
    assert EvalExpr(b, env, ctx) == Bool(true) <==> Field(acl, "_principal") == Text(ctx.user);
    assert EvalExpr(c, env, ctx) == Bool(true) <==> Field(acl, "_operation") == Text("SELECT");
  }

  lemma {:induction false} InPermitted(row: Row, rows: seq<Row>, acls: seq<Row>, ctx: Context)
    ensures row in PermittedRows(rows, acls, ctx) <==> row in rows && Permitted(row, acls, ctx)
  {
    if rows != [] {
      InPermitted(row, rows[1..], acls, ctx);
      assert rows == [rows[0]] + rows[1..];
    }
  }

  /** A condition over one row and one access row that holds exactly of the grants. */
  ghost predicate Guards(quals: Option<Expr>, ref: string, aref: string, ctx: Context) {
    && ref != aref
    && forall row: Row, acl: Row :: Meets(quals, map[ref := row] + map[aref := acl], ctx) <==> Grants(row, acl, ctx)
  }

  lemma AclQualsGuard(ref: string, ctx: Context)
    ensures Guards(Some(AclQuals(ref)), ref, AclName(ref), ctx)
  {
    assert |AclName(ref)| == |ref| + 8;
    forall row: Row, acl: Row
      ensures Meets(Some(AclQuals(ref)), map[ref := row] + map[AclName(ref) := acl], ctx) <==> Grants(row, acl, ctx)
    {
      AclQualsMean(row, acl, ref, ctx);
    }
  }

  lemma BindSplit(ref: string, rows: seq<Row>)
    requires rows != []
    ensures var xs := Bind(ref, rows); xs[0] == map[ref := rows[0]] && xs[1..] == Bind(ref, rows[1..])
  {
    var xs, tail := Bind(ref, rows), Bind(ref, rows[1..]);
    forall i | 0 <= i < |tail| ensures xs[1..][i] == tail[i] {}
  }

  lemma OnlyRow(ref: string, aref: string, row: Row, acl: Row)
    requires ref != aref
    ensures Only(map[ref := row] + map[aref := acl], [ref]) == map[ref := row]
  {
  }

  lemma JoinedIsKept(e: Env, ref: string, aref: string, quals: Option<Expr>, rows: seq<Row>, acls: seq<Row>,
                     ctx: Context)
    requires Guards(quals, ref, aref, ctx)
    requires e in Matched(Bind(ref, rows), Bind(aref, acls), quals, ctx)
    ensures Only(e, [ref]) in Bind(ref, PermittedRows(rows, acls, ctx))
  {
    hide Meets, Matched, Grants, PermittedRows, Only;
    var xs, ys := Bind(ref, rows), Bind(aref, acls);
    var kept := PermittedRows(rows, acls, ctx);
    InMatched(e, xs, ys, quals, ctx);
    var x, y :| x in xs && y in ys && Meets(quals, x + y, ctx) && e == x + y;
    var i :| 0 <= i < |xs| && x == xs[i];
    var j :| 0 <= j < |ys| && y == ys[j];
    assert Grants(rows[i], acls[j], ctx);
    InPermitted(rows[i], rows, acls, ctx);
    var k :| 0 <= k < |kept| && kept[k] == rows[i];
    OnlyRow(ref, aref, rows[i], acls[j]);
    assert map[ref := rows[i]] == Bind(ref, kept)[k];
  }

  lemma KeptIsJoined(e: Env, ref: string, aref: string, quals: Option<Expr>, rows: seq<Row>, acls: seq<Row>,
                     ctx: Context)
    returns (x: Env)
    requires Guards(quals, ref, aref, ctx)
    requires e in Bind(ref, PermittedRows(rows, acls, ctx))
    ensures x in Matched(Bind(ref, rows), Bind(aref, acls), quals, ctx) && Only(x, [ref]) == e
  {
    hide Meets, Matched, Grants, PermittedRows;
    var xs, ys := Bind(ref, rows), Bind(aref, acls);
    var kept := PermittedRows(rows, acls, ctx);
    var k :| 0 <= k < |kept| && e == Bind(ref, kept)[k];
    InPermitted(kept[k], rows, acls, ctx);
    var i :| 0 <= i < |rows| && rows[i] == kept[k];
    var a :| a in acls && Grants(kept[k], a, ctx);
    var j :| 0 <= j < |acls| && acls[j] == a;
    assert xs[i] == e == map[ref := kept[k]] && ys[j] == map[aref := a];
    x := xs[i] + ys[j];
    InMatched(x, xs, ys, quals, ctx);
    assert Only(x, [ref]) == e;
  }

  lemma GuardedJoinSame(ref: string, aref: string, quals: Option<Expr>, rows: seq<Row>, acls: seq<Row>, ctx: Context)
    requires Guards(quals, ref, aref, ctx)
    ensures Same(Matched(Bind(ref, rows), Bind(aref, acls), quals, ctx), Bind(ref, PermittedRows(rows, acls, ctx)),
                 [ref])
  {
    var joined, kept := Matched(Bind(ref, rows), Bind(aref, acls), quals, ctx), PermittedRows(rows, acls, ctx);
    forall e | e in joined ensures Only(e, [ref]) in Bind(ref, kept) {
      JoinedIsKept(e, ref, aref, quals, rows, acls, ctx);
    }
    forall e | e in Bind(ref, kept) ensures exists x :: x in joined && Only(x, [ref]) == e {
      var _ := KeptIsJoined(e, ref, aref, quals, rows, acls, ctx);
    }
  }

  lemma TableSame(name: string, alias: Option<string>, tracked: set<string>, db: Database, ctx: Context)
    requires name in tracked
    ensures Same(EvalFrom(AclFrom(Table(name, alias), tracked), db, ctx),
                 EvalFrom(Table(name, alias), RestrictDb(db, tracked, ctx), ctx),
                 [RefName(name, alias)])
  {
    var ref := RefName(name, alias);
    assert RefName(AclName(name), AclAlias(alias)) == AclName(ref);
    AclQualsGuard(ref, ctx);
    GuardedJoinSame(ref, AclName(ref), Some(AclQuals(ref)), Rows(db, name), Rows(db, AclName(name)), ctx);
  }

  // ---------- the main theorem ----------

  lemma SameSelf(xs: seq<Env>, refs: seq<string>)
    requires Bound(xs, refs)
    ensures Same(xs, xs, refs)
  {
    forall x | x in xs ensures Only(x, refs) == x {}
  }

  lemma NoClashParts(s: seq<string>, t: seq<string>, a: seq<string>, b: seq<string>)
    requires NoClash(s + t, a + b)
    ensures NoClash(s, a) && NoClash(t, b)
  {
    forall r | r in s ensures AclName(r) !in a {
      assert r in s + t;
      assert AclName(r) !in a + b;
    }
    forall r | r in t ensures AclName(r) !in b {
      assert r in s + t;
      assert AclName(r) !in a + b;
    }
  }

  /** The two forms of a FROM item agree: rewritten over db, original over the permitted rows. */
  ghost predicate ItemSame(f: FromItem, tracked: set<string>, db: Database, ctx: Context) {
    Same(EvalFrom(AclFrom(f, tracked), db, ctx), EvalFrom(f, RestrictDb(db, tracked, ctx), ctx), Refs(f))
  }

  lemma UntrackedSame(name: string, alias: Option<string>, tracked: set<string>, db: Database, ctx: Context)
    requires name !in tracked
    ensures EvalFrom(Table(name, alias), RestrictDb(db, tracked, ctx), ctx) == EvalFrom(Table(name, alias), db, ctx)
  {
  }

  lemma TableItemSame(name: string, alias: Option<string>, tracked: set<string>, db: Database, ctx: Context)
    ensures ItemSame(Table(name, alias), tracked, db, ctx)
  {
    var f := Table(name, alias);
    if name in tracked {
      TableSame(name, alias, tracked, db, ctx);
    } else {
      UntrackedSame(name, alias, tracked, db, ctx);
      FromBound(f, db, ctx);
      assert AclFrom(f, tracked) == f;
      SameSelf(EvalFrom(f, db, ctx), Refs(f));
    }
  }

  lemma SubselectItemSame(f: FromItem, tracked: set<string>, db: Database, ctx: Context)
    requires f.Subselect?
    requires forall t :: t in EvalQuery(AclQuery(f.query, tracked), db, ctx) <==>
                         t in EvalQuery(f.query, RestrictDb(db, tracked, ctx), ctx)
    ensures ItemSame(f, tracked, db, ctx)
  {
    var q := f.query;
    AclColumns(q, tracked);
    SubselectSame(Columns(q), EvalQuery(AclQuery(q, tracked), db, ctx),
                  EvalQuery(q, RestrictDb(db, tracked, ctx), ctx), f.subAlias);
  }

  lemma {:induction false} FromSame(f: FromItem, tracked: set<string>, db: Database, ctx: Context)
    requires ScopedFrom(f) && Distinct(Refs(f))
    requires ClashFreeFrom(f, tracked) && NoClash(TrackedRefs(f, tracked), Refs(f))
    ensures ItemSame(f, tracked, db, ctx)
    decreases f, 1
  {
    match f
    case Table(name, alias) => TableItemSame(name, alias, tracked, db, ctx);
    case Subselect(q, _) =>
      QuerySame(q, tracked, db, ctx);
      SubselectItemSame(f, tracked, db, ctx);
    case Join(kind, l, r, quals) =>
      DistinctParts(Refs(l), Refs(r));
      NoClashParts(TrackedRefs(l, tracked), TrackedRefs(r, tracked), Refs(l), Refs(r));
      FromSame(l, tracked, db, ctx);
      FromSame(r, tracked, db, ctx);
      JoinItemsSame(kind, l, r, quals, tracked, db, ctx);
  }

  /** Inserting access references keeps the two sides of a join apart. */
  lemma SidesStayApart(l: FromItem, r: FromItem, tracked: set<string>)
    requires forall n | n in Refs(l) :: n !in Refs(r)
    requires NoClash(TrackedRefs(l, tracked) + TrackedRefs(r, tracked), Refs(l) + Refs(r))
    ensures KeptApart(Refs(AclFrom(l, tracked)), Refs(AclFrom(r, tracked)), Refs(l), Refs(r))
  {
    AclRefs(l, tracked);
    AclRefs(r, tracked);
    forall t | t in TrackedRefs(l, tracked) ensures AclName(t) !in Refs(r) {
      assert t in TrackedRefs(l, tracked) + TrackedRefs(r, tracked);
      assert AclName(t) !in Refs(l) + Refs(r);
    }
    forall t | t in TrackedRefs(r, tracked) ensures AclName(t) !in Refs(l) {
      assert t in TrackedRefs(l, tracked) + TrackedRefs(r, tracked);
      assert AclName(t) !in Refs(l) + Refs(r);
    }
  }

  /** The same for an item of a FROM list and the items after it. */
  lemma RestStaysApart(f: FromItem, rest: seq<FromItem>, tracked: set<string>)
    requires forall n | n in Refs(f) :: n !in RefsOf(rest)
    requires NoClash(TrackedRefs(f, tracked) + TrackedRefsOf(rest, tracked), Refs(f) + RefsOf(rest))
    ensures KeptApart(Refs(AclFrom(f, tracked)), RefsOf(AclFroms(rest, tracked)), Refs(f), RefsOf(rest))
  {
    AclRefs(f, tracked);
    AclRefsOf(rest, tracked);
    forall t | t in TrackedRefs(f, tracked) ensures AclName(t) !in RefsOf(rest) {
      assert t in TrackedRefs(f, tracked) + TrackedRefsOf(rest, tracked);
      assert AclName(t) !in Refs(f) + RefsOf(rest);
    }
    forall t | t in TrackedRefsOf(rest, tracked) ensures AclName(t) !in Refs(f) {
      assert t in TrackedRefs(f, tracked) + TrackedRefsOf(rest, tracked);
      assert AclName(t) !in Refs(f) + RefsOf(rest);
    }
  }

  lemma JoinItemsSame(kind: JoinType, l: FromItem, r: FromItem, quals: Option<Expr>,
                      tracked: set<string>, db: Database, ctx: Context)
    requires ScopedQuals(quals, Refs(l) + Refs(r)) && forall n | n in Refs(l) :: n !in Refs(r)
    requires NoClash(TrackedRefs(l, tracked) + TrackedRefs(r, tracked), Refs(l) + Refs(r))
    requires ItemSame(l, tracked, db, ctx) && ItemSame(r, tracked, db, ctx)
    ensures ItemSame(Join(kind, l, r, quals), tracked, db, ctx)
  {
    var rdb := RestrictDb(db, tracked, ctx);
    var l', r' := AclFrom(l, tracked), AclFrom(r, tracked);
    SidesStayApart(l, r, tracked);
    FromBound(l', db, ctx);
    FromBound(r', db, ctx);
    FromBound(l, rdb, ctx);
    FromBound(r, rdb, ctx);
    JoinSame(kind, EvalFrom(l', db, ctx), EvalFrom(r', db, ctx), EvalFrom(l, rdb, ctx), EvalFrom(r, rdb, ctx),
             Refs(l'), Refs(r'), Refs(l), Refs(r), quals, ctx);
  }

  /** The two forms of a FROM list agree. */
  ghost predicate ListSame(fs: seq<FromItem>, tracked: set<string>, db: Database, ctx: Context) {
    Same(EvalFroms(AclFroms(fs, tracked), db, ctx), EvalFroms(fs, RestrictDb(db, tracked, ctx), ctx), RefsOf(fs))
  }

  lemma FromsStep(f: FromItem, rest: seq<FromItem>, tracked: set<string>, db: Database, ctx: Context)
    requires forall n | n in Refs(f) :: n !in RefsOf(rest)
    requires NoClash(TrackedRefs(f, tracked) + TrackedRefsOf(rest, tracked), Refs(f) + RefsOf(rest))
    requires ItemSame(f, tracked, db, ctx) && ListSame(rest, tracked, db, ctx)
    ensures var rdb := RestrictDb(db, tracked, ctx); var f', rest' := AclFrom(f, tracked), AclFroms(rest, tracked);
            Same(Matched(EvalFrom(f', db, ctx), EvalFroms(rest', db, ctx), None, ctx),
                 Matched(EvalFrom(f, rdb, ctx), EvalFroms(rest, rdb, ctx), None, ctx), Refs(f) + RefsOf(rest))
  {
    var rdb := RestrictDb(db, tracked, ctx);
    var f', rest' := AclFrom(f, tracked), AclFroms(rest, tracked);
    RestStaysApart(f, rest, tracked);
    FromBound(f', db, ctx);
    FromsBound(rest', db, ctx);
    FromBound(f, rdb, ctx);
    FromsBound(rest, rdb, ctx);
    hide Same, Bound, Matched, EvalFrom, EvalFroms, AclFrom, AclFroms, RestrictDb, NoClash, Refs, RefsOf, KeptApart;
    MatchedSame(EvalFrom(f', db, ctx), EvalFroms(rest', db, ctx), EvalFrom(f, rdb, ctx), EvalFroms(rest, rdb, ctx),
                Refs(f'), RefsOf(rest'), Refs(f), RefsOf(rest), None, ctx);
  }

  lemma {:induction false} FromsSame(fs: seq<FromItem>, tracked: set<string>, db: Database, ctx: Context)
    requires ScopedFroms(fs) && Distinct(RefsOf(fs))
    requires ClashFreeFroms(fs, tracked) && NoClash(TrackedRefsOf(fs, tracked), RefsOf(fs))
    ensures ListSame(fs, tracked, db, ctx)
    decreases fs, 0
  {
    hide Same, Matched, RestrictDb, NoClash, Distinct, AclFrom, EvalFrom;
    if fs == [] {
      SameSelf([map[]], []);
    } else {
      var f, rest := fs[0], fs[1..];
      assert AclFroms(fs, tracked)[0] == AclFrom(f, tracked) && AclFroms(fs, tracked)[1..] == AclFroms(rest, tracked);
      DistinctParts(Refs(f), RefsOf(rest));
      NoClashParts(TrackedRefs(f, tracked), TrackedRefsOf(rest, tracked), Refs(f), RefsOf(rest));
      FromSame(f, tracked, db, ctx);
      FromsSame(rest, tracked, db, ctx);
      FromsStep(f, rest, tracked, db, ctx);
    }
  }

  /** Access control by rewriting is exact: for every query of the fragment, every database and
      every user, a row is in the answer of the rewritten query just when it is in the answer of
      the original query over the permitted rows. */
  lemma {:induction false} QuerySame(q: Query, tracked: set<string>, db: Database, ctx: Context)
    requires ScopedQuery(q) && ClashFree(q, tracked)
    ensures forall t :: t in EvalQuery(AclQuery(q, tracked), db, ctx) <==>
                        t in EvalQuery(q, RestrictDb(db, tracked, ctx), ctx)
    decreases q, 1
  {
    var rdb := RestrictDb(db, tracked, ctx);
    match q
    case Select(targets, from, filter) =>
      FromsSame(from, tracked, db, ctx);
      ProjectSame(targets, filter, EvalFroms(AclFroms(from, tracked), db, ctx), EvalFroms(from, rdb, ctx),
                  RefsOf(from), ctx);
    case Combine(op, l, r) =>
      QuerySame(l, tracked, db, ctx);
      QuerySame(r, tracked, db, ctx);
      var ts', us' := EvalQuery(AclQuery(l, tracked), db, ctx), EvalQuery(AclQuery(r, tracked), db, ctx);
      var ts, us := EvalQuery(l, rdb, ctx), EvalQuery(r, rdb, ctx);
      forall t ensures t in CombineTuples(op, ts', us') <==> t in CombineTuples(op, ts, us) {
        InCombined(t, op, ts', us');
        InCombined(t, op, ts, us);
      }
  }

  lemma {:induction false} AclColumns(q: Query, tracked: set<string>)
    ensures Columns(AclQuery(q, tracked)) == Columns(q)
  {
    match q
    case Select(_, _, _) =>
    case Combine(_, l, _) => AclColumns(l, tracked);
  }

  lemma SubselectSame(cols: seq<string>, ts': seq<Tuple>, ts: seq<Tuple>, alias: string)
    requires forall t :: t in ts' <==> t in ts
    ensures Same(Bind(alias, Label(cols, ts')), Bind(alias, Label(cols, ts)), [alias])
  {
    var xs, ys := Bind(alias, Label(cols, ts')), Bind(alias, Label(cols, ts));
    forall i | 0 <= i < |xs| ensures Only(xs[i], [alias]) in ys {
      assert ts'[i] in ts;
      var j :| 0 <= j < |ts| && ts[j] == ts'[i];
      assert ys[j] == xs[i] && Only(xs[i], [alias]) == xs[i];
    }
    forall j | 0 <= j < |ys| ensures exists x :: x in xs && Only(x, [alias]) == ys[j] {
      assert ts[j] in ts';
      var i :| 0 <= i < |ts'| && ts[j] == ts'[i];
      assert ys[j] == xs[i] && Only(xs[i], [alias]) == xs[i];
    }
  }

  lemma {:induction false} InProject(t: Tuple, targets: seq<Target>, filter: Option<Expr>, envs: seq<Env>, ctx: Context)
    ensures t in Project(targets, filter, envs, ctx) <==>
            exists e :: e in envs && Meets(filter, e, ctx) && t == TargetTuple(targets, e, ctx)
  {
    if envs != [] {
      InProject(t, targets, filter, envs[1..], ctx);
      assert forall e :: e in envs <==> e == envs[0] || e in envs[1..];
    }
  }

  lemma TargetLocal(targets: seq<Target>, env: Env, refs: seq<string>, ctx: Context)
    requires forall i | 0 <= i < |targets| :: ScopedExpr(targets[i].expr, refs)
    ensures TargetTuple(targets, env, ctx) == TargetTuple(targets, Only(env, refs), ctx)
  {
    forall i | 0 <= i < |targets|
      ensures EvalExpr(targets[i].expr, env, ctx) == EvalExpr(targets[i].expr, Only(env, refs), ctx)
    {
      EvalLocal(targets[i].expr, env, refs, ctx);
    }
  }

  lemma ProjectSame(targets: seq<Target>, filter: Option<Expr>, xs: seq<Env>, ys: seq<Env>, refs: seq<string>,
                    ctx: Context)
    requires Same(xs, ys, refs) && ScopedQuals(filter, refs)
    requires forall i | 0 <= i < |targets| :: ScopedExpr(targets[i].expr, refs)
    ensures forall t :: t in Project(targets, filter, xs, ctx) <==> t in Project(targets, filter, ys, ctx)
  {
    forall t ensures t in Project(targets, filter, xs, ctx) <==> t in Project(targets, filter, ys, ctx) {
      InProject(t, targets, filter, xs, ctx);
      InProject(t, targets, filter, ys, ctx);
      if t in Project(targets, filter, xs, ctx) {
        var e :| e in xs && Meets(filter, e, ctx) && t == TargetTuple(targets, e, ctx);
        MeetsLocal(filter, e, refs, ctx);
        TargetLocal(targets, e, refs, ctx);
      }
      if t in Project(targets, filter, ys, ctx) {
        var y :| y in ys && Meets(filter, y, ctx) && t == TargetTuple(targets, y, ctx);
        var e :| e in xs && Only(e, refs) == y;
        MeetsLocal(filter, e, refs, ctx);
        TargetLocal(targets, e, refs, ctx);
      }
    }
  }

  lemma {:induction false} InKeep(t: Tuple, ts: seq<Tuple>, us: seq<Tuple>, present: bool)
    ensures t in Keep(ts, us, present) <==> t in ts && (t in us) == present
  {
    if ts != [] {
      InKeep(t, ts[1..], us, present);
      assert ts == [ts[0]] + ts[1..];
    }
  }

  lemma {:induction false} InDedup(t: Tuple, ts: seq<Tuple>)
    ensures t in Dedup(ts) <==> t in ts
  {
    if ts != [] {
      InDedup(t, ts[1..]);
      assert ts == [ts[0]] + ts[1..];
    }
  }

  lemma InCombined(t: Tuple, op: SetOp, ts: seq<Tuple>, us: seq<Tuple>)
    ensures t in CombineTuples(op, ts, us) <==>
            match op
            case Union => t in ts || t in us
            case UnionAll => t in ts || t in us
            case Intersect => t in ts && t in us
            case Except => t in ts && t !in us
  {
    InDedup(t, ts + us);
    InKeep(t, ts, us, true);
    InKeep(t, ts, us, false);
    InDedup(t, Keep(ts, us, true));
    InDedup(t, Keep(ts, us, false));
  }
}
