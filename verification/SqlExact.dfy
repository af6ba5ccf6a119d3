/**
 Exactly when the rewrite gives every row as often as the original query over the permitted rows:
 for all queries of the fragment, if and only if no row is granted to the user twice.
 */
module SqlExact {
  import opened Results
  import opened Sql
  import opened SqlAcl
  import SqlBags

  /** No row of a tracked table is granted to the user twice, for instance through two roles. */
  predicate SingleGrants(tracked: set<string>, db: Database, ctx: Context) {
    forall name, row | name in tracked && name in db && row in db[name] ::
      SqlBags.AclCount(row, Rows(db, AclName(name)), ctx) <= 1
  }

  /** The environments, in order, with inserted references forgotten. */
  function Seen(xs: seq<Env>, refs: seq<string>): seq<Env> {
    if xs == [] then [] else [Only(xs[0], refs)] + Seen(xs[1..], refs)
  }

  lemma {:induction false} SeenConcat(xs: seq<Env>, ys: seq<Env>, refs: seq<string>)
    ensures Seen(xs + ys, refs) == Seen(xs, refs) + Seen(ys, refs)
  {
    if xs == [] {
      assert xs + ys == ys;
    } else {
      assert (xs + ys)[1..] == xs[1..] + ys;
      SeenConcat(xs[1..], ys, refs);
    }
  }

  lemma SeenOne(x: Env, refs: seq<string>)
    ensures Seen([x], refs) == [Only(x, refs)]
  {
    assert [x][1..] == [];
  }

  lemma {:induction false} InSeen(y: Env, xs: seq<Env>, refs: seq<string>)
    ensures y in Seen(xs, refs) <==> exists x :: x in xs && Only(x, refs) == y
  {
    if xs != [] {
      InSeen(y, xs[1..], refs);
      assert forall x :: x in xs <==> x == xs[0] || x in xs[1..];
    }
  }

  lemma {:induction false} SeenSelf(xs: seq<Env>, refs: seq<string>)
    requires Bound(xs, refs)
    ensures Seen(xs, refs) == xs
  {
    if xs != [] {
      BoundSplit(xs, refs);
      assert Only(xs[0], refs) == xs[0];
      SeenSelf(xs[1..], refs);
    }
  }

  // ---------- joins see the inputs alone ----------

  /** Inputs xs and ys of a join, whose conditions use only the references a and b. */
  ghost predicate Sides(xs: seq<Env>, ys: seq<Env>, a': seq<string>, b': seq<string>,
                        a: seq<string>, b: seq<string>, quals: Option<Expr>)
  {
    Bound(xs, a') && Bound(ys, b') && KeptApart(a', b', a, b) && ScopedQuals(quals, a + b)
  }

  lemma PairSeen(x: Env, y: Env, a': seq<string>, b': seq<string>, a: seq<string>, b: seq<string>,
                 quals: Option<Expr>, ctx: Context)
    requires x.Keys == Names(a') && y.Keys == Names(b') && KeptApart(a', b', a, b) && ScopedQuals(quals, a + b)
    ensures Only(x + y, a + b) == Only(x, a) + Only(y, b)
    ensures Meets(quals, x + y, ctx) == Meets(quals, Only(x, a) + Only(y, b), ctx)
  {
    MeetsSum(quals, x, y, a', b', a, b, ctx);
  }

  lemma {:induction false} PairsSeen(x: Env, ys: seq<Env>, a': seq<string>, b': seq<string>,
                                     a: seq<string>, b: seq<string>, quals: Option<Expr>, ctx: Context)
    requires x.Keys == Names(a') && Bound(ys, b') && KeptApart(a', b', a, b) && ScopedQuals(quals, a + b)
    ensures Seen(Pairs(x, ys, quals, ctx), a + b) == Pairs(Only(x, a), Seen(ys, b), quals, ctx)
  {
    if ys != [] {
      BoundSplit(ys, b');
      PairSeen(x, ys[0], a', b', a, b, quals, ctx);
      PairsSeen(x, ys[1..], a', b', a, b, quals, ctx);
      hide Bound, Names, KeptApart, Meets, Only, ScopedQuals;
      var head := if Meets(quals, x + ys[0], ctx) then [x + ys[0]] else [];
      SeenConcat(head, Pairs(x, ys[1..], quals, ctx), a + b);
      SeenOne(x + ys[0], a + b);
      assert Seen(ys, b)[1..] == Seen(ys[1..], b);
    }
  }

  lemma {:induction false} MatchedSeen(xs: seq<Env>, ys: seq<Env>, a': seq<string>, b': seq<string>,
                                       a: seq<string>, b: seq<string>, quals: Option<Expr>, ctx: Context)
    requires Sides(xs, ys, a', b', a, b, quals)
    ensures Seen(Matched(xs, ys, quals, ctx), a + b) == Matched(Seen(xs, a), Seen(ys, b), quals, ctx)
  {
    hide Names, KeptApart, Meets, Only, ScopedQuals;
    if xs != [] {
      BoundSplit(xs, a');
      hide Bound, Pairs;
      PairsSeen(xs[0], ys, a', b', a, b, quals, ctx);
      MatchedSeen(xs[1..], ys, a', b', a, b, quals, ctx);
      SeenConcat(Pairs(xs[0], ys, quals, ctx), Matched(xs[1..], ys, quals, ctx), a + b);
      assert Seen(xs, a)[1..] == Seen(xs[1..], a);
    }
  }

  lemma HasRightSeen(x: Env, ys: seq<Env>, a': seq<string>, b': seq<string>,
                     a: seq<string>, b: seq<string>, quals: Option<Expr>, ctx: Context)
    requires x.Keys == Names(a') && Bound(ys, b') && KeptApart(a', b', a, b) && ScopedQuals(quals, a + b)
    ensures HasRight(x, ys, quals, ctx) == HasRight(Only(x, a), Seen(ys, b), quals, ctx)
  {
    hide Names, KeptApart, Meets, Only, ScopedQuals;
    if y :| y in ys && Meets(quals, x + y, ctx) {
      PairSeen(x, y, a', b', a, b, quals, ctx);
      InSeen(Only(y, b), ys, b);
    }
    if y' :| y' in Seen(ys, b) && Meets(quals, Only(x, a) + y', ctx) {
      InSeen(y', ys, b);
      var y :| y in ys && Only(y, b) == y';
      PairSeen(x, y, a', b', a, b, quals, ctx);
    }
  }

  lemma HasLeftSeen(xs: seq<Env>, y: Env, a': seq<string>, b': seq<string>,
                    a: seq<string>, b: seq<string>, quals: Option<Expr>, ctx: Context)
    requires Bound(xs, a') && y.Keys == Names(b') && KeptApart(a', b', a, b) && ScopedQuals(quals, a + b)
    ensures HasLeft(xs, y, quals, ctx) == HasLeft(Seen(xs, a), Only(y, b), quals, ctx)
  {
    hide Names, KeptApart, Meets, Only, ScopedQuals;
    if x :| x in xs && Meets(quals, x + y, ctx) {
      PairSeen(x, y, a', b', a, b, quals, ctx);
      InSeen(Only(x, a), xs, a);
    }
    if x' :| x' in Seen(xs, a) && Meets(quals, x' + Only(y, b), ctx) {
      InSeen(x', xs, a);
      var x :| x in xs && Only(x, a) == x';
      PairSeen(x, y, a', b', a, b, quals, ctx);
    }
  }

  lemma NullsSeen(x: Env, y: Env, a': seq<string>, b': seq<string>, a: seq<string>, b: seq<string>)
    requires KeptApart(a', b', a, b)
    ensures x.Keys == Names(a') ==> Only(x + Nulls(b'), a + b) == Only(x, a) + Nulls(b)
    ensures y.Keys == Names(b') ==> Only(Nulls(a') + y, a + b) == Nulls(a) + Only(y, b)
  {
    NullsOnly(a', a);
    NullsOnly(b', b);
    if x.Keys == Names(a') { OnlySum(x, Nulls(b'), a', b', a, b); }
    if y.Keys == Names(b') { OnlySum(Nulls(a'), y, a', b', a, b); }
  }

  lemma {:induction false} LeftOnlySeen(xs: seq<Env>, ys: seq<Env>, a': seq<string>, b': seq<string>,
                                        a: seq<string>, b: seq<string>, quals: Option<Expr>, ctx: Context)
    requires Sides(xs, ys, a', b', a, b, quals)
    ensures Seen(LeftOnly(xs, ys, b', quals, ctx), a + b) == LeftOnly(Seen(xs, a), Seen(ys, b), b, quals, ctx)
  {
    hide Names, KeptApart, Meets, Only, ScopedQuals, HasRight, Nulls;
    if xs != [] {
      BoundSplit(xs, a');
      hide Bound;
      HasRightSeen(xs[0], ys, a', b', a, b, quals, ctx);
      NullsSeen(xs[0], xs[0], a', b', a, b);
      LeftOnlySeen(xs[1..], ys, a', b', a, b, quals, ctx);
      var head := if HasRight(xs[0], ys, quals, ctx) then [] else [xs[0] + Nulls(b')];
      SeenConcat(head, LeftOnly(xs[1..], ys, b', quals, ctx), a + b);
      SeenOne(xs[0] + Nulls(b'), a + b);
      assert Seen(xs, a)[1..] == Seen(xs[1..], a);
    }
  }

  lemma {:induction false} RightOnlySeen(xs: seq<Env>, ys: seq<Env>, a': seq<string>, b': seq<string>,
                                         a: seq<string>, b: seq<string>, quals: Option<Expr>, ctx: Context)
    requires Sides(xs, ys, a', b', a, b, quals)
    ensures Seen(RightOnly(xs, ys, a', quals, ctx), a + b) == RightOnly(Seen(xs, a), Seen(ys, b), a, quals, ctx)
  {
    hide Names, KeptApart, Meets, Only, ScopedQuals, HasLeft, Nulls;
    if ys != [] {
      BoundSplit(ys, b');
      hide Bound;
      HasLeftSeen(xs, ys[0], a', b', a, b, quals, ctx);
      NullsSeen(ys[0], ys[0], a', b', a, b);
      RightOnlySeen(xs, ys[1..], a', b', a, b, quals, ctx);
      var head := if HasLeft(xs, ys[0], quals, ctx) then [] else [Nulls(a') + ys[0]];
      SeenConcat(head, RightOnly(xs, ys[1..], a', quals, ctx), a + b);
      SeenOne(Nulls(a') + ys[0], a + b);
      assert Seen(ys, b)[1..] == Seen(ys[1..], b);
    }
  }

  lemma JoinSeen(kind: JoinType, xs: seq<Env>, ys: seq<Env>, a': seq<string>, b': seq<string>,
                 a: seq<string>, b: seq<string>, quals: Option<Expr>, ctx: Context)
    requires Sides(xs, ys, a', b', a, b, quals)
    ensures Seen(JoinEnvs(kind, xs, ys, a', b', quals, ctx), a + b)
            == JoinEnvs(kind, Seen(xs, a), Seen(ys, b), a, b, quals, ctx)
  {
    MatchedSeen(xs, ys, a', b', a, b, quals, ctx);
    LeftOnlySeen(xs, ys, a', b', a, b, quals, ctx);
    RightOnlySeen(xs, ys, a', b', a, b, quals, ctx);
    hide Sides, Matched, LeftOnly, RightOnly;
    var m := Matched(xs, ys, quals, ctx);
    var l := if kind.Left? || kind.Full? then LeftOnly(xs, ys, b', quals, ctx) else [];
    var r := if kind.Right? || kind.Full? then RightOnly(xs, ys, a', quals, ctx) else [];
    SeenConcat(m, l, a + b);
    SeenConcat(m + l, r, a + b);
  }

  // ---------- the inserted join with single grants ----------

  function Copies(n: nat, x: Env): seq<Env> {
    if n == 0 then [] else [x] + Copies(n - 1, x)
  }

  /** A row is joined once for each of its access rows. */
  lemma {:induction false} PairsCopies(row: Row, acls: seq<Row>, ref: string, aref: string, quals: Option<Expr>,
                                       ctx: Context)
    requires Guards(quals, ref, aref, ctx)
    ensures Seen(Pairs(map[ref := row], Bind(aref, acls), quals, ctx), [ref])
            == Copies(SqlBags.AclCount(row, acls, ctx), map[ref := row])
  {
    if acls != [] {
      var x: Env, y: Env := map[ref := row], map[aref := acls[0]];
      PairsCopies(row, acls[1..], ref, aref, quals, ctx);
      assert Meets(quals, x + y, ctx) <==> Grants(row, acls[0], ctx);
      OnlyRow(ref, aref, row, acls[0]);
      hide Meets, Grants, Guards, Only;
      BindSplit(aref, acls);
      var head := if Meets(quals, x + y, ctx) then [x + y] else [];
      SeenConcat(head, Pairs(x, Bind(aref, acls[1..]), quals, ctx), [ref]);
      SeenOne(x + y, [ref]);
    }
  }

  lemma {:induction false} SingleJoinSeen(rows: seq<Row>, acls: seq<Row>, ref: string, aref: string,
                                          quals: Option<Expr>, ctx: Context)
    requires Guards(quals, ref, aref, ctx)
    requires forall row | row in rows :: SqlBags.AclCount(row, acls, ctx) <= 1
    ensures Seen(Matched(Bind(ref, rows), Bind(aref, acls), quals, ctx), [ref])
            == Bind(ref, PermittedRows(rows, acls, ctx))
  {
    if rows != [] {
      var x: Env, ys := map[ref := rows[0]], Bind(aref, acls);
      SingleJoinSeen(rows[1..], acls, ref, aref, quals, ctx);
      PairsCopies(rows[0], acls, ref, aref, quals, ctx);
      SqlBags.AclCountPositive(rows[0], acls, ctx);
      assert rows[0] in rows;
      assert Copies(1, x) == [x];
      hide Guards, Pairs, Permitted, Only;
      BindSplit(ref, rows);
      SeenConcat(Pairs(x, ys, quals, ctx), Matched(Bind(ref, rows[1..]), ys, quals, ctx), [ref]);
      BindHead(ref, rows[0], PermittedRows(rows[1..], acls, ctx));
    }
  }

  lemma BindHead(ref: string, row: Row, rows: seq<Row>)
    ensures Bind(ref, [row] + rows) == [map[ref := row]] + Bind(ref, rows)
    ensures Bind(ref, [] + rows) == Bind(ref, rows)
  {
    assert [] + rows == rows;
  }

  // ---------- with single grants the rewrite changes no sequence of rows ----------

  /** The two forms of a FROM item give the same rows, in the same order and number. */
  ghost predicate ItemExact(f: FromItem, tracked: set<string>, db: Database, ctx: Context) {
    Seen(EvalFrom(AclFrom(f, tracked), db, ctx), Refs(f)) == EvalFrom(f, RestrictDb(db, tracked, ctx), ctx)
  }

  ghost predicate ListExact(fs: seq<FromItem>, tracked: set<string>, db: Database, ctx: Context) {
    Seen(EvalFroms(AclFroms(fs, tracked), db, ctx), RefsOf(fs)) == EvalFroms(fs, RestrictDb(db, tracked, ctx), ctx)
  }

  lemma TableExact(name: string, alias: Option<string>, tracked: set<string>, db: Database, ctx: Context)
    requires SingleGrants(tracked, db, ctx)
    ensures ItemExact(Table(name, alias), tracked, db, ctx)
  {
    var f, ref := Table(name, alias), RefName(name, alias);
    if name in tracked {
      var aclTable, quals := Table(AclName(name), AclAlias(alias)), Some(AclQuals(ref));
      assert RefName(AclName(name), AclAlias(alias)) == AclName(ref);
      AclQualsGuard(ref, ctx);
      SingleJoinSeen(Rows(db, name), Rows(db, AclName(name)), ref, AclName(ref), quals, ctx);
      SqlBags.InnerIsMatched(f, aclTable, quals, db, ctx);
    } else {
      UntrackedSame(name, alias, tracked, db, ctx);
      FromBound(f, db, ctx);
      SeenSelf(EvalFrom(f, db, ctx), [ref]);
    }
  }

  lemma SubselectExact(q: Query, alias: string, tracked: set<string>, db: Database, ctx: Context)
    requires EvalQuery(AclQuery(q, tracked), db, ctx) == EvalQuery(q, RestrictDb(db, tracked, ctx), ctx)
    ensures ItemExact(Subselect(q, alias), tracked, db, ctx)
  {
    AclColumns(q, tracked);
    var f := Subselect(AclQuery(q, tracked), alias);
    FromBound(f, db, ctx);
    SeenSelf(EvalFrom(f, db, ctx), [alias]);
  }

  lemma JoinExact(kind: JoinType, l: FromItem, r: FromItem, quals: Option<Expr>,
                  tracked: set<string>, db: Database, ctx: Context)
    requires ScopedQuals(quals, Refs(l) + Refs(r)) && forall n | n in Refs(l) :: n !in Refs(r)
    requires NoClash(TrackedRefs(l, tracked) + TrackedRefs(r, tracked), Refs(l) + Refs(r))
    requires ItemExact(l, tracked, db, ctx) && ItemExact(r, tracked, db, ctx)
    ensures ItemExact(Join(kind, l, r, quals), tracked, db, ctx)
  {
    var l', r' := AclFrom(l, tracked), AclFrom(r, tracked);
    SidesStayApart(l, r, tracked);
    FromBound(l', db, ctx);
    FromBound(r', db, ctx);
    hide NoClash, Bound, KeptApart, ScopedQuals, RestrictDb;
    JoinSeen(kind, EvalFrom(l', db, ctx), EvalFrom(r', db, ctx), Refs(l'), Refs(r'), Refs(l), Refs(r), quals, ctx);
  }

  lemma {:induction false} FromExact(f: FromItem, tracked: set<string>, db: Database, ctx: Context)
    requires ScopedFrom(f) && Distinct(Refs(f)) && SingleGrants(tracked, db, ctx)
    requires ClashFreeFrom(f, tracked) && NoClash(TrackedRefs(f, tracked), Refs(f))
    ensures ItemExact(f, tracked, db, ctx)
    decreases f, 1
  {
    hide SingleGrants, ItemExact;
    match f
    case Table(name, alias) => TableExact(name, alias, tracked, db, ctx);
    case Subselect(q, alias) =>
      QueryExact(q, tracked, db, ctx);
      SubselectExact(q, alias, tracked, db, ctx);
    case Join(kind, l, r, quals) =>
      DistinctParts(Refs(l), Refs(r));
      NoClashParts(TrackedRefs(l, tracked), TrackedRefs(r, tracked), Refs(l), Refs(r));
      FromExact(l, tracked, db, ctx);
      FromExact(r, tracked, db, ctx);
      JoinExact(kind, l, r, quals, tracked, db, ctx);
  }

  lemma ListStep(f: FromItem, rest: seq<FromItem>, tracked: set<string>, db: Database, ctx: Context)
    requires forall n | n in Refs(f) :: n !in RefsOf(rest)
    requires NoClash(TrackedRefs(f, tracked) + TrackedRefsOf(rest, tracked), Refs(f) + RefsOf(rest))
    requires ItemExact(f, tracked, db, ctx) && ListExact(rest, tracked, db, ctx)
    ensures ListExact([f] + rest, tracked, db, ctx)
  {
    var f', rest' := AclFrom(f, tracked), AclFroms(rest, tracked);
    RestStaysApart(f, rest, tracked);
    FromBound(f', db, ctx);
    FromsBound(rest', db, ctx);
    assert ([f] + rest)[1..] == rest && AclFroms([f] + rest, tracked) == [f'] + rest' && ([f'] + rest')[1..] == rest';
    hide NoClash, Bound, KeptApart, RestrictDb;
    MatchedSeen(EvalFrom(f', db, ctx), EvalFroms(rest', db, ctx), Refs(f'), RefsOf(rest'), Refs(f), RefsOf(rest),
                None, ctx);
  }

  lemma {:induction false} FromsExact(fs: seq<FromItem>, tracked: set<string>, db: Database, ctx: Context)
    requires ScopedFroms(fs) && Distinct(RefsOf(fs)) && SingleGrants(tracked, db, ctx)
    requires ClashFreeFroms(fs, tracked) && NoClash(TrackedRefsOf(fs, tracked), RefsOf(fs))
    ensures ListExact(fs, tracked, db, ctx)
    decreases fs, 0
  {
    hide SingleGrants, NoClash, Distinct;
    if fs == [] {
      SeenOne(map[], []);
    } else {
      var f, rest := fs[0], fs[1..];
      assert fs == [f] + rest;
      DistinctParts(Refs(f), RefsOf(rest));
      NoClashParts(TrackedRefs(f, tracked), TrackedRefsOf(rest, tracked), Refs(f), RefsOf(rest));
      hide ListExact, ItemExact;
      FromExact(f, tracked, db, ctx);
      FromsExact(rest, tracked, db, ctx);
      ListStep(f, rest, tracked, db, ctx);
    }
  }

  lemma {:induction false} ProjectSeen(targets: seq<Target>, filter: Option<Expr>, xs: seq<Env>, refs: seq<string>,
                                       ctx: Context)
    requires ScopedQuals(filter, refs) && forall i | 0 <= i < |targets| :: ScopedExpr(targets[i].expr, refs)
    ensures Project(targets, filter, xs, ctx) == Project(targets, filter, Seen(xs, refs), ctx)
  {
    if xs != [] {
      MeetsLocal(filter, xs[0], refs, ctx);
      TargetLocal(targets, xs[0], refs, ctx);
      ProjectSeen(targets, filter, xs[1..], refs, ctx);
      assert Seen(xs, refs)[1..] == Seen(xs[1..], refs);
    }
  }

  /** With single grants a rewritten query gives the very rows, in order, of the original query over
      the permitted rows: through all joins, sub-selects and set operations. */
  lemma {:induction false} QueryExact(q: Query, tracked: set<string>, db: Database, ctx: Context)
    requires ScopedQuery(q) && ClashFree(q, tracked) && SingleGrants(tracked, db, ctx)
    ensures EvalQuery(AclQuery(q, tracked), db, ctx) == EvalQuery(q, RestrictDb(db, tracked, ctx), ctx)
    decreases q, 1
  {
    hide SingleGrants, Project, CombineTuples;
    match q
    case Select(targets, from, filter) =>
      FromsExact(from, tracked, db, ctx);
      ProjectSeen(targets, filter, EvalFroms(AclFroms(from, tracked), db, ctx), RefsOf(from), ctx);
    case Combine(op, l, r) =>
      QueryExact(l, tracked, db, ctx);
      QueryExact(r, tracked, db, ctx);
  }

  // ---------- and only with single grants ----------

  /** SELECT id FROM name. */
  function IdQuery(name: string): Query {
    Select([Target("id", Col(name, "id"))], [Table(name, None)], None)
  }

  lemma {:induction false} ProjectLength(targets: seq<Target>, xs: seq<Env>, ctx: Context)
    ensures |Project(targets, None, xs, ctx)| == |xs|
  {
    if xs != [] { ProjectLength(targets, xs[1..], ctx); }
  }

  lemma {:induction false} UnitProduct(xs: seq<Env>, ctx: Context)
    ensures |Matched(xs, [map[]], None, ctx)| == |xs|
  {
    if xs != [] {
      UnitProduct(xs[1..], ctx);
      var unit: seq<Env> := [map[]];
      assert unit[1..] == [];
      assert Pairs(xs[0], [], None, ctx) == [];
      assert Pairs(xs[0], unit, None, ctx) == [xs[0] + unit[0]];
    }
  }

  lemma {:induction false} SeenLength(xs: seq<Env>, refs: seq<string>)
    ensures |Seen(xs, refs)| == |xs|
  {
    if xs != [] { SeenLength(xs[1..], refs); }
  }

  lemma {:induction false} CopiesLength(n: nat, x: Env)
    ensures |Copies(n, x)| == n
  {
    if n > 0 { CopiesLength(n - 1, x); }
  }

  /** How many rows the inserted join gives in all. */
  function Total(rows: seq<Row>, acls: seq<Row>, ctx: Context): nat {
    if rows == [] then 0 else SqlBags.AclCount(rows[0], acls, ctx) + Total(rows[1..], acls, ctx)
  }

  lemma {:induction false} JoinLength(rows: seq<Row>, acls: seq<Row>, ref: string, aref: string, quals: Option<Expr>,
                                      ctx: Context)
    requires Guards(quals, ref, aref, ctx)
    ensures |Matched(Bind(ref, rows), Bind(aref, acls), quals, ctx)| == Total(rows, acls, ctx)
  {
    if rows != [] {
      var x: Env, ys := map[ref := rows[0]], Bind(aref, acls);
      JoinLength(rows[1..], acls, ref, aref, quals, ctx);
      PairsCopies(rows[0], acls, ref, aref, quals, ctx);
      SeenLength(Pairs(x, ys, quals, ctx), [ref]);
      CopiesLength(SqlBags.AclCount(rows[0], acls, ctx), x);
      hide Guards, Pairs;
      BindSplit(ref, rows);
    }
  }

  /** The total exceeds the number of permitted rows as soon as one row is granted twice. */
  lemma {:induction false} TotalAbove(rows: seq<Row>, acls: seq<Row>, ctx: Context)
    ensures Total(rows, acls, ctx) >= |PermittedRows(rows, acls, ctx)|
    ensures Total(rows, acls, ctx) == |PermittedRows(rows, acls, ctx)| ==>
              forall row | row in rows :: SqlBags.AclCount(row, acls, ctx) <= 1
  {
    if rows != [] {
      TotalAbove(rows[1..], acls, ctx);
      SqlBags.AclCountPositive(rows[0], acls, ctx);
      assert forall row :: row in rows <==> row == rows[0] || row in rows[1..];
    }
  }

  lemma IdQueryPlain(name: string, tracked: set<string>)
    ensures ScopedQuery(IdQuery(name)) && ClashFree(IdQuery(name), tracked)
  {
    var from := [Table(name, None)];
    assert from[1..] == [];
    assert |AclName(name)| == |name| + 8;
    assert RefsOf(from) == [name];
  }

  lemma IdQueryLength(name: string, f: FromItem, db: Database, ctx: Context)
    ensures |EvalQuery(Select(IdQuery(name).targets, [f], None), db, ctx)| == |EvalFrom(f, db, ctx)|
  {
    var from := [f];
    assert from[1..] == [];
    assert EvalFroms([], db, ctx) == [map[]];
    UnitProduct(EvalFrom(f, db, ctx), ctx);
    ProjectLength(IdQuery(name).targets, EvalFroms(from, db, ctx), ctx);
  }

  lemma IdQueryExactSingle(name: string, tracked: set<string>, db: Database, ctx: Context)
    requires name in tracked && name in db
    requires |EvalQuery(AclQuery(IdQuery(name), tracked), db, ctx)|
             == |EvalQuery(IdQuery(name), RestrictDb(db, tracked, ctx), ctx)|
    ensures forall row | row in db[name] :: SqlBags.AclCount(row, Rows(db, AclName(name)), ctx) <= 1
  {
    var f := Table(name, None);
    var acls, quals := Rows(db, AclName(name)), Some(AclQuals(name));
    assert AclFroms([f], tracked) == [AclFrom(f, tracked)] by { assert [f][1..] == []; }
    IdQueryLength(name, AclFrom(f, tracked), db, ctx);
    IdQueryLength(name, f, RestrictDb(db, tracked, ctx), ctx);
    AclQualsGuard(name, ctx);
    JoinLength(db[name], acls, name, AclName(name), quals, ctx);
    SqlBags.InnerIsMatched(f, Table(AclName(name), None), quals, db, ctx);
    TotalAbove(db[name], acls, ctx);
  }

  /** The rewrite of a query gives every row as often as the query over the permitted rows. */
  ghost predicate BagExact(q: Query, tracked: set<string>, db: Database, ctx: Context) {
    multiset(EvalQuery(AclQuery(q, tracked), db, ctx)) == multiset(EvalQuery(q, RestrictDb(db, tracked, ctx), ctx))
  }

  lemma BagExactLength(q: Query, tracked: set<string>, db: Database, ctx: Context)
    requires BagExact(q, tracked, db, ctx)
    ensures |EvalQuery(AclQuery(q, tracked), db, ctx)| == |EvalQuery(q, RestrictDb(db, tracked, ctx), ctx)|
  {
    var ts', ts := EvalQuery(AclQuery(q, tracked), db, ctx), EvalQuery(q, RestrictDb(db, tracked, ctx), ctx);
    assert |multiset(ts')| == |ts'| && |multiset(ts)| == |ts|;
  }

  /** The rewrite is exact as a bag for every query of the fragment if and only if no row of a
      tracked table is granted to the user more than once. */
  lemma BagExactIff(tracked: set<string>, db: Database, ctx: Context)
    ensures (forall q: Query | ScopedQuery(q) && ClashFree(q, tracked) :: BagExact(q, tracked, db, ctx))
            <==> SingleGrants(tracked, db, ctx)
  {
    if forall q: Query | ScopedQuery(q) && ClashFree(q, tracked) :: BagExact(q, tracked, db, ctx) {
      forall name, row | name in tracked && name in db && row in db[name]
        ensures SqlBags.AclCount(row, Rows(db, AclName(name)), ctx) <= 1
      {
        IdQueryPlain(name, tracked);
        BagExactLength(IdQuery(name), tracked, db, ctx);
        IdQueryExactSingle(name, tracked, db, ctx);
      }
    }
    if SingleGrants(tracked, db, ctx) {
      forall q: Query | ScopedQuery(q) && ClashFree(q, tracked) ensures BagExact(q, tracked, db, ctx) {
        QueryExact(q, tracked, db, ctx);
      }
    }
  }

  // ---------- set operations that drop duplicates ----------

  lemma {:induction false} DedupOnce(ts: seq<Tuple>, t: Tuple)
    ensures multiset(Dedup(ts))[t] == if t in ts then 1 else 0
  {
    if ts != [] {
      var rest := Dedup(ts[1..]);
      DedupOnce(ts[1..], t);
      assert ts == [ts[0]] + ts[1..];
      if ts[0] !in ts[1..] {
        assert multiset([ts[0]] + rest) == multiset{ts[0]} + multiset(rest);
      }
    }
  }

  lemma CombinedOnce(op: SetOp, ts: seq<Tuple>, us: seq<Tuple>, t: Tuple)
    requires !op.UnionAll?
    ensures multiset(CombineTuples(op, ts, us))[t] == if t in CombineTuples(op, ts, us) then 1 else 0
  {
    var all := match op case Union => ts + us case Intersect => Keep(ts, us, true) case _ => Keep(ts, us, false);
    DedupOnce(all, t);
    InDedup(t, all);
  }

  /** UNION, INTERSECT and EXCEPT keep each row once, so a query made with one of them is exact as a
      bag however often its rows are granted. */
  lemma SetOpExact(q: Query, tracked: set<string>, db: Database, ctx: Context)
    requires ScopedQuery(q) && ClashFree(q, tracked) && q.Combine? && !q.op.UnionAll?
    ensures BagExact(q, tracked, db, ctx)
  {
    hide ScopedQuery, ClashFree, CombineTuples;
    var rdb := RestrictDb(db, tracked, ctx);
    var ts', us' := EvalQuery(AclQuery(q.larg, tracked), db, ctx), EvalQuery(AclQuery(q.rarg, tracked), db, ctx);
    var ts, us := EvalQuery(q.larg, rdb, ctx), EvalQuery(q.rarg, rdb, ctx);
    assert AclQuery(q, tracked) == Combine(q.op, AclQuery(q.larg, tracked), AclQuery(q.rarg, tracked));
    assert EvalQuery(AclQuery(q, tracked), db, ctx) == CombineTuples(q.op, ts', us');
    assert EvalQuery(q, rdb, ctx) == CombineTuples(q.op, ts, us);
    QuerySame(q, tracked, db, ctx);
    forall t ensures multiset(CombineTuples(q.op, ts', us'))[t] == multiset(CombineTuples(q.op, ts, us))[t] {
      CombinedOnce(q.op, ts', us', t);
      CombinedOnce(q.op, ts, us, t);
    }
  }
}
