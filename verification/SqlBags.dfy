/**
 How often a FROM-level row occurs after the rewrite. The inserted join repeats a row once
 for each matching access row, so the rewrite is exact as a bag only where grants are single.
 */
module SqlBags {
  import opened Results
  import opened Sql
  import opened SqlAcl

  /** The product, by repeated addition. */
  function Times(m: nat, n: nat): nat {
    if m == 0 then 0 else Times(m - 1, n) + n
  }

  lemma {:induction false} TimesIsProduct(m: nat, n: nat)
    ensures Times(m, n) == m * n
  {
    if m > 0 { TimesIsProduct(m - 1, n); }
  }

  /** FROM items built from tables with inner joins only. */
  predicate InnerOnly(f: FromItem) {
    match f
    case Table(_, _) => true
    case Join(kind, l, r, _) => kind.Inner? && InnerOnly(l) && InnerOnly(r)
    case Subselect(_, _) => false
  }

  /** Occurrences of z, seen through refs. */
  function Count(z: Env, xs: seq<Env>, refs: seq<string>): nat {
    if xs == [] then 0 else (if Only(xs[0], refs) == z then 1 else 0) + Count(z, xs[1..], refs)
  }

  function AclCount(row: Row, acls: seq<Row>, ctx: Context): nat {
    if acls == [] then 0 else (if Grants(row, acls[0], ctx) then 1 else 0) + AclCount(row, acls[1..], ctx)
  }

  /** The product, over the tracked tables of f, of the access rows matching z's row there. */
  function Weight(f: FromItem, z: Env, tracked: set<string>, db: Database, ctx: Context): nat
    requires f.Subselect? || z.Keys == Names(Refs(f))
    requires InnerOnly(f)
  {
    match f
    case Table(name, alias) =>
      if name in tracked then AclCount(z[RefName(name, alias)], Rows(db, AclName(name)), ctx) else 1
    case Join(_, l, r, _) =>
      Times(Weight(l, Only(z, Refs(l)), tracked, db, ctx), Weight(r, Only(z, Refs(r)), tracked, db, ctx))
  }

  function RowCount(row: Row, rows: seq<Row>): nat {
    if rows == [] then 0 else (if rows[0] == row then 1 else 0) + RowCount(row, rows[1..])
  }

  // ---------- counting through a join ----------

  lemma {:induction false} CountConcat(z: Env, xs: seq<Env>, ys: seq<Env>, refs: seq<string>)
    ensures Count(z, xs + ys, refs) == Count(z, xs, refs) + Count(z, ys, refs)
  {
    if xs == [] {
      assert xs + ys == ys;
    } else {
      assert (xs + ys)[1..] == xs[1..] + ys;
      CountConcat(z, xs[1..], ys, refs);
    }
  }

  ghost predicate Apart(a': seq<string>, b': seq<string>, a: seq<string>, b: seq<string>) {
    && (forall r | r in a :: r in a' && r !in b')
    && (forall r | r in b :: r in b' && r !in a')
  }

  lemma SumIs(z: Env, x: Env, y: Env, a: seq<string>, b: seq<string>)
    requires z.Keys == Names(a + b)
    requires x.Keys == Names(a) && y.Keys == Names(b)
    requires forall r | r in a :: r !in b
    ensures x + y == z <==> x == Only(z, a) && y == Only(z, b)
  {
    if x + y == z {
      assert Only(z, a) == x;
      assert Only(z, b) == y;
    }
    assert Only(z, a) + Only(z, b) == z;
  }

  /** What one pair adds to a join. */
  function Pair(x: Env, y: Env, quals: Option<Expr>, ctx: Context): seq<Env> {
    if Meets(quals, x + y, ctx) then [x + y] else []
  }

  lemma PairCounted(z: Env, x': Env, y': Env, a': seq<string>, b': seq<string>,
                    a: seq<string>, b: seq<string>, quals: Option<Expr>, ctx: Context)
    requires z.Keys == Names(a + b)
    requires x'.Keys == Names(a') && y'.Keys == Names(b') && Apart(a', b', a, b) && ScopedQuals(quals, a + b)
    ensures Count(z, Pair(x', y', quals, ctx), a + b) ==
            if Meets(quals, z, ctx) && Only(x', a) == Only(z, a) && Only(y', b) == Only(z, b) then 1 else 0
  {
    MeetsSum(quals, x', y', a', b', a, b, ctx);
    SumIs(z, Only(x', a), Only(y', b), a, b);
    hide Meets, ScopedQuals, Only, Apart;
    assert [x' + y'][1..] == [];
  }

  lemma {:induction false} CountPairs(z: Env, x': Env, ys': seq<Env>, a': seq<string>, b': seq<string>,
                                      a: seq<string>, b: seq<string>, quals: Option<Expr>, ctx: Context)
    requires z.Keys == Names(a + b)
    requires x'.Keys == Names(a') && Bound(ys', b') && Apart(a', b', a, b) && ScopedQuals(quals, a + b)
    ensures Count(z, Pairs(x', ys', quals, ctx), a + b) ==
            if Meets(quals, z, ctx) && Only(x', a) == Only(z, a) then Count(Only(z, b), ys', b) else 0
  {
    if ys' != [] {
      var y' := ys'[0];
      BoundSplit(ys', b');
      hide Bound, Names;
      PairCounted(z, x', y', a', b', a, b, quals, ctx);
      CountPairs(z, x', ys'[1..], a', b', a, b, quals, ctx);
      hide Meets, ScopedQuals, Only, Apart;
      CountConcat(z, Pair(x', y', quals, ctx), Pairs(x', ys'[1..], quals, ctx), a + b);
    }
  }

  lemma CountMatchedStep(z: Env, xs: seq<Env>, ys: seq<Env>, a: seq<string>, b: seq<string>, quals: Option<Expr>,
                         ctx: Context)
    requires xs != []
    requires Count(z, Pairs(xs[0], ys, quals, ctx), a + b) ==
             if Meets(quals, z, ctx) && Only(xs[0], a) == Only(z, a) then Count(Only(z, b), ys, b) else 0
    requires Count(z, Matched(xs[1..], ys, quals, ctx), a + b) ==
             if Meets(quals, z, ctx) then Times(Count(Only(z, a), xs[1..], a), Count(Only(z, b), ys, b)) else 0
    ensures Count(z, Matched(xs, ys, quals, ctx), a + b) ==
            if Meets(quals, z, ctx) then Times(Count(Only(z, a), xs, a), Count(Only(z, b), ys, b)) else 0
  {
    hide Meets, Only, Pairs, Matched;
    var m, n := Count(Only(z, a), xs[1..], a), Count(Only(z, b), ys, b);
    assert Count(Only(z, a), xs, a) == (if Only(xs[0], a) == Only(z, a) then 1 else 0) + m;
    assert Times(1 + m, n) == Times(m, n) + n;
    hide Count, Times;
    MatchedStep(z, xs, ys, quals, a + b, ctx);
  }

  lemma {:induction false} CountMatched(z: Env, xs': seq<Env>, ys': seq<Env>, a': seq<string>, b': seq<string>,
                                        a: seq<string>, b: seq<string>, quals: Option<Expr>, ctx: Context)
    requires z.Keys == Names(a + b)
    requires Bound(xs', a') && Bound(ys', b') && Apart(a', b', a, b) && ScopedQuals(quals, a + b)
    ensures Count(z, Matched(xs', ys', quals, ctx), a + b) ==
            if Meets(quals, z, ctx) then Times(Count(Only(z, a), xs', a), Count(Only(z, b), ys', b)) else 0
  {
    hide Meets, Only, ScopedQuals, Apart, Pairs, Names;
    if xs' != [] {
      BoundSplit(xs', a');
      hide Bound;
      CountPairs(z, xs'[0], ys', a', b', a, b, quals, ctx);
      CountMatched(z, xs'[1..], ys', a', b', a, b, quals, ctx);
      CountMatchedStep(z, xs', ys', a, b, quals, ctx);
    }
  }

  // ---------- the inserted join ----------

  lemma {:induction false} CountRows(row: Row, rows: seq<Row>, ref: string)
    ensures Count(map[ref := row], Bind(ref, rows), [ref]) == RowCount(row, rows)
  {
    if rows != [] {
      BindSplit(ref, rows);
      CountRows(row, rows[1..], ref);
      var x: Env := map[ref := rows[0]];
      assert Only(x, [ref]) == x && x[ref] == rows[0];
      assert x == map[ref := row] <==> rows[0] == row;
    }
  }

  lemma {:induction false} CountInsertedPairs(row: Row, r0: Row, acls: seq<Row>, ref: string, aref: string,
                                              quals: Option<Expr>, ctx: Context)
    requires Guards(quals, ref, aref, ctx)
    ensures Count(map[ref := row], Pairs(map[ref := r0], Bind(aref, acls), quals, ctx), [ref]) ==
            if r0 == row then AclCount(row, acls, ctx) else 0
  {
    if acls != [] {
      var z: Env, x: Env, y: Env := map[ref := row], map[ref := r0], map[aref := acls[0]];
      CountInsertedPairs(row, r0, acls[1..], ref, aref, quals, ctx);
      assert Meets(quals, x + y, ctx) <==> Grants(r0, acls[0], ctx);
      OnlyRow(ref, aref, r0, acls[0]);
      assert x == z <==> r0 == row by { assert x[ref] == r0 && z[ref] == row; }
      hide Meets, Grants, Guards, Only;
      BindSplit(aref, acls);
      var head := if Meets(quals, x + y, ctx) then [x + y] else [];
      CountConcat(z, head, Pairs(x, Bind(aref, acls[1..]), quals, ctx), [ref]);
    }
  }

  lemma {:induction false} CountInserted(row: Row, rows: seq<Row>, acls: seq<Row>, ref: string, aref: string,
                                         quals: Option<Expr>, ctx: Context)
    requires Guards(quals, ref, aref, ctx)
    ensures Count(map[ref := row], Matched(Bind(ref, rows), Bind(aref, acls), quals, ctx), [ref]) ==
            Times(RowCount(row, rows), AclCount(row, acls, ctx))
  {
    hide Pairs, AclCount, Guards;
    if rows != [] {
      var z: Env, x: Env, ys := map[ref := row], map[ref := rows[0]], Bind(aref, acls);
      CountInserted(row, rows[1..], acls, ref, aref, quals, ctx);
      CountInsertedPairs(row, rows[0], acls, ref, aref, quals, ctx);
      var xs := Bind(ref, rows);
      BindSplit(ref, rows);
      MatchedStep(z, xs, ys, quals, [ref], ctx);
    }
  }

  lemma MatchedStep(z: Env, xs: seq<Env>, ys: seq<Env>, quals: Option<Expr>, refs: seq<string>, ctx: Context)
    requires xs != []
    ensures Count(z, Matched(xs, ys, quals, ctx), refs) ==
            Count(z, Pairs(xs[0], ys, quals, ctx), refs) + Count(z, Matched(xs[1..], ys, quals, ctx), refs)
  {
    CountConcat(z, Pairs(xs[0], ys, quals, ctx), Matched(xs[1..], ys, quals, ctx), refs);
  }

  lemma {:induction false} AclCountPositive(row: Row, acls: seq<Row>, ctx: Context)
    ensures AclCount(row, acls, ctx) > 0 <==> Permitted(row, acls, ctx)
  {
    if acls != [] {
      AclCountPositive(row, acls[1..], ctx);
      assert acls == [acls[0]] + acls[1..];
    }
  }

  lemma {:induction false} RowCountPositive(row: Row, rows: seq<Row>)
    ensures RowCount(row, rows) > 0 <==> row in rows
  {
    if rows != [] { RowCountPositive(row, rows[1..]); }
  }

  lemma {:induction false} CountPermitted(row: Row, rows: seq<Row>, acls: seq<Row>, ctx: Context)
    ensures RowCount(row, PermittedRows(rows, acls, ctx)) ==
            if Permitted(row, acls, ctx) then RowCount(row, rows) else 0
  {
    if rows != [] {
      CountPermitted(row, rows[1..], acls, ctx);
      var rest := PermittedRows(rows[1..], acls, ctx);
      assert ([rows[0]] + rest)[1..] == rest && [] + rest == rest;
    }
  }

  // ---------- multiplicity ----------

  /** What the rewrite does to the number of occurrences of z, and what the permitted rows give. */
  ghost predicate Multiplied(f: FromItem, z: Env, tracked: set<string>, db: Database, ctx: Context)
    requires InnerOnly(f) && z.Keys == Names(Refs(f))
  {
    var n, w := Count(z, EvalFrom(f, db, ctx), Refs(f)), Weight(f, z, tracked, db, ctx);
    && Count(z, EvalFrom(AclFrom(f, tracked), db, ctx), Refs(f)) == Times(n, w)
    && Count(z, EvalFrom(f, RestrictDb(db, tracked, ctx), ctx), Refs(f)) == if w > 0 then n else 0
  }

  lemma TableMultiplied(name: string, alias: Option<string>, row: Row, tracked: set<string>, db: Database, ctx: Context)
    ensures Multiplied(Table(name, alias), map[RefName(name, alias) := row], tracked, db, ctx)
  {
    var ref := RefName(name, alias);
    var rows, acls := Rows(db, name), Rows(db, AclName(name));
    CountRows(row, rows, ref);
    if name in tracked {
      AclQualsGuard(ref, ctx);
      assert RefName(AclName(name), AclAlias(alias)) == AclName(ref);
      InnerIsMatched(Table(name, alias), Table(AclName(name), AclAlias(alias)), Some(AclQuals(ref)), db, ctx);
      CountInserted(row, rows, acls, ref, AclName(ref), Some(AclQuals(ref)), ctx);
      CountPermitted(row, rows, acls, ctx);
      AclCountPositive(row, acls, ctx);
      CountRows(row, PermittedRows(rows, acls, ctx), ref);
    } else {
      UntrackedSame(name, alias, tracked, db, ctx);
      TimesIsProduct(RowCount(row, rows), 1);
    }
  }

  lemma RegroupProducts(m: int, v: int, n: int, w: int)
    ensures (m * v) * (n * w) == (m * n) * (v * w)
  {
  }

  lemma Regroup(m: nat, v: nat, n: nat, w: nat)
    ensures Times(Times(m, v), Times(n, w)) == Times(Times(m, n), Times(v, w))
  {
    var mv, nw, mn, vw := Times(m, v), Times(n, w), Times(m, n), Times(v, w);
    TimesIsProduct(m, v); TimesIsProduct(n, w); TimesIsProduct(m, n); TimesIsProduct(v, w);
    TimesIsProduct(mv, nw); TimesIsProduct(mn, vw);
    RegroupProducts(m, v, n, w);
  }

  lemma {:induction false} TimesSign(v: nat, w: nat)
    ensures Times(v, w) > 0 <==> v > 0 && w > 0
    ensures v <= 1 && w <= 1 ==> Times(v, w) <= 1
    ensures v > 0 ==> Times(v, w) >= w
  {
    if v > 0 { TimesSign(v - 1, w); }
  }

  lemma JoinCount(l: FromItem, r: FromItem, a: seq<string>, b: seq<string>, quals: Option<Expr>, z: Env, db: Database,
                  ctx: Context)
    requires Apart(Refs(l), Refs(r), a, b) && ScopedQuals(quals, a + b) && z.Keys == Names(a + b)
    ensures Count(z, EvalFrom(Join(Inner, l, r, quals), db, ctx), a + b) ==
            if Meets(quals, z, ctx)
            then Times(Count(Only(z, a), EvalFrom(l, db, ctx), a), Count(Only(z, b), EvalFrom(r, db, ctx), b))
            else 0
  {
    FromBound(l, db, ctx);
    FromBound(r, db, ctx);
    CountMatched(z, EvalFrom(l, db, ctx), EvalFrom(r, db, ctx), Refs(l), Refs(r), a, b, quals, ctx);
    InnerIsMatched(l, r, quals, db, ctx);
  }

  /** The three counts of a join follow from those of its sides. */
  lemma JoinCounts(l: FromItem, r: FromItem, quals: Option<Expr>, z: Env, tracked: set<string>, db: Database,
                   ctx: Context)
    requires ScopedQuals(quals, Refs(l) + Refs(r)) && z.Keys == Names(Refs(l) + Refs(r))
    requires forall n | n in Refs(l) :: n !in Refs(r)
    requires NoClash(TrackedRefs(l, tracked) + TrackedRefs(r, tracked), Refs(l) + Refs(r))
    ensures var f, rdb := Join(Inner, l, r, quals), RestrictDb(db, tracked, ctx);
            var x, y, meets := Only(z, Refs(l)), Only(z, Refs(r)), Meets(quals, z, ctx);
            && Count(z, EvalFrom(AclFrom(f, tracked), db, ctx), Refs(f)) ==
               (if meets then Times(Count(x, EvalFrom(AclFrom(l, tracked), db, ctx), Refs(l)),
                                    Count(y, EvalFrom(AclFrom(r, tracked), db, ctx), Refs(r))) else 0)
            && Count(z, EvalFrom(f, db, ctx), Refs(f)) ==
               (if meets then Times(Count(x, EvalFrom(l, db, ctx), Refs(l)),
                                    Count(y, EvalFrom(r, db, ctx), Refs(r))) else 0)
            && Count(z, EvalFrom(f, rdb, ctx), Refs(f)) ==
               (if meets then Times(Count(x, EvalFrom(l, rdb, ctx), Refs(l)),
                                    Count(y, EvalFrom(r, rdb, ctx), Refs(r))) else 0)
  {
    SidesStayApart(l, r, tracked);
    JoinCount(AclFrom(l, tracked), AclFrom(r, tracked), Refs(l), Refs(r), quals, z, db, ctx);
    JoinCount(l, r, Refs(l), Refs(r), quals, z, db, ctx);
    JoinCount(l, r, Refs(l), Refs(r), quals, z, RestrictDb(db, tracked, ctx), ctx);
  }

  lemma JoinMultiplied(l: FromItem, r: FromItem, quals: Option<Expr>, z: Env, tracked: set<string>, db: Database,
                       ctx: Context)
    requires InnerOnly(l) && InnerOnly(r) && ScopedQuals(quals, Refs(l) + Refs(r))
    requires z.Keys == Names(Refs(l) + Refs(r))
    requires forall n | n in Refs(l) :: n !in Refs(r)
    requires NoClash(TrackedRefs(l, tracked) + TrackedRefs(r, tracked), Refs(l) + Refs(r))
    requires Multiplied(l, Only(z, Refs(l)), tracked, db, ctx) && Multiplied(r, Only(z, Refs(r)), tracked, db, ctx)
    ensures Multiplied(Join(Inner, l, r, quals), z, tracked, db, ctx)
  {
    var x, y := Only(z, Refs(l)), Only(z, Refs(r));
    assert x.Keys == Names(Refs(l)) && y.Keys == Names(Refs(r));
    hide Meets, Only, ScopedQuals, Times, Count, EvalFrom, AclFrom, NoClash;
    JoinCounts(l, r, quals, z, tracked, db, ctx);
    JoinNumbers(Meets(quals, z, ctx),
                Count(x, EvalFrom(l, db, ctx), Refs(l)), Weight(l, x, tracked, db, ctx),
                Count(y, EvalFrom(r, db, ctx), Refs(r)), Weight(r, y, tracked, db, ctx));
  }

  lemma JoinNumbers(meets: bool, m: nat, v: nat, n: nat, w: nat)
    ensures var here := if meets then Times(m, n) else 0;
            && (if meets then Times(Times(m, v), Times(n, w)) else 0) == Times(here, Times(v, w))
            && (if meets then Times(if v > 0 then m else 0, if w > 0 then n else 0) else 0) ==
               if Times(v, w) > 0 then here else 0
  {
    Regroup(m, v, n, w);
    TimesSign(v, w);
    TimesIsProduct(m, 0);
  }

  lemma InnerIsMatched(l: FromItem, r: FromItem, quals: Option<Expr>, db: Database, ctx: Context)
    ensures EvalFrom(Join(Inner, l, r, quals), db, ctx)
            == Matched(EvalFrom(l, db, ctx), EvalFrom(r, db, ctx), quals, ctx)
  {
  }

  /** A FROM-level row of the rewritten query occurs with its original multiplicity times the
      product, over its tracked tables, of the matching access rows: permitted rows never vanish
      and unpermitted rows never appear. */
  lemma {:induction false} RowsMultiplied(f: FromItem, z: Env, tracked: set<string>, db: Database, ctx: Context)
    requires InnerOnly(f) && ScopedFrom(f) && Distinct(Refs(f)) && NoClash(TrackedRefs(f, tracked), Refs(f))
    requires z.Keys == Names(Refs(f))
    ensures Multiplied(f, z, tracked, db, ctx)
  {
    match f
    case Table(name, alias) =>
      var ref := RefName(name, alias);
      assert z == map[ref := z[ref]];
      TableMultiplied(name, alias, z[ref], tracked, db, ctx);
    case Join(_, l, r, quals) =>
      DistinctParts(Refs(l), Refs(r));
      NoClashParts(TrackedRefs(l, tracked), TrackedRefs(r, tracked), Refs(l), Refs(r));
      RowsMultiplied(l, Only(z, Refs(l)), tracked, db, ctx);
      RowsMultiplied(r, Only(z, Refs(r)), tracked, db, ctx);
      JoinMultiplied(l, r, quals, z, tracked, db, ctx);
  }

  // ---------- FROM lists ----------

  predicate AllInner(fs: seq<FromItem>) {
    forall i | 0 <= i < |fs| :: InnerOnly(fs[i])
  }

  /** The product of the items' weights: over all tracked tables of the FROM list. */
  function WeightOf(fs: seq<FromItem>, z: Env, tracked: set<string>, db: Database, ctx: Context): nat
    requires AllInner(fs) && z.Keys == Names(RefsOf(fs))
  {
    if fs == [] then 1
    else
      Times(Weight(fs[0], Only(z, Refs(fs[0])), tracked, db, ctx),
            WeightOf(fs[1..], Only(z, RefsOf(fs[1..])), tracked, db, ctx))
  }

  /** Multiplied, for a FROM list. */
  ghost predicate ListMultiplied(fs: seq<FromItem>, z: Env, tracked: set<string>, db: Database, ctx: Context)
    requires AllInner(fs) && z.Keys == Names(RefsOf(fs))
  {
    var n, w := Count(z, EvalFroms(fs, db, ctx), RefsOf(fs)), WeightOf(fs, z, tracked, db, ctx);
    && Count(z, EvalFroms(AclFroms(fs, tracked), db, ctx), RefsOf(fs)) == Times(n, w)
    && Count(z, EvalFroms(fs, RestrictDb(db, tracked, ctx), ctx), RefsOf(fs)) == if w > 0 then n else 0
  }

  /** How often a row occurs in a FROM list, seen through references a and b of its two parts. */
  lemma ListCount(fs: seq<FromItem>, a: seq<string>, b: seq<string>, z: Env, db: Database, ctx: Context)
    requires fs != [] && Apart(Refs(fs[0]), RefsOf(fs[1..]), a, b) && z.Keys == Names(a + b)
    ensures Count(z, EvalFroms(fs, db, ctx), a + b) ==
            Times(Count(Only(z, a), EvalFrom(fs[0], db, ctx), a), Count(Only(z, b), EvalFroms(fs[1..], db, ctx), b))
  {
    FromBound(fs[0], db, ctx);
    FromsBound(fs[1..], db, ctx);
    CountMatched(z, EvalFrom(fs[0], db, ctx), EvalFroms(fs[1..], db, ctx), Refs(fs[0]), RefsOf(fs[1..]), a, b, None,
                 ctx);
  }

  lemma ListStep(fs: seq<FromItem>, z: Env, tracked: set<string>, db: Database, ctx: Context)
    requires fs != [] && AllInner(fs) && z.Keys == Names(RefsOf(fs))
    requires forall n | n in Refs(fs[0]) :: n !in RefsOf(fs[1..])
    requires NoClash(TrackedRefsOf(fs, tracked), RefsOf(fs))
    requires Multiplied(fs[0], Only(z, Refs(fs[0])), tracked, db, ctx)
    requires ListMultiplied(fs[1..], Only(z, RefsOf(fs[1..])), tracked, db, ctx)
    ensures ListMultiplied(fs, z, tracked, db, ctx)
  {
    var f, rest := fs[0], fs[1..];
    var x, y := Only(z, Refs(f)), Only(z, RefsOf(rest));
    var fs' := AclFroms(fs, tracked);
    assert fs'[0] == AclFrom(f, tracked) && fs'[1..] == AclFroms(rest, tracked);
    assert x.Keys == Names(Refs(f)) && y.Keys == Names(RefsOf(rest));
    hide Only, Times, Count, EvalFrom, EvalFroms, AclFrom, AclFroms, NoClash, Weight;
    RestStaysApart(f, rest, tracked);
    ListCount(fs', Refs(f), RefsOf(rest), z, db, ctx);
    ListCount(fs, Refs(f), RefsOf(rest), z, db, ctx);
    ListCount(fs, Refs(f), RefsOf(rest), z, RestrictDb(db, tracked, ctx), ctx);
    JoinNumbers(true, Count(x, EvalFrom(f, db, ctx), Refs(f)), Weight(f, x, tracked, db, ctx),
                Count(y, EvalFroms(rest, db, ctx), RefsOf(rest)), WeightOf(rest, y, tracked, db, ctx));
  }

  /** A FROM-level row of a rewritten query occurs with its original multiplicity times the product,
      over all tracked tables of the FROM clause, of the matching access rows. */
  lemma {:induction false} FromsMultiplied(fs: seq<FromItem>, z: Env, tracked: set<string>, db: Database, ctx: Context)
    requires AllInner(fs) && ScopedFroms(fs) && Distinct(RefsOf(fs)) && NoClash(TrackedRefsOf(fs, tracked), RefsOf(fs))
    requires z.Keys == Names(RefsOf(fs))
    ensures ListMultiplied(fs, z, tracked, db, ctx)
  {
    if fs == [] {
      assert z == map[] && Only(map[], []) == map[];
      assert EvalFroms([], db, ctx)[1..] == [];
    } else {
      var f, rest := fs[0], fs[1..];
      DistinctParts(Refs(f), RefsOf(rest));
      NoClashParts(TrackedRefs(f, tracked), TrackedRefsOf(rest, tracked), Refs(f), RefsOf(rest));
      RowsMultiplied(f, Only(z, Refs(f)), tracked, db, ctx);
      FromsMultiplied(rest, Only(z, RefsOf(rest)), tracked, db, ctx);
      ListStep(fs, z, tracked, db, ctx);
    }
  }

  // ---------- a concrete input ----------

  lemma RoleApart(row: Row, acl: Row, role: Val, ctx: Context)
    requires Grants(row, acl, ctx)
    ensures Grants(row, acl["_role" := role], ctx)
  {
    assert |"_id"| == 3 && |"_role"| == 5 && |"_principal"| == 10 && |"_operation"| == 10;
  }

  lemma GrantedTwice(row: Row, acl: Row, acl': Row, ctx: Context)
    requires Grants(row, acl, ctx) && Grants(row, acl', ctx)
    ensures AclCount(row, [acl, acl'], ctx) == 2
  {
    assert [acl, acl'][1..] == [acl'] && [acl'][1..] == [];
    assert AclCount(row, [acl'], ctx) == 1;
  }

  /** Two roles that both allow SELECT make the user see the same document twice. */
  lemma TwoRolesDuplicate(ctx: Context)
    ensures var doc: Row := map["id" := Int(1)];
            var acl: Row := map["_id" := Int(1), "_principal" := Text(ctx.user), "_operation" := Text("SELECT")];
            var viewer, editor := acl["_role" := Text("viewer")], acl["_role" := Text("editor")];
            var db: Database := map["docs" := [doc], AclName("docs") := [viewer, editor]];
            var f := Table("docs", None);
            && Count(map["docs" := doc], EvalFrom(AclFrom(f, {"docs"}), db, ctx), ["docs"]) == 2
            && Count(map["docs" := doc], EvalFrom(f, RestrictDb(db, {"docs"}, ctx), ctx), ["docs"]) == 1
  {
    var doc: Row := map["id" := Int(1)];
    var acl: Row := map["_id" := Int(1), "_principal" := Text(ctx.user), "_operation" := Text("SELECT")];
    var viewer, editor := acl["_role" := Text("viewer")], acl["_role" := Text("editor")];
    assert |AclName("docs")| == 12;
    var db: Database := map["docs" := [doc], AclName("docs") := [viewer, editor]];
    TableMultiplied("docs", None, doc, {"docs"}, db, ctx);
    CountRows(doc, [doc], "docs");
    RoleApart(doc, acl, Text("viewer"), ctx);
    RoleApart(doc, acl, Text("editor"), ctx);
    GrantedTwice(doc, viewer, editor, ctx);
  }
}
