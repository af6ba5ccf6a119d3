/**
 The inserted references and tables: when a well-scoped query stays well scoped, and which
 relations the rewritten query needs.
 */
module SqlScope {
  import opened Sql
  import opened SqlAcl

  lemma DistinctConcat(a: seq<string>, b: seq<string>)
    ensures Distinct(a + b) <==> Distinct(a) && Distinct(b) && forall r | r in a :: r !in b
  {
    if Distinct(a + b) { DistinctParts(a, b); }
    if Distinct(a) && Distinct(b) && forall r | r in a :: r !in b {
      var s := a + b;
      forall i, j | 0 <= i < j < |s| ensures s[i] != s[j] {
        if i < |a| { assert s[i] == a[i] && a[i] in a; }
        if |a| <= j { assert s[j] == b[j - |a|] && b[j - |a|] in b; }
      }
    }
  }

  lemma AclNameInjective(s: string, t: string)
    ensures AclName(s) == AclName(t) ==> s == t
  {
    if AclName(s) == AclName(t) {
      assert |AclName(s)| == |s| + 8 && |AclName(t)| == |t| + 8;
      assert s == AclName(s)[..|s|] == AclName(t)[..|t|] == t;
    }
  }

  /** a and b are the visible references of two FROM items, s and t their tracked ones. */
  lemma SidesApartIff(a': seq<string>, b': seq<string>, a: seq<string>, b: seq<string>, s: seq<string>, t: seq<string>)
    requires forall r :: r in a' <==> r in a || exists n :: n in s && r == AclName(n)
    requires forall r :: r in b' <==> r in b || exists n :: n in t && r == AclName(n)
    requires (forall r | r in s :: r in a) && (forall r | r in t :: r in b)
    ensures (forall r | r in a' :: r !in b') && NoClash(s, a) && NoClash(t, b)
            <==> (forall r | r in a :: r !in b) && NoClash(s + t, a + b)
  {
    if (forall r | r in a' :: r !in b') && NoClash(s, a) && NoClash(t, b) {
      forall n | n in s + t ensures AclName(n) !in a + b {
        if n in s { assert AclName(n) in a'; } else { assert AclName(n) in b'; }
      }
    }
    if (forall r | r in a :: r !in b) && NoClash(s + t, a + b) {
      NoClashParts(s, t, a, b);
      assert NoClash(s, b) by {
        forall n | n in s ensures AclName(n) !in b { assert n in s + t; assert AclName(n) !in a + b; }
      }
      assert NoClash(t, a) by {
        forall n | n in t ensures AclName(n) !in a { assert n in s + t; assert AclName(n) !in a + b; }
      }
      forall r | r in a' ensures r !in b' {
        forall m, n | m in s && n in t ensures AclName(m) != AclName(n) { AclNameInjective(m, n); }
      }
    }
  }

  lemma {:induction false} DistinctFrom(f: FromItem, tracked: set<string>)
    ensures Distinct(Refs(AclFrom(f, tracked))) <==> Distinct(Refs(f)) && NoClash(TrackedRefs(f, tracked), Refs(f))
  {
    match f
    case Table(name, alias) =>
      var ref := RefName(name, alias);
      assert |AclName(ref)| == |ref| + 8;
      assert RefName(AclName(name), AclAlias(alias)) == AclName(ref);
    case Subselect(_, _) =>
    case Join(_, l, r, _) =>
      var l', r' := AclFrom(l, tracked), AclFrom(r, tracked);
      DistinctFrom(l, tracked);
      DistinctFrom(r, tracked);
      DistinctConcat(Refs(l'), Refs(r'));
      DistinctConcat(Refs(l), Refs(r));
      AclRefs(l, tracked);
      AclRefs(r, tracked);
      SidesApartIff(Refs(l'), Refs(r'), Refs(l), Refs(r), TrackedRefs(l, tracked), TrackedRefs(r, tracked));
  }

  lemma {:induction false} DistinctFroms(fs: seq<FromItem>, tracked: set<string>)
    ensures Distinct(RefsOf(AclFroms(fs, tracked))) <==>
            Distinct(RefsOf(fs)) && NoClash(TrackedRefsOf(fs, tracked), RefsOf(fs))
  {
    if fs != [] {
      var f, rest := fs[0], fs[1..];
      var f', rest' := AclFrom(f, tracked), AclFroms(rest, tracked);
      assert AclFroms(fs, tracked)[0] == f' && AclFroms(fs, tracked)[1..] == rest';
      DistinctFrom(f, tracked);
      DistinctFroms(rest, tracked);
      DistinctConcat(Refs(f'), RefsOf(rest'));
      DistinctConcat(Refs(f), RefsOf(rest));
      AclRefs(f, tracked);
      AclRefsOf(rest, tracked);
      SidesApartIff(Refs(f'), RefsOf(rest'), Refs(f), RefsOf(rest), TrackedRefs(f, tracked),
                    TrackedRefsOf(rest, tracked));
    }
  }

  lemma {:induction false} ScopedMore(e: Expr, refs: seq<string>, more: seq<string>)
    requires ScopedExpr(e, refs) && forall r | r in refs :: r in more
    ensures ScopedExpr(e, more)
    decreases e, 1
  {
    match e
    case Col(_, _) =>
    case Const(_) =>
    case CurrentUser =>
    case Eq(l, r) => ScopedMore(l, refs, more); ScopedMore(r, refs, more);
    case And(args) => ScopedAllMore(args, refs, more);
    case Call(_, args) => ScopedAllMore(args, refs, more);
  }

  lemma {:induction false} ScopedAllMore(es: seq<Expr>, refs: seq<string>, more: seq<string>)
    requires ScopedExprs(es, refs) && forall r | r in refs :: r in more
    ensures ScopedExprs(es, more)
    decreases es, 0
  {
    if es != [] {
      ScopedMore(es[0], refs, more);
      ScopedAllMore(es[1..], refs, more);
    }
  }

  /** Capture-freedom of the inserted condition: it names the two references the inserted join
      binds, and nothing else. */
  lemma AclQualsScoped(ref: string, refs: seq<string>)
    ensures ScopedExpr(AclQuals(ref), refs) <==> ref in refs && AclName(ref) in refs
  {
    var aref := AclName(ref);
    var a, b, c := Eq(Col(ref, "id"), Col(aref, "_id")), Eq(Col(aref, "_principal"), CurrentUser),
      Eq(Col(aref, "_operation"), Const(Text("SELECT")));
    assert AclQuals(ref) == And([a, b, c]);
    ThreeScoped(a, b, c, refs);
    EqScoped(Col(ref, "id"), Col(aref, "_id"), refs);
    EqScoped(Col(aref, "_principal"), CurrentUser, refs);
    EqScoped(Col(aref, "_operation"), Const(Text("SELECT")), refs);
  }

  lemma EqScoped(l: Expr, r: Expr, refs: seq<string>)
    ensures ScopedExpr(Eq(l, r), refs) <==> ScopedExpr(l, refs) && ScopedExpr(r, refs)
  {
  }

  lemma ThreeScoped(a: Expr, b: Expr, c: Expr, refs: seq<string>)
    ensures ScopedExpr(And([a, b, c]), refs) <==> ScopedExpr(a, refs) && ScopedExpr(b, refs) && ScopedExpr(c, refs)
  {
    assert [a, b, c][1..] == [b, c] && [b, c][1..] == [c] && [c][1..] == [];
    assert ScopedExprs([c], refs) == ScopedExpr(c, refs);
    assert ScopedExprs([b, c], refs) == (ScopedExpr(b, refs) && ScopedExprs([c], refs));
    assert ScopedExprs([a, b, c], refs) == (ScopedExpr(a, refs) && ScopedExprs([b, c], refs));
  }

  lemma {:induction false} ScopedFromIff(f: FromItem, tracked: set<string>)
    requires ScopedFrom(f)
    ensures ScopedFrom(AclFrom(f, tracked)) <==> ClashFreeFrom(f, tracked)
    decreases f, 1
  {
    match f
    case Table(name, alias) =>
      if name in tracked {
        var ref := RefName(name, alias);
        assert Refs(AclFrom(f, tracked)) == [ref, AclName(ref)];
        AclQualsScoped(ref, Refs(AclFrom(f, tracked)));
      }
    case Subselect(q, _) => ScopedIff(q, tracked);
    case Join(_, l, r, quals) =>
      ScopedFromIff(l, tracked);
      ScopedFromIff(r, tracked);
      AclRefs(f, tracked);
      if quals.Some? { ScopedMore(quals.value, Refs(f), Refs(AclFrom(f, tracked))); }
  }

  lemma {:induction false} ScopedFromsIff(fs: seq<FromItem>, tracked: set<string>)
    requires ScopedFroms(fs)
    ensures ScopedFroms(AclFroms(fs, tracked)) <==> ClashFreeFroms(fs, tracked)
    decreases fs, 0
  {
    if fs != [] {
      ScopedFromIff(fs[0], tracked);
      ScopedFromsIff(fs[1..], tracked);
      assert AclFroms(fs, tracked)[1..] == AclFroms(fs[1..], tracked);
    }
  }

  /** The rewrite of a well-scoped query is well scoped exactly when no tracked reference has its
      access reference already taken by another item of the same FROM clause. */
  lemma {:induction false} ScopedIff(q: Query, tracked: set<string>)
    requires ScopedQuery(q)
    ensures ScopedQuery(AclQuery(q, tracked)) <==> ClashFree(q, tracked)
    decreases q, 1
  {
    match q
    case Combine(_, l, r) =>
      ScopedIff(l, tracked);
      ScopedIff(r, tracked);
    case Select(targets, from, filter) =>
      ScopedFromsIff(from, tracked);
      DistinctFroms(from, tracked);
      AclRefsOf(from, tracked);
      var more := RefsOf(AclFroms(from, tracked));
      if filter.Some? { ScopedMore(filter.value, RefsOf(from), more); }
      forall i | 0 <= i < |targets| ensures ScopedExpr(targets[i].expr, more) {
        ScopedMore(targets[i].expr, RefsOf(from), more);
      }
  }

  // ---------- relations a query needs ----------

  function FromTables(f: FromItem): set<string>
    decreases f, 1
  {
    match f
    case Table(name, _) => {name}
    case Join(_, l, r, _) => FromTables(l) + FromTables(r)
    case Subselect(q, _) => Tables(q)
  }

  function FromsTables(fs: seq<FromItem>): set<string>
    decreases fs, 0
  {
    if fs == [] then {} else FromTables(fs[0]) + FromsTables(fs[1..])
  }

  function Tables(q: Query): set<string>
    decreases q, 1
  {
    match q
    case Select(_, from, _) => FromsTables(from)
    case Combine(_, l, r) => Tables(l) + Tables(r)
  }

  function WithViews(names: set<string>, tracked: set<string>): set<string> {
    names + set n | n in names && n in tracked :: AclName(n)
  }

  lemma {:induction false} FromTablesAcl(f: FromItem, tracked: set<string>)
    ensures FromTables(AclFrom(f, tracked)) == WithViews(FromTables(f), tracked)
    decreases f, 1
  {
    match f
    case Table(_, _) =>
    case Subselect(q, _) => TablesAcl(q, tracked);
    case Join(_, l, r, _) =>
      FromTablesAcl(l, tracked);
      FromTablesAcl(r, tracked);
  }

  lemma {:induction false} FromsTablesAcl(fs: seq<FromItem>, tracked: set<string>)
    ensures FromsTables(AclFroms(fs, tracked)) == WithViews(FromsTables(fs), tracked)
    decreases fs, 0
  {
    if fs != [] {
      FromTablesAcl(fs[0], tracked);
      FromsTablesAcl(fs[1..], tracked);
      assert AclFroms(fs, tracked)[1..] == AclFroms(fs[1..], tracked);
    }
  }

  /** The rewritten query reads the original tables and one access view for each tracked table,
      nothing else: it resolves just when the original does and those views exist, that is when
      ENABLE ACCESS CONTROL was given for every tracked table of the query. */
  lemma {:induction false} TablesAcl(q: Query, tracked: set<string>)
    ensures Tables(AclQuery(q, tracked)) == WithViews(Tables(q), tracked)
    decreases q, 1
  {
    match q
    case Select(_, from, _) => FromsTablesAcl(from, tracked);
    case Combine(_, l, r) =>
      TablesAcl(l, tracked);
      TablesAcl(r, tracked);
  }
}
