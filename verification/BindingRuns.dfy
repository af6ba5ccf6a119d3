/**
 Whole runs of the role bindings: where each binding comes from, and what revokes it for good.
 */
module BindingRuns {
  import opened RoleBindings

  predicate Runnable(db: Db, steps: seq<Step>)
    decreases |steps|
  {
    steps == [] || (Enabled(db, steps[0]) && Runnable(Do(db, steps[0]).db, steps[1..]))
  }

  /** The database after the first n steps. */
  function At(db: Db, steps: seq<Step>, n: nat): Db
    requires Runnable(db, steps) && n <= |steps|
    decreases n
  {
    if n == 0 then db else At(Do(db, steps[0]).db, steps[1..], n - 1)
  }

  /** What the BINDs among them granted, by the refs they drew. */
  function LogAt(db: Db, log: Log, steps: seq<Step>, n: nat): Log
    requires Runnable(db, steps) && n <= |steps|
    decreases n
  {
    if n == 0 then log else LogAt(Do(db, steps[0]).db, Logged(db, log, steps[0]), steps[1..], n - 1)
  }

  lemma {:induction false} AtStep(db: Db, log: Log, steps: seq<Step>, n: nat)
    requires Runnable(db, steps) && n < |steps|
    ensures Enabled(At(db, steps, n), steps[n])
    ensures At(db, steps, n + 1) == Do(At(db, steps, n), steps[n]).db
    ensures LogAt(db, log, steps, n + 1) == Logged(At(db, steps, n), LogAt(db, log, steps, n), steps[n])
    decreases n
  {
    hide Do, Logged, Enabled;
    if n > 0 {
      AtStep(Do(db, steps[0]).db, Logged(db, log, steps[0]), steps[1..], n - 1);
      assert steps[1..][n - 1] == steps[n];
    }
  }

  /** A run starts with no tables, roles or bindings. */
  ghost predicate Run(steps: seq<Step>) {
    Runnable(EMPTY, steps)
  }

  ghost function After(steps: seq<Step>, n: nat): Db
    requires Run(steps) && n <= |steps|
  {
    At(EMPTY, steps, n)
  }

  ghost function LogAfter(steps: seq<Step>, n: nat): Log
    requires Run(steps) && n <= |steps|
  {
    LogAt(EMPTY, map[], steps, n)
  }

  ghost function Final(steps: seq<Step>): Db
    requires Run(steps)
  {
    After(steps, |steps|)
  }

  lemma Next(steps: seq<Step>, n: nat)
    requires Run(steps) && n < |steps|
    ensures Enabled(After(steps, n), steps[n])
    ensures After(steps, n + 1) == Do(After(steps, n), steps[n]).db
    ensures LogAfter(steps, n + 1) == Logged(After(steps, n), LogAfter(steps, n), steps[n])
  {
    AtStep(EMPTY, map[], steps, n);
  }

  lemma {:induction false} RunGood(steps: seq<Step>, n: nat)
    requires Run(steps) && n <= |steps|
    ensures Good(After(steps, n), LogAfter(steps, n))
  {
    if n > 0 {
      RunGood(steps, n - 1);
      Next(steps, n - 1);
      hide Good, After, LogAfter, Do, Logged;
      StepGood(After(steps, n - 1), LogAfter(steps, n - 1), steps[n - 1]);
    }
  }

  // ---------- the BIND behind a ref ----------

  /** Step i is the BIND that drew the ref, and it succeeded. */
  ghost predicate Draws(steps: seq<Step>, i: nat, r: Ref)
    requires Run(steps)
  {
    && i < |steps| && steps[i].BindRole? && After(steps, i).nextRef == r
    && Enabled(After(steps, i), steps[i]) && Do(After(steps, i), steps[i]).ok
  }

  /** Step i is the BIND that drew the ref and granted this. */
  ghost predicate BindOf(steps: seq<Step>, i: nat, r: Ref, bound: Bound)
    requires Run(steps)
  {
    && Draws(steps, i, r) && steps[i].role == bound.role && steps[i].principal == bound.principal
    && steps[i].table == bound.row.table && steps[i].target == One(bound.row.id)
  }

  /** Refs are drawn once; what their BIND granted stays on record. */
  lemma {:induction false} LogStays(steps: seq<Step>, m: nat, n: nat, r: Ref)
    requires Run(steps) && m <= n <= |steps| && r in LogAfter(steps, m)
    ensures r in LogAfter(steps, n) && LogAfter(steps, n)[r] == LogAfter(steps, m)[r]
    decreases n
  {
    if m < n {
      LogStays(steps, m, n - 1, r);
      RunGood(steps, n - 1);
      Next(steps, n - 1);
    }
  }

  lemma DrawnIsLogged(steps: seq<Step>, i: nat, r: Ref, n: nat)
    requires Run(steps) && Draws(steps, i, r) && i < n <= |steps|
    ensures r in LogAfter(steps, n) && BindOf(steps, i, r, LogAfter(steps, n)[r])
  {
    Next(steps, i);
    LogStays(steps, i + 1, n, r);
  }

  lemma {:induction false} LoggedByBind(steps: seq<Step>, n: nat, r: Ref)
    requires Run(steps) && n <= |steps| && r in LogAfter(steps, n)
    ensures exists i: nat :: i < n && BindOf(steps, i, r, LogAfter(steps, n)[r])
  {
    if n > 0 {
      Next(steps, n - 1);
      if r in LogAfter(steps, n - 1) {
        LoggedByBind(steps, n - 1, r);
        LogStays(steps, n - 1, n, r);
      } else {
        assert BindOf(steps, n - 1, r, LogAfter(steps, n)[r]);
      }
    }
  }

  // ---------- the way a binding came ----------

  /** A BIND, then upserts of one row after another. */
  datatype Path = Made(bind: nat) | Inherited(upsert: nat, parent: Key, rest: Path)

  function BindStep(p: Path): nat {
    match p
    case Made(i) => i
    case Inherited(_, _, rest) => BindStep(rest)
  }

  /** A successful upsert of the binding's row, whose parent under the binding's inheritance is the
      row of the parent binding, with the same ref. Another row's binding was there before; the row's
      own may have come with the upsert itself. */
  ghost predicate Copies(db: Db, step: Step, k: Key, parent: Key) {
    && step.Upsert? && step.row == RowId(k.table, k.id) && Enabled(db, step) && Do(db, step).ok
    && k.inh in step.order && k.inh in step.parents && step.parents[k.inh] == One(parent.id)
    && k.inh in db.inhs && db.inhs[k.inh].src == parent.table && parent.ref == k.ref
    && (RowId(parent.table, parent.id) != step.row ==> parent in db.bindings)
  }

  /** Within the first n steps the path leads from a BIND on some row to the binding, each upsert no
      earlier than the one before it. */
  ghost predicate Leads(steps: seq<Step>, p: Path, k: Key, n: nat)
    requires Run(steps)
    decreases p
  {
    match p
    case Made(i) =>
      i < n && Draws(steps, i, k.ref) && k.inh == OWN && steps[i].table == k.table && steps[i].target == One(k.id)
    case Inherited(i, parent, rest) =>
      i < n && i < |steps| && Copies(After(steps, i), steps[i], k, parent) && Leads(steps, rest, parent, i + 1)
  }

  ghost predicate Traced(steps: seq<Step>, k: Key, n: nat)
    requires Run(steps)
  {
    exists p :: Leads(steps, p, k, n)
  }

  lemma TracedLonger(steps: seq<Step>, k: Key, m: nat, n: nat)
    requires Run(steps) && Traced(steps, k, m) && m <= n
    ensures Traced(steps, k, n)
  {
    var p :| Leads(steps, p, k, m);
    assert Leads(steps, p, k, n);
  }

  ghost predicate AllTraced(steps: seq<Step>, b: Bindings, n: nat)
    requires Run(steps)
  {
    forall k | k in b :: Traced(steps, k, n)
  }

  /** What an upsert has done so far has left the bindings of other rows as they were. */
  predicate ElsewhereFrom(b: Bindings, db: Db, row: RowId) {
    forall k | k in b && RowId(k.table, k.id) != row :: k in db.bindings
  }

  lemma MergeTraced(steps: seq<Step>, i: nat, b: Bindings, h: Inh, survivors: set<Key>, now: int)
    requires Run(steps) && i < |steps| && AllTraced(steps, b, i + 1)
    requires steps[i].Upsert? && ElsewhereFrom(b, After(steps, i), steps[i].row)
    requires var db, step := After(steps, i), steps[i];
             && step.Upsert? && Enabled(db, step) && Do(db, step).ok
             && h in step.order && h in step.parents && h in db.inhs
             && step.parents[h].One? && DistinctRefs(b, RowId(db.inhs[h].src, step.parents[h].id))
    ensures var parent := RowId(After(steps, i).inhs[h].src, steps[i].parents[h].id);
            var b' := Merge(b, steps[i].row, h, GrantsOf(b, parent), survivors, now);
            AllTraced(steps, b', i + 1) && ElsewhereFrom(b', After(steps, i), steps[i].row)
  {
    hide Do, Draws, Leads, After, Traced, DistinctRefs, KeyWith;
    var row, parent := steps[i].row, RowId(After(steps, i).inhs[h].src, steps[i].parents[h].id);
    var grants := GrantsOf(b, parent);
    forall k | k in Merge(b, row, h, grants, survivors, now) ensures Traced(steps, k, i + 1) {
      if k !in b { CopyTraced(steps, i, k, KeyWith(b, parent, k.ref)); }
    }
  }

  lemma CopyTraced(steps: seq<Step>, i: nat, k: Key, parent: Key)
    requires Run(steps) && i < |steps| && Copies(After(steps, i), steps[i], k, parent) && Traced(steps, parent, i + 1)
    ensures Traced(steps, k, i + 1)
  {
    hide Copies, Draws;
    var p :| Leads(steps, p, parent, i + 1);
    assert Leads(steps, Inherited(i, parent, p), k, i + 1);
  }

  lemma {:induction false} InheritAllTraced(steps: seq<Step>, i: nat, b: Bindings, order: seq<Inh>)
    requires Run(steps) && i < |steps| && AllTraced(steps, b, i + 1)
    requires steps[i].Upsert? && Enabled(After(steps, i), steps[i]) && Do(After(steps, i), steps[i]).ok
    requires ElsewhereFrom(b, After(steps, i), steps[i].row)
    requires forall h | h in order :: h in steps[i].order && h in After(steps, i).inhs && h in steps[i].parents
    ensures var r := InheritAll(b, After(steps, i), steps[i].row, order, steps[i].parents, steps[i].survivors,
                                steps[i].now);
            r.Some? ==> AllTraced(steps, r.value, i + 1)
    decreases |order|
  {
    hide AllTraced, Do, Merge, After, Enabled, ElsewhereFrom;
    if order != [] {
      var db, step, h := After(steps, i), steps[i], order[0];
      assert h in order && forall g | g in order[1..] :: g in order;
      var r := InheritOne(b, db.enabled, step.row, h, db.inhs[h].src, step.parents[h], step.survivors, step.now);
      if r.Some? {
        if step.parents[h].One? { MergeTraced(steps, i, b, h, step.survivors, step.now); }
        InheritAllTraced(steps, i, r.value, order[1..]);
      }
    }
  }

  /** A binding that a statement other than an upsert adds is the one a BIND makes. */
  lemma OnlyBindAdds(db: Db, step: Step, k: Key)
    requires Enabled(db, step) && !step.Upsert? && k in Do(db, step).db.bindings && k !in db.bindings
    ensures step.BindRole? && Do(db, step).ok && step.target == One(k.id)
    ensures k == Key(step.table, k.id, OWN, db.nextRef)
  {
  }

  lemma UpsertTraced(steps: seq<Step>, i: nat)
    requires Run(steps) && i < |steps| && AllTraced(steps, After(steps, i).bindings, i + 1)
    requires steps[i].Upsert? && Enabled(After(steps, i), steps[i])
    ensures AllTraced(steps, Do(After(steps, i), steps[i]).db.bindings, i + 1)
  {
    var db, step := After(steps, i), steps[i];
    hide After, AllTraced, InheritAll;
    if step.row.table in db.enabled && Do(db, step).ok {
      assert forall h | h in step.order :: h in db.inhs && h in step.parents;
      InheritAllTraced(steps, i, db.bindings, step.order);
    }
  }

  lemma StepTraced(steps: seq<Step>, n: nat)
    requires Run(steps) && n < |steps| && AllTraced(steps, After(steps, n).bindings, n)
    ensures AllTraced(steps, After(steps, n + 1).bindings, n + 1)
  {
    Next(steps, n);
    var db, step := After(steps, n), steps[n];
    var db' := After(steps, n + 1);
    hide After, Do, Enabled, Traced;
    forall k | k in db.bindings ensures Traced(steps, k, n + 1) { TracedLonger(steps, k, n, n + 1); }
    if step.Upsert? {
      UpsertTraced(steps, n);
    } else {
      forall k | k in db'.bindings ensures Traced(steps, k, n + 1) {
        if k !in db.bindings {
          OnlyBindAdds(db, step, k);
          MadeTraced(steps, n, k);
        }
      }
    }
  }

  lemma MadeTraced(steps: seq<Step>, i: nat, k: Key)
    requires Run(steps) && Draws(steps, i, k.ref) && k.inh == OWN && steps[i].table == k.table
             && steps[i].target == One(k.id)
    ensures Traced(steps, k, i + 1)
  {
    assert Leads(steps, Made(i), k, i + 1);
  }

  /** Every binding of every run came along such a path. */
  lemma {:induction false} RunTraced(steps: seq<Step>, n: nat)
    requires Run(steps) && n <= |steps|
    ensures AllTraced(steps, After(steps, n).bindings, n)
  {
    if n > 0 {
      RunTraced(steps, n - 1);
      StepTraced(steps, n - 1);
    }
  }

  lemma {:induction false} PathDraws(steps: seq<Step>, p: Path, k: Key, n: nat)
    requires Run(steps) && Leads(steps, p, k, n)
    ensures Draws(steps, BindStep(p), k.ref) && BindStep(p) < n
    decreases p
  {
    hide Draws;
    match p
    case Made(_) =>
    case Inherited(i, parent, rest) => PathDraws(steps, rest, parent, i + 1);
  }

  /** On every run a binding in any table at any depth came along a path of upserts from one
      successful BIND, which drew its ref and granted its very role to its very principal; so
      bindings with the same ref agree, and renewing the time stamp alone never leaves a wrong
      grant. */
  lemma EveryBindingWasBound(steps: seq<Step>, k: Key) returns (p: Path, bound: Bound)
    requires Run(steps) && k in Final(steps).bindings
    ensures Leads(steps, p, k, |steps|) && BindOf(steps, BindStep(p), k.ref, bound)
    ensures k.ref in Final(steps).refs && Final(steps).refs[k.ref] == bound.row
    ensures forall l | l in Final(steps).bindings && l.ref == k.ref ::
              Final(steps).bindings[l].role == bound.role && Final(steps).bindings[l].principal == bound.principal
  {
    var n := |steps|;
    var db, log := After(steps, n), LogAfter(steps, n);
    RunTraced(steps, n);
    p :| Leads(steps, p, k, n);
    PathDraws(steps, p, k, n);
    DrawnIsLogged(steps, BindStep(p), k.ref, n);
    bound := log[k.ref];
    RunGood(steps, n);
    assert BindingGood(k, db.bindings[k], db, log);
    forall l | l in db.bindings && l.ref == k.ref
      ensures db.bindings[l].role == bound.role && db.bindings[l].principal == bound.principal
    {
      assert BindingGood(l, db.bindings[l], db, log);
    }
  }

  // ---------- revocation ----------

  /** Between the BIND that drew the ref and step n, the row was deleted. */
  ghost predicate DeletedSince(steps: seq<Step>, i: nat, row: RowId, n: nat) {
    exists d :: i < d < n && d < |steps| && steps[d] == DeleteRow(row)
  }

  lemma DeletedSinceStep(steps: seq<Step>, i: nat, row: RowId, n: nat)
    requires i < n < |steps|
    ensures DeletedSince(steps, i, row, n + 1) <==> DeletedSince(steps, i, row, n) || steps[n] == DeleteRow(row)
  {
    if d :| i < d < n + 1 && d < |steps| && steps[d] == DeleteRow(row) {
      assert d == n || d < n;
    }
  }

  /** A ref's own binding is still there exactly when the row was not deleted since its BIND. */
  lemma {:induction false} RootedIff(steps: seq<Step>, i: nat, r: Ref, n: nat)
    requires Run(steps) && Draws(steps, i, r) && i < n <= |steps| && r in After(steps, n).refs
    ensures var db := After(steps, n);
            OwnKey(db.refs, r) in db.bindings <==> !DeletedSince(steps, i, db.refs[r], n)
    decreases n
  {
    Next(steps, n - 1);
    if n == i + 1 {
      DrawnIsRooted(After(steps, i), steps[i], r);
    } else {
      hide After, LogAfter, Do, DeletedSince, Draws, Good;
      var db := After(steps, n - 1);
      RunGood(steps, n - 1);
      DrawnBefore(steps, i, r, n - 1);
      NextRefGrows(db, steps[n - 1], r);
      RootedIff(steps, i, r, n - 1);
      RootsStay(db, LogAfter(steps, n - 1), steps[n - 1], r);
      DeletedSinceStep(steps, i, db.refs[r], n - 1);
    }
  }

  lemma DrawnIsRooted(db: Db, step: Step, r: Ref)
    requires step.BindRole? && db.nextRef == r && Do(db, step).ok
    ensures var db' := Do(db, step).db; r in db'.refs && OwnKey(db'.refs, r) in db'.bindings
  {
  }

  lemma DrawnBefore(steps: seq<Step>, i: nat, r: Ref, n: nat)
    requires Run(steps) && Draws(steps, i, r) && i < n <= |steps|
    ensures r < After(steps, n).nextRef
  {
    Next(steps, i);
    NextRefStays(steps, i + 1, n, r);
  }

  /** On every run a copy of what was bound on a row stays after UNBIND if and only if the row was
      deleted after the BIND that drew the copy's ref. */
  lemma CopyStaysIff(steps: seq<Step>, step: Step, k: Key, i: nat)
    requires Run(steps) && Draws(steps, i, k.ref)
    requires step.UnbindRole? && step.table in Final(steps).enabled && step.target.One?
    requires CopyOf(k, Final(steps), RowId(step.table, step.target.id), step.role, step.principal)
    ensures CopyOf(k, Do(Final(steps), step).db, RowId(step.table, step.target.id), step.role, step.principal)
            <==> DeletedSince(steps, i, RowId(step.table, step.target.id), |steps|)
  {
    var n := |steps|;
    hide After, LogAfter, Do, Good, DeletedSince;
    RunGood(steps, n);
    UnbindLeavesIff(After(steps, n), LogAfter(steps, n), step, k);
    RootedIff(steps, i, k.ref, n);
  }

  /** As long as the row is not deleted, UNBIND revokes what was bound on it everywhere. */
  lemma UnbindRevokesEverywhere(steps: seq<Step>, step: Step, k: Key)
    requires Run(steps) && step.UnbindRole? && step.table in Final(steps).enabled && step.target.One?
    requires DeleteRow(RowId(step.table, step.target.id)) !in steps
    ensures !CopyOf(k, Do(Final(steps), step).db, RowId(step.table, step.target.id), step.role, step.principal)
  {
    var n, row := |steps|, RowId(step.table, step.target.id);
    RunGood(steps, n);
    UnbindLeavesIff(After(steps, n), LogAfter(steps, n), step, k);
    if CopyOf(k, Final(steps), row, step.role, step.principal) {
      var p, _ := EveryBindingWasBound(steps, k);
      CopyStaysIff(steps, step, k, BindStep(p));
    }
  }

  /** A successful UNBIND of just this role and principal on just this row. */
  ghost predicate UnbindOf(steps: seq<Step>, j: nat, bound: Bound)
    requires Run(steps)
  {
    && j < |steps| && steps[j].UnbindRole? && Enabled(After(steps, j), steps[j]) && Do(After(steps, j), steps[j]).ok
    && steps[j].role == bound.role && steps[j].principal == bound.principal
    && steps[j].table == bound.row.table && steps[j].target == One(bound.row.id)
  }

  /** A ref once drawn and gone does not come back. */
  lemma {:induction false} RefsNeverReturn(steps: seq<Step>, m: nat, n: nat, r: Ref)
    requires Run(steps) && m <= n <= |steps| && r < After(steps, m).nextRef && r in After(steps, n).refs
    ensures r in After(steps, m).refs && r < After(steps, n).nextRef
    decreases n - m
  {
    if m < n {
      Next(steps, m);
      NextRefGrows(After(steps, m), steps[m], r);
      hide After, Do;
      RefsNeverReturn(steps, m + 1, n, r);
    }
  }

  lemma NextRefGrows(db: Db, step: Step, r: Ref)
    requires Enabled(db, step) && r < db.nextRef
    ensures r < Do(db, step).db.nextRef && (r in Do(db, step).db.refs ==> r in db.refs)
  {
  }

  /** UNBIND takes the ref of every such BIND before it, unless the row was deleted in between. */
  lemma UnbindTakesRef(steps: seq<Step>, i: nat, j: nat, r: Ref, bound: Bound)
    requires Run(steps) && i < j < |steps| && BindOf(steps, i, r, bound) && UnbindOf(steps, j, bound)
    requires !DeletedSince(steps, i, bound.row, j)
    ensures r !in After(steps, j + 1).refs
  {
    var db, log, step := After(steps, j), LogAfter(steps, j), steps[j];
    Next(steps, j);
    DrawnIsLogged(steps, i, r, j);
    RunGood(steps, j);
    if r in db.refs {
      RootedIff(steps, i, r, j);
      TakesRooted(db, log, step, r);
    }
  }

  lemma TakesRooted(db: Db, log: Log, step: Step, r: Ref)
    requires Good(db, log) && r in db.refs && OwnKey(db.refs, r) in db.bindings && step.UnbindRole? && Do(db, step).ok
    requires step.role == log[r].role && step.principal == log[r].principal
    requires step.table == log[r].row.table && step.target == One(log[r].row.id)
    ensures r !in Do(db, step).db.refs
  {
    var own := OwnKey(db.refs, r);
    assert BindingGood(own, db.bindings[own], db, log);
    OwnRefsChosen(db.bindings, log[r].row, step.role, step.principal, r);
  }

  /** On every run the BIND behind any binding, wherever it was inherited to, comes after the last
      successful UNBIND of its role and principal on its row, unless the row was deleted between the
      BIND and that UNBIND. */
  lemma BoundSinceLastUnbind(steps: seq<Step>, k: Key, i: nat, bound: Bound, j: nat)
    requires Run(steps) && k in Final(steps).bindings
    requires BindOf(steps, i, k.ref, bound) && UnbindOf(steps, j, bound)
    ensures j < i || DeletedSince(steps, i, bound.row, j)
  {
    var n := |steps|;
    RunGood(steps, n);
    assert BindingGood(k, Final(steps).bindings[k], Final(steps), LogAfter(steps, n));
    if i < j && !DeletedSince(steps, i, bound.row, j) {
      DrawnBefore(steps, i, k.ref, j + 1);
      UnbindTakesRef(steps, i, j, k.ref, bound);
      RefsNeverReturn(steps, j + 1, n, k.ref);
    }
  }

  lemma {:induction false} NextRefStays(steps: seq<Step>, m: nat, n: nat, r: Ref)
    requires Run(steps) && m <= n <= |steps| && r < After(steps, m).nextRef
    ensures r < After(steps, n).nextRef
    decreases n - m
  {
    if m < n {
      Next(steps, m);
      NextRefGrows(After(steps, m), steps[m], r);
      hide After, Do;
      NextRefStays(steps, m + 1, n, r);
    }
  }
}
