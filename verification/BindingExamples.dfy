/**
 Concrete runs: a row deletion that strands a copy beyond the reach of UNBIND, and a second upsert
 that takes away what the first had copied.
 */
module BindingExamples {
  import opened Results
  import opened RoleBindings
  import opened BindingRuns
  import BindingTrigger

  const ROOT: RowId := RowId("docs", 1)
  const LEAF: RowId := RowId("docs", 2)

  /** Row 1 inherits nothing. */
  const PUT_ROOT: Step := Upsert(ROOT, [], map[], {}, 0)

  /** Row 2 with row 1 as its parent; no conflicting row survives. */
  const PUT_LEAF: Step := Upsert(LEAF, [1], map[1 := One(1)], {}, 0)

  const BIND_ROOT: Step := BindRole("docs", "viewer", "tom", One(1), 0)

  const UNBIND_ROOT: Step := UnbindRole("docs", "viewer", "tom", One(1))

  const INTO_ITSELF: Inheritance := Inheritance("docs", "docs")

  const LINK: Step := CreateInheritance(INTO_ITSELF)

  /** What has happened before row 2 comes: row 1 is in the table and the role bound on it. */
  const START: seq<Step> := [Enable("docs"), CreateRole("viewer"), PUT_ROOT]
  const ONCE: seq<Step> := START + [BIND_ROOT] + [LINK]
  const TWICE: seq<Step> := START + [BIND_ROOT] + [BIND_ROOT] + [LINK]

  const STARTED: Db := Db({"docs"}, {ROOT}, {"viewer"}, map[], 1, map[], 1, map[])

  const VIEWER: Grant := Grant("viewer", "tom", 0)

  const BOUND_ONCE: Db :=
    Db({"docs"}, {ROOT}, {"viewer"}, map[1 := INTO_ITSELF], 2, map[1 := ROOT], 2, map[Key("docs", 1, OWN, 1) := VIEWER])

  const BOUND_TWICE: Db :=
    Db({"docs"}, {ROOT}, {"viewer"}, map[1 := INTO_ITSELF], 2, map[1 := ROOT, 2 := ROOT], 3,
       map[Key("docs", 1, OWN, 1) := VIEWER, Key("docs", 1, OWN, 2) := VIEWER])

  /** The steps can be taken from db and lead to end. */
  ghost predicate Reaches(db: Db, steps: seq<Step>, end: Db) {
    Runnable(db, steps) && At(db, steps, |steps|) == end
  }

  lemma {:induction false} Then(db: Db, steps: seq<Step>, mid: Db, step: Step)
    requires Reaches(db, steps, mid) && Enabled(mid, step)
    ensures Reaches(db, steps + [step], Do(mid, step).db)
    ensures At(db, steps + [step], |steps|) == mid
    decreases |steps|
  {
    if steps == [] {
      assert [] + [step] == [step] && [step][1..] == [];
    } else {
      assert (steps + [step])[1..] == steps[1..] + [step];
      Then(Do(db, steps[0]).db, steps[1..], mid, step);
    }
  }

  lemma StartReached()
    ensures Reaches(EMPTY, START, STARTED)
  {
    var enabled := EMPTY.(enabled := {"docs"});
    assert Do(EMPTY, START[0]).db == enabled;
    assert Do(Do(enabled, START[1]).db, PUT_ROOT).db == STARTED;
    Then(EMPTY, [], EMPTY, START[0]);
    Then(EMPTY, [START[0]], enabled, START[1]);
    Then(EMPTY, [START[0], START[1]], Do(enabled, START[1]).db, PUT_ROOT);
    assert [] + [START[0]] == [START[0]] && [START[0]] + [START[1]] == [START[0], START[1]];
    assert [START[0], START[1]] + [PUT_ROOT] == START;
  }

  lemma BindDoes(db: Db)
    requires db.enabled == {"docs"} && db.rows == {ROOT} && db.roles == {"viewer"}
    ensures Do(db, BIND_ROOT).db == db.(nextRef := db.nextRef + 1, refs := db.refs[db.nextRef := ROOT],
                                        bindings := db.bindings[Key("docs", 1, OWN, db.nextRef) := VIEWER])
  {
  }

  lemma LinkDoes(db: Db)
    requires db.inhs == map[] && db.nextInh == 1
    ensures Do(db, LINK).db == db.(inhs := map[1 := INTO_ITSELF], nextInh := 2)
  {
  }

  lemma OnceReached()
    ensures Reaches(EMPTY, ONCE, BOUND_ONCE)
  {
    hide Reaches, Do;
    var bound := Do(STARTED, BIND_ROOT).db;
    StartReached();
    BindDoes(STARTED);
    LinkDoes(bound);
    Then(EMPTY, START, STARTED, BIND_ROOT);
    Then(EMPTY, START + [BIND_ROOT], bound, LINK);
  }

  lemma TwiceReached()
    ensures Reaches(EMPTY, TWICE, BOUND_TWICE)
  {
    hide Reaches, Do;
    var once := Do(STARTED, BIND_ROOT).db;
    var bound := Do(once, BIND_ROOT).db;
    StartReached();
    BindDoes(STARTED);
    BindDoes(once);
    LinkDoes(bound);
    Then(EMPTY, START, STARTED, BIND_ROOT);
    Then(EMPTY, START + [BIND_ROOT], once, BIND_ROOT);
    Then(EMPTY, START + [BIND_ROOT] + [BIND_ROOT], bound, LINK);
  }

  lemma OneInheritance(b: Bindings, db: Db)
    requires db.enabled == {"docs"} && db.inhs == map[1 := INTO_ITSELF] && DistinctRefs(b, ROOT)
    ensures InheritAll(b, db, LEAF, [1], map[1 := One(1)], {}, 0) == Some(Merge(b, LEAF, 1, GrantsOf(b, ROOT), {}, 0))
  {
    hide Merge, GrantsOf, DistinctRefs;
    var order: seq<Inh> := [1];
    assert order[1..] == [];
    assert InheritOne(b, db.enabled, LEAF, 1, "docs", One(1), {}, 0)
           == Some(Merge(b, LEAF, 1, GrantsOf(b, ROOT), {}, 0));
  }

  lemma PutLeafEnabled(db: Db)
    requires db.inhs == map[1 := INTO_ITSELF]
    ensures Enabled(db, PUT_LEAF)
  {
    assert forall h :: h in PUT_LEAF.order <==> h == 1;
  }

  /** An upsert of row 2 merges in the bindings of row 1. */
  lemma PutLeafMerges(db: Db)
    requires db.enabled == {"docs"} && db.inhs == map[1 := INTO_ITSELF] && DistinctRefs(db.bindings, ROOT)
    ensures Enabled(db, PUT_LEAF)
    ensures Do(db, PUT_LEAF).db ==
            db.(rows := db.rows + {LEAF}, bindings := Merge(db.bindings, LEAF, 1, GrantsOf(db.bindings, ROOT), {}, 0))
  {
    hide Merge, GrantsOf, DistinctRefs, InheritAll, Enabled;
    PutLeafEnabled(db);
    OneInheritance(db.bindings, db);
  }

  // ---------- a stranded copy ----------

  const COPY: Key := Key("docs", 2, 1, 1)

  lemma CopyMade(b: Bindings)
    requires b == BOUND_ONCE.bindings
    ensures DistinctRefs(b, ROOT)
    ensures var b' := Merge(b, LEAF, 1, GrantsOf(b, ROOT), {}, 0); COPY in b' && b'[COPY] == VIEWER
  {
    var own := Key("docs", 1, OWN, 1);
    assert own in KeysOf(b, ROOT);
    var grants := GrantsOf(b, ROOT);
    assert 1 in grants && COPY in CopyKeys(LEAF, 1, grants);
    assert Copied(COPY, LEAF, 1, grants);
    assert grants[1] == b[own];
  }

  const COPIED: seq<Step> := ONCE + [PUT_LEAF]

  lemma CopiedReached() returns (put: Db)
    ensures Reaches(EMPTY, COPIED, put) && put.refs == map[1 := ROOT]
    ensures COPY in put.bindings && put.bindings[COPY] == VIEWER
  {
    put := Do(BOUND_ONCE, PUT_LEAF).db;
    OnceReached();
    CopyMade(BOUND_ONCE.bindings);
    PutLeafMerges(BOUND_ONCE);
    hide Merge, Reaches, Do, Enabled;
    Then(EMPTY, ONCE, BOUND_ONCE, PUT_LEAF);
  }

  /** A run that ends with UNBIND on row 1 and leaves the copy of its binding on row 2. */
  lemma UnbindLeavesCopy()
    ensures var steps := COPIED + [DeleteRow(ROOT)] + [UNBIND_ROOT];
            Run(steps) && CopyOf(COPY, Final(steps), ROOT, "viewer", "tom")
  {
    var put := CopiedReached();
    RunGood(COPIED, |COPIED|);
    CopyOutlives(put, LogAfter(COPIED, |COPIED|));
    hide Do, CopyOf;
    Then(EMPTY, COPIED, put, DeleteRow(ROOT));
    Then(EMPTY, COPIED + [DeleteRow(ROOT)], Do(put, DeleteRow(ROOT)).db, UNBIND_ROOT);
  }

  lemma CopyOutlives(put: Db, log: Log)
    requires Good(put, log) && put.refs == map[1 := ROOT] && COPY in put.bindings && put.bindings[COPY] == VIEWER
    ensures CopyOf(COPY, Do(Do(put, DeleteRow(ROOT)).db, UNBIND_ROOT).db, ROOT, "viewer", "tom")
  {
    var deleted := Do(put, DeleteRow(ROOT)).db;
    var unbound := Do(deleted, UNBIND_ROOT).db;
    StepGood(put, log, DeleteRow(ROOT));
    StepGood(deleted, log, UNBIND_ROOT);
    DeletedRowStrandsCopies(put, log, ROOT, COPY, UNBIND_ROOT);
    assert BindingGood(COPY, unbound.bindings[COPY], unbound, log);
    RefsShrink(put, DeleteRow(ROOT));
    RefsShrink(deleted, UNBIND_ROOT);
  }

  lemma RefsShrink(db: Db, step: Step)
    requires step.DeleteRow? || step.UnbindRole?
    ensures forall r | r in Do(db, step).db.refs :: r in db.refs && Do(db, step).db.refs[r] == db.refs[r]
  {
  }

  // ---------- copies that a second upsert takes away ----------

  const AGAIN: seq<Step> := TWICE + [PUT_LEAF] + [PUT_LEAF]

  lemma RootKeys(b: Bindings)
    requires b == BOUND_TWICE.bindings
    ensures DistinctRefs(b, ROOT) && GrantsOf(b, ROOT).Keys == {1, 2}
    ensures forall r :: r !in BindingTrigger.RefsUnder(b, LEAF, 1)
  {
    var own1, own2 := Key("docs", 1, OWN, 1), Key("docs", 1, OWN, 2);
    assert b.Keys == {own1, own2};
    assert KeysOf(b, ROOT) == {own1, own2};
    hide KeysOf;
    assert own1.ref in GrantsOf(b, ROOT) && own2.ref in GrantsOf(b, ROOT);
  }

  /** The first upsert copies both bindings. */
  lemma MergedOnce(b: Bindings)
    requires DistinctRefs(b, ROOT) && GrantsOf(b, ROOT).Keys == {1, 2}
    requires forall r :: r !in BindingTrigger.RefsUnder(b, LEAF, 1)
    ensures var grants := GrantsOf(b, ROOT); var b' := Merge(b, LEAF, 1, grants, {}, 0);
            && BindingTrigger.RefsUnder(b', LEAF, 1) == {1, 2}
            && DistinctRefs(b', ROOT) && GrantsOf(b', ROOT) == grants
  {
    hide Merge, GrantsOf, DistinctRefs, BindingTrigger.RefsUnder, BindingTrigger.AgreeOutside, BindingTrigger.Several;
    var grants := GrantsOf(b, ROOT);
    var b' := Merge(b, LEAF, 1, grants, {}, 0);
    BindingTrigger.MergeOnly(b, LEAF, 1, grants, {}, 0);
    BindingTrigger.GrantsAgree(b, b', LEAF, {1}, ROOT);
    forall r ensures r in BindingTrigger.RefsUnder(b', LEAF, 1) <==> r in {1, 2} {
      BindingTrigger.RefsAfterMerge(b, LEAF, 1, grants, {}, 0, r);
      assert r in grants <==> r in {1, 2};
    }
  }

  /** In the second each displaces the other, and no conflicting row survives. */
  lemma MergedAgain(b: Bindings, grants: map<Ref, Grant>)
    requires BindingTrigger.RefsUnder(b, LEAF, 1) == grants.Keys == {1, 2}
    ensures BindingTrigger.RefsUnder(Merge(b, LEAF, 1, grants, {}, 0), LEAF, 1) == {}
  {
    assert 1 in grants && 2 in grants;
    assert BindingTrigger.Several(grants);
    hide Merge, BindingTrigger.RefsUnder, BindingTrigger.Several;
    forall r ensures r !in BindingTrigger.RefsUnder(Merge(b, LEAF, 1, grants, {}, 0), LEAF, 1) {
      BindingTrigger.RefsAfterMerge(b, LEAF, 1, grants, {}, 0, r);
      assert r in grants <==> r in BindingTrigger.RefsUnder(b, LEAF, 1);
    }
  }

  lemma AgainReached(put: Db)
    requires Enabled(BOUND_TWICE, PUT_LEAF) && put == Do(BOUND_TWICE, PUT_LEAF).db && Enabled(put, PUT_LEAF)
    ensures Run(AGAIN) && After(AGAIN, |AGAIN| - 1) == put && Final(AGAIN) == Do(put, PUT_LEAF).db
    ensures AGAIN[|AGAIN| - 1] == PUT_LEAF
  {
    hide Do, Enabled;
    var steps := TWICE + [PUT_LEAF];
    TwiceReached();
    Then(EMPTY, TWICE, BOUND_TWICE, PUT_LEAF);
    hide At, Runnable;
    Then(EMPTY, steps, put, PUT_LEAF);
    assert AGAIN == steps + [PUT_LEAF] && |AGAIN| - 1 == |steps|;
  }

  /** A run in which a row gets both bindings of its parent and loses both when it is upserted again,
      with its parent and the parent's bindings as they were. */
  lemma SecondUpsertTakesAway()
    ensures var n := |AGAIN| - 1;
            && Run(AGAIN) && AGAIN[n] == PUT_LEAF
            && DistinctRefs(After(AGAIN, n).bindings, ROOT) && GrantsOf(After(AGAIN, n).bindings, ROOT).Keys == {1, 2}
            && BindingTrigger.RefsUnder(After(AGAIN, n).bindings, LEAF, 1) == {1, 2}
            && BindingTrigger.RefsUnder(Final(AGAIN).bindings, LEAF, 1) == {}
  {
    hide Merge, GrantsOf, DistinctRefs, BindingTrigger.RefsUnder, After, Final, Run;
    var b := BOUND_TWICE.bindings;
    RootKeys(b);
    MergedOnce(b);
    PutLeafMerges(BOUND_TWICE);
    var put := Do(BOUND_TWICE, PUT_LEAF).db;
    hide Do, Enabled;
    PutLeafMerges(put);
    MergedAgain(put.bindings, GrantsOf(put.bindings, ROOT));
    AgainReached(put);
  }

  // ---------- a row that is its own parent ----------

  const TEAM: RowId := RowId("teams", 1)

  const PUT_TEAM: Step := Upsert(TEAM, [], map[], {}, 0)

  const BIND_TEAM: Step := BindRole("teams", "viewer", "tom", One(1), 0)

  const FROM_TEAMS: Step := CreateInheritance(Inheritance("teams", "docs"))

  /** Row 1 of docs is bound, and so is row 1 of teams; docs inherit from docs and from teams. */
  const BOTH: seq<Step> := SETUP + [BIND_ROOT] + [BIND_TEAM] + [LINK] + [FROM_TEAMS]

  const OWN_DOC: Key := Key("docs", 1, OWN, 1)
  const OWN_TEAM: Key := Key("teams", 1, OWN, 2)

  const BOUND_BOTH: Db :=
    Db({"docs", "teams"}, {ROOT, TEAM}, {"viewer"}, map[1 := INTO_ITSELF, 2 := Inheritance("teams", "docs")], 3,
       map[1 := ROOT, 2 := TEAM], 3, map[OWN_DOC := VIEWER, OWN_TEAM := VIEWER])

  const PARENTS: map<Inh, Target> := map[1 := One(1), 2 := One(1)]

  const ENABLED_BOTH: Db := EMPTY.(enabled := {"docs", "teams"}, roles := {"viewer"}, rows := {ROOT, TEAM})

  const SETUP: seq<Step> :=
    [Enable("docs")] + [Enable("teams")] + [CreateRole("viewer")] + [PUT_ROOT] + [PUT_TEAM]

  lemma SetupReached()
    ensures Reaches(EMPTY, SETUP, ENABLED_BOTH)
  {
    var d1 := EMPTY.(enabled := {"docs"});
    var d2 := d1.(enabled := {"docs", "teams"});
    var d3 := d2.(roles := {"viewer"});
    var d4 := d3.(rows := {ROOT});
    assert Do(EMPTY, Enable("docs")).db == d1 && Do(d1, Enable("teams")).db == d2;
    assert Do(d2, CreateRole("viewer")).db == d3;
    assert Do(d3, PUT_ROOT).db == d4 && Do(d4, PUT_TEAM).db == ENABLED_BOTH;
    assert Enabled(d3, PUT_ROOT) && Enabled(d4, PUT_TEAM);
    assert [] + [Enable("docs")] == [Enable("docs")];
    NothingReached();
    hide Do, Reaches;
    var s := [Enable("docs")];
    Then(EMPTY, [], EMPTY, Enable("docs"));
    Then(EMPTY, s, d1, Enable("teams"));
    Then(EMPTY, s + [Enable("teams")], d2, CreateRole("viewer"));
    Then(EMPTY, s + [Enable("teams")] + [CreateRole("viewer")], d3, PUT_ROOT);
    Then(EMPTY, s + [Enable("teams")] + [CreateRole("viewer")] + [PUT_ROOT], d4, PUT_TEAM);
  }

  lemma BothReached()
    ensures Reaches(EMPTY, BOTH, BOUND_BOTH)
  {
    var d6 := ENABLED_BOTH.(nextRef := 2, refs := map[1 := ROOT], bindings := map[OWN_DOC := VIEWER]);
    var d7 := d6.(nextRef := 3, refs := map[1 := ROOT, 2 := TEAM], bindings := BOUND_BOTH.bindings);
    var d8 := d7.(inhs := map[1 := INTO_ITSELF], nextInh := 2);
    assert Do(ENABLED_BOTH, BIND_ROOT).db == d6 && Do(d6, BIND_TEAM).db == d7;
    assert Do(d7, LINK).db == d8 && Do(d8, FROM_TEAMS).db == BOUND_BOTH;
    hide Do, Reaches;
    SetupReached();
    Then(EMPTY, SETUP, ENABLED_BOTH, BIND_ROOT);
    Then(EMPTY, SETUP + [BIND_ROOT], d6, BIND_TEAM);
    Then(EMPTY, SETUP + [BIND_ROOT] + [BIND_TEAM], d7, LINK);
    Then(EMPTY, SETUP + [BIND_ROOT] + [BIND_TEAM] + [LINK], d8, FROM_TEAMS);
  }

  lemma NothingReached()
    ensures Reaches(EMPTY, [], EMPTY)
  {
  }

  /** What row 1 of docs ends with when it is its own parent, and teams are taken in this order. */
  function Merged(order: seq<Inh>): Option<Bindings>
    requires forall i | 0 <= i < |order| :: order[i] == 1 || order[i] == 2
  {
    InheritAll(BOUND_BOTH.bindings, BOUND_BOTH, ROOT, order, PARENTS, {}, 0)
  }

  function ParentUnder(h: Inh): RowId {
    if h == 1 then ROOT else TEAM
  }

  function Taken(b: Bindings, h: Inh): Bindings
    requires DistinctRefs(b, ParentUnder(h))
  {
    Merge(b, ROOT, h, GrantsOf(b, ParentUnder(h)), {}, 0)
  }

  /** One turn of the trigger's loop. */
  lemma OneTaken(b: Bindings, h: Inh)
    requires h in {1, 2} && DistinctRefs(b, ParentUnder(h))
    ensures h in BOUND_BOTH.inhs && h in PARENTS
    ensures InheritOne(b, BOUND_BOTH.enabled, ROOT, h, BOUND_BOTH.inhs[h].src, PARENTS[h], {}, 0) == Some(Taken(b, h))
  {
    hide Merge, GrantsOf, DistinctRefs;
  }

  lemma TwoTurns(d: Db, row: RowId, x: Inh, y: Inh, parents: map<Inh, Target>, b0: Bindings, b1: Bindings, b2: Bindings)
    requires x in d.inhs && x in parents && y in d.inhs && y in parents
    requires InheritOne(b0, d.enabled, row, x, d.inhs[x].src, parents[x], {}, 0) == Some(b1)
    requires InheritOne(b1, d.enabled, row, y, d.inhs[y].src, parents[y], {}, 0) == Some(b2)
    ensures InheritAll(b0, d, row, [x, y], parents, {}, 0) == Some(b2)
  {
    hide InheritOne;
    var order, rest: seq<Inh> := [x, y], [y];
    assert order[1..] == rest && rest[1..] == [];
    assert InheritAll(b2, d, row, [], parents, {}, 0) == Some(b2);
    assert InheritAll(b1, d, row, rest, parents, {}, 0) == Some(b2);
  }

  lemma TakenInOrder(x: Inh, y: Inh, b: Bindings)
    requires x in {1, 2} && y in {1, 2} && DistinctRefs(BOUND_BOTH.bindings, ParentUnder(x))
    requires b == Taken(BOUND_BOTH.bindings, x) && DistinctRefs(b, ParentUnder(y))
    ensures Merged([x, y]) == Some(Taken(b, y))
  {
    OneTaken(BOUND_BOTH.bindings, x);
    OneTaken(b, y);
    hide InheritOne, InheritAll, Taken, DistinctRefs, ParentUnder;
    TwoTurns(BOUND_BOTH, ROOT, x, y, PARENTS, BOUND_BOTH.bindings, b, Taken(b, y));
  }

  /** The binding of the team, inherited from row 1 by row 1 itself. */
  const ROUNDABOUT: Key := Key("docs", 1, 1, 2)

  lemma BoundKeys(b: Bindings)
    requires b == BOUND_BOTH.bindings
    ensures DistinctRefs(b, ROOT) && RefsOf(b, ROOT) == {1} && DistinctRefs(b, TEAM) && RefsOf(b, TEAM) == {2}
  {
    assert b.Keys == {OWN_DOC, OWN_TEAM};
    assert KeysOf(b, ROOT) == {OWN_DOC};
    assert KeysOf(b, TEAM) == {OWN_TEAM};
    assert forall r :: r in RefsOf(b, TEAM) <==> r == OWN_TEAM.ref;
    assert forall r :: r in RefsOf(b, ROOT) <==> r == OWN_DOC.ref;
  }

  lemma SelfTaken(b: Bindings)
    requires b == BOUND_BOTH.bindings && DistinctRefs(b, ROOT) && RefsOf(b, ROOT) == {1} && DistinctRefs(b, TEAM)
    ensures ROUNDABOUT !in Taken(b, 1) && DistinctRefs(Taken(b, 1), TEAM)
  {
    hide RefsOf, DistinctRefs;
    var grants, b1 := GrantsOf(b, ROOT), Taken(b, 1);
    assert grants.Keys == {1};
    assert ROUNDABOUT !in b1;
    hide GrantsOf;
    BindingTrigger.MergeOnly(b, ROOT, 1, grants, {}, 0);
    BindingTrigger.GrantsAgree(b, b1, ROOT, {1}, TEAM);
  }

  lemma SelfFirst()
    ensures Merged([1, 2]).Some? && ROUNDABOUT !in Merged([1, 2]).value
  {
    hide GrantsOf, InheritAll, DistinctRefs, RefsOf, Merge, Merged;
    var b := BOUND_BOTH.bindings;
    BoundKeys(b);
    var b1 := Taken(b, 1);
    SelfTaken(b);
    BindingTrigger.MergeOnly(b1, ROOT, 2, GrantsOf(b1, TEAM), {}, 0);
    assert BindingTrigger.OnRow(ROUNDABOUT, ROOT, {2}) || BindingTrigger.Agree(b1, Taken(b1, 2), ROUNDABOUT);
    TakenInOrder(1, 2, b1);
  }

  lemma TeamTaken(b: Bindings)
    requires b == BOUND_BOTH.bindings && DistinctRefs(b, TEAM) && RefsOf(b, TEAM) == {2}
    ensures var b1 := Taken(b, 2);
            DistinctRefs(b1, ROOT) && 2 in RefsOf(b1, ROOT) && ROUNDABOUT !in b1
  {
    hide RefsOf, DistinctRefs;
    var grants, copy := GrantsOf(b, TEAM), Key("docs", 1, 2, 2);
    assert grants.Keys == {2};
    var b1 := Taken(b, 2);
    hide GrantsOf;
    assert copy in CopyKeys(ROOT, 2, grants) && Copied(copy, ROOT, 2, grants) && copy !in b;
    assert b1.Keys == {OWN_DOC, OWN_TEAM, copy};
    RootRefs(b1);
  }

  lemma RootRefs(b: Bindings)
    requires b.Keys == {OWN_DOC, OWN_TEAM, Key("docs", 1, 2, 2)}
    ensures DistinctRefs(b, ROOT) && 2 in RefsOf(b, ROOT)
  {
    var copy := Key("docs", 1, 2, 2);
    assert KeysOf(b, ROOT) == {OWN_DOC, copy};
    assert copy.ref in RefsOf(b, ROOT);
  }

  lemma TeamsFirst()
    ensures Merged([2, 1]).Some? && ROUNDABOUT in Merged([2, 1]).value
  {
    var b := BOUND_BOTH.bindings;
    BoundKeys(b);
    TeamTaken(b);
    var b1 := Taken(b, 2);
    var grants := GrantsOf(b1, ROOT);
    assert 2 in grants;
    hide GrantsOf, RefsOf, DistinctRefs, KeysOf;
    assert ROUNDABOUT in CopyKeys(ROOT, 1, grants) && Copied(ROUNDABOUT, ROOT, 1, grants);
    assert ROUNDABOUT in Taken(b1, 1);
    TakenInOrder(2, 1, b1);
  }

  /** A reachable state in which the order of the inheritances decides what a row ends with, because
      the row is its own parent under one of them. */
  lemma OrderMattersForOwnParent()
    ensures Run(BOTH) && Final(BOTH) == BOUND_BOTH
    ensures OrderOf([1, 2], BOUND_BOTH, "docs") && OrderOf([2, 1], BOUND_BOTH, "docs")
    ensures Merged([1, 2]) != Merged([2, 1])
  {
    BothReached();
    SelfFirst();
    TeamsFirst();
    var o, o': seq<Inh> := [1, 2], [2, 1];
    assert forall h :: h in o <==> h == 1 || h == 2;
    assert forall h :: h in o' <==> h == 1 || h == 2;
  }
}
