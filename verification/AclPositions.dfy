/**
 Which tracked tables the walk covers, told by where they stand: by the keys on the way from the
 root, without reference to the walk.
 */
module AclPositions {
  import opened Results
  import opened Json
  import opened QueryAcler
  import opened AclErasure
  import opened AclCoverage

  /** A position in a tree: which child to go to, from the root on. */
  type Path = seq<nat>

  function At(j: Json, path: Path): Option<Json>
    decreases |path|
  {
    if path == [] then Some(j)
    else
      match j
      case Arr(items) => if path[0] < |items| then At(items[path[0]], path[1..]) else None
      case Obj(fields) => if path[0] < |fields| then At(fields[path[0]].val, path[1..]) else None
      case _ => None
  }

  /** The keys on the way; the elements of an array have none. */
  function KeysTo(j: Json, path: Path): seq<string>
    decreases |path|
  {
    if path == [] then []
    else
      match j
      case Arr(items) => if path[0] < |items| then KeysTo(items[path[0]], path[1..]) else []
      case Obj(fields) =>
        if path[0] < |fields| then [fields[path[0]].key] + KeysTo(fields[path[0]].val, path[1..]) else []
      case _ => []
  }

  /** Below a SelectStmt, and not below a fromClause since. */
  ghost predicate UnderSelect(keys: seq<string>) {
    exists a :: 0 <= a < |keys| && keys[a] == "SelectStmt" && "fromClause" !in keys[a + 1..]
  }

  /** Below a fromClause that is below a SelectStmt, and not below a SelectStmt since. */
  ghost predicate UnderFrom(keys: seq<string>) {
    exists a, b :: 0 <= a < b < |keys| && keys[a] == "SelectStmt" && keys[b] == "fromClause"
                   && "SelectStmt" !in keys[b + 1..]
  }

  /** The way leads through no INTO, WHERE or target clause of a SELECT, and into no table of a FROM clause. */
  ghost predicate Entered(keys: seq<string>) {
    forall c | 0 <= c < |keys| ::
      && (keys[c] in ["intoClause", "whereClause", "targetList"] ==> !UnderSelect(keys[..c]))
      && (keys[c] == "RangeVar" ==> !UnderFrom(keys[..c]))
  }

  ghost predicate TableAt(j: Json, path: Path, tracked: set<string>) {
    At(j, path).Some? && OwnName(At(j, path).value, tracked) != []
  }

  /** The node has a tracked table as its RangeVar. */
  predicate HoldsTable(j: Json, tracked: set<string>) {
    j.Obj? &&
    exists i :: 0 <= i < |j.fields| && j.fields[i].key == "RangeVar" && OwnName(j.fields[i].val, tracked) != []
  }

  /** The node, below these keys, is one of a FROM clause that the walk enters, and holds a tracked table. */
  ghost predicate Swapped(j: Json, above: seq<string>, tracked: set<string>) {
    HoldsTable(j, tracked) && UnderFrom(above) && Entered(above)
  }

  ghost predicate SwappedAt(j: Json, path: Path, above: seq<string>, tracked: set<string>) {
    At(j, path).Some? && Swapped(At(j, path).value, above + KeysTo(j, path), tracked)
  }

  /** Such a node is on the way to the position, or at it. */
  ghost predicate Covered(j: Json, path: Path, above: seq<string>, tracked: set<string>) {
    exists n :: 0 <= n <= |path| && SwappedAt(j, path[..n], above, tracked)
  }

  ghost predicate AllCovered(j: Json, above: seq<string>, tracked: set<string>) {
    forall path | TableAt(j, path, tracked) :: Covered(j, path, above, tracked)
  }

  // ---------- the mode of a position ----------

  ghost predicate ModeOf(m: Mode, keys: seq<string>) {
    (m.InSelect? <==> UnderSelect(keys)) && (m.InFrom? <==> UnderFrom(keys))
  }

  lemma SelectMore(keys: seq<string>, k: string)
    ensures UnderSelect(keys + [k]) <==> k == "SelectStmt" || (UnderSelect(keys) && k != "fromClause")
  {
    var more := keys + [k];
    if k == "SelectStmt" {
      assert more[|keys|] == k && more[|keys| + 1..] == [];
    }
    if UnderSelect(keys) && k != "fromClause" {
      var a :| 0 <= a < |keys| && keys[a] == "SelectStmt" && "fromClause" !in keys[a + 1..];
      assert more[a] == keys[a] && more[a + 1..] == keys[a + 1..] + [k];
    }
    if UnderSelect(more) && k != "SelectStmt" {
      var a :| 0 <= a < |more| && more[a] == "SelectStmt" && "fromClause" !in more[a + 1..];
      assert a < |keys| && keys[a] == more[a] && more[a + 1..] == keys[a + 1..] + [k];
    }
  }

  lemma FromStays(keys: seq<string>, k: string)
    requires UnderFrom(keys) && k != "SelectStmt"
    ensures UnderFrom(keys + [k])
  {
    var more := keys + [k];
    var a, b :| 0 <= a < b < |keys| && keys[a] == "SelectStmt" && keys[b] == "fromClause"
                && "SelectStmt" !in keys[b + 1..];
    assert more[a] == keys[a] && more[b] == keys[b] && more[b + 1..] == keys[b + 1..] + [k];
  }

  lemma FromStarts(keys: seq<string>)
    requires "SelectStmt" in keys
    ensures UnderFrom(keys + ["fromClause"])
  {
    var more := keys + ["fromClause"];
    var a :| 0 <= a < |keys| && keys[a] == "SelectStmt";
    assert more[a] == keys[a] && more[|keys|] == "fromClause" && more[|keys| + 1..] == [];
  }

  lemma FromBefore(keys: seq<string>, k: string)
    requires UnderFrom(keys + [k])
    ensures k != "SelectStmt" && "SelectStmt" in keys && (UnderFrom(keys) || k == "fromClause")
  {
    var more := keys + [k];
    var a, b :| 0 <= a < b < |more| && more[a] == "SelectStmt" && more[b] == "fromClause"
                && "SelectStmt" !in more[b + 1..];
    assert keys[a] == more[a];
    if b < |keys| {
      assert keys[b] == more[b] && more[b + 1..] == keys[b + 1..] + [k];
      assert k in more[b + 1..];
    } else {
      assert more[|keys|] == k;
    }
  }

  /** A position below a SelectStmt is in its clauses or in its FROM clause. */
  lemma {:induction false} SelectOrFrom(keys: seq<string>)
    requires "SelectStmt" in keys
    ensures UnderSelect(keys) || UnderFrom(keys)
    decreases |keys|
  {
    hide UnderSelect, UnderFrom;
    var k, init := keys[|keys| - 1], keys[..|keys| - 1];
    assert keys == init + [k];
    SelectMore(init, k);
    if k != "SelectStmt" {
      SelectOrFrom(init);
      if UnderFrom(init) { FromStays(init, k); }
      if k == "fromClause" { FromStarts(init); }
    }
  }

  lemma FromMore(keys: seq<string>, k: string)
    ensures UnderFrom(keys + [k]) <==>
            k != "SelectStmt" && (UnderFrom(keys) || (UnderSelect(keys) && k == "fromClause"))
  {
    hide UnderFrom;
    if UnderFrom(keys + [k]) {
      FromBefore(keys, k);
      SelectOrFrom(keys);
    }
    if UnderFrom(keys) && k != "SelectStmt" { FromStays(keys, k); }
    if UnderSelect(keys) && k == "fromClause" { FromStarts(keys); }
  }

  lemma EnteredMore(keys: seq<string>, k: string)
    ensures Entered(keys + [k]) <==>
            && Entered(keys) && (k in ["intoClause", "whereClause", "targetList"] ==> !UnderSelect(keys))
            && (k == "RangeVar" ==> !UnderFrom(keys))
  {
    hide UnderSelect, UnderFrom;
    var more := keys + [k];
    assert more[|keys|] == k && more[..|keys|] == keys;
    assert forall c | 0 <= c < |keys| :: more[c] == keys[c] && more[..c] == keys[..c];
  }

  lemma {:induction false} EnteredPrefix(keys: seq<string>, rest: seq<string>)
    requires Entered(keys + rest)
    ensures Entered(keys)
  {
    hide UnderSelect, UnderFrom;
    var more := keys + rest;
    assert forall c | 0 <= c < |keys| :: more[c] == keys[c] && more[..c] == keys[..c];
  }

  // ---------- one step down ----------

  function Child(j: Json, i: nat): Json
    requires (j.Arr? && i < |j.items|) || (j.Obj? && i < |j.fields|)
  {
    if j.Arr? then j.items[i] else j.fields[i].val
  }

  function ChildKeys(j: Json, i: nat): seq<string>
    requires (j.Arr? && i < |j.items|) || (j.Obj? && i < |j.fields|)
  {
    if j.Arr? then [] else [j.fields[i].key]
  }

  predicate HasChild(j: Json, i: nat) {
    (j.Arr? && i < |j.items|) || (j.Obj? && i < |j.fields|)
  }

  lemma StepDown(j: Json, path: Path)
    requires path != []
    ensures if HasChild(j, path[0]) then
              && At(j, path) == At(Child(j, path[0]), path[1..])
              && KeysTo(j, path) == ChildKeys(j, path[0]) + KeysTo(Child(j, path[0]), path[1..])
            else At(j, path) == None
  {
  }

  lemma SwappedBelow(j: Json, path: Path, above: seq<string>, tracked: set<string>)
    requires path != [] && HasChild(j, path[0])
    ensures SwappedAt(j, path, above, tracked) <==>
            SwappedAt(Child(j, path[0]), path[1..], above + ChildKeys(j, path[0]), tracked)
  {
    hide Swapped;
    StepDown(j, path);
    var down := KeysTo(Child(j, path[0]), path[1..]);
    assert above + (ChildKeys(j, path[0]) + down) == above + ChildKeys(j, path[0]) + down;
  }

  lemma CoveredBelow(j: Json, path: Path, above: seq<string>, tracked: set<string>)
    requires path != [] && HasChild(j, path[0])
    ensures Covered(j, path, above, tracked) <==>
            Swapped(j, above, tracked) || Covered(Child(j, path[0]), path[1..], above + ChildKeys(j, path[0]), tracked)
  {
    hide Swapped, SwappedAt;
    var child, below := Child(j, path[0]), above + ChildKeys(j, path[0]);
    SwappedHere(j, above, tracked);
    assert path[..0] == [];
    forall n | 0 < n <= |path|
      ensures SwappedAt(j, path[..n], above, tracked) <==> SwappedAt(child, path[1..][..n - 1], below, tracked)
    {
      assert path[..n][1..] == path[1..][..n - 1];
      SwappedBelow(j, path[..n], above, tracked);
    }
    if Covered(child, path[1..], below, tracked) {
      var n :| 0 <= n <= |path[1..]| && SwappedAt(child, path[1..][..n], below, tracked);
      assert SwappedAt(j, path[..n + 1], above, tracked);
    }
  }

  lemma SwappedHere(j: Json, above: seq<string>, tracked: set<string>)
    ensures SwappedAt(j, [], above, tracked) <==> Swapped(j, above, tracked)
    ensures Covered(j, [], above, tracked) <==> Swapped(j, above, tracked)
  {
    var none: Path := [];
    assert above + [] == above;
    assert none[..0] == none;
  }

  /** A swapped node covers all in it; otherwise every child must be covered, and the node be no table. */
  lemma AllCoveredBelow(j: Json, above: seq<string>, tracked: set<string>)
    ensures AllCovered(j, above, tracked) <==>
            || Swapped(j, above, tracked)
            || (OwnName(j, tracked) == []
                && forall i: nat | HasChild(j, i) :: AllCovered(Child(j, i), above + ChildKeys(j, i), tracked))
  {
    hide Swapped, Covered, OwnName;
    SwappedHere(j, above, tracked);
    forall path: Path | path != [] && HasChild(j, path[0])
      ensures TableAt(j, path, tracked) <==> TableAt(Child(j, path[0]), path[1..], tracked)
      ensures Covered(j, path, above, tracked) <==>
              || Swapped(j, above, tracked)
              || Covered(Child(j, path[0]), path[1..], above + ChildKeys(j, path[0]), tracked)
    {
      StepDown(j, path);
      CoveredBelow(j, path, above, tracked);
    }
    forall path: Path | path != [] && !HasChild(j, path[0]) ensures !TableAt(j, path, tracked) {
      StepDown(j, path);
    }
    if AllCovered(j, above, tracked) && !Swapped(j, above, tracked) {
      assert TableAt(j, [], tracked) <==> OwnName(j, tracked) != [];
      forall i: nat | HasChild(j, i) ensures AllCovered(Child(j, i), above + ChildKeys(j, i), tracked) {
        forall path | TableAt(Child(j, i), path, tracked)
          ensures Covered(Child(j, i), path, above + ChildKeys(j, i), tracked)
        {
          var down := [i] + path;
          assert down[0] == i && down[1..] == path;
          assert TableAt(j, down, tracked);
        }
      }
    }
  }

  // ---------- the walk reaches exactly what is covered ----------

  lemma {:induction false} UnreachedEmpty(m: Mode, fields: seq<Field>, tracked: set<string>)
    ensures UnreachedFields(m, fields, tracked) == [] <==>
            forall i | 0 <= i < |fields| ::
              (if Dispatch(m, fields[i].key).Enter?
               then Unreached(Dispatch(m, fields[i].key).mode, fields[i].val, tracked)
               else Bare(fields[i].val, tracked)) == []
  {
    hide Unreached, Bare, Dispatch;
    if fields != [] {
      UnreachedFirst(m, fields, tracked);
      UnreachedEmpty(m, fields[1..], tracked);
      assert forall i | 1 <= i < |fields| :: fields[i] == fields[1..][i - 1];
      assert forall i | 0 <= i < |fields| - 1 :: fields[1..][i] == fields[i + 1];
    }
  }

  lemma {:induction false} UnreachedItemsEmpty(m: Mode, items: seq<Json>, tracked: set<string>)
    ensures UnreachedItems(m, items, tracked) == [] <==>
            forall i | 0 <= i < |items| :: Unreached(m, items[i], tracked) == []
  {
    hide Unreached;
    if items != [] {
      UnreachedItemsEmpty(m, items[1..], tracked);
      assert forall i | 1 <= i < |items| :: items[i] == items[1..][i - 1];
      assert forall i | 0 <= i < |items| - 1 :: items[1..][i] == items[i + 1];
    }
  }

  lemma {:induction false} BareFieldsEmpty(fields: seq<Field>, tracked: set<string>)
    ensures BareFields(fields, tracked) == [] <==> forall i | 0 <= i < |fields| :: Bare(fields[i].val, tracked) == []
  {
    hide Bare;
    if fields != [] {
      BareFieldsEmpty(fields[1..], tracked);
      assert forall i | 1 <= i < |fields| :: fields[i] == fields[1..][i - 1];
      assert forall i | 0 <= i < |fields| - 1 :: fields[1..][i] == fields[i + 1];
    }
  }

  lemma {:induction false} BareItemsEmpty(items: seq<Json>, tracked: set<string>)
    ensures BareItems(items, tracked) == [] <==> forall i | 0 <= i < |items| :: Bare(items[i], tracked) == []
  {
    hide Bare;
    if items != [] {
      BareItemsEmpty(items[1..], tracked);
      assert forall i | 1 <= i < |items| :: items[i] == items[1..][i - 1];
      assert forall i | 0 <= i < |items| - 1 :: items[1..][i] == items[i + 1];
    }
  }

  /** Below keys that the walk passes by, nothing is covered. */
  lemma {:induction false} PassedBy(j: Json, above: seq<string>, tracked: set<string>)
    requires !Entered(above) && Fresh(j)
    ensures Bare(j, tracked) == [] <==> AllCovered(j, above, tracked)
    decreases j
  {
    hide Entered, UnderFrom, AllCovered, Bare;
    AllCoveredBelow(j, above, tracked);
    forall i: nat | HasChild(j, i)
      ensures Bare(Child(j, i), tracked) == [] <==> AllCovered(Child(j, i), above + ChildKeys(j, i), tracked)
    {
      NotEnteredMore(above, ChildKeys(j, i));
      PassedBy(Child(j, i), above + ChildKeys(j, i), tracked);
    }
    BareOfChildren(j, tracked);
  }

  lemma NotEnteredMore(keys: seq<string>, rest: seq<string>)
    requires !Entered(keys)
    ensures !Entered(keys + rest)
  {
    if Entered(keys + rest) { EnteredPrefix(keys, rest); }
  }

  lemma BareOfChildren(j: Json, tracked: set<string>)
    requires Fresh(j)
    ensures forall i: nat | HasChild(j, i) :: Fresh(Child(j, i))
    ensures Bare(j, tracked) == [] <==>
            OwnName(j, tracked) == [] && forall i: nat | HasChild(j, i) :: Bare(Child(j, i), tracked) == []
  {
    hide Inserted;
    match j
    case Arr(items) =>
      BareItemsEmpty(items, tracked);
      assert forall i | 0 <= i < |items| :: HasChild(j, i) && Child(j, i) == items[i];
    case Obj(fields) =>
      BareFieldsEmpty(fields, tracked);
      assert forall i | 0 <= i < |fields| :: HasChild(j, i) && Child(j, i) == fields[i].val;
    case _ =>
  }

  lemma UnreachedOfChildren(m: Mode, j: Json, tracked: set<string>)
    requires !(m.InFrom? && HoldsTable(j, tracked))
    ensures Unreached(m, j, tracked) == [] <==>
            OwnName(j, tracked) == [] && forall i: nat | HasChild(j, i) :: UnreachedChild(m, j, i, tracked) == []
  {
    match j
    case Arr(items) =>
      UnreachedItemsEmpty(m, items, tracked);
      assert forall i | 0 <= i < |items| :: HasChild(j, i) && Child(j, i) == items[i];
    case Obj(fields) =>
      UnreachedEmpty(m, fields, tracked);
      assert forall i | 0 <= i < |fields| :: HasChild(j, i) && Child(j, i) == fields[i].val;
    case _ =>
  }

  /** What the walk does not reach in one child. */
  function UnreachedChild(m: Mode, j: Json, i: nat, tracked: set<string>): seq<string>
    requires HasChild(j, i)
  {
    if j.Arr? then Unreached(m, Child(j, i), tracked)
    else if Dispatch(m, j.fields[i].key).Enter? then Unreached(Dispatch(m, j.fields[i].key).mode, Child(j, i), tracked)
    else Bare(Child(j, i), tracked)
  }

  /** The mode of a child is that of its position, and the walk enters it when the position is entered. */
  lemma ModeBelow(m: Mode, keys: seq<string>, k: string)
    requires ModeOf(m, keys) && Entered(keys)
    ensures Dispatch(m, k).Enter? <==> Entered(keys + [k])
    ensures Dispatch(m, k).Enter? ==> ModeOf(Dispatch(m, k).mode, keys + [k])
  {
    hide Entered, UnderFrom, UnderSelect;
    SelectMore(keys, k);
    FromMore(keys, k);
    EnteredMore(keys, k);
  }

  lemma {:induction false} ReachedIff(m: Mode, j: Json, above: seq<string>, tracked: set<string>)
    requires ModeOf(m, above) && Entered(above) && Fresh(j)
    ensures Unreached(m, j, tracked) == [] <==> AllCovered(j, above, tracked)
    decreases j
  {
    hide Entered, UnderFrom, UnderSelect, AllCovered, Bare, Unreached;
    AllCoveredBelow(j, above, tracked);
    if m.InFrom? && HoldsTable(j, tracked) {
      SwappedUnreached(m, j, tracked);
    } else {
      forall i: nat | HasChild(j, i)
        ensures UnreachedChild(m, j, i, tracked) == [] <==>
                AllCovered(Child(j, i), above + ChildKeys(j, i), tracked)
      {
        ChildReachedIff(m, j, i, above, tracked);
      }
      UnreachedOfChildren(m, j, tracked);
    }
  }

  lemma SwappedUnreached(m: Mode, j: Json, tracked: set<string>)
    requires m.InFrom? && HoldsTable(j, tracked)
    ensures Unreached(m, j, tracked) == []
  {
    hide UnreachedFields, OwnName;
    assert Replaces(m, j.fields, tracked);
  }

  lemma {:induction false} ChildReachedIff(m: Mode, j: Json, i: nat, above: seq<string>, tracked: set<string>)
    requires ModeOf(m, above) && Entered(above) && Fresh(j) && HasChild(j, i)
    ensures UnreachedChild(m, j, i, tracked) == [] <==> AllCovered(Child(j, i), above + ChildKeys(j, i), tracked)
    decreases j, 0
  {
    hide Entered, UnderFrom, UnderSelect, AllCovered, Bare, Unreached, Dispatch, ModeOf;
    if j.Arr? {
      assert above + [] == above;
      ReachedIff(m, j.items[i], above, tracked);
    } else {
      var Field(k, v) := j.fields[i];
      ModeBelow(m, above, k);
      if Dispatch(m, k).Enter? {
        ReachedIff(Dispatch(m, k).mode, v, above + [k], tracked);
      } else {
        PassedBy(v, above + [k], tracked);
      }
    }
  }

  /** Once the rewrite is done no tracked table is left bare if and only if each one stands in a node
      of a FROM clause that holds a tracked RangeVar, with no clause on the way to the node that a SELECT
      keeps from the walk. */
  lemma NothingBareIff(j: Json, tracked: set<string>)
    requires Fresh(j) && Rewrite(Top, j, tracked).Ok?
    ensures Bare(Rewrite(Top, j, tracked).value, tracked) == [] <==> AllCovered(j, [], tracked)
  {
    hide AllCovered, Bare, Unreached, Rewrite;
    BareIsUnreached(Top, j, tracked);
    ReachedIff(Top, j, [], tracked);
  }

  /** The position is that of a RangeVar below a fromClause of a SelectStmt, and the way to it leads
      through no clause that a SELECT keeps from the walk. */
  ghost predicate InFromClause(j: Json, path: Path) {
    path != [] &&
    var up := path[..|path| - 1];
    var node := At(j, up);
    && node.Some? && node.value.Obj? && path[|path| - 1] < |node.value.fields|
    && node.value.fields[path[|path| - 1]].key == "RangeVar"
    && UnderFrom(KeysTo(j, up)) && Entered(KeysTo(j, up))
  }

  /** In particular none is left bare when all of them stand as RangeVars in such FROM clauses, common
      table expressions and sub-selects at any depth included. */
  lemma FromTablesCovered(j: Json, tracked: set<string>)
    requires Fresh(j) && Rewrite(Top, j, tracked).Ok?
    requires forall path | TableAt(j, path, tracked) :: InFromClause(j, path)
    ensures Bare(Rewrite(Top, j, tracked).value, tracked) == []
  {
    forall path | TableAt(j, path, tracked) ensures Covered(j, path, [], tracked) {
      HolderSwapped(j, path, tracked);
    }
    NothingBareIff(j, tracked);
  }

  lemma HolderSwapped(j: Json, path: Path, tracked: set<string>)
    requires TableAt(j, path, tracked) && InFromClause(j, path)
    ensures Covered(j, path, [], tracked)
  {
    hide UnderFrom, Entered, OwnName;
    var n := |path| - 1;
    var up := path[..n];
    LastStep(j, path);
    assert [] + KeysTo(j, up) == KeysTo(j, up);
    assert HoldsTable(At(j, up).value, tracked);
    assert SwappedAt(j, path[..n], [], tracked);
  }

  lemma {:induction false} LastStep(j: Json, path: Path)
    requires path != [] && At(j, path).Some?
    ensures var node := At(j, path[..|path| - 1]);
            node.Some? && HasChild(node.value, path[|path| - 1]) &&
            At(j, path).value == Child(node.value, path[|path| - 1])
    decreases |path|
  {
    StepDown(j, path);
    if |path| > 1 {
      StepDown(j, path[..|path| - 1]);
      assert path[..|path| - 1][1..] == path[1..][..|path| - 2];
      LastStep(Child(j, path[0]), path[1..]);
    } else {
      assert path[..0] == [] && path[1..] == [];
    }
  }
}
