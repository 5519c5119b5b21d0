/**
 * Organisation trees and the flat parent-pointer lists they travel as
 * (apps/frontend/lib/org-chart-data.ts, and the tree structure behind `buildTree` of
 * apps/frontend/lib/org-chart-layout.ts).
 */
module OrgTree {
  import opened Wrappers

  /** A nested organisation, as the server sends it. */
  datatype Org = Org(id: string, name: string, level: string, subunits: seq<Org>)

  /** One entry of the flat list. */
  datatype OrgUnit = OrgUnit(id: string, name: string, level: string, parentId: Option<string>)

  /** The finite tree of units that hangs below a node. */
  datatype Tree = Tree(unit: OrgUnit, children: seq<Tree>)

  // ----- Flattening -----

  function Head(o: Org, parentId: Option<string>): OrgUnit {
    OrgUnit(o.id, o.name, o.level, parentId)
  }

  function Flatten(o: Org, parentId: Option<string>): seq<OrgUnit> {
    [Head(o, parentId)] + FlattenAll(o.subunits, Some(o.id))
  }

  function FlattenAll(orgs: seq<Org>, parentId: Option<string>): seq<OrgUnit> {
    if orgs == [] then [] else Flatten(orgs[0], parentId) + FlattenAll(orgs[1..], parentId)
  }

  lemma {:induction false} FlattenAllSnoc(orgs: seq<Org>, i: nat, parentId: Option<string>)
    requires i < |orgs|
    ensures FlattenAll(orgs[..i + 1], parentId) == FlattenAll(orgs[..i], parentId) + Flatten(orgs[i], parentId)
  {
    FlattenAllConcat(orgs[..i], [orgs[i]], parentId);
    assert orgs[..i + 1] == orgs[..i] + [orgs[i]];
  }

  lemma {:induction false} FlattenAllConcat(a: seq<Org>, b: seq<Org>, parentId: Option<string>)
    ensures FlattenAll(a + b, parentId) == FlattenAll(a, parentId) + FlattenAll(b, parentId)
  {
    if a == [] {
      assert a + b == b;
    } else {
      assert (a + b)[1..] == a[1..] + b;
      FlattenAllConcat(a[1..], b, parentId);
    }
  }

  method FlattenOrgUnits(orgUnit: Org, parentId: Option<string>) returns (result: seq<OrgUnit>)
    ensures result == Flatten(orgUnit, parentId)
    decreases orgUnit
  {
    result := [OrgUnit(orgUnit.id, orgUnit.name, orgUnit.level, parentId)];
    for i := 0 to |orgUnit.subunits|
      invariant result == [Head(orgUnit, parentId)] + FlattenAll(orgUnit.subunits[..i], Some(orgUnit.id))
    {
      var units := FlattenOrgUnits(orgUnit.subunits[i], Some(orgUnit.id));
      result := result + units;
      FlattenAllSnoc(orgUnit.subunits, i, Some(orgUnit.id));
    }
    assert orgUnit.subunits[..|orgUnit.subunits|] == orgUnit.subunits;
  }

  // ----- The parent relation of a flat list -----

  /** The parent pointer of a unit; an empty string counts as none. */
  function Parent(u: OrgUnit): Option<string> {
    if u.parentId == Some("") then None else u.parentId
  }

  /** The unit a lookup by id finds: the last one with that id. */
  function UnitOf(units: seq<OrgUnit>, id: string): Option<OrgUnit> {
    if units == [] then None
    else if units[|units| - 1].id == id then Some(units[|units| - 1])
    else UnitOf(units[..|units| - 1], id)
  }

  /** The last unit without a parent pointer. */
  function RootUnit(units: seq<OrgUnit>): Option<OrgUnit> {
    if units == [] then None
    else if Parent(units[|units| - 1]).None? then Some(units[|units| - 1])
    else RootUnit(units[..|units| - 1])
  }

  /** The units pointing to `id`, in list order. */
  function ChildUnits(units: seq<OrgUnit>, id: string): seq<OrgUnit> {
    if units == [] then []
    else ChildUnits(units[..|units| - 1], id)
         + if Parent(units[|units| - 1]) == Some(id) then [units[|units| - 1]] else []
  }

  ghost predicate UniqueIds(units: seq<OrgUnit>) {
    forall i, j :: 0 <= i < j < |units| ==> units[i].id != units[j].id
  }

  function ParentOf(units: seq<OrgUnit>, id: string): Option<string> {
    match UnitOf(units, id)
    case None => None
    case Some(u) => Parent(u)
  }

  /** The id reached from `id` by following `m` parent pointers. */
  function Up(units: seq<OrgUnit>, id: string, m: nat): Option<string>
    decreases m
  {
    if m == 0 then Some(id)
    else match ParentOf(units, id)
      case None => None
      case Some(p) => Up(units, p, m - 1)
  }

  /** `u` is a unit whose parent chain ends at the parentless `root` after `k` steps. */
  ghost predicate At(units: seq<OrgUnit>, root: string, u: OrgUnit, k: nat) {
    && UniqueIds(units) && u in units
    && UnitOf(units, root).Some? && ParentOf(units, root).None?
    && Up(units, u.id, k) == Some(root)
  }

  lemma {:induction false} UnitOfMember(units: seq<OrgUnit>, u: OrgUnit)
    requires UniqueIds(units) && u in units
    ensures UnitOf(units, u.id) == Some(u)
  {
    var n := |units| - 1;
    if units[n] != u {
      var i :| 0 <= i < |units| && units[i] == u;
      assert units[..n][i] == u;
      UnitOfMember(units[..n], u);
    }
  }

  lemma {:induction false} UnitOfFound(units: seq<OrgUnit>, id: string)
    ensures match UnitOf(units, id)
            case Some(u) => u in units && u.id == id
            case None => forall u :: u in units ==> u.id != id
  {
    if units != [] {
      var n := |units| - 1;
      UnitOfFound(units[..n], id);
      assert units == units[..n] + [units[n]];
    }
  }

  predicate Parentless(u: OrgUnit) {
    u.parentId == None || u.parentId == Some("")
  }

  /** The root is the last unit whose parent id is missing or empty. */
  lemma {:induction false} RootIsLast(units: seq<OrgUnit>, u: OrgUnit)
    ensures RootUnit(units) == Some(u) <==>
            exists i :: 0 <= i < |units| && units[i] == u && Parentless(u)
                        && forall j :: i < j < |units| ==> !Parentless(units[j])
  {
    if units != [] {
      var n := |units| - 1;
      RootIsLast(units[..n], u);
      if RootUnit(units) == Some(u) {
        if Parentless(units[n]) {
          assert units[n] == u;
        } else {
          var i :| 0 <= i < n && units[..n][i] == u && Parentless(u) && forall j :: i < j < n ==> !Parentless(units[..n][j]);
          assert units[i] == u && forall j :: i < j < |units| && j != n ==> units[..n][j] == units[j];
        }
      }
      if i :| 0 <= i < |units| && units[i] == u && Parentless(u) && forall j :: i < j < |units| ==> !Parentless(units[j]) {
        if i < n { assert units[..n][i] == u && forall j :: i < j < n ==> units[..n][j] == units[j]; }
      }
    }
  }

  /** A lookup by id finds the last unit of that id. */
  lemma {:induction false} LookupIsLast(units: seq<OrgUnit>, id: string, u: OrgUnit)
    ensures UnitOf(units, id) == Some(u) <==>
            u.id == id && exists i :: 0 <= i < |units| && units[i] == u && forall j :: i < j < |units| ==> units[j].id != id
  {
    if units != [] {
      var n := |units| - 1;
      LookupIsLast(units[..n], id, u);
      if UnitOf(units, id) == Some(u) {
        if units[n].id == id {
          assert units[n] == u;
        } else {
          var i :| 0 <= i < n && units[..n][i] == u && forall j :: i < j < n ==> units[..n][j].id != id;
          assert units[i] == u && forall j :: i < j < |units| && j != n ==> units[..n][j] == units[j];
        }
      }
      if i :| 0 <= i < |units| && u.id == id && units[i] == u && forall j :: i < j < |units| ==> units[j].id != id {
        if i < n { assert units[..n][i] == u && forall j :: i < j < n ==> units[..n][j] == units[j]; }
      }
    }
  }

  lemma {:induction false} RootUnitFound(units: seq<OrgUnit>)
    ensures match RootUnit(units)
            case Some(u) => u in units && Parent(u).None?
            case None => forall u :: u in units ==> Parent(u).Some?
  {
    if units != [] {
      var n := |units| - 1;
      RootUnitFound(units[..n]);
      assert units == units[..n] + [units[n]];
    }
  }

  lemma {:induction false} ChildUnitsMember(units: seq<OrgUnit>, id: string, u: OrgUnit)
    ensures u in ChildUnits(units, id) <==> u in units && Parent(u) == Some(id)
  {
    if units != [] {
      var n := |units| - 1;
      ChildUnitsMember(units[..n], id, u);
      assert units == units[..n] + [units[n]];
    }
  }

  lemma {:induction false} ChildUnitsConcat(a: seq<OrgUnit>, b: seq<OrgUnit>, id: string)
    ensures ChildUnits(a + b, id) == ChildUnits(a, id) + ChildUnits(b, id)
  {
    if b == [] {
      assert a + b == a;
    } else {
      var n := |b| - 1;
      assert (a + b)[..|a + b| - 1] == a + b[..n];
      ChildUnitsConcat(a, b[..n], id);
    }
  }

  lemma {:induction false} UpCompose(units: seq<OrgUnit>, id: string, i: nat, j: nat)
    ensures Up(units, id, i + j) ==
            match Up(units, id, i) { case None => None case Some(a) => Up(units, a, j) }
    decreases i
  {
    if i > 0 {
      match ParentOf(units, id)
      case None =>
      case Some(p) => UpCompose(units, p, i - 1, j);
    }
  }

  /** A chain ends at a parentless unit after one number of steps only. */
  lemma LevelUnique(units: seq<OrgUnit>, root: string, id: string, i: nat, j: nat)
    requires ParentOf(units, root).None?
    requires Up(units, id, i) == Some(root) && Up(units, id, j) == Some(root)
    ensures i == j
  {
    var a, b := if i < j then i else j, if i < j then j else i;
    UpCompose(units, id, a, b - a);
  }

  ghost predicate OnChain(units: seq<OrgUnit>, id: string, k: nat, x: string) {
    exists i: nat :: i <= k && Up(units, id, i) == Some(x)
  }

  lemma {:induction false} ChainSet(units: seq<OrgUnit>, root: string, u: OrgUnit, k: nat) returns (chain: set<string>)
    requires At(units, root, u, k)
    ensures |chain| == k + 1
    ensures forall id :: id in chain ==> UnitOf(units, id).Some? && OnChain(units, u.id, k, id)
    decreases k
  {
    UnitOfMember(units, u);
    if k == 0 {
      chain := {u.id};
      assert Up(units, u.id, 0) == Some(u.id);
    } else {
      var p := ParentOf(units, u.id).value;
      UnitOfFound(units, p);
      assert Up(units, p, k - 1) == Some(root);
      assert k == 1 || ParentOf(units, p).Some?;
      var above := ChainSet(units, root, UnitOf(units, p).value, k - 1);
      forall id | id in above ensures OnChain(units, u.id, k, id) {
        var i: nat :| i <= k - 1 && Up(units, p, i) == Some(id);
        assert Up(units, u.id, i + 1) == Some(id);
      }
      if u.id in above {
        var i: nat :| i <= k - 1 && Up(units, p, i) == Some(u.id);
        UpCompose(units, u.id, i + 1, k);
        LevelUnique(units, root, u.id, k, i + 1 + k);
      }
      chain := above + {u.id};
      assert Up(units, u.id, 0) == Some(u.id);
    }
  }

  lemma {:induction false} FewIds(units: seq<OrgUnit>, ids: set<string>)
    requires forall id :: id in ids ==> UnitOf(units, id).Some?
    ensures |ids| <= |units|
  {
    if units != [] {
      var n := |units| - 1;
      FewIds(units[..n], ids - {units[n].id});
    } else {
      assert forall id :: id in ids ==> UnitOf(units, id).Some?;
      assert ids == {};
    }
  }

  /** A chain is shorter than the list: this is what makes the tree below a parentless unit finite. */
  lemma DepthBound(units: seq<OrgUnit>, root: string, u: OrgUnit, k: nat)
    requires At(units, root, u, k)
    ensures k < |units|
  {
    var chain := ChainSet(units, root, u, k);
    FewIds(units, chain);
  }

  lemma ChildrenAt(units: seq<OrgUnit>, root: string, u: OrgUnit, k: nat)
    requires At(units, root, u, k)
    ensures forall c :: c in ChildUnits(units, u.id) ==> At(units, root, c, k + 1)
  {
    forall c | c in ChildUnits(units, u.id) ensures At(units, root, c, k + 1) {
      ChildUnitsMember(units, u.id, c);
      UnitOfMember(units, c);
    }
  }

  /** The tree `buildTree` hangs below `u`. */
  function Build(units: seq<OrgUnit>, root: string, u: OrgUnit, k: nat): Tree
    requires At(units, root, u, k)
    decreases |units| - k, 0
  {
    DepthBound(units, root, u, k);
    ChildrenAt(units, root, u, k);
    Tree(u, BuildAll(units, root, ChildUnits(units, u.id), k + 1))
  }

  lemma BuildUnfold(units: seq<OrgUnit>, root: string, u: OrgUnit, k: nat)
    requires At(units, root, u, k)
    ensures k < |units| && forall c :: c in ChildUnits(units, u.id) ==> At(units, root, c, k + 1)
    ensures Build(units, root, u, k) == Tree(u, BuildAll(units, root, ChildUnits(units, u.id), k + 1))
  {
    DepthBound(units, root, u, k);
    ChildrenAt(units, root, u, k);
  }

  function BuildAll(units: seq<OrgUnit>, root: string, kids: seq<OrgUnit>, k: nat): seq<Tree>
    requires forall c :: c in kids ==> At(units, root, c, k)
    ensures |BuildAll(units, root, kids, k)| == |kids|
    ensures forall i :: 0 <= i < |kids| ==> BuildAll(units, root, kids, k)[i] == Build(units, root, kids[i], k)
    decreases |units| - k, 1 + |kids|
  {
    if kids == [] then []
    else
      DepthBound(units, root, kids[0], k);
      [Build(units, root, kids[0], k)] + BuildAll(units, root, kids[1..], k)
  }

  lemma RootAt(units: seq<OrgUnit>)
    requires UniqueIds(units) && RootUnit(units).Some?
    ensures At(units, RootUnit(units).value.id, RootUnit(units).value, 0)
  {
    RootUnitFound(units);
    UnitOfMember(units, RootUnit(units).value);
  }

  /** The tree `buildTree` returns, if the list has a parentless unit. */
  function BuiltTree(units: seq<OrgUnit>): Tree
    requires UniqueIds(units) && RootUnit(units).Some?
  {
    RootAt(units);
    Build(units, RootUnit(units).value.id, RootUnit(units).value, 0)
  }

  // ----- Which units the tree holds -----

  function Preorder(t: Tree): seq<OrgUnit> {
    [t.unit] + PreorderAll(t.children)
  }

  function PreorderAll(ts: seq<Tree>): seq<OrgUnit> {
    if ts == [] then [] else Preorder(ts[0]) + PreorderAll(ts[1..])
  }

  lemma {:induction false} PreorderAllMember(ts: seq<Tree>, x: OrgUnit)
    ensures x in PreorderAll(ts) <==> exists i :: 0 <= i < |ts| && x in Preorder(ts[i])
  {
    if ts != [] {
      PreorderAllMember(ts[1..], x);
      if i :| 0 <= i < |ts| && x in Preorder(ts[i]) {
        if i > 0 { assert ts[1..][i - 1] == ts[i]; }
      }
      if i :| 0 <= i < |ts[1..]| && x in Preorder(ts[1..][i]) { assert ts[i + 1] == ts[1..][i]; }
    }
  }

  ghost predicate Below(units: seq<OrgUnit>, a: string, x: OrgUnit) {
    x in units && exists m: nat :: Up(units, x.id, m) == Some(a)
  }

  /** What is below a child is below its parent. */
  lemma BelowParent(units: seq<OrgUnit>, u: OrgUnit, c: OrgUnit, x: OrgUnit)
    requires UniqueIds(units) && c in ChildUnits(units, u.id) && Below(units, c.id, x)
    ensures Below(units, u.id, x)
  {
    ChildUnitsMember(units, u.id, c);
    UnitOfMember(units, c);
    var m: nat :| Up(units, x.id, m) == Some(c.id);
    UpCompose(units, x.id, m, 1);
    assert Up(units, c.id, 1) == Some(u.id);
    assert Up(units, x.id, m + 1) == Some(u.id);
  }

  /** The tree below `u` holds exactly the units whose parent chain passes through `u`. */
  lemma {:induction false} BuildMembers(units: seq<OrgUnit>, root: string, u: OrgUnit, k: nat, x: OrgUnit)
    requires At(units, root, u, k)
    ensures x in Preorder(Build(units, root, u, k)) <==> Below(units, u.id, x)
    decreases |units| - k
  {
    DepthBound(units, root, u, k);
    ChildrenAt(units, root, u, k);
    var kids := ChildUnits(units, u.id);
    var trees := BuildAll(units, root, kids, k + 1);
    forall i | 0 <= i < |kids|
      ensures At(units, root, kids[i], k + 1)
      ensures x in Preorder(trees[i]) <==> Below(units, kids[i].id, x)
    {
      assert kids[i] in kids;
      DepthBound(units, root, kids[i], k + 1);
      BuildMembers(units, root, kids[i], k + 1, x);
    }
    MembersFromChildren(units, u, kids, trees, x);
    assert Build(units, root, u, k) == Tree(u, trees);
  }

  lemma MembersFromChildren(units: seq<OrgUnit>, u: OrgUnit, kids: seq<OrgUnit>, trees: seq<Tree>, x: OrgUnit)
    requires UniqueIds(units) && u in units && kids == ChildUnits(units, u.id) && |trees| == |kids|
    requires forall i :: 0 <= i < |kids| ==> (x in Preorder(trees[i]) <==> Below(units, kids[i].id, x))
    ensures x in Preorder(Tree(u, trees)) <==> Below(units, u.id, x)
  {
    PreorderAllMember(trees, x);
    if x == u {
      assert Up(units, u.id, 0) == Some(u.id);
    } else if i :| 0 <= i < |trees| && x in Preorder(trees[i]) {
      BelowParent(units, u, kids[i], x);
    } else if Below(units, u.id, x) {
      var c := StepBelow(units, u, x);
    }
  }

  /** A unit below `u`, other than `u`, is below one of the children of `u`. */
  lemma StepBelow(units: seq<OrgUnit>, u: OrgUnit, x: OrgUnit) returns (c: OrgUnit)
    requires UniqueIds(units) && u in units && Below(units, u.id, x) && x != u
    ensures c in ChildUnits(units, u.id) && Below(units, c.id, x)
  {
    var m: nat :| Up(units, x.id, m) == Some(u.id);
    UnitOfMember(units, u);
    UnitOfMember(units, x);
    assert m > 0;
    UpCompose(units, x.id, m - 1, 1);
    var id := Up(units, x.id, m - 1).value;
    assert Up(units, id, 1) == Some(u.id);
    UnitOfFound(units, id);
    c := UnitOf(units, id).value;
    ChildUnitsMember(units, u.id, c);
    assert Below(units, c.id, x);
  }

  /** No unit is below two different children of one parent. */
  lemma SiblingsApart(units: seq<OrgUnit>, root: string, c: OrgUnit, d: OrgUnit, k: nat, x: OrgUnit)
    requires At(units, root, c, k) && At(units, root, d, k)
    requires Below(units, c.id, x) && Below(units, d.id, x)
    ensures c == d
  {
    var m: nat :| Up(units, x.id, m) == Some(c.id);
    var n: nat :| Up(units, x.id, n) == Some(d.id);
    UpCompose(units, x.id, m, k);
    UpCompose(units, x.id, n, k);
    LevelUnique(units, root, x.id, m + k, n + k);
    UnitOfMember(units, c);
    UnitOfMember(units, d);
  }

  lemma {:induction false} ChildUnitsUnique(units: seq<OrgUnit>, id: string)
    requires UniqueIds(units)
    ensures UniqueIds(ChildUnits(units, id))
  {
    if units != [] {
      var n := |units| - 1;
      ChildUnitsUnique(units[..n], id);
      var kids := ChildUnits(units[..n], id);
      forall i | 0 <= i < |kids| ensures kids[i].id != units[n].id {
        assert kids[i] in kids;
        ChildUnitsMember(units[..n], id, kids[i]);
      }
    }
  }

  lemma {:induction false} PreorderAllUnique(ts: seq<Tree>)
    requires forall i :: 0 <= i < |ts| ==> UniqueIds(Preorder(ts[i]))
    requires forall i, j, x, y :: 0 <= i < j < |ts| && x in Preorder(ts[i]) && y in Preorder(ts[j]) ==> x.id != y.id
    ensures UniqueIds(PreorderAll(ts))
  {
    if ts != [] {
      PreorderAllUnique(ts[1..]);
      var first, rest := Preorder(ts[0]), PreorderAll(ts[1..]);
      forall i, j | 0 <= i < |first| && 0 <= j < |rest| ensures first[i].id != rest[j].id {
        assert first[i] in first && rest[j] in rest;
        PreorderAllMember(ts[1..], rest[j]);
      }
    }
  }

  /** The tree holds no unit twice. */
  lemma {:induction false} BuildUnique(units: seq<OrgUnit>, root: string, u: OrgUnit, k: nat)
    requires At(units, root, u, k)
    ensures UniqueIds(Preorder(Build(units, root, u, k)))
    decreases |units| - k
  {
    DepthBound(units, root, u, k);
    ChildrenAt(units, root, u, k);
    var kids := ChildUnits(units, u.id);
    var trees := BuildAll(units, root, kids, k + 1);
    forall i | 0 <= i < |kids|
      ensures UniqueIds(Preorder(trees[i])) && kids[i] in kids
      ensures forall x :: x in Preorder(trees[i]) ==> Below(units, kids[i].id, x)
    {
      assert kids[i] in kids;
      DepthBound(units, root, kids[i], k + 1);
      BuildUnique(units, root, kids[i], k + 1);
      forall x | x in Preorder(trees[i]) ensures Below(units, kids[i].id, x) {
        BuildMembers(units, root, kids[i], k + 1, x);
      }
    }
    UniqueFromChildren(units, root, u, k, kids, trees);
    assert Build(units, root, u, k) == Tree(u, trees);
  }

  /** The trees of the children hold only what is below each child. */
  ghost predicate TreesBelow(units: seq<OrgUnit>, root: string, k: nat, kids: seq<OrgUnit>, trees: seq<Tree>) {
    && |trees| == |kids|
    && (forall i :: 0 <= i < |kids| ==> At(units, root, kids[i], k))
    && (forall i, x :: 0 <= i < |kids| && x in Preorder(trees[i]) ==> Below(units, kids[i].id, x))
  }

  lemma UniqueFromChildren(
    units: seq<OrgUnit>, root: string, u: OrgUnit, k: nat, kids: seq<OrgUnit>, trees: seq<Tree>
  )
    requires At(units, root, u, k) && kids == ChildUnits(units, u.id) && TreesBelow(units, root, k + 1, kids, trees)
    requires forall i :: 0 <= i < |kids| ==> UniqueIds(Preorder(trees[i]))
    ensures UniqueIds(Preorder(Tree(u, trees)))
  {
    ChildUnitsUnique(units, u.id);
    TreesApart(units, root, k + 1, kids, trees);
    PreorderAllUnique(trees);
    RootApart(units, root, u, k, kids, trees);
    var below := PreorderAll(trees);
    forall n | 0 <= n < |below| ensures below[n].id != u.id { assert below[n] in below; }
  }

  lemma TreesApart(units: seq<OrgUnit>, root: string, k: nat, kids: seq<OrgUnit>, trees: seq<Tree>)
    requires UniqueIds(kids) && TreesBelow(units, root, k, kids, trees)
    ensures forall i, j, x, y :: 0 <= i < j < |trees| && x in Preorder(trees[i]) && y in Preorder(trees[j]) ==> x.id != y.id
  {
    forall i, j, x, y | 0 <= i < j < |trees| && x in Preorder(trees[i]) && y in Preorder(trees[j])
      ensures x.id != y.id
    {
      ApartFromSibling(units, root, kids[i], kids[j], k, x, y);
    }
  }

  lemma RootApart(
    units: seq<OrgUnit>, root: string, u: OrgUnit, k: nat, kids: seq<OrgUnit>, trees: seq<Tree>
  )
    requires At(units, root, u, k) && TreesBelow(units, root, k + 1, kids, trees)
    ensures forall x :: x in PreorderAll(trees) ==> x.id != u.id
  {
    forall x | x in PreorderAll(trees) ensures x.id != u.id {
      PreorderAllMember(trees, x);
      var i :| 0 <= i < |trees| && x in Preorder(trees[i]);
      NotBelowItself(units, root, u, k, kids[i], x);
    }
  }

  lemma ApartFromSibling(units: seq<OrgUnit>, root: string, c: OrgUnit, d: OrgUnit, k: nat, x: OrgUnit, y: OrgUnit)
    requires At(units, root, c, k) && At(units, root, d, k) && c != d
    requires Below(units, c.id, x) && Below(units, d.id, y)
    ensures x.id != y.id
  {
    if x.id == y.id {
      UnitOfMember(units, x);
      UnitOfMember(units, y);
      SiblingsApart(units, root, c, d, k, x);
    }
  }

  lemma NotBelowItself(units: seq<OrgUnit>, root: string, u: OrgUnit, k: nat, c: OrgUnit, x: OrgUnit)
    requires At(units, root, u, k) && At(units, root, c, k + 1) && Below(units, c.id, x)
    ensures x.id != u.id
  {
    var m: nat :| Up(units, x.id, m) == Some(c.id);
    UpCompose(units, x.id, m, k + 1);
    if x.id == u.id { LevelUnique(units, root, u.id, k, m + k + 1); }
  }

  /**
   * For every list with unique ids, dangling parents and parent cycles included, the tree
   * holds exactly the units whose parent chain ends at the last parentless unit, each once.
   */
  lemma TreeHoldsReachableUnits(units: seq<OrgUnit>)
    requires UniqueIds(units) && RootUnit(units).Some?
    ensures forall x :: x in Preorder(BuiltTree(units)) <==> Below(units, RootUnit(units).value.id, x)
    ensures UniqueIds(Preorder(BuiltTree(units)))
  {
    RootAt(units);
    var root := RootUnit(units).value;
    forall x ensures x in Preorder(BuiltTree(units)) <==> Below(units, root.id, x) {
      BuildMembers(units, root.id, root, 0, x);
    }
    BuildUnique(units, root.id, root, 0);
  }

  // ----- When the recursion below a unit ends, for any list -----

  /** A recursion over child units, as deep as `n` calls, ends below `id`. */
  ghost predicate Ends(units: seq<OrgUnit>, id: string, n: nat)
    decreases n
  {
    n > 0 && forall u :: u in ChildUnits(units, id) ==> Ends(units, u.id, n - 1)
  }

  ghost predicate IsChild(units: seq<OrgUnit>, parent: string, child: string) {
    exists u :: u in ChildUnits(units, parent) && u.id == child
  }

  /** A chain of ids downwards, each the id of a unit that points to the one before. */
  ghost predicate Chain(units: seq<OrgUnit>, id: string, ids: seq<string>) {
    && ids != [] && ids[0] == id
    && forall i :: 0 <= i < |ids| - 1 ==> IsChild(units, ids[i], ids[i + 1])
  }

  ghost predicate RepeatsAt(units: seq<OrgUnit>, id: string, ids: seq<string>, i: nat, j: nat) {
    Chain(units, id, ids) && i < j < |ids| && ids[i] == ids[j]
  }

  /** Some chain down from `id` comes back to an id it has already passed. */
  ghost predicate Repeats(units: seq<OrgUnit>, id: string) {
    exists ids: seq<string>, i: nat, j: nat :: RepeatsAt(units, id, ids, i, j)
  }

  lemma {:induction false} ChainsAreShort(units: seq<OrgUnit>, id: string, n: nat, ids: seq<string>)
    requires Ends(units, id, n) && Chain(units, id, ids)
    ensures |ids| <= n
    decreases n
  {
    if |ids| > 1 {
      assert IsChild(units, ids[0], ids[0 + 1]);
      var u :| u in ChildUnits(units, id) && u.id == ids[1];
      var rest := ids[1..];
      forall i | 0 <= i < |rest| - 1 ensures IsChild(units, rest[i], rest[i + 1]) {
        assert IsChild(units, ids[i + 1], ids[i + 1 + 1]);
      }
      ChainsAreShort(units, u.id, n - 1, rest);
    }
  }

  lemma {:induction false} LongChain(units: seq<OrgUnit>, id: string, n: nat) returns (ids: seq<string>)
    requires !Ends(units, id, n)
    ensures Chain(units, id, ids) && |ids| == n + 1
    decreases n
  {
    ids := [id];
    if n > 0 {
      var u :| u in ChildUnits(units, id) && !Ends(units, u.id, n - 1);
      var below := LongChain(units, u.id, n - 1);
      ids := [id] + below;
      assert IsChild(units, id, u.id);
      forall i | 0 <= i < |ids| - 1 ensures IsChild(units, ids[i], ids[i + 1]) {
        if i > 0 { assert IsChild(units, below[i - 1], below[i - 1 + 1]); }
      }
    }
  }

  /** Walking round a loop of a chain again and again. */
  lemma {:induction false} GoRound(units: seq<OrgUnit>, id: string, ids: seq<string>, i: nat, j: nat, n: nat)
    returns (longer: seq<string>)
    requires RepeatsAt(units, id, ids, i, j)
    ensures Chain(units, id, longer) && |longer| > n && longer[|longer| - 1] == ids[i]
    decreases n
  {
    if n == 0 {
      longer := ids[..i + 1];
    } else {
      var before := GoRound(units, id, ids, i, j, n - 1);
      longer := before + ids[i + 1..j + 1];
      forall k | 0 <= k < |longer| - 1 ensures IsChild(units, longer[k], longer[k + 1]) {
        if k >= |before| - 1 {
          var m := i + (k - (|before| - 1));
          assert longer[k] == ids[m] && longer[k + 1] == ids[m + 1];
        }
      }
    }
  }

  lemma {:induction false} DistinctIds(ids: seq<string>) returns (all: set<string>)
    requires forall i, j :: 0 <= i < j < |ids| ==> ids[i] != ids[j]
    ensures |all| == |ids| && forall id :: id in all <==> id in ids
  {
    all := {};
    if ids != [] {
      var rest := DistinctIds(ids[1..]);
      assert forall j :: 1 <= j < |ids| ==> ids[j] == ids[1..][j - 1];
      all := rest + {ids[0]};
      assert ids == [ids[0]] + ids[1..];
    }
  }

  lemma ChainIds(units: seq<OrgUnit>, id: string, ids: seq<string>)
    requires UnitOf(units, id).Some? && Chain(units, id, ids)
    ensures forall x :: x in ids ==> UnitOf(units, x).Some?
  {
    forall k | 0 <= k < |ids| ensures UnitOf(units, ids[k]).Some? {
      if k > 0 {
        assert IsChild(units, ids[k - 1], ids[k - 1 + 1]);
        var u :| u in ChildUnits(units, ids[k - 1]) && u.id == ids[k];
        ChildUnitsMember(units, ids[k - 1], u);
        UnitOfFound(units, ids[k]);
      }
    }
  }

  lemma EndingNeverRepeats(units: seq<OrgUnit>, id: string, n: nat)
    requires Ends(units, id, n)
    ensures !Repeats(units, id)
  {
    if ids, i: nat, j: nat :| RepeatsAt(units, id, ids, i, j) {
      var longer := GoRound(units, id, ids, i, j, n);
      ChainsAreShort(units, id, n, longer);
      assert false;
    }
  }

  lemma DeepRecursionRepeats(units: seq<OrgUnit>, id: string)
    requires UnitOf(units, id).Some? && !Ends(units, id, |units|)
    ensures Repeats(units, id)
  {
    var ids := LongChain(units, id, |units|);
    ChainIds(units, id, ids);
    if forall i, j :: 0 <= i < j < |ids| ==> ids[i] != ids[j] {
      var all := DistinctIds(ids);
      FewIds(units, all);
      assert false;
    } else {
      var i: nat, j: nat :| i < j < |ids| && ids[i] == ids[j];
      assert RepeatsAt(units, id, ids, i, j);
    }
  }

  /**
   * For every list, with or without repeated ids: the recursion below a unit ends exactly if no chain
   * of child ids comes back to an id it has passed; it is then no deeper than the list is long.
   */
  lemma RecursionEndsIff(units: seq<OrgUnit>, id: string)
    requires UnitOf(units, id).Some?
    ensures (exists n: nat :: Ends(units, id, n)) <==> !Repeats(units, id)
    ensures !Repeats(units, id) ==> Ends(units, id, |units|)
  {
    if !Repeats(units, id) {
      if !Ends(units, id, |units|) {
        DeepRecursionRepeats(units, id);
      }
      assert Ends(units, id, |units|);
    } else if n: nat :| Ends(units, id, n) {
      EndingNeverRepeats(units, id, n);
    }
  }

  /** Unique ids are enough: below the root of a list with unique ids nothing repeats. */
  lemma {:induction false} UniqueIdsEnd(units: seq<OrgUnit>, root: string, u: OrgUnit, k: nat)
    requires At(units, root, u, k)
    ensures k < |units| && Ends(units, u.id, |units| - k)
    decreases |units| - k
  {
    DepthBound(units, root, u, k);
    ChildrenAt(units, root, u, k);
    forall c | c in ChildUnits(units, u.id) ensures Ends(units, c.id, |units| - k - 1) {
      UniqueIdsEnd(units, root, c, k + 1);
    }
  }

  /** They are not necessary: here two units share an id, and the recursion ends. */
  lemma RepeatedIdCanEnd()
    ensures var r := OrgUnit("r", "R", "", None);
            var x := OrgUnit("x", "X", "", Some("r"));
            !UniqueIds([r, x, x]) && RootUnit([r, x, x]) == Some(r)
            && ChildUnits([r, x, x], "r") == [x, x] && Ends([r, x, x], "r", 2)
  {
    var r, x := OrgUnit("r", "R", "", None), OrgUnit("x", "X", "", Some("r"));
    var units := [r, x, x];
    assert units[..2] == [r, x] && units[..2][..1] == [r] && units[..2][..1][..0] == [];
    assert units[1].id == units[2].id;
    assert ChildUnits([r], "r") == [] && ChildUnits([r], "x") == [];
    assert ChildUnits([r, x], "r") == [] + [x] && ChildUnits([r, x], "x") == [];
    assert ChildUnits(units, "x") == [] + [];
    assert Ends(units, "x", 1);
  }

  /** A repeated id can also close a cycle: here the root becomes its own child, and the recursion does not end. */
  lemma RepeatedIdClosesCycle()
    ensures var a := OrgUnit("a", "A", "", None);
            var b := OrgUnit("a", "A", "", Some("a"));
            && RootUnit([a, b]) == Some(a)
            && ChildUnits([a, b], a.id) == [b] && b.id == a.id
            && forall n: nat :: !Ends([a, b], a.id, n)
  {
    var a, b := OrgUnit("a", "A", "", None), OrgUnit("a", "A", "", Some("a"));
    var units := [a, b];
    assert units[..1] == [a];
    assert [a][..0] == [];
    assert ChildUnits([a], "a") == [];
    assert b in ChildUnits(units, "a");
    var ids := ["a", "a"];
    assert IsChild(units, ids[0], ids[1]);
    assert RepeatsAt(units, "a", ids, 0, 1);
    RecursionEndsIff(units, "a");
  }

  // ----- The tree that the recursion unfolds, for any list -----

  lemma ChildrenFound(units: seq<OrgUnit>, id: string)
    ensures forall u :: u in ChildUnits(units, id) ==> UnitOf(units, u.id).Some?
  {
    forall u | u in ChildUnits(units, id) ensures UnitOf(units, u.id).Some? {
      ChildUnitsMember(units, id, u);
      UnitOfFound(units, u.id);
    }
  }

  /** The tree of calls below a unit, at most `n` deep; a unit that is reached twice occurs in it twice. */
  ghost function Unfold(units: seq<OrgUnit>, id: string, n: nat): Tree
    requires UnitOf(units, id).Some? && Ends(units, id, n)
    decreases n, 0
  {
    ChildrenFound(units, id);
    Tree(UnitOf(units, id).value, UnfoldAll(units, ChildUnits(units, id), n - 1))
  }

  ghost function UnfoldAll(units: seq<OrgUnit>, kids: seq<OrgUnit>, n: nat): (ts: seq<Tree>)
    requires forall u :: u in kids ==> UnitOf(units, u.id).Some? && Ends(units, u.id, n)
    ensures |ts| == |kids|
    ensures forall i :: 0 <= i < |kids| ==> ts[i] == Unfold(units, kids[i].id, n)
    decreases n, 1 + |kids|
  {
    if kids == [] then [] else [Unfold(units, kids[0].id, n)] + UnfoldAll(units, kids[1..], n)
  }

  /** The tree below the root, if the recursion ends. */
  ghost function ChartTree(units: seq<OrgUnit>): Tree
    requires RootUnit(units).Some? && !Repeats(units, RootUnit(units).value.id)
  {
    var id := RootUnit(units).value.id;
    RootUnitFound(units);
    UnitOfFound(units, id);
    RecursionEndsIff(units, id);
    Unfold(units, id, |units|)
  }

  ghost predicate LeadsTo(units: seq<OrgUnit>, ids: seq<string>, id: string, x: OrgUnit) {
    Chain(units, id, ids) && UnitOf(units, ids[|ids| - 1]) == Some(x)
  }

  lemma ChainDown(units: seq<OrgUnit>, id: string, c: OrgUnit, below: seq<string>)
    requires c in ChildUnits(units, id) && Chain(units, c.id, below)
    ensures Chain(units, id, [id] + below)
  {
    var ids := [id] + below;
    forall i | 0 <= i < |ids| - 1 ensures IsChild(units, ids[i], ids[i + 1]) {
      if i > 0 { assert IsChild(units, below[i - 1], below[i - 1 + 1]); }
    }
  }

  lemma ChainTail(units: seq<OrgUnit>, id: string, ids: seq<string>) returns (c: OrgUnit)
    requires Chain(units, id, ids) && |ids| > 1
    ensures c in ChildUnits(units, id) && Chain(units, c.id, ids[1..])
  {
    assert IsChild(units, ids[0], ids[0 + 1]);
    c :| c in ChildUnits(units, id) && c.id == ids[1];
    var rest := ids[1..];
    forall i | 0 <= i < |rest| - 1 ensures IsChild(units, rest[i], rest[i + 1]) {
      assert IsChild(units, ids[i + 1], ids[i + 1 + 1]);
    }
  }

  lemma UnfoldStep(units: seq<OrgUnit>, id: string, n: nat)
    requires UnitOf(units, id).Some? && Ends(units, id, n)
    ensures n > 0 && Unfold(units, id, n).unit == UnitOf(units, id).value
    ensures |Unfold(units, id, n).children| == |ChildUnits(units, id)|
    ensures forall i :: 0 <= i < |ChildUnits(units, id)| ==>
              var c := ChildUnits(units, id)[i].id;
              && UnitOf(units, c).Some? && Ends(units, c, n - 1)
              && Unfold(units, id, n).children[i] == Unfold(units, c, n - 1)
  {
    ChildrenFound(units, id);
    var kids := ChildUnits(units, id);
    forall i | 0 <= i < |kids| ensures UnitOf(units, kids[i].id).Some? && Ends(units, kids[i].id, n - 1) {
      assert kids[i] in kids;
    }
  }

  ghost predicate Led(units: seq<OrgUnit>, id: string, x: OrgUnit) {
    exists ids :: LeadsTo(units, ids, id, x)
  }

  lemma LedFromChildren(units: seq<OrgUnit>, id: string, trees: seq<Tree>, x: OrgUnit)
    requires UnitOf(units, id).Some? && |trees| == |ChildUnits(units, id)|
    requires forall i :: 0 <= i < |trees| ==> (x in Preorder(trees[i]) <==> Led(units, ChildUnits(units, id)[i].id, x))
    ensures x in Preorder(Tree(UnitOf(units, id).value, trees)) <==> Led(units, id, x)
  {
    var kids := ChildUnits(units, id);
    PreorderAllMember(trees, x);
    if x == UnitOf(units, id).value {
      assert LeadsTo(units, [id], id, x);
    } else if i :| 0 <= i < |trees| && x in Preorder(trees[i]) {
      var below :| LeadsTo(units, below, kids[i].id, x);
      assert kids[i] in kids;
      ChainDown(units, id, kids[i], below);
      assert LeadsTo(units, [id] + below, id, x);
    } else if ids :| LeadsTo(units, ids, id, x) {
      var c := ChainTail(units, id, ids);
      var i :| 0 <= i < |kids| && kids[i] == c;
      assert LeadsTo(units, ids[1..], kids[i].id, x);
      assert Led(units, kids[i].id, x);
    }
  }

  /** The tree holds exactly the units that a chain of child ids leads to. */
  lemma {:induction false} UnfoldHolds(units: seq<OrgUnit>, id: string, n: nat, x: OrgUnit)
    requires UnitOf(units, id).Some? && Ends(units, id, n)
    ensures x in Preorder(Unfold(units, id, n)) <==> Led(units, id, x)
    decreases n
  {
    UnfoldStep(units, id, n);
    var kids, trees := ChildUnits(units, id), Unfold(units, id, n).children;
    forall i | 0 <= i < |kids| ensures x in Preorder(trees[i]) <==> Led(units, kids[i].id, x) {
      UnfoldHolds(units, kids[i].id, n - 1, x);
    }
    LedFromChildren(units, id, trees, x);
  }

  lemma BuildStep(units: seq<OrgUnit>, root: string, u: OrgUnit, k: nat)
    requires At(units, root, u, k)
    ensures k < |units| && Build(units, root, u, k).unit == u
    ensures |Build(units, root, u, k).children| == |ChildUnits(units, u.id)|
    ensures forall i :: 0 <= i < |ChildUnits(units, u.id)| ==>
              var c := ChildUnits(units, u.id)[i];
              At(units, root, c, k + 1) && Build(units, root, u, k).children[i] == Build(units, root, c, k + 1)
  {
    BuildUnfold(units, root, u, k);
    var kids := ChildUnits(units, u.id);
    forall i | 0 <= i < |kids| ensures At(units, root, kids[i], k + 1) {
      assert kids[i] in kids;
    }
  }

  lemma SameTree(a: Tree, b: Tree)
    requires a.unit == b.unit && |a.children| == |b.children|
    requires forall i :: 0 <= i < |a.children| ==> a.children[i] == b.children[i]
    ensures a == b
  {
    assert a.children == b.children;
  }

  /** For a list with unique ids it is the tree built before. */
  lemma {:induction false} UnfoldIsBuild(units: seq<OrgUnit>, root: string, u: OrgUnit, k: nat, n: nat)
    requires At(units, root, u, k) && n + k == |units| && UnitOf(units, u.id) == Some(u) && Ends(units, u.id, n)
    ensures Unfold(units, u.id, n) == Build(units, root, u, k)
    decreases n
  {
    BuildStep(units, root, u, k);
    UnfoldStep(units, u.id, n);
    var kids := ChildUnits(units, u.id);
    var unfolded, built := Unfold(units, u.id, n), Build(units, root, u, k);
    forall i | 0 <= i < |kids| ensures unfolded.children[i] == built.children[i] {
      UnitOfMember(units, kids[i]);
      UnfoldIsBuild(units, root, kids[i], k + 1, n - 1);
    }
    SameTree(unfolded, built);
  }

  lemma UniqueIdsChart(units: seq<OrgUnit>)
    requires UniqueIds(units) && RootUnit(units).Some?
    ensures !Repeats(units, RootUnit(units).value.id) && ChartTree(units) == BuiltTree(units)
  {
    RootAt(units);
    var root := RootUnit(units).value;
    UnitOfMember(units, root);
    UniqueIdsEnd(units, root.id, root, 0);
    UnfoldIsBuild(units, root.id, root, 0, |units|);
    EndingNeverRepeats(units, root.id, |units|);
  }

  // ----- Round trip -----

  /** The tree with the units of the flat list in place of the nested organisation's nodes. */
  function TreeOf(o: Org, parentId: Option<string>): Tree {
    Tree(Head(o, parentId), TreesOf(o.subunits, Some(o.id)))
  }

  function TreesOf(orgs: seq<Org>, parentId: Option<string>): (ts: seq<Tree>)
    ensures |ts| == |orgs|
    ensures forall i :: 0 <= i < |orgs| ==> ts[i] == TreeOf(orgs[i], parentId)
  {
    if orgs == [] then [] else [TreeOf(orgs[0], parentId)] + TreesOf(orgs[1..], parentId)
  }

  /** Forgetting the parent pointers. */
  function Erase(t: Tree): Org {
    Org(t.unit.id, t.unit.name, t.unit.level, EraseAll(t.children))
  }

  function EraseAll(ts: seq<Tree>): seq<Org> {
    if ts == [] then [] else [Erase(ts[0])] + EraseAll(ts[1..])
  }

  lemma {:induction false} EraseTreeOf(o: Org, parentId: Option<string>)
    ensures Erase(TreeOf(o, parentId)) == o
    decreases o, 1
  {
    EraseTreesOf(o.subunits, Some(o.id));
  }

  lemma {:induction false} EraseTreesOf(orgs: seq<Org>, parentId: Option<string>)
    ensures EraseAll(TreesOf(orgs, parentId)) == orgs
    decreases orgs, 0
  {
    if orgs != [] {
      EraseTreeOf(orgs[0], parentId);
      EraseTreesOf(orgs[1..], parentId);
    }
  }

  lemma {:induction false} PreorderTreeOf(o: Org, parentId: Option<string>)
    ensures Preorder(TreeOf(o, parentId)) == Flatten(o, parentId)
    decreases o, 1
  {
    PreorderTreesOf(o.subunits, Some(o.id));
  }

  lemma {:induction false} PreorderTreesOf(orgs: seq<Org>, parentId: Option<string>)
    ensures PreorderAll(TreesOf(orgs, parentId)) == FlattenAll(orgs, parentId)
    decreases orgs, 0
  {
    if orgs != [] {
      PreorderTreeOf(orgs[0], parentId);
      PreorderTreesOf(orgs[1..], parentId);
    }
  }

  ghost predicate HasId(us: seq<OrgUnit>, id: string) {
    exists u :: u in us && u.id == id
  }

  /** No unit of `us` points to a unit of `target`. */
  ghost predicate NoPointers(us: seq<OrgUnit>, target: seq<OrgUnit>) {
    forall u :: u in us && Parent(u).Some? ==> !HasId(target, Parent(u).value)
  }

  /** Inside a flattened forest every unit points to the given parent or into the forest. */
  lemma {:induction false} PointersInside(orgs: seq<Org>, parentId: Option<string>)
    ensures forall u :: u in FlattenAll(orgs, parentId) ==>
              u.parentId == parentId || (u.parentId.Some? && HasId(FlattenAll(orgs, parentId), u.parentId.value))
    decreases orgs
  {
    if orgs != [] {
      var o := orgs[0];
      PointersInside(o.subunits, Some(o.id));
      PointersInside(orgs[1..], parentId);
      var all, first, inner, rest :=
        FlattenAll(orgs, parentId), Flatten(o, parentId), FlattenAll(o.subunits, Some(o.id)), FlattenAll(orgs[1..], parentId);
      forall u | u in all ensures u.parentId == parentId || (u.parentId.Some? && HasId(all, u.parentId.value)) {
        if u in inner {
          assert Head(o, parentId) in all;
        } else if u in rest && u.parentId != parentId {
          var v :| v in rest && v.id == u.parentId.value;
          assert v in all;
        }
      }
    }
  }

  lemma {:induction false} NoChildUnits(us: seq<OrgUnit>, id: string)
    requires forall u :: u in us ==> Parent(u) != Some(id)
    ensures ChildUnits(us, id) == []
  {
    if us != [] { NoChildUnits(us[..|us| - 1], id); }
  }

  function Heads(orgs: seq<Org>, parentId: Option<string>): (us: seq<OrgUnit>)
    ensures |us| == |orgs| && forall i :: 0 <= i < |orgs| ==> us[i] == Head(orgs[i], parentId)
  {
    if orgs == [] then [] else [Head(orgs[0], parentId)] + Heads(orgs[1..], parentId)
  }

  lemma {:induction false} ChildUnitsOfForest(orgs: seq<Org>, id: string)
    requires id != "" && !HasId(FlattenAll(orgs, Some(id)), id)
    ensures ChildUnits(FlattenAll(orgs, Some(id)), id) == Heads(orgs, Some(id))
    decreases |orgs|
  {
    if orgs != [] {
      var o := orgs[0];
      var head, inner, rest := [Head(o, Some(id))], FlattenAll(o.subunits, Some(o.id)), FlattenAll(orgs[1..], Some(id));
      assert FlattenAll(orgs, Some(id)) == head + inner + rest;
      assert Head(o, Some(id)) in FlattenAll(orgs, Some(id));
      assert forall u :: u in inner || u in rest ==> u in FlattenAll(orgs, Some(id));
      PointersInside(o.subunits, Some(o.id));
      NoChildUnits(inner, id);
      ChildUnitsOfForest(orgs[1..], id);
      ChildUnitsConcat(head + inner, rest, id);
      ChildUnitsConcat(head, inner, id);
      assert ChildUnits(head, id) == head by { assert head[..0] == []; }
    }
  }

  lemma UniqueParts(a: seq<OrgUnit>, b: seq<OrgUnit>)
    requires UniqueIds(a + b)
    ensures forall x, y :: x in a && y in b ==> x.id != y.id
  {
    forall x, y | x in a && y in b ensures x.id != y.id {
      var i :| 0 <= i < |a| && a[i] == x;
      var j :| 0 <= j < |b| && b[j] == y;
      assert (a + b)[i] == x && (a + b)[|a| + j] == y;
    }
  }

  /** The children `buildTree` gives a unit are the heads of its subunits. */
  lemma ChildUnitsOfOrg(units: seq<OrgUnit>, o: Org, parentId: Option<string>, pre: seq<OrgUnit>, post: seq<OrgUnit>)
    requires units == pre + Flatten(o, parentId) + post && UniqueIds(units) && o.id != ""
    requires NoPointers(pre, Flatten(o, parentId)) && NoPointers(post, Flatten(o, parentId))
    requires NoPointers([Head(o, parentId)], Flatten(o, parentId))
    ensures ChildUnits(units, o.id) == Heads(o.subunits, Some(o.id))
  {
    var head, inner := [Head(o, parentId)], FlattenAll(o.subunits, Some(o.id));
    assert Head(o, parentId) in Flatten(o, parentId) && HasId(Flatten(o, parentId), o.id);
    assert units == (pre + head) + (inner + post);
    UniqueParts(pre + head, inner + post);
    assert !HasId(inner, o.id) by {
      assert Head(o, parentId) in pre + head;
      assert forall u :: u in inner ==> u in inner + post;
    }
    NoChildUnits(pre, o.id);
    NoChildUnits(head, o.id);
    NoChildUnits(post, o.id);
    ChildUnitsOfForest(o.subunits, o.id);
    ChildUnitsConcat(pre + head, inner + post, o.id);
    ChildUnitsConcat(pre, head, o.id);
    ChildUnitsConcat(inner, post, o.id);
  }

  ghost predicate NonEmptyIds(us: seq<OrgUnit>) {
    forall u :: u in us ==> u.id != ""
  }

  /** Where the flat list of the `i`-th subunit lies inside that of its parent. */
  lemma SubunitSplit(o: Org, parentId: Option<string>, i: nat) returns (left: seq<OrgUnit>, right: seq<OrgUnit>)
    requires i < |o.subunits|
    ensures Flatten(o, parentId) ==
            ([Head(o, parentId)] + left) + Flatten(o.subunits[i], Some(o.id)) + right
    ensures forall u :: u in left ==> u.parentId == Some(o.id) || (u.parentId.Some? && HasId(left, u.parentId.value))
    ensures forall u :: u in right ==> u.parentId == Some(o.id) || (u.parentId.Some? && HasId(right, u.parentId.value))
  {
    var id := Some(o.id);
    left, right := FlattenAll(o.subunits[..i], id), FlattenAll(o.subunits[i + 1..], id);
    FlattenAllSplit(o.subunits, i, id);
    PointersInside(o.subunits[..i], id);
    PointersInside(o.subunits[i + 1..], id);
  }

  lemma FlattenAllSplit(orgs: seq<Org>, i: nat, id: Option<string>)
    requires i < |orgs|
    ensures FlattenAll(orgs, id) == FlattenAll(orgs[..i], id) + Flatten(orgs[i], id) + FlattenAll(orgs[i + 1..], id)
  {
    FlattenAllSnoc(orgs, i, id);
    FlattenAllConcat(orgs[..i + 1], orgs[i + 1..], id);
    assert orgs[..i + 1] + orgs[i + 1..] == orgs;
  }

  /** No id of the middle part occurs in the other two. */
  lemma MiddleApart(before: seq<OrgUnit>, sub: seq<OrgUnit>, after: seq<OrgUnit>)
    requires UniqueIds(before + sub + after)
    ensures forall id :: HasId(sub, id) ==> !HasId(before, id) && !HasId(after, id)
  {
    assert before + sub + after == before + (sub + after);
    UniqueParts(before, sub + after);
    UniqueParts(before + sub, after);
    assert forall u :: u in sub ==> u in sub + after && u in before + sub;
  }

  /** The part of the list that belongs to the `i`-th subunit, and what surrounds it. */
  lemma SubunitContext(
    units: seq<OrgUnit>, o: Org, parentId: Option<string>, pre: seq<OrgUnit>, post: seq<OrgUnit>, i: nat
  ) returns (before: seq<OrgUnit>, after: seq<OrgUnit>)
    requires units == pre + Flatten(o, parentId) + post && UniqueIds(units) && i < |o.subunits|
    requires NoPointers(pre, Flatten(o, parentId)) && NoPointers(post, Flatten(o, parentId))
    requires NoPointers([Head(o, parentId)], Flatten(o, parentId))
    ensures units == before + Flatten(o.subunits[i], Some(o.id)) + after
    ensures var sub := Flatten(o.subunits[i], Some(o.id));
            NoPointers(before, sub) && NoPointers(after, sub) && NoPointers([Head(o.subunits[i], Some(o.id))], sub)
  {
    var all, head, sub := Flatten(o, parentId), Head(o, parentId), Flatten(o.subunits[i], Some(o.id));
    var left, right := SubunitSplit(o, parentId, i);
    before, after := pre + ([head] + left), right + post;
    assert units == before + sub + after;
    MiddleApart(before, sub, after);
    assert HasId(before, o.id) by { assert head in before; }
    forall id | HasId(sub, id) ensures HasId(all, id) && id != o.id && !HasId(left, id) && !HasId(right, id) {
      var u :| u in sub && u.id == id;
      assert u in all;
      assert forall v :: v in left ==> v in before;
      assert forall v :: v in right ==> v in after;
    }
    assert head in [head];
  }

  lemma {:induction false} Rebuilds(
    units: seq<OrgUnit>, root: string, o: Org, parentId: Option<string>, k: nat, pre: seq<OrgUnit>, post: seq<OrgUnit>
  )
    requires units == pre + Flatten(o, parentId) + post && NonEmptyIds(units)
    requires At(units, root, Head(o, parentId), k)
    requires NoPointers(pre, Flatten(o, parentId)) && NoPointers(post, Flatten(o, parentId))
    requires NoPointers([Head(o, parentId)], Flatten(o, parentId))
    ensures Build(units, root, Head(o, parentId), k) == TreeOf(o, parentId)
    decreases o
  {
    var u := Head(o, parentId);
    assert u in units;
    ChildUnitsOfOrg(units, o, parentId, pre, post);
    DepthBound(units, root, u, k);
    ChildrenAt(units, root, u, k);
    var kids := ChildUnits(units, u.id);
    forall i | 0 <= i < |kids|
      ensures At(units, root, kids[i], k + 1)
      ensures Build(units, root, kids[i], k + 1) == TreeOf(o.subunits[i], Some(o.id))
    {
      assert kids[i] in kids && kids[i] == Head(o.subunits[i], Some(o.id));
      var before, after := SubunitContext(units, o, parentId, pre, post, i);
      Rebuilds(units, root, o.subunits[i], Some(o.id), k + 1, before, after);
    }
    assert BuildAll(units, root, kids, k + 1) == TreesOf(o.subunits, Some(o.id));
  }

  lemma {:induction false} OnlyRoot(us: seq<OrgUnit>)
    requires us != [] && Parent(us[0]).None? && forall i :: 1 <= i < |us| ==> Parent(us[i]).Some?
    ensures RootUnit(us) == Some(us[0])
  {
    if |us| > 1 { OnlyRoot(us[..|us| - 1]); }
  }

  lemma FlattenHasOneRoot(o: Org)
    requires UniqueIds(Flatten(o, None)) && NonEmptyIds(Flatten(o, None))
    ensures RootUnit(Flatten(o, None)) == Some(Head(o, None))
  {
    var units, rest := Flatten(o, None), FlattenAll(o.subunits, Some(o.id));
    PointersInside(o.subunits, Some(o.id));
    assert Head(o, None) in units;
    forall i | 1 <= i < |units| ensures Parent(units[i]).Some? {
      assert units[i] == rest[i - 1] && rest[i - 1] in rest;
      assert forall u :: u in rest ==> u in units;
    }
    OnlyRoot(units);
  }

  lemma FlattenRebuilds(o: Org)
    requires UniqueIds(Flatten(o, None)) && NonEmptyIds(Flatten(o, None))
    requires RootUnit(Flatten(o, None)) == Some(Head(o, None))
    ensures BuiltTree(Flatten(o, None)) == TreeOf(o, None)
  {
    var units := Flatten(o, None);
    assert units == [] + units + [];
    RootAt(units);
    Rebuilds(units, o.id, o, None, 0, [], []);
  }

  /**
   * Round trip: for every organisation with unique non-empty ids, the tree built from its
   * flat list is the organisation again, with the order of subunits, and its preorder is the list.
   */
  lemma FlattenRoundTrip(o: Org)
    requires UniqueIds(Flatten(o, None)) && NonEmptyIds(Flatten(o, None))
    ensures RootUnit(Flatten(o, None)) == Some(Head(o, None))
    ensures Erase(BuiltTree(Flatten(o, None))) == o
    ensures Preorder(BuiltTree(Flatten(o, None))) == Flatten(o, None)
  {
    FlattenHasOneRoot(o);
    FlattenRebuilds(o);
    EraseTreeOf(o, None);
    PreorderTreeOf(o, None);
  }
}
