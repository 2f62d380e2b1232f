/** The tree of engineering plans and its flat table
    (apps/web/lib/engineering-plans-utils.ts). */
module PlanForest {
  import opened Keyed
  import opened Mapping
  import opened Options
  import opened Sorting
  import opened Texts

  datatype Plan = Plan(id: Text, parent: Option<Text>, sortOrder: int, created: Text)

  /** A plan as it appears in the flat table. */
  datatype Row = Row(plan: Plan, depth: nat)

  /** The collation of creation times, as a total preorder. */
  type Collation = (Text, Text) -> bool

  function PlanId(p: Plan): Text { p.id }

  function SiblingLe(collate: Collation): (Plan, Plan) -> bool {
    (a: Plan, b: Plan) => a.sortOrder < b.sortOrder || (a.sortOrder == b.sortOrder && collate(a.created, b.created))
  }

  lemma SiblingLePreorder(collate: Collation)
    requires TotalPreorder(collate)
    ensures TotalPreorder(SiblingLe(collate))
  {
    var le := SiblingLe(collate);
    forall a, b ensures le(a, b) || le(b, a) {
      assert collate(a.created, b.created) || collate(b.created, a.created);
    }
    forall a, b, c | le(a, b) && le(b, c) ensures le(a, c) {
      if a.sortOrder == b.sortOrder == c.sortOrder {
        assert collate(a.created, b.created) && collate(b.created, c.created);
      }
    }
  }

  // ---------- who is whose child ----------

  function Ids(plans: seq<Plan>): seq<Text> {
    Map(PlanId, plans)
  }

  predicate HasParent(plans: seq<Plan>, p: Plan) {
    p.parent.Some? && p.parent.value != [] && p.parent.value in Ids(plans)
  }

  predicate ChildOf(plans: seq<Plan>, p: Plan, parent: Plan) {
    HasParent(plans, p) && p.parent.value == parent.id
  }

  function IsTop(plans: seq<Plan>): Plan -> bool {
    (p: Plan) => !HasParent(plans, p)
  }

  function IsKid(plans: seq<Plan>, parent: Plan): Plan -> bool {
    (p: Plan) => ChildOf(plans, p, parent)
  }

  ghost predicate UniqueIds(plans: seq<Plan>) {
    forall i, j {:trigger IdsDiffer(plans, i, j)} | 0 <= i < j < |plans| :: IdsDiffer(plans, i, j)
  }

  ghost predicate IdsDiffer(plans: seq<Plan>, i: nat, j: nat)
    requires i < j < |plans|
  {
    plans[i].id != plans[j].id
  }

  function Tops(plans: seq<Plan>, le: (Plan, Plan) -> bool): seq<Plan> {
    SortBy(le, Filter(IsTop(plans), plans))
  }

  function Kids(plans: seq<Plan>, le: (Plan, Plan) -> bool, parent: Plan): seq<Plan> {
    SortBy(le, Filter(IsKid(plans, parent), plans))
  }

  lemma KidsAre(plans: seq<Plan>, le: (Plan, Plan) -> bool, parent: Plan)
    ensures forall p :: p in Kids(plans, le, parent) <==> p in plans && ChildOf(plans, p, parent)
  {
    MultisetMember(Kids(plans, le, parent), Filter(IsKid(plans, parent), plans));
  }

  lemma TopsAre(plans: seq<Plan>, le: (Plan, Plan) -> bool)
    ensures forall p :: p in Tops(plans, le) <==> p in plans && !HasParent(plans, p)
  {
    MultisetMember(Tops(plans, le), Filter(IsTop(plans), plans));
  }

  lemma {:induction false} FilterDistinct(keep: Plan -> bool, plans: seq<Plan>)
    requires Distinct(plans)
    ensures Distinct(Filter(keep, plans))
  {
    if plans != [] {
      assert plans == [plans[0]] + plans[1..] && plans[0] !in plans[1..];
      FilterDistinct(keep, plans[1..]);
    }
  }

  lemma UniqueIdsDistinct(plans: seq<Plan>)
    requires UniqueIds(plans)
    ensures Distinct(plans)
  {
    forall i, j | 0 <= i < j < |plans| ensures plans[i] != plans[j] {
      assert IdsDiffer(plans, i, j);
    }
  }

  // ---------- lineages ----------

  /** From a root down to a plan, each the parent of the next. */
  ghost predicate Lineage(plans: seq<Plan>, path: seq<Plan>) {
    forall i {:trigger Link(plans, path, i)} | 0 <= i < |path| :: Link(plans, path, i)
  }

  ghost predicate Link(plans: seq<Plan>, path: seq<Plan>, i: nat)
    requires i < |path|
  {
    path[i] in plans && if i == 0 then !HasParent(plans, path[0]) else ChildOf(plans, path[i], path[i - 1])
  }

  ghost predicate Rooted(plans: seq<Plan>, p: Plan) {
    exists path :: LineageOf(plans, path, p)
  }

  ghost predicate LineageOf(plans: seq<Plan>, path: seq<Plan>, p: Plan) {
    path != [] && Lineage(plans, path) && path[|path| - 1] == p
  }

  lemma LineagePrefix(plans: seq<Plan>, path: seq<Plan>, n: nat)
    requires Lineage(plans, path) && n <= |path|
    ensures Lineage(plans, path[..n])
  {
    forall i | 0 <= i < n ensures Link(plans, path[..n], i) {
      assert Link(plans, path, i);
    }
  }

  lemma LineageGrows(plans: seq<Plan>, path: seq<Plan>, p: Plan)
    requires Lineage(plans, path) && Follows(plans, path, p)
    ensures Lineage(plans, path + [p])
  {
    forall i | 0 <= i < |path| + 1 ensures Link(plans, path + [p], i) {
      assert i < |path| ==> Link(plans, path, i);
    }
  }

  lemma SamePlan(plans: seq<Plan>, p: Plan, q: Plan)
    requires UniqueIds(plans) && p in plans && q in plans && p.id == q.id
    ensures p == q
  {
    var i, j :| 0 <= i < |plans| && 0 <= j < |plans| && plans[i] == p && plans[j] == q;
    assert i == j || IdsDiffer(plans, if i < j then i else j, if i < j then j else i);
  }

  /** A plan has at most one lineage. */
  lemma {:induction false} LineageUnique(plans: seq<Plan>, a: seq<Plan>, b: seq<Plan>, p: Plan)
    requires UniqueIds(plans) && LineageOf(plans, a, p) && LineageOf(plans, b, p)
    ensures a == b
  {
    var m, n := |a| - 1, |b| - 1;
    assert Link(plans, a, m) && Link(plans, b, n);
    if m > 0 && n > 0 {
      assert Link(plans, a, m - 1) && Link(plans, b, n - 1);
      SamePlan(plans, a[m - 1], b[n - 1]);
      LineagePrefix(plans, a, m);
      LineagePrefix(plans, b, n);
      LineageUnique(plans, a[..m], b[..n], a[m - 1]);
      assert a == a[..m] + [p] && b == b[..n] + [p];
    }
  }

  /** No plan occurs twice in a lineage, so it is at most as long as the list. */
  lemma LineageDistinct(plans: seq<Plan>, path: seq<Plan>)
    requires UniqueIds(plans) && Lineage(plans, path)
    ensures Distinct(path) && |path| <= |plans|
  {
    forall i, j | 0 <= i < j < |path| ensures path[i] != path[j] {
      if path[i] == path[j] {
        LineagePrefix(plans, path, i + 1);
        LineagePrefix(plans, path, j + 1);
        LineageUnique(plans, path[..i + 1], path[..j + 1], path[i]);
      }
    }
    forall p | p in path ensures p in plans {
      var i :| 0 <= i < |path| && path[i] == p;
      assert Link(plans, path, i);
    }
    InjectionCounts(path, plans);
  }

  // ---------- the table ----------

  /** The items continue the path: roots if it is empty, else children of its end. */
  ghost predicate Continues(plans: seq<Plan>, path: seq<Plan>, items: seq<Plan>) {
    && UniqueIds(plans) && Lineage(plans, path)
    && forall p {:trigger Follows(plans, path, p)} | p in items :: Follows(plans, path, p)
  }

  ghost predicate Follows(plans: seq<Plan>, path: seq<Plan>, p: Plan) {
    p in plans && if path == [] then !HasParent(plans, p) else ChildOf(plans, p, path[|path| - 1])
  }

  lemma Descend(plans: seq<Plan>, le: (Plan, Plan) -> bool, path: seq<Plan>, items: seq<Plan>)
    requires Continues(plans, path, items) && items != []
    ensures Continues(plans, path + [items[0]], Kids(plans, le, items[0])) && |path| < |plans|
    ensures Continues(plans, path, items[1..])
  {
    assert Follows(plans, path, items[0]);
    LineageGrows(plans, path, items[0]);
    LineageDistinct(plans, path + [items[0]]);
    KidsAre(plans, le, items[0]);
    assert items == [items[0]] + items[1..];
  }

  /** The rows of the items and of everything below them. */
  ghost function Rows(plans: seq<Plan>, le: (Plan, Plan) -> bool, path: seq<Plan>, items: seq<Plan>): seq<Row>
    requires Continues(plans, path, items)
    decreases |plans| - |path|, |items|
  {
    if items == [] then []
    else
      Descend(plans, le, path, items);
      [Row(items[0], |path|)] + Rows(plans, le, path + [items[0]], Kids(plans, le, items[0]))
        + Rows(plans, le, path, items[1..])
  }

  lemma TopsContinue(plans: seq<Plan>, le: (Plan, Plan) -> bool)
    requires UniqueIds(plans)
    ensures Continues(plans, [], Tops(plans, le))
  {
    TopsAre(plans, le);
  }

  ghost function Table(plans: seq<Plan>, le: (Plan, Plan) -> bool): seq<Row>
    requires UniqueIds(plans)
  {
    TopsContinue(plans, le);
    Rows(plans, le, [], Tops(plans, le))
  }

  /** A row's plan lies below one of the items, at the depth its lineage says. */
  ghost predicate Below(plans: seq<Plan>, path: seq<Plan>, items: seq<Plan>, line: seq<Plan>) {
    path < line && Lineage(plans, line) && line[|path|] in items
  }

  lemma {:induction false} RowHasLineage(plans: seq<Plan>, le: (Plan, Plan) -> bool, path: seq<Plan>, items: seq<Plan>, row: Row)
    returns (line: seq<Plan>)
    requires Continues(plans, path, items) && row in Rows(plans, le, path, items)
    ensures Below(plans, path, items, line) && LineageOf(plans, line, row.plan) && |line| == row.depth + 1
    decreases |plans| - |path|, |items|
  {
    Descend(plans, le, path, items);
    var first := path + [items[0]];
    if row == Row(items[0], |path|) {
      line := first;
      LineageGrows(plans, path, items[0]);
    } else if row in Rows(plans, le, first, Kids(plans, le, items[0])) {
      line := RowHasLineage(plans, le, first, Kids(plans, le, items[0]), row);
      assert line[|path|] == first[|path|] == items[0];
    } else {
      line := RowHasLineage(plans, le, path, items[1..], row);
    }
  }

  lemma {:induction false} LineageHasRow(of: Relation, plans: seq<Plan>, le: (Plan, Plan) -> bool, path: seq<Plan>, items: seq<Plan>, rows: seq<Row>, line: seq<Plan>)
    requires IsRows(of, plans, le) && of(path, items, rows) && Below(plans, path, items, line)
    ensures Row(line[|line| - 1], |line| - 1) in rows
    decreases |plans| - |path|, |items|
  {
    NoRowsNoItems(of, plans, le, path, items, rows);
    var first, below, rest := RowsParts(of, plans, le, path, items, rows);
    if line[|path|] != items[0] {
      assert items == [items[0]] + items[1..];
      LineageHasRow(of, plans, le, path, items[1..], rest, line);
    } else if |line| > |path| + 1 {
      assert Link(plans, line, |path| + 1);
      KidsAre(plans, le, items[0]);
      LineageHasRow(of, plans, le, path + [items[0]], Kids(plans, le, items[0]), below, line);
    }
  }

  lemma NoRowsNoItems(of: Relation, plans: seq<Plan>, le: (Plan, Plan) -> bool, path: seq<Plan>, items: seq<Plan>, rows: seq<Row>)
    requires IsRows(of, plans, le) && of(path, items, rows)
    ensures items != [] ==> rows != []
  {
    assert Shows(of, plans, le, path, items, rows);
  }

  /** The table lists exactly the plans whose chain of parents ends at a root, each at
      the depth of that chain. */
  lemma TableIsExact(plans: seq<Plan>, le: (Plan, Plan) -> bool, row: Row)
    requires UniqueIds(plans)
    ensures row in Table(plans, le) <==> exists line :: LineageOf(plans, line, row.plan) && |line| == row.depth + 1
  {
    TopsContinue(plans, le);
    TopsAre(plans, le);
    if row in Table(plans, le) {
      var line := RowHasLineage(plans, le, [], Tops(plans, le), row);
    }
    if line :| LineageOf(plans, line, row.plan) && |line| == row.depth + 1 {
      assert Link(plans, line, 0);
      var of := RowsByName(plans, le);
      LineageHasRow(of, plans, le, [], Tops(plans, le), Table(plans, le), line);
    }
  }

  function RowId(row: Row): Text { row.plan.id }

  /** Lineages that part have different plans at their ends. */
  lemma LinesApart(plans: seq<Plan>, a: seq<Plan>, b: seq<Plan>, p: Plan, q: Plan, n: nat)
    requires UniqueIds(plans) && LineageOf(plans, a, p) && LineageOf(plans, b, q)
    requires n < |a| && n < |b| && a[n] != b[n]
    ensures p.id != q.id
  {
    assert Link(plans, a, |a| - 1) && Link(plans, b, |b| - 1);
    if p.id == q.id {
      SamePlan(plans, p, q);
      LineageUnique(plans, a, b, p);
    }
  }

  lemma HeadNotInTail(items: seq<Plan>, p: Plan)
    requires items != [] && Distinct(items) && p in items[1..]
    ensures p != items[0]
  {
    var i :| 0 <= i < |items[1..]| && items[1..][i] == p;
    assert items[i + 1] == p;
  }

  /** The rows of the first item with all below it, and the rows of the other items, have
      no plan in common. */
  lemma BranchesApart(plans: seq<Plan>, le: (Plan, Plan) -> bool, path: seq<Plan>, items: seq<Plan>, x: Row, y: Row)
    requires items != [] && Distinct(items)
    requires Continues(plans, path, [items[0]]) && Continues(plans, path, items[1..])
    requires x in Rows(plans, le, path, [items[0]]) && y in Rows(plans, le, path, items[1..])
    ensures x.plan.id != y.plan.id
  {
    var a := RowHasLineage(plans, le, path, [items[0]], x);
    var b := RowHasLineage(plans, le, path, items[1..], y);
    HeadNotInTail(items, b[|path|]);
    LinesApart(plans, a, b, x.plan, y.plan, |path|);
  }

  lemma FirstAndBelowApart(plans: seq<Plan>, le: (Plan, Plan) -> bool, path: seq<Plan>, item: Plan, y: Row)
    requires Continues(plans, path + [item], Kids(plans, le, item))
    requires y in Rows(plans, le, path + [item], Kids(plans, le, item))
    ensures y.plan.id != item.id
  {
    var line := RowHasLineage(plans, le, path + [item], Kids(plans, le, item), y);
    LineageDistinct(plans, line);
    assert line[|path|] == item && Link(plans, line, |path|) && Link(plans, line, |line| - 1);
    if y.plan.id == item.id {
      SamePlan(plans, y.plan, item);
    }
  }

  /** The rows of the first item alone, and of the others. */
  lemma RowsSplit(plans: seq<Plan>, le: (Plan, Plan) -> bool, path: seq<Plan>, items: seq<Plan>)
    requires Continues(plans, path, items) && items != []
    ensures Continues(plans, path, [items[0]]) && Continues(plans, path, items[1..])
    ensures Continues(plans, path + [items[0]], Kids(plans, le, items[0])) && |path| < |plans|
    ensures Rows(plans, le, path, [items[0]])
         == [Row(items[0], |path|)] + Rows(plans, le, path + [items[0]], Kids(plans, le, items[0]))
    ensures Rows(plans, le, path, items) == Rows(plans, le, path, [items[0]]) + Rows(plans, le, path, items[1..])
  {
    Descend(plans, le, path, items);
    assert [items[0]][0] in items;
    Descend(plans, le, path, [items[0]]);
    assert [items[0]][1..] == [];
  }

  /** No plan is listed twice. */
  lemma {:induction false} RowsDistinct(plans: seq<Plan>, le: (Plan, Plan) -> bool, path: seq<Plan>, items: seq<Plan>)
    requires Continues(plans, path, items) && Distinct(items) && Distinct(plans)
    ensures DistinctOn(RowId, Rows(plans, le, path, items))
    decreases |plans| - |path|, |items|
  {
    if items != [] {
      RowsSplit(plans, le, path, items);
      var kids := Kids(plans, le, items[0]);
      var below, rest := Rows(plans, le, path + [items[0]], kids), Rows(plans, le, path, items[1..]);
      KidsDistinct(plans, le, items[0]);
      RowsDistinct(plans, le, path + [items[0]], kids);
      RowsDistinct(plans, le, path, items[1..]);
      forall y | y in below ensures RowId(Row(items[0], |path|)) != RowId(y) {
        FirstAndBelowApart(plans, le, path, items[0], y);
      }
      DistinctOnConcat(RowId, [Row(items[0], |path|)], below);
      forall x, y | x in Rows(plans, le, path, [items[0]]) && y in rest ensures RowId(x) != RowId(y) {
        BranchesApart(plans, le, path, items, x, y);
      }
      DistinctOnConcat(RowId, Rows(plans, le, path, [items[0]]), rest);
    }
  }

  lemma DistinctOnConcat<T, K>(key: T -> K, s: seq<T>, t: seq<T>)
    requires DistinctOn(key, s) && DistinctOn(key, t) && forall x, y | x in s && y in t :: key(x) != key(y)
    ensures DistinctOn(key, s + t)
  {
    forall i, j | 0 <= i < j < |s + t| ensures Differ(key)((s + t)[i], (s + t)[j]) {
      if j < |s| {
        PairwiseAt(Differ(key), s, i, j);
      } else if i >= |s| {
        PairwiseAt(Differ(key), t, i - |s|, j - |s|);
      } else {
        assert s[i] in s && t[j - |s|] in t;
      }
    }
  }

  lemma KidsDistinct(plans: seq<Plan>, le: (Plan, Plan) -> bool, parent: Plan)
    requires Distinct(plans)
    ensures Distinct(Kids(plans, le, parent))
  {
    FilterDistinct(IsKid(plans, parent), plans);
    DistinctPermutation(Filter(IsKid(plans, parent), plans), Kids(plans, le, parent));
  }

  lemma TopsDistinct(plans: seq<Plan>, le: (Plan, Plan) -> bool)
    requires Distinct(plans)
    ensures Distinct(Tops(plans, le))
  {
    FilterDistinct(IsTop(plans), plans);
    DistinctPermutation(Filter(IsTop(plans), plans), Tops(plans, le));
  }

  lemma TableListsOnce(plans: seq<Plan>, le: (Plan, Plan) -> bool)
    requires UniqueIds(plans)
    ensures DistinctOn(RowId, Table(plans, le))
  {
    UniqueIdsDistinct(plans);
    TopsContinue(plans, le);
    TopsDistinct(plans, le);
    RowsDistinct(plans, le, [], Tops(plans, le));
  }

  // ---------- shape of the table ----------

  /** Row j is the parent of row k, one level up, and everything between belongs to the
      parent's subtree. */
  ghost predicate ParentAt(plans: seq<Plan>, rows: seq<Row>, j: nat, k: nat)
    requires j < k < |rows|
  {
    && ChildOf(plans, rows[k].plan, rows[j].plan) && rows[k].depth == rows[j].depth + 1
    && forall m {:trigger Deeper(rows, j, m)} | j < m < k :: Deeper(rows, j, m)
  }

  ghost predicate Deeper(rows: seq<Row>, j: nat, m: nat)
    requires j < m < |rows|
  {
    rows[m].depth > rows[j].depth
  }

  ghost predicate AreRows(plans: seq<Plan>, le: (Plan, Plan) -> bool, path: seq<Plan>, items: seq<Plan>, rows: seq<Row>) {
    Continues(plans, path, items) && rows == Rows(plans, le, path, items)
  }

  /** Which rows belong to which items, as a relation given by name only: the proofs
      below take it apart one item at a time, with RowsParts. */
  type Relation = (seq<Plan>, seq<Plan>, seq<Row>) -> bool

  ghost predicate Shows(of: Relation, plans: seq<Plan>, le: (Plan, Plan) -> bool, path: seq<Plan>, items: seq<Plan>, rows: seq<Row>) {
    of(path, items, rows) <==> AreRows(plans, le, path, items, rows)
  }

  ghost predicate IsRows(of: Relation, plans: seq<Plan>, le: (Plan, Plan) -> bool) {
    forall path, items, rows {:trigger Shows(of, plans, le, path, items, rows)} :: Shows(of, plans, le, path, items, rows)
  }

  /** The rows are the first item's, those below it, and those of the other items. */
  lemma RowsParts(of: Relation, plans: seq<Plan>, le: (Plan, Plan) -> bool, path: seq<Plan>, items: seq<Plan>, rows: seq<Row>)
    returns (first: Row, below: seq<Row>, rest: seq<Row>)
    requires IsRows(of, plans, le) && of(path, items, rows) && rows != []
    ensures items != [] && |path| < |plans| && rows == [first] + below + rest && first == Row(items[0], |path|)
    ensures of(path + [items[0]], Kids(plans, le, items[0]), below)
    ensures of(path, items[1..], rest) && Follows(plans, path, items[0])
  {
    assert Shows(of, plans, le, path, items, rows);
    RowsSplit(plans, le, path, items);
    assert Follows(plans, path, items[0]);
    first := Row(items[0], |path|);
    below := Rows(plans, le, path + [items[0]], Kids(plans, le, items[0]));
    rest := Rows(plans, le, path, items[1..]);
    assert Shows(of, plans, le, path + [items[0]], Kids(plans, le, items[0]), below);
    assert Shows(of, plans, le, path, items[1..], rest);
  }

  lemma RowDeep(plans: seq<Plan>, le: (Plan, Plan) -> bool, path: seq<Plan>, items: seq<Plan>, row: Row)
    requires Continues(plans, path, items) && row in Rows(plans, le, path, items)
    ensures row.depth >= |path| && (row.depth == |path| ==> row.plan in items)
  {
    var line := RowHasLineage(plans, le, path, items, row);
  }

  /** What holds within a part of the table holds in the table. */
  lemma ParentAtWithin(plans: seq<Plan>, rows: seq<Row>, before: seq<Row>, part: seq<Row>, after: seq<Row>, j: nat, k: nat, parent: nat, child: nat)
    requires rows == before + part + after && j < k < |part| && ParentAt(plans, part, j, k)
    requires parent == |before| + j && child == |before| + k
    ensures ParentAt(plans, rows, parent, child)
  {
    assert forall i | 0 <= i < |part| :: rows[|before| + i] == part[i];
    forall m | parent < m < child ensures Deeper(rows, parent, m) {
      assert Deeper(part, j, m - |before|);
      assert rows[m] == part[m - |before|];
    }
  }

  /** Where a row of the three parts comes from. */
  lemma PartOf(rows: seq<Row>, first: Row, below: seq<Row>, rest: seq<Row>, k: nat)
    requires rows == [first] + below + rest && k < |rows|
    ensures |rows| == 1 + |below| + |rest|
    ensures k == 0 ==> rows[k] == first
    ensures 0 < k <= |below| ==> rows[k] == below[k - 1]
    ensures k > |below| ==> rows[k] == rest[k - 1 - |below|]
  {
  }

  lemma {:induction false} ParentPrecedes(of: Relation, plans: seq<Plan>, le: (Plan, Plan) -> bool, path: seq<Plan>, items: seq<Plan>, rows: seq<Row>, k: nat)
    returns (j: nat)
    requires IsRows(of, plans, le) && of(path, items, rows) && k < |rows| && rows[k].depth > |path|
    ensures j < k && ParentAt(plans, rows, j, k)
    decreases |plans| - |path|, |items|
  {
    var first, below, rest := RowsParts(of, plans, le, path, items, rows);
    PartOf(rows, first, below, rest, k);
    if k > |below| {
      var i := ParentPrecedes(of, plans, le, path, items[1..], rest, k - 1 - |below|);
      j := 1 + |below| + i;
      ParentAtWithin(plans, rows, [first] + below, rest, [], i, k - 1 - |below|, j, k);
    } else if below[k - 1].depth > |path| + 1 {
      var i := ParentPrecedes(of, plans, le, path + [items[0]], Kids(plans, le, items[0]), below, k - 1);
      j := 1 + i;
      ParentAtWithin(plans, rows, [first], below, rest, i, k - 1, j, k);
    } else {
      j := 0;
      FirstIsParent(of, plans, le, path, items[0], rows, below, rest, k);
    }
  }

  lemma FirstIsParent(of: Relation, plans: seq<Plan>, le: (Plan, Plan) -> bool, path: seq<Plan>, item: Plan, rows: seq<Row>, below: seq<Row>, rest: seq<Row>, k: nat)
    requires IsRows(of, plans, le) && of(path + [item], Kids(plans, le, item), below)
    requires rows == [Row(item, |path|)] + below + rest && 0 < k <= |below| && below[k - 1].depth <= |path| + 1
    ensures ParentAt(plans, rows, 0, k)
  {
    assert Shows(of, plans, le, path + [item], Kids(plans, le, item), below);
    forall m | 0 < m <= k ensures rows[m].depth > |path| && rows[m] == below[m - 1] {
      PartOf(rows, Row(item, |path|), below, rest, m);
      RowDeep(plans, le, path + [item], Kids(plans, le, item), below[m - 1]);
    }
    RowDeep(plans, le, path + [item], Kids(plans, le, item), below[k - 1]);
    KidsAre(plans, le, item);
    forall m | 0 < m < k ensures Deeper(rows, 0, m) {
    }
  }

  /** In the table, a plan with a parent comes after it, one level deeper, with only
      the parent's descendants in between: subtrees are contiguous. */
  lemma TableKeepsSubtreesTogether(plans: seq<Plan>, le: (Plan, Plan) -> bool, k: nat) returns (j: nat)
    requires UniqueIds(plans) && k < |Table(plans, le)| && Table(plans, le)[k].depth > 0
    ensures j < k && ParentAt(plans, Table(plans, le), j, k)
  {
    TopsContinue(plans, le);
    var of := RowsByName(plans, le);
    j := ParentPrecedes(of, plans, le, [], Tops(plans, le), Table(plans, le), k);
  }

  /** Both plans are roots or children of the same plan. */
  ghost predicate Siblings(plans: seq<Plan>, p: Plan, q: Plan) {
    if HasParent(plans, p) then HasParent(plans, q) && p.parent == q.parent else !HasParent(plans, q)
  }

  /** Siblings have the same lineage but for themselves. */
  lemma SiblingLineages(plans: seq<Plan>, a: seq<Plan>, b: seq<Plan>, p: Plan, q: Plan)
    requires UniqueIds(plans) && LineageOf(plans, a, p) && LineageOf(plans, b, q) && Siblings(plans, p, q)
    ensures |a| == |b| && a[..|a| - 1] == b[..|b| - 1]
  {
    var m, n := |a| - 1, |b| - 1;
    assert Link(plans, a, m) && Link(plans, b, n);
    if m > 0 {
      assert Link(plans, a, m - 1) && Link(plans, b, n - 1);
      SamePlan(plans, a[m - 1], b[n - 1]);
      LineagePrefix(plans, a, m);
      LineagePrefix(plans, b, n);
      LineageUnique(plans, a[..m], b[..n], a[m - 1]);
    }
  }

  /** A row below the first item and a row of another item are no siblings. */
  lemma SiblingsAcross(of: Relation, plans: seq<Plan>, le: (Plan, Plan) -> bool, path: seq<Plan>, items: seq<Plan>, below: seq<Row>, rest: seq<Row>, x: Row, y: Row)
    requires IsRows(of, plans, le) && items != [] && Distinct(items)
    requires of(path + [items[0]], Kids(plans, le, items[0]), below) && x in below
    requires of(path, items[1..], rest) && y in rest
    ensures !Siblings(plans, x.plan, y.plan)
  {
    assert Shows(of, plans, le, path + [items[0]], Kids(plans, le, items[0]), below);
    assert Shows(of, plans, le, path, items[1..], rest);
    var a := RowHasLineage(plans, le, path + [items[0]], Kids(plans, le, items[0]), x);
    var b := RowHasLineage(plans, le, path, items[1..], y);
    HeadNotInTail(items, b[|path|]);
    assert a[|path|] == items[0] && a[..|a| - 1][|path|] == items[0];
    if Siblings(plans, x.plan, y.plan) {
      SiblingLineages(plans, a, b, x.plan, y.plan);
    }
  }

  lemma {:induction false} SiblingsSorted(of: Relation, plans: seq<Plan>, le: (Plan, Plan) -> bool, path: seq<Plan>, items: seq<Plan>, rows: seq<Row>, j: nat, k: nat)
    requires IsRows(of, plans, le) && of(path, items, rows) && j < k < |rows| && Siblings(plans, rows[j].plan, rows[k].plan)
    requires Ordered(plans, le, items)
    ensures le(rows[j].plan, rows[k].plan)
    decreases |plans| - |path|, |items|
  {
    var first, below, rest := RowsParts(of, plans, le, path, items, rows);
    PartOf(rows, first, below, rest, j);
    PartOf(rows, first, below, rest, k);
    OrderedParts(plans, le, items);
    if j > |below| {
      SiblingsSorted(of, plans, le, path, items[1..], rest, j - 1 - |below|, k - 1 - |below|);
    } else if k > |below| {
      if j == 0 {
        FirstComesFirst(of, plans, le, path, items, rest, rows[k]);
      } else {
        SiblingsAcross(of, plans, le, path, items, below, rest, rows[j], rows[k]);
      }
    } else if j == 0 {
      FirstHasNoSiblingBelow(of, plans, le, path, items[0], below, rows[k]);
    } else {
      SiblingsSorted(of, plans, le, path + [items[0]], Kids(plans, le, items[0]), below, j - 1, k - 1);
    }
  }

  /** Items in sibling order, none twice. */
  ghost predicate Ordered(plans: seq<Plan>, le: (Plan, Plan) -> bool, items: seq<Plan>) {
    Distinct(plans) && TotalPreorder(le) && Distinct(items) && SortedBy(le, items)
  }

  lemma OrderedParts(plans: seq<Plan>, le: (Plan, Plan) -> bool, items: seq<Plan>)
    requires Ordered(plans, le, items) && items != []
    ensures Ordered(plans, le, items[1..]) && Ordered(plans, le, Kids(plans, le, items[0]))
  {
    KidsDistinct(plans, le, items[0]);
    SortBySorted(le, Filter(IsKid(plans, items[0]), plans));
  }

  lemma FirstHasNoSiblingBelow(of: Relation, plans: seq<Plan>, le: (Plan, Plan) -> bool, path: seq<Plan>, item: Plan, below: seq<Row>, y: Row)
    requires IsRows(of, plans, le) && of(path + [item], Kids(plans, le, item), below) && y in below
    ensures !Siblings(plans, item, y.plan)
  {
    assert Shows(of, plans, le, path + [item], Kids(plans, le, item), below);
    var line := RowHasLineage(plans, le, path + [item], Kids(plans, le, item), y);
    if Siblings(plans, item, y.plan) {
      SiblingLineages(plans, path + [item], line, item, y.plan);
    }
  }

  lemma FirstComesFirst(of: Relation, plans: seq<Plan>, le: (Plan, Plan) -> bool, path: seq<Plan>, items: seq<Plan>, rest: seq<Row>, y: Row)
    requires IsRows(of, plans, le) && items != [] && SortedBy(le, items) && Follows(plans, path, items[0])
    requires of(path, items[1..], rest) && y in rest && Siblings(plans, items[0], y.plan)
    ensures le(items[0], y.plan)
  {
    assert Shows(of, plans, le, path, items[1..], rest);
    var line := RowHasLineage(plans, le, path, items[1..], y);
    LineageGrows(plans, path, items[0]);
    SiblingLineages(plans, path + [items[0]], line, items[0], y.plan);
    var i :| 0 <= i < |items[1..]| && items[1..][i] == y.plan;
    assert items[i + 1] == y.plan;
  }

  /** Siblings stand in the table in the order of sort number and creation time. */
  lemma TableSortsSiblings(plans: seq<Plan>, le: (Plan, Plan) -> bool, j: nat, k: nat)
    requires UniqueIds(plans) && TotalPreorder(le) && j < k < |Table(plans, le)|
    requires Siblings(plans, Table(plans, le)[j].plan, Table(plans, le)[k].plan)
    ensures le(Table(plans, le)[j].plan, Table(plans, le)[k].plan)
  {
    UniqueIdsDistinct(plans);
    TopsContinue(plans, le);
    TopsDistinct(plans, le);
    SortBySorted(le, Filter(IsTop(plans), plans));
    var of := RowsByName(plans, le);
    SiblingsSorted(of, plans, le, [], Tops(plans, le), Table(plans, le), j, k);
  }

  // ---------- plans that are not listed ----------

  /** Going up from a plan, parent by parent. */
  ghost predicate Climb(plans: seq<Plan>, path: seq<Plan>) {
    && path != [] && (forall i | 0 <= i < |path| :: path[i] in plans)
    && forall i | 0 < i < |path| :: ChildOf(plans, path[i - 1], path[i])
  }

  /** Climbing long enough either reaches a root or never will. */
  lemma {:induction false} ClimbFor(plans: seq<Plan>, p: Plan, steps: nat) returns (path: seq<Plan>)
    requires UniqueIds(plans) && p in plans
    ensures Climb(plans, path) && path[0] == p
    ensures |path| == steps + 1 || !HasParent(plans, path[|path| - 1])
    decreases steps
  {
    if steps == 0 || !HasParent(plans, p) {
      path := [p];
    } else {
      MapMember(PlanId, plans, p.parent.value);
      var q :| q in plans && PlanId(q) == p.parent.value;
      var up := ClimbFor(plans, q, steps - 1);
      path := [p] + up;
      forall i | 0 < i < |path| ensures ChildOf(plans, path[i - 1], path[i]) {
        assert i > 1 ==> ChildOf(plans, up[i - 2], up[i - 1]);
      }
    }
  }

  lemma {:induction false} ClimbToLineage(plans: seq<Plan>, path: seq<Plan>)
    requires Climb(plans, path) && !HasParent(plans, path[|path| - 1])
    ensures Rooted(plans, path[0])
  {
    var line := seq(|path|, i requires 0 <= i < |path| => path[|path| - 1 - i]);
    forall i | 0 <= i < |line| ensures Link(plans, line, i) {
    }
    assert LineageOf(plans, line, path[0]);
  }

  /** A plan that is not listed is on or below a parent cycle: going up from it one
      comes to the same plan twice. */
  lemma UnlistedMeansCycle(plans: seq<Plan>, p: Plan) returns (path: seq<Plan>, i: nat, j: nat)
    requires UniqueIds(plans) && p in plans && !Rooted(plans, p)
    ensures Climb(plans, path) && path[0] == p && i < j < |path| && path[i] == path[j]
  {
    path := ClimbFor(plans, p, |plans|);
    if !HasParent(plans, path[|path| - 1]) {
      ClimbToLineage(plans, path);
    }
    if Distinct(path) {
      InjectionCounts(path, plans);
    }
    i, j :| 0 <= i < j < |path| && path[i] == path[j];
  }

  /** And a plan on or below a cycle is not listed. */
  lemma CycleMeansUnlisted(plans: seq<Plan>, path: seq<Plan>, i: nat, j: nat)
    requires UniqueIds(plans) && Climb(plans, path) && i < j < |path| && path[i] == path[j]
    ensures !Rooted(plans, path[0])
  {
    if line :| LineageOf(plans, line, path[0]) {
      ClimbShortens(plans, path, line, i);
      ClimbShortens(plans, path, line, j);
      LineagePrefix(plans, line, |line| - i);
      LineagePrefix(plans, line, |line| - j);
      LineageUnique(plans, line[..|line| - i], line[..|line| - j], path[i]);
    }
  }

  /** Climbing from the end of a lineage goes down its list. */
  lemma {:induction false} ClimbShortens(plans: seq<Plan>, path: seq<Plan>, line: seq<Plan>, n: nat)
    requires UniqueIds(plans) && Climb(plans, path) && LineageOf(plans, line, path[0]) && n < |path|
    ensures n < |line| && line[|line| - 1 - n] == path[n]
  {
    if n > 0 {
      ClimbShortens(plans, path, line, n - 1);
      var k := |line| - n;
      assert Link(plans, line, k);
      assert ChildOf(plans, path[n - 1], path[n]);
      assert k > 0;
      assert Link(plans, line, k - 1);
      SamePlan(plans, line[k - 1], path[n]);
    }
  }

  // ---------- the tree as the program builds it ----------

  /** Setting a key of an insertion-ordered map of plans by id. */
  function Put(nodes: seq<Plan>, p: Plan): (r: seq<Plan>)
    ensures p in r
  {
    if nodes == [] then [p]
    else if nodes[0].id == p.id then [p] + nodes[1..]
    else [nodes[0]] + Put(nodes[1..], p)
  }

  lemma {:induction false} PutIds(nodes: seq<Plan>, p: Plan)
    ensures Ids(Put(nodes, p)) == if p.id in Ids(nodes) then Ids(nodes) else Ids(nodes) + [p.id]
  {
    if nodes != [] {
      assert Ids(nodes) == [nodes[0].id] + Ids(nodes[1..]);
      if nodes[0].id != p.id {
        PutIds(nodes[1..], p);
      }
    }
  }

  lemma {:induction false} PutNew(nodes: seq<Plan>, p: Plan)
    requires p.id !in Ids(nodes)
    ensures Put(nodes, p) == nodes + [p]
  {
    if nodes != [] {
      assert Ids(nodes) == [nodes[0].id] + Ids(nodes[1..]);
      PutNew(nodes[1..], p);
    }
  }

  lemma UniqueByIds(nodes: seq<Plan>)
    ensures UniqueIds(nodes) <==> Distinct(Ids(nodes))
  {
    if UniqueIds(nodes) {
      forall i, j | 0 <= i < j < |nodes| ensures Ids(nodes)[i] != Ids(nodes)[j] {
        assert IdsDiffer(nodes, i, j);
      }
    } else {
      var i, j :| 0 <= i < j < |nodes| && !IdsDiffer(nodes, i, j);
      assert Ids(nodes)[i] == Ids(nodes)[j];
    }
  }

  lemma PutUnique(nodes: seq<Plan>, p: Plan)
    requires UniqueIds(nodes)
    ensures UniqueIds(Put(nodes, p))
  {
    PutIds(nodes, p);
    UniqueByIds(nodes);
    UniqueByIds(Put(nodes, p));
  }

  /** What is left of a list in which a later plan replaces an earlier one of the same id. */
  function Latest(plans: seq<Plan>): seq<Plan> {
    if plans == [] then [] else Put(Latest(plans[..|plans| - 1]), plans[|plans| - 1])
  }

  lemma {:induction false} LatestUnique(plans: seq<Plan>)
    ensures UniqueIds(Latest(plans))
  {
    if plans != [] {
      LatestUnique(plans[..|plans| - 1]);
      PutUnique(Latest(plans[..|plans| - 1]), plans[|plans| - 1]);
    }
  }

  /** Of a list with unique ids that is the list itself. */
  lemma {:induction false} LatestIsInput(plans: seq<Plan>)
    requires UniqueIds(plans)
    ensures Latest(plans) == plans
  {
    if plans != [] {
      var n := |plans| - 1;
      forall i, j | 0 <= i < j < n ensures IdsDiffer(plans[..n], i, j) {
        assert IdsDiffer(plans, i, j);
      }
      LatestIsInput(plans[..n]);
      LastIsNew(plans);
      PutNew(plans[..n], plans[n]);
      assert plans == plans[..n] + [plans[n]];
    }
  }

  lemma LastIsNew(plans: seq<Plan>)
    requires UniqueIds(plans) && plans != []
    ensures plans[|plans| - 1].id !in Ids(plans[..|plans| - 1])
  {
    var n := |plans| - 1;
    forall i | 0 <= i < n ensures Ids(plans[..n])[i] != plans[n].id {
      assert IdsDiffer(plans, i, n);
    }
  }

  type Children = map<Text, seq<Plan>>

  /** The child lists as filled, before sorting. */
  ghost predicate Filled(nodes: seq<Plan>, children: Children, p: Plan) {
    p.id in children && children[p.id] == Filter(IsKid(nodes, p), nodes)
  }

  ghost predicate AllFilled(nodes: seq<Plan>, children: Children, rows: seq<Row>) {
    forall row {:trigger Filled(nodes, children, row.plan)} | row in rows :: Filled(nodes, children, row.plan)
  }

  /** The node of a row is finished: children sorted, depth set. */
  ghost predicate Settled(nodes: seq<Plan>, le: (Plan, Plan) -> bool, children: Children, depth: map<Text, nat>, row: Row) {
    && row.plan.id in children && children[row.plan.id] == Kids(nodes, le, row.plan)
    && row.plan.id in depth && depth[row.plan.id] == row.depth
  }

  ghost predicate AllSettled(nodes: seq<Plan>, le: (Plan, Plan) -> bool, children: Children, depth: map<Text, nat>, rows: seq<Row>) {
    forall row {:trigger Settled(nodes, le, children, depth, row)} | row in rows :: Settled(nodes, le, children, depth, row)
  }

  ghost function RowIds(rows: seq<Row>): set<Text> {
    set row | row in rows :: row.plan.id
  }

  /** Nothing changed outside the given ids. */
  ghost predicate SameOutside<T>(before: map<Text, T>, after: map<Text, T>, ids: set<Text>) {
    forall id {:trigger SameAt(before, after, id)} | id !in ids :: SameAt(before, after, id)
  }

  ghost predicate SameAt<T>(before: map<Text, T>, after: map<Text, T>, id: Text) {
    (id in before <==> id in after) && (id in before ==> before[id] == after[id])
  }

  lemma FilledElsewhere(nodes: seq<Plan>, before: Children, after: Children, rows: seq<Row>, ids: set<Text>)
    requires AllFilled(nodes, before, rows) && SameOutside(before, after, ids) && RowIds(rows) !! ids
    ensures AllFilled(nodes, after, rows)
  {
    forall row | row in rows ensures Filled(nodes, after, row.plan) {
      assert row.plan.id in RowIds(rows);
      assert Filled(nodes, before, row.plan) && SameAt(before, after, row.plan.id);
    }
  }

  lemma SettledElsewhere(nodes: seq<Plan>, le: (Plan, Plan) -> bool, c0: Children, d0: map<Text, nat>, c1: Children, d1: map<Text, nat>, rows: seq<Row>, ids: set<Text>)
    requires AllSettled(nodes, le, c0, d0, rows) && SameOutside(c0, c1, ids) && SameOutside(d0, d1, ids) && RowIds(rows) !! ids
    ensures AllSettled(nodes, le, c1, d1, rows)
  {
    forall row | row in rows ensures Settled(nodes, le, c1, d1, row) {
      assert row.plan.id in RowIds(rows);
      assert Settled(nodes, le, c0, d0, row) && SameAt(c0, c1, row.plan.id) && SameAt(d0, d1, row.plan.id);
    }
  }

  lemma OutsideTwice<T>(a: map<Text, T>, b: map<Text, T>, c: map<Text, T>, ids: set<Text>, more: set<Text>)
    requires SameOutside(a, b, ids) && SameOutside(b, c, more)
    ensures SameOutside(a, c, ids + more)
  {
    forall id | id !in ids + more ensures SameAt(a, c, id) {
      assert SameAt(a, b, id) && SameAt(b, c, id);
    }
  }

  /** The ids of the parts of a table without repetition are apart. */
  lemma PartsApart(done: seq<Row>, first: Row, below: seq<Row>, rest: seq<Row>)
    requires DistinctOn(RowId, done + ([first] + below + rest))
    ensures DistinctOn(RowId, below) && RowIds(done) !! RowIds([first] + below) && RowIds(rest) !! RowIds([first] + below)
    ensures RowIds(done) !! RowIds(rest) && first.plan.id !in RowIds(below)
    ensures RowIds([first] + below) == {first.plan.id} + RowIds(below)
  {
    DistinctSplits(RowId, done, [first] + below + rest);
    DistinctSplits(RowId, [first] + below, rest);
    DistinctSplits(RowId, [first], below);
    IdsApart(done, [first] + below + rest);
    IdsApart([first] + below, rest);
    IdsApart([first], below);
    IdsOfBoth([first], below);
    IdsOfBoth([first] + below, rest);
  }

  lemma IdsApart(s: seq<Row>, t: seq<Row>)
    requires forall x, y | x in s && y in t :: RowId(x) != RowId(y)
    ensures RowIds(s) !! RowIds(t)
  {
    forall id | id in RowIds(s) ensures id !in RowIds(t) {
      var x :| x in s && x.plan.id == id;
      forall y | y in t ensures y.plan.id != id {
        assert RowId(x) != RowId(y);
      }
    }
  }

  lemma IdsOfBoth(s: seq<Row>, t: seq<Row>)
    ensures RowIds(s + t) == RowIds(s) + RowIds(t)
  {
    assert forall x :: x in s + t <==> x in s || x in t;
  }

  lemma DistinctSplits<T, K>(key: T -> K, s: seq<T>, t: seq<T>)
    requires DistinctOn(key, s + t)
    ensures DistinctOn(key, s) && DistinctOn(key, t) && forall x, y | x in s && y in t :: key(x) != key(y)
  {
    forall i, j | 0 <= i < j < |s| ensures Differ(key)(s[i], s[j]) {
      PairwiseAt(Differ(key), s + t, i, j);
    }
    forall i, j | 0 <= i < j < |t| ensures Differ(key)(t[i], t[j]) {
      PairwiseAt(Differ(key), s + t, |s| + i, |s| + j);
    }
    forall x, y | x in s && y in t ensures key(x) != key(y) {
      var i, j :| 0 <= i < |s| && 0 <= j < |t| && s[i] == x && t[j] == y;
      PairwiseAt(Differ(key), s + t, i, |s| + j);
      assert Differ(key)(x, y);
    }
  }

  class PlanTree {
    var nodes: seq<Plan>
    var roots: seq<Plan>
    var children: Children
    var depth: map<Text, nat>

    constructor ()
      ensures nodes == [] && roots == [] && children == map[] && depth == map[]
    {
      nodes, roots, children, depth := [], [], map[], map[];
    }

    /** One node per id; of several plans with one id the last counts. */
    method MakeNodes(plans: seq<Plan>)
      requires nodes == [] && children == map[]
      modifies `nodes, `children, `depth
      ensures nodes == Latest(plans) && UniqueIds(nodes) && EmptyLists(nodes, children)
    {
      for i := 0 to |plans|
        invariant nodes == Latest(plans[..i]) && EmptyLists(nodes, children)
      {
        assert plans[..i + 1][..i] == plans[..i];
        PutIds(nodes, plans[i]);
        EmptyAdded(nodes, children, plans[i]);
        nodes := Put(nodes, plans[i]);
        children := children[plans[i].id := []];
        depth := depth[plans[i].id := 0];
      }
      assert plans[..|plans|] == plans;
      LatestUnique(plans);
    }

    /** Puts every node into the list of its parent, or among the roots. */
    method LinkNodes()
      requires UniqueIds(nodes) && EmptyLists(nodes, children) && roots == []
      modifies `children, `roots
      ensures roots == Filter(IsTop(nodes), nodes) && FilledUpTo(nodes, children, |nodes|)
    {
      NothingFilled(nodes, children);
      for i := 0 to |nodes|
        invariant roots == Filter(IsTop(nodes), nodes[..i]) && FilledUpTo(nodes, children, i)
      {
        var node := nodes[i];
        NextFiltered(IsTop(nodes), nodes, i);
        if HasParent(nodes, node) {
          ChildAdded(nodes, children, i);
          children := children[node.parent.value := children[node.parent.value] + [node]];
        } else {
          NoChildAdded(nodes, children, i);
          roots := roots + [node];
        }
      }
      assert nodes[..|nodes|] == nodes;
    }

    /** Builds the tree and sorts it level by level. */
    method Build(plans: seq<Plan>, collate: Collation)
      requires nodes == [] && roots == [] && children == map[]
      modifies this
      ensures nodes == Latest(plans) && UniqueIds(nodes) && roots == Tops(nodes, SiblingLe(collate))
      ensures AllSettled(nodes, SiblingLe(collate), children, depth, Table(nodes, SiblingLe(collate)))
    {
      MakeNodes(plans);
      LinkNodes();
      roots := SortBy(SiblingLe(collate), roots);
      TableListsOnce(nodes, SiblingLe(collate));
      TableFilled(nodes, SiblingLe(collate), children);
      ghost var of := RowsByName(nodes, SiblingLe(collate));
      SortNodes(collate, roots, 0, of, [], Table(nodes, SiblingLe(collate)));
    }

    /** The flat table of a built tree. */
    method Flatten(collate: Collation) returns (table: seq<Row>)
      requires UniqueIds(nodes) && roots == Tops(nodes, SiblingLe(collate))
      requires AllSettled(nodes, SiblingLe(collate), children, depth, Table(nodes, SiblingLe(collate)))
      ensures table == Table(nodes, SiblingLe(collate))
    {
      ghost var of := RowsByName(nodes, SiblingLe(collate));
      table := Visit(collate, roots, [], of, [], Table(nodes, SiblingLe(collate)));
    }

    /** Appends the rows of the given siblings and of everything below them. */
    method Visit(collate: Collation, items: seq<Plan>, before: seq<Row>, ghost of: Relation, ghost path: seq<Plan>, ghost rows: seq<Row>)
      returns (table: seq<Row>)
      requires IsRows(of, nodes, SiblingLe(collate)) && of(path, items, rows) && |path| <= |nodes|
      requires AllSettled(nodes, SiblingLe(collate), children, depth, rows)
      ensures table == before + rows
      decreases |nodes| - |path|, 1
    {
      ghost var done: seq<Row>, todo := [], rows;
      table := before;
      for i := 0 to |items|
        invariant of(path, items[i..], todo) && rows == done + todo && table == before + done
      {
        NoRowsNoItems(of, nodes, SiblingLe(collate), path, items[i..], todo);
        ghost var first, below, rest := RowsParts(of, nodes, SiblingLe(collate), path, items[i..], todo);
        SettledParts(nodes, SiblingLe(collate), children, depth, done, first, below, rest);
        table := VisitOne(collate, items[i], table, of, path, below);
        done, todo := done + ([first] + below), rest;
        assert items[i..][1..] == items[i + 1..];
      }
      NoItemsNoRows(of, nodes, SiblingLe(collate), path, todo, items[|items|..]);
    }

    method VisitOne(collate: Collation, item: Plan, before: seq<Row>, ghost of: Relation, ghost path: seq<Plan>, ghost below: seq<Row>)
      returns (table: seq<Row>)
      requires IsRows(of, nodes, SiblingLe(collate)) && of(path + [item], Kids(nodes, SiblingLe(collate), item), below)
      requires |path| < |nodes| && Settled(nodes, SiblingLe(collate), children, depth, Row(item, |path|))
      requires AllSettled(nodes, SiblingLe(collate), children, depth, below)
      ensures table == before + ([Row(item, |path|)] + below)
      decreases |nodes| - |path|, 0
    {
      table := before + [Row(item, depth[item.id])];
      table := Visit(collate, children[item.id], table, of, path + [item], below);
    }

    /** Finishes the given siblings and everything below them. */
    method SortNodes(collate: Collation, items: seq<Plan>, level: nat, ghost of: Relation, ghost path: seq<Plan>, ghost rows: seq<Row>)
      requires IsRows(of, nodes, SiblingLe(collate)) && of(path, items, rows) && level == |path| <= |nodes|
      requires DistinctOn(RowId, rows) && AllFilled(nodes, children, rows)
      modifies `children, `depth
      ensures AllSettled(nodes, SiblingLe(collate), children, depth, rows)
      ensures SameOutside(old(children), children, RowIds(rows)) && SameOutside(old(depth), depth, RowIds(rows))
      decreases |nodes| - level, 1
    {
      ghost var le := SiblingLe(collate);
      ghost var done: seq<Row>, todo := [], rows;
      for i := 0 to |items|
        invariant of(path, items[i..], todo) && rows == done + todo
        invariant AllSettled(nodes, le, children, depth, done) && AllFilled(nodes, children, todo)
        invariant SameOutside(old(children), children, RowIds(done)) && SameOutside(old(depth), depth, RowIds(done))
      {
        NoRowsNoItems(of, nodes, le, path, items[i..], todo);
        ghost var first, below, rest := RowsParts(of, nodes, le, path, items[i..], todo);
        PartsApart(done, first, below, rest);
        AllFilledPart(nodes, children, below, rest, first);
        ghost var c, d := children, depth;
        SortNode(collate, items[i], level, of, path, below);
        OneMoreSettled(nodes, le, c, d, children, depth, done, first, below, rest);
        SoFar(old(children), c, children, done, first, below);
        SoFar(old(depth), d, depth, done, first, below);
        done, todo := done + ([first] + below), rest;
        assert items[i..][1..] == items[i + 1..];
      }
      NoItemsNoRows(of, nodes, le, path, todo, items[|items|..]);
    }

    /** Sets a node's depth, sorts its children and finishes them. */
    method SortNode(collate: Collation, item: Plan, level: nat, ghost of: Relation, ghost path: seq<Plan>, ghost below: seq<Row>)
      requires IsRows(of, nodes, SiblingLe(collate)) && level == |path| < |nodes|
      requires of(path + [item], Kids(nodes, SiblingLe(collate), item), below)
      requires DistinctOn(RowId, below) && item.id !in RowIds(below)
      requires Filled(nodes, children, item) && AllFilled(nodes, children, below)
      modifies `children, `depth
      ensures Settled(nodes, SiblingLe(collate), children, depth, Row(item, level))
      ensures AllSettled(nodes, SiblingLe(collate), children, depth, below)
      ensures SameOutside(old(children), children, {item.id} + RowIds(below))
      ensures SameOutside(old(depth), depth, {item.id} + RowIds(below))
      decreases |nodes| - level, 0
    {
      depth := depth[item.id := level];
      children := children[item.id := SortBy(SiblingLe(collate), children[item.id])];
      ghost var c, d := children, depth;
      FilledElsewhere(nodes, old(children), children, below, {item.id});
      SortNodes(collate, children[item.id], level + 1, of, path + [item], below);
      assert SameAt(c, children, item.id) && SameAt(d, depth, item.id);
      OutsideTwice(old(children), c, children, {item.id}, RowIds(below));
      OutsideTwice(old(depth), d, depth, {item.id}, RowIds(below));
    }
  }

  lemma SoFar<T>(a: map<Text, T>, b: map<Text, T>, c: map<Text, T>, done: seq<Row>, first: Row, below: seq<Row>)
    requires SameOutside(a, b, RowIds(done)) && SameOutside(b, c, {first.plan.id} + RowIds(below))
    ensures SameOutside(a, c, RowIds(done + ([first] + below)))
  {
    OutsideTwice(a, b, c, RowIds(done), {first.plan.id} + RowIds(below));
    IdsOfBoth([first], below);
    IdsOfBoth(done, [first] + below);
    assert RowIds([first]) == {first.plan.id};
  }

  lemma SettledParts(nodes: seq<Plan>, le: (Plan, Plan) -> bool, children: Children, depth: map<Text, nat>,
                     done: seq<Row>, first: Row, below: seq<Row>, rest: seq<Row>)
    requires AllSettled(nodes, le, children, depth, done + ([first] + below + rest))
    ensures Settled(nodes, le, children, depth, first) && AllSettled(nodes, le, children, depth, below)
  {
    var all := done + ([first] + below + rest);
    assert all[|done|] == first;
    forall row | row in below ensures Settled(nodes, le, children, depth, row) {
      assert row in all;
    }
  }

  /** Every node has an empty child list. */
  ghost predicate EmptyLists(nodes: seq<Plan>, children: Children) {
    forall id | id in Ids(nodes) :: id in children && children[id] == []
  }

  lemma EmptyAdded(nodes: seq<Plan>, children: Children, p: Plan)
    requires EmptyLists(nodes, children)
    ensures EmptyLists(Put(nodes, p), children[p.id := []])
  {
    PutIds(nodes, p);
  }

  /** The first i nodes have been put into the lists of their parents. */
  ghost predicate FilledUpTo(nodes: seq<Plan>, children: Children, i: nat)
    requires i <= |nodes|
  {
    forall q {:trigger FilledFrom(nodes, children, q, i)} | q in nodes :: FilledFrom(nodes, children, q, i)
  }

  ghost predicate FilledFrom(nodes: seq<Plan>, children: Children, q: Plan, i: nat)
    requires i <= |nodes|
  {
    q.id in children && children[q.id] == Filter(IsKid(nodes, q), nodes[..i])
  }

  lemma NothingFilled(nodes: seq<Plan>, children: Children)
    requires EmptyLists(nodes, children)
    ensures FilledUpTo(nodes, children, 0)
  {
    forall q | q in nodes ensures FilledFrom(nodes, children, q, 0) {
      MapMember(PlanId, nodes, q.id);
    }
  }

  lemma ChildAdded(nodes: seq<Plan>, children: Children, i: nat)
    requires UniqueIds(nodes) && i < |nodes| && FilledUpTo(nodes, children, i) && HasParent(nodes, nodes[i])
    ensures var parent := nodes[i].parent.value;
      parent in children && FilledUpTo(nodes, children[parent := children[parent] + [nodes[i]]], i + 1)
  {
    var node := nodes[i];
    var parent := node.parent.value;
    MapMember(PlanId, nodes, parent);
    var p :| p in nodes && PlanId(p) == parent;
    assert FilledFrom(nodes, children, p, i);
    var longer := children[parent := children[parent] + [node]];
    forall q | q in nodes ensures FilledFrom(nodes, longer, q, i + 1) {
      assert FilledFrom(nodes, children, q, i);
      NextFiltered(IsKid(nodes, q), nodes, i);
    }
  }

  lemma NoChildAdded(nodes: seq<Plan>, children: Children, i: nat)
    requires i < |nodes| && FilledUpTo(nodes, children, i) && !HasParent(nodes, nodes[i])
    ensures FilledUpTo(nodes, children, i + 1)
  {
    forall q | q in nodes ensures FilledFrom(nodes, children, q, i + 1) {
      assert FilledFrom(nodes, children, q, i);
      NextFiltered(IsKid(nodes, q), nodes, i);
    }
  }

  lemma TableFilled(nodes: seq<Plan>, le: (Plan, Plan) -> bool, children: Children)
    requires UniqueIds(nodes) && FilledUpTo(nodes, children, |nodes|)
    ensures AllFilled(nodes, children, Table(nodes, le))
  {
    forall row | row in Table(nodes, le) ensures Filled(nodes, children, row.plan) {
      TableIsExact(nodes, le, row);
      var line :| LineageOf(nodes, line, row.plan) && |line| == row.depth + 1;
      assert Link(nodes, line, |line| - 1);
      assert FilledFrom(nodes, children, row.plan, |nodes|);
      assert nodes[..|nodes|] == nodes;
    }
  }

  lemma RowsByName(plans: seq<Plan>, le: (Plan, Plan) -> bool) returns (of: Relation)
    requires UniqueIds(plans)
    ensures IsRows(of, plans, le) && of([], Tops(plans, le), Table(plans, le))
  {
    TopsContinue(plans, le);
    of := (path, items, rows) => AreRows(plans, le, path, items, rows);
  }

  lemma NoItemsNoRows(of: Relation, plans: seq<Plan>, le: (Plan, Plan) -> bool, path: seq<Plan>, rows: seq<Row>, items: seq<Plan>)
    requires IsRows(of, plans, le) && of(path, items, rows) && items == []
    ensures rows == []
  {
    assert Shows(of, plans, le, path, items, rows);
  }

  lemma AllFilledPart(nodes: seq<Plan>, children: Children, below: seq<Row>, rest: seq<Row>, first: Row)
    requires AllFilled(nodes, children, [first] + below + rest)
    ensures AllFilled(nodes, children, below) && AllFilled(nodes, children, rest) && Filled(nodes, children, first.plan)
  {
    var all := [first] + below + rest;
    assert all[0] == first;
    forall row | row in below ensures Filled(nodes, children, row.plan) {
      assert row in all;
    }
    forall row | row in rest ensures Filled(nodes, children, row.plan) {
      assert row in all;
    }
  }

  /** After an item and what is below it are finished: what was finished stays so, and
      what was not touched stays as filled. */
  lemma OneMoreSettled(nodes: seq<Plan>, le: (Plan, Plan) -> bool,
                       c0: Children, d0: map<Text, nat>, c1: Children, d1: map<Text, nat>,
                       done: seq<Row>, first: Row, below: seq<Row>, rest: seq<Row>)
    requires DistinctOn(RowId, done + ([first] + below + rest))
    requires AllSettled(nodes, le, c0, d0, done) && AllFilled(nodes, c0, rest)
    requires SameOutside(c0, c1, {first.plan.id} + RowIds(below)) && SameOutside(d0, d1, {first.plan.id} + RowIds(below))
    requires Settled(nodes, le, c1, d1, first) && AllSettled(nodes, le, c1, d1, below)
    ensures AllSettled(nodes, le, c1, d1, done + ([first] + below)) && AllFilled(nodes, c1, rest)
  {
    PartsApart(done, first, below, rest);
    SettledElsewhere(nodes, le, c0, d0, c1, d1, done, RowIds([first] + below));
    FilledElsewhere(nodes, c0, c1, rest, RowIds([first] + below));
    var all := done + ([first] + below);
    forall row | row in all ensures Settled(nodes, le, c1, d1, row) {
      assert row in done || row == first || row in below;
    }
  }
}
