/** The flat table of plans on the plans as they are given
    (apps/web/lib/engineering-plans-utils.ts). */
module PlanTable {
  import opened Keyed
  import opened Mapping
  import opened Options
  import opened PlanForest
  import opened Sorting
  import opened Texts

  /** One plan names the other as its parent. An empty name is none. */
  predicate IsParentOf(parent: Plan, p: Plan) {
    p.parent == Some(parent.id) && parent.id != []
  }

  predicate Parentless(plans: seq<Plan>, p: Plan) {
    forall q | q in plans :: !IsParentOf(q, p)
  }

  lemma ParentIsListed(plans: seq<Plan>, p: Plan)
    ensures Parentless(plans, p) <==> !HasParent(plans, p)
    ensures forall q | q in plans :: ChildOf(plans, p, q) <==> IsParentOf(q, p)
  {
    if p.parent.Some? {
      MapMember(PlanId, plans, p.parent.value);
      if HasParent(plans, p) {
        var q :| q in plans && PlanId(q) == p.parent.value;
        assert IsParentOf(q, p);
      }
      forall q | q in plans && IsParentOf(q, p) ensures HasParent(plans, p) {
        assert PlanId(q) == p.parent.value;
      }
    }
  }

  // ---------- which plans are nodes ----------

  /** The last of the plans with its id. */
  ghost predicate IsLast(plans: seq<Plan>, p: Plan) {
    exists i | 0 <= i < |plans| :: LastAt(plans, p, i)
  }

  predicate LastAt(plans: seq<Plan>, p: Plan, i: nat)
    requires i < |plans|
  {
    plans[i] == p && forall j | i < j < |plans| :: plans[j].id != p.id
  }

  /** The first id occurs before the second does. */
  ghost predicate OccursBefore(plans: seq<Plan>, x: Text, y: Text) {
    exists i | 0 <= i < |plans| :: OccursAt(plans, x, y, i)
  }

  predicate OccursAt(plans: seq<Plan>, x: Text, y: Text, i: nat)
    requires i < |plans|
  {
    plans[i].id == x && forall j | 0 <= j <= i :: plans[j].id != y
  }

  /** Of several plans with one id the last is the node, in the place of the first. */
  ghost predicate NodesOf(plans: seq<Plan>, nodes: seq<Plan>) {
    && (forall p | p in nodes :: IsLast(plans, p))
    && (forall p | p in plans :: exists q | q in nodes :: q.id == p.id)
    && forall a, b | 0 <= a < b < |nodes| :: OccursBefore(plans, nodes[a].id, nodes[b].id)
  }

  lemma PutAt(nodes: seq<Plan>, p: Plan) returns (k: nat)
    requires UniqueIds(nodes)
    ensures k <= |nodes| && Put(nodes, p) == if k < |nodes| then nodes[k := p] else nodes + [p]
    ensures (k < |nodes| ==> nodes[k].id == p.id) && forall i | 0 <= i < |nodes| && i != k :: nodes[i].id != p.id
  {
    if p.id in Ids(nodes) {
      k :| 0 <= k < |nodes| && Ids(nodes)[k] == p.id;
      forall i | 0 <= i < |nodes| && i != k ensures nodes[i].id != p.id {
        assert if i < k then IdsDiffer(nodes, i, k) else IdsDiffer(nodes, k, i);
      }
      PutOver(nodes, p, k);
    } else {
      k := |nodes|;
      PutNew(nodes, p);
      forall i | 0 <= i < |nodes| ensures nodes[i].id != p.id {
        assert Ids(nodes)[i] in Ids(nodes);
      }
    }
  }

  lemma {:induction false} PutOver(nodes: seq<Plan>, p: Plan, k: nat)
    requires k < |nodes| && nodes[k].id == p.id && forall i | 0 <= i < k :: nodes[i].id != p.id
    ensures Put(nodes, p) == nodes[k := p]
  {
    if k > 0 {
      PutOver(nodes[1..], p, k - 1);
      assert nodes[k := p] == [nodes[0]] + nodes[1..][k - 1 := p];
    } else {
      assert nodes[0 := p] == [p] + nodes[1..];
    }
  }

  lemma {:induction false} LatestAreNodes(plans: seq<Plan>)
    ensures NodesOf(plans, Latest(plans))
  {
    if plans != [] {
      var n := |plans| - 1;
      LatestAreNodes(plans[..n]);
      LatestUnique(plans[..n]);
      var k := PutAt(Latest(plans[..n]), plans[n]);
      OneMoreNode(plans, Latest(plans[..n]), k);
    }
  }

  lemma OneMoreNode(plans: seq<Plan>, before: seq<Plan>, k: nat)
    requires plans != [] && NodesOf(plans[..|plans| - 1], before) && k <= |before|
    requires k < |before| ==> before[k].id == plans[|plans| - 1].id
    requires forall i | 0 <= i < |before| && i != k :: before[i].id != plans[|plans| - 1].id
    ensures NodesOf(plans, if k < |before| then before[k := plans[|plans| - 1]] else before + [plans[|plans| - 1]])
  {
    hide IsLast, OccursBefore;
    var n := |plans| - 1;
    var nodes := if k < |before| then before[k := plans[n]] else before + [plans[n]];
    forall q | q in nodes ensures IsLast(plans, q) {
      var i :| 0 <= i < |nodes| && nodes[i] == q;
      if i == k {
        NewestIsLast(plans);
      } else {
        LastStays(plans, q);
      }
    }
    forall p | p in plans ensures exists q | q in nodes :: q.id == p.id {
      IdKept(plans, before, nodes, k, p);
    }
    forall a, b | 0 <= a < b < |nodes| ensures OccursBefore(plans, nodes[a].id, nodes[b].id) {
      if b < |before| {
        OccursStays(plans, before[a].id, before[b].id);
      } else {
        NewIsLast(plans, before, a);
      }
    }
  }

  lemma IdKept(plans: seq<Plan>, before: seq<Plan>, nodes: seq<Plan>, k: nat, p: Plan)
    requires plans != [] && NodesOf(plans[..|plans| - 1], before) && p in plans && k < |nodes|
    requires |before| <= |nodes| && (forall i | 0 <= i < |before| :: nodes[i].id == before[i].id) && nodes[k] == plans[|plans| - 1]
    ensures exists q | q in nodes :: q.id == p.id
  {
    hide IsLast, OccursBefore;
    if p in plans[..|plans| - 1] {
      var q :| q in before && q.id == p.id;
      var i :| 0 <= i < |before| && before[i] == q;
      assert nodes[i] in nodes;
    } else {
      assert nodes[k] == p;
    }
  }

  lemma NewestIsLast(plans: seq<Plan>)
    requires plans != []
    ensures IsLast(plans, plans[|plans| - 1])
  {
    assert LastAt(plans, plans[|plans| - 1], |plans| - 1);
  }

  lemma LastStays(plans: seq<Plan>, q: Plan)
    requires plans != [] && IsLast(plans[..|plans| - 1], q) && q.id != plans[|plans| - 1].id
    ensures IsLast(plans, q)
  {
    var n := |plans| - 1;
    var i :| 0 <= i < n && LastAt(plans[..n], q, i);
    forall j | i < j < |plans| ensures plans[j].id != q.id {
      assert j < n ==> plans[..n][j] == plans[j];
    }
    assert LastAt(plans, q, i);
  }

  lemma OccursStays(plans: seq<Plan>, x: Text, y: Text)
    requires plans != [] && OccursBefore(plans[..|plans| - 1], x, y)
    ensures OccursBefore(plans, x, y)
  {
    var n := |plans| - 1;
    var i :| 0 <= i < n && OccursAt(plans[..n], x, y, i);
    forall j | 0 <= j <= i ensures plans[j].id != y {
      assert plans[..n][j] == plans[j];
    }
    assert OccursAt(plans, x, y, i);
  }

  lemma NewIsLast(plans: seq<Plan>, before: seq<Plan>, a: nat)
    requires plans != [] && a < |before| && NodesOf(plans[..|plans| - 1], before)
    requires forall i | 0 <= i < |before| :: before[i].id != plans[|plans| - 1].id
    ensures OccursBefore(plans, before[a].id, plans[|plans| - 1].id)
  {
    var n := |plans| - 1;
    assert before[a] in before;
    var i :| 0 <= i < n && LastAt(plans[..n], before[a], i);
    forall j | 0 <= j <= i ensures plans[j].id != plans[n].id {
      assert plans[..n][j] == plans[j] && plans[j] in plans[..n];
      var q :| q in before && q.id == plans[j].id;
    }
    assert OccursAt(plans, before[a].id, plans[n].id, i);
  }

  // ---------- what the table lists, and where ----------

  /** From a plan without parent down to the given one, each the parent of the next. */
  ghost predicate Chain(nodes: seq<Plan>, chain: seq<Plan>, p: Plan) {
    && chain != [] && chain[|chain| - 1] == p && (forall q | q in chain :: q in nodes) && Parentless(nodes, chain[0])
    && forall i | 0 < i < |chain| :: IsParentOf(chain[i - 1], chain[i])
  }

  /** The table of a list of plans. */
  ghost function TableOf(plans: seq<Plan>, collate: Collation): seq<Row> {
    LatestUnique(plans);
    Table(Latest(plans), SiblingLe(collate))
  }

  lemma ChainIsLineage(nodes: seq<Plan>, chain: seq<Plan>, p: Plan)
    ensures Chain(nodes, chain, p) <==> LineageOf(nodes, chain, p)
  {
    hide Parentless, HasParent, ChildOf, IsParentOf;
    forall q ensures Parentless(nodes, q) <==> !HasParent(nodes, q) {
      ParentIsListed(nodes, q);
    }
    forall q, r | q in nodes ensures ChildOf(nodes, r, q) <==> IsParentOf(q, r) {
      ParentIsListed(nodes, r);
    }
    if Chain(nodes, chain, p) {
      forall i | 0 <= i < |chain| ensures Link(nodes, chain, i) {
        assert chain[i] in chain;
        assert i > 0 ==> chain[i - 1] in chain;
      }
    }
    if LineageOf(nodes, chain, p) {
      assert Link(nodes, chain, 0);
      forall i | 0 <= i < |chain| ensures chain[i] in nodes {
        assert Link(nodes, chain, i);
      }
      forall i | 0 < i < |chain| ensures IsParentOf(chain[i - 1], chain[i]) {
        assert Link(nodes, chain, i) && Link(nodes, chain, i - 1);
      }
    }
  }

  /** The table of a list of plans has exactly the nodes to which a chain of parents leads,
      each once, at the depth of that chain. */
  lemma TableListsChains(plans: seq<Plan>, collate: Collation, p: Plan, depth: nat)
    ensures var nodes, table := Latest(plans), TableOf(plans, collate);
      && NodesOf(plans, nodes)
      && (Row(p, depth) in table <==> exists chain: seq<Plan> :: Chain(nodes, chain, p) && |chain| == depth + 1)
      && forall i, j | 0 <= i < j < |table| :: table[i].plan.id != table[j].plan.id
  {
    hide Chain, LineageOf, Table;
    var nodes, le := Latest(plans), SiblingLe(collate);
    LatestAreNodes(plans);
    LatestUnique(plans);
    TableIsExact(nodes, le, Row(p, depth));
    TableListsOnce(nodes, le);
    forall chain: seq<Plan> ensures Chain(nodes, chain, p) <==> LineageOf(nodes, chain, p) {
      ChainIsLineage(nodes, chain, p);
    }
    var table := Table(nodes, le);
    forall i, j | 0 <= i < j < |table| ensures table[i].plan.id != table[j].plan.id {
      PairwiseAt(Differ(RowId), table, i, j);
      assert Differ(RowId)(table[i], table[j]) <==> RowId(table[i]) != RowId(table[j]);
    }
  }

  /** Both plans have the same parent among the nodes, or none. */
  ghost predicate SameParent(nodes: seq<Plan>, p: Plan, q: Plan) {
    || (Parentless(nodes, p) && Parentless(nodes, q))
    || exists parent | parent in nodes :: IsParentOf(parent, p) && IsParentOf(parent, q)
  }

  /** Of two plans with the same parent the one with the smaller sort order stands first,
      and with equal ones the one created first. */
  lemma TableIsSorted(plans: seq<Plan>, collate: Collation, j: nat, k: nat)
    requires TotalPreorder(collate) && j < k < |TableOf(plans, collate)|
    requires SameParent(Latest(plans), TableOf(plans, collate)[j].plan, TableOf(plans, collate)[k].plan)
    ensures var p, q := TableOf(plans, collate)[j].plan, TableOf(plans, collate)[k].plan;
      p.sortOrder < q.sortOrder || (p.sortOrder == q.sortOrder && collate(p.created, q.created))
  {
    hide Table, Parentless, HasParent;
    var nodes, le := Latest(plans), SiblingLe(collate);
    LatestUnique(plans);
    var p, q := Table(nodes, le)[j].plan, Table(nodes, le)[k].plan;
    SiblingLePreorder(collate);
    ParentIsListed(nodes, p);
    ParentIsListed(nodes, q);
    if !(Parentless(nodes, p) && Parentless(nodes, q)) {
      var parent :| parent in nodes && IsParentOf(parent, p) && IsParentOf(parent, q);
      assert ChildOf(nodes, p, parent) && ChildOf(nodes, q, parent);
    }
    TableSortsSiblings(nodes, le, j, k);
  }
}
