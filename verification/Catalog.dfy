/** The backup directory as the catalog lists it while bundles leave it
    (scripts/archive-production-offsite-backups.py, catalog). */
module Catalog {
  import opened ArchiveProtocol
  import opened Options
  import opened Retention
  import opened Texts
  import opened TreeOrder
  import opened Trees

  type Receipts = Tree -> Option<real>

  function ModifiedAt(tree: Tree): int {
    if [] in tree then tree[[]].fact.mtime else 0
  }

  /** The row of a planned bundle that is still there. */
  function OwnRow(plan: Plan, i: nat): Row
    requires i < |plan.bundles| == |plan.originals|
  {
    Row(plan.bundles[i].name, ModifiedAt(plan.originals[i]), Some(plan.bundles[i].copied))
  }

  function SlotRow(plan: Plan, receipt: Receipts, d: Disk, i: nat): seq<Row>
    requires i < |plan.bundles| == |plan.originals| == |d.slots|
  {
    match d.slots[i].source
    case None => []
    case Some(tree) =>
      if tree == plan.originals[i] then [OwnRow(plan, i)]
      else [Row(plan.bundles[i].name, ModifiedAt(tree), receipt(tree))]
  }

  function Children(plan: Plan, receipt: Receipts, d: Disk, k: nat): seq<Row>
    requires k <= |plan.bundles| == |plan.originals| == |d.slots|
  {
    if k == 0 then [] else Children(plan, receipt, d, k - 1) + SlotRow(plan, receipt, d, k - 1)
  }

  function Rows(plan: Plan, receipt: Receipts, d: Disk): seq<Row>
    requires |plan.bundles| == |plan.originals| == |d.slots|
  {
    d.others + Children(plan, receipt, d, |d.slots|)
  }

  ghost predicate FromSlot(plan: Plan, receipt: Receipts, d: Disk, k: nat, row: Row)
    requires k <= |plan.bundles| == |plan.originals| == |d.slots|
  {
    exists m: nat | m < k :: row in SlotRow(plan, receipt, d, m)
  }

  lemma {:induction false} ChildrenAreSlots(plan: Plan, receipt: Receipts, d: Disk, k: nat, row: Row)
    requires k <= |plan.bundles| == |plan.originals| == |d.slots|
    ensures row in Children(plan, receipt, d, k) <==> FromSlot(plan, receipt, d, k, row)
  {
    if k > 0 {
      ChildrenAreSlots(plan, receipt, d, k - 1, row);
      if FromSlot(plan, receipt, d, k, row) {
        var m: nat :| m < k && row in SlotRow(plan, receipt, d, m);
      } else {
        assert row !in SlotRow(plan, receipt, d, k - 1);
      }
    }
  }

  ghost predicate DistinctNames(rows: seq<Row>) {
    forall a, b | 0 <= a < b < |rows| :: rows[a].name != rows[b].name
  }

  lemma NamesJoin(first: seq<Row>, last: seq<Row>)
    requires DistinctNames(first) && DistinctNames(last)
    requires forall r, s | r in first && s in last :: r.name != s.name
    ensures DistinctNames(first + last)
  {
    var rows := first + last;
    forall a, b | 0 <= a < b < |rows| ensures rows[a].name != rows[b].name {
      if a < |first| <= b {
        assert rows[a] in first && rows[b] in last;
      }
    }
  }

  lemma {:induction false} ChildNames(plan: Plan, receipt: Receipts, d: Disk, k: nat)
    requires PlanValid(plan) && k <= |plan.bundles| == |d.slots|
    ensures DistinctNames(Children(plan, receipt, d, k))
  {
    if k > 0 {
      ChildNames(plan, receipt, d, k - 1);
      var before, last := Children(plan, receipt, d, k - 1), SlotRow(plan, receipt, d, k - 1);
      forall r, s | r in before && s in last ensures r.name != s.name {
        ChildrenAreSlots(plan, receipt, d, k - 1, r);
        var m: nat :| m < k - 1 && r in SlotRow(plan, receipt, d, m);
        assert plan.bundles[m].name != plan.bundles[k - 1].name;
      }
      NamesJoin(before, last);
    }
  }

  /** No two rows carry the same name. */
  lemma RowNames(plan: Plan, receipt: Receipts, d: Disk)
    requires PlanValid(plan) && |plan.bundles| == |d.slots| && NamesApart(plan, d.others)
    ensures DistinctNames(Rows(plan, receipt, d))
  {
    ChildNames(plan, receipt, d, |d.slots|);
    forall r, s | r in d.others && s in Children(plan, receipt, d, |d.slots|) ensures r.name != s.name {
      OtherName(plan, receipt, d, r, s);
    }
    NamesJoin(d.others, Children(plan, receipt, d, |d.slots|));
  }

  lemma OtherName(plan: Plan, receipt: Receipts, d: Disk, r: Row, s: Row)
    requires |plan.bundles| == |plan.originals| == |d.slots| && NamesApart(plan, d.others)
    requires r in d.others && (FromSlot(plan, receipt, d, |d.slots|, s) || s in Children(plan, receipt, d, |d.slots|))
    ensures r.name != s.name
  {
    ChildrenAreSlots(plan, receipt, d, |d.slots|, s);
    var a :| 0 <= a < |d.others| && d.others[a] == r;
    var m: nat :| m < |d.slots| && s in SlotRow(plan, receipt, d, m);
    assert d.others[a].name != plan.bundles[m].name;
  }

  lemma OwnRowListed(plan: Plan, receipt: Receipts, d: Disk, i: nat)
    requires |plan.bundles| == |plan.originals| == |d.slots| && i < |d.slots|
    requires d.slots[i].source == Some(plan.originals[i])
    ensures OwnRow(plan, i) in Rows(plan, receipt, d)
  {
    assert OwnRow(plan, i) in SlotRow(plan, receipt, d, i);
    ChildrenAreSlots(plan, receipt, d, |d.slots|, OwnRow(plan, i));
  }

  lemma RowAfterMove(plan: Plan, receipt: Receipts, d: Disk, d': Disk, i: nat, row: Row)
    requires PlanValid(plan) && |plan.bundles| == |d.slots| == |d'.slots| && i < |d.slots|
    requires d.slots[i].source == Some(plan.originals[i]) && d'.slots[i].source == None
    requires forall j | 0 <= j < |d.slots| && j != i :: d'.slots[j] == d.slots[j]
    ensures FromSlot(plan, receipt, d', |d.slots|, row) <==>
      FromSlot(plan, receipt, d, |d.slots|, row) && row != OwnRow(plan, i)
  {
    if FromSlot(plan, receipt, d', |d.slots|, row) {
      var m: nat :| m < |d.slots| && row in SlotRow(plan, receipt, d', m);
      assert m != i && row in SlotRow(plan, receipt, d, m) && row.name == plan.bundles[m].name;
      assert plan.bundles[m].name != plan.bundles[i].name;
    }
    if FromSlot(plan, receipt, d, |d.slots|, row) && row != OwnRow(plan, i) {
      var m: nat :| m < |d.slots| && row in SlotRow(plan, receipt, d, m);
      assert m != i && row in SlotRow(plan, receipt, d', m);
    }
  }

  /** When a planned bundle leaves, exactly its row leaves the catalog. */
  lemma RowsAfterMove(plan: Plan, receipt: Receipts, d: Disk, d': Disk, i: nat)
    requires PlanValid(plan) && |plan.bundles| == |d.slots| == |d'.slots| && i < |d.slots|
    requires NamesApart(plan, d.others)
    requires d.slots[i].source == Some(plan.originals[i]) && d'.slots[i].source == None && d'.others == d.others
    requires forall j | 0 <= j < |d.slots| && j != i :: d'.slots[j] == d.slots[j]
    ensures Elements(Rows(plan, receipt, d')) == Elements(Rows(plan, receipt, d)) - {OwnRow(plan, i)}
  {
    forall row ensures row in Rows(plan, receipt, d') <==> row in Rows(plan, receipt, d) && row != OwnRow(plan, i) {
      RowAfterMove(plan, receipt, d, d', i, row);
      ChildrenAreSlots(plan, receipt, d, |d.slots|, row);
      ChildrenAreSlots(plan, receipt, d', |d.slots|, row);
      if row in d.others {
        assert OwnRow(plan, i) in SlotRow(plan, receipt, d, i);
        OtherName(plan, receipt, d, row, OwnRow(plan, i));
      }
    }
  }

  /** Every planned bundle that is still there may be retired at that time. */
  ghost predicate Retirable(plan: Plan, receipt: Receipts, d: Disk, now: real, policy: Policy)
    requires |plan.bundles| == |plan.originals| == |d.slots|
  {
    forall i | 0 <= i < |d.slots| && d.slots[i].source == Some(plan.originals[i]) ::
      !RankProtected(OwnRow(plan, i), Elements(Rows(plan, receipt, d)), now, policy)
  }

  /** A bundle's departure leaves the others retirable, then and later. */
  lemma MoveKeepsRetirable(plan: Plan, receipt: Receipts, d: Disk, d': Disk, i: nat, now: real, later: real, policy: Policy)
    requires PlanValid(plan) && |plan.bundles| == |d.slots| == |d'.slots| && i < |d.slots|
    requires NamesApart(plan, d.others)
    requires d.slots[i].source == Some(plan.originals[i]) && d'.slots[i].source == None && d'.others == d.others
    requires forall j | 0 <= j < |d.slots| && j != i :: d'.slots[j] == d.slots[j]
    requires Retirable(plan, receipt, d, now, policy) && now <= later
    ensures Retirable(plan, receipt, d', later, policy)
  {
    var before := Moment(Elements(Rows(plan, receipt, d)), now);
    var after := Moment(Elements(Rows(plan, receipt, d')), later);
    RowsAfterMove(plan, receipt, d, d', i);
    OwnRowListed(plan, receipt, d, i);
    assert Retires(before, after, OwnRow(plan, i), policy);
    assert CatalogStep(before, after, policy);
    forall j | 0 <= j < |d'.slots| && d'.slots[j].source == Some(plan.originals[j])
      ensures !RankProtected(OwnRow(plan, j), after.rows, later, policy)
    {
      NewerSurvive(before, after, plan.bundles[j].copied, policy);
    }
  }

  // ---------- the retention rule over whole histories ----------

  /** Nobody removes anything from the backup directory but planned originals. */
  ghost predicate OnlyAdds(plan: Plan, d: Disk, d': Disk)
    requires |plan.bundles| == |plan.originals| == |d.slots|
  {
    && |d'.slots| == |d.slots| && Elements(d.others) <= Elements(d'.others)
    && forall i | 0 <= i < |d.slots| && d.slots[i].source.Some? && d.slots[i].source != Some(plan.originals[i]) ::
         d'.slots[i].source == d.slots[i].source
  }

  /** The planned original was there and is not there any more. */
  predicate Leaves(plan: Plan, d: Disk, d': Disk, i: nat)
    requires |plan.originals| == |d.slots| == |d'.slots| && i < |d.slots|
  {
    d.slots[i].source == Some(plan.originals[i]) && d'.slots[i].source != d.slots[i].source
  }

  /** A planned original leaves only if the rule, asked of this very catalog at time t,
      allows it. */
  ghost predicate RuleKept(plan: Plan, receipt: Receipts, d: Disk, d': Disk, t: real, policy: Policy)
    requires |plan.bundles| == |plan.originals| == |d.slots| == |d'.slots|
  {
    forall i | 0 <= i < |d.slots| && Leaves(plan, d, d', i) ::
      !RankProtected(OwnRow(plan, i), Elements(Rows(plan, receipt, d)), t, policy)
  }

  ghost predicate Ordered(times: seq<real>) {
    forall i, j | 0 <= i <= j < |times| :: times[i] <= times[j]
  }

  ghost predicate Undisturbed(plan: Plan, run: seq<Disk>)
    requires ArchiveProtocol.Run(plan, run)
  {
    forall k {:trigger Linked(plan, run, k)} | 0 < k < |run| :: OnlyAdds(plan, run[k - 1], run[k])
  }

  /** Whatever has left so far has left by the rule. */
  ghost predicate Ruled(plan: Plan, receipt: Receipts, run: seq<Disk>, times: seq<real>, policy: Policy)
    requires ArchiveProtocol.Run(plan, run) && |times| == |run|
  {
    forall k {:trigger Linked(plan, run, k)} | 0 < k < |run| :: RuleKept(plan, receipt, run[k - 1], run[k], times[k - 1], policy)
  }

  /** A planned original leaves only by being moved aside. */
  lemma LeavesByMove(plan: Plan, d: Disk, d': Disk, i: nat)
    requires |plan.bundles| == |plan.originals| == |d.slots| == |d'.slots| && i < |d.slots|
    requires Next(plan, d, d') && Leaves(plan, d, d', i)
    ensures d'.slots[i].source.None? && d'.others == d.others
    ensures forall j | 0 <= j < |d.slots| && j != i :: d'.slots[j] == d.slots[j]
  {
    var j :| 0 <= j < |d.slots| && SlotStep(plan, d, d', j);
  }

  lemma RowsStay(plan: Plan, receipt: Receipts, d: Disk, d': Disk)
    requires |plan.bundles| == |plan.originals| == |d.slots| == |d'.slots| && OnlyAdds(plan, d, d')
    requires forall i | 0 <= i < |d.slots| :: !Leaves(plan, d, d', i)
    ensures Elements(Rows(plan, receipt, d)) <= Elements(Rows(plan, receipt, d'))
  {
    forall row | row in Rows(plan, receipt, d) ensures row in Rows(plan, receipt, d') {
      ChildrenAreSlots(plan, receipt, d, |d.slots|, row);
      ChildrenAreSlots(plan, receipt, d', |d.slots|, row);
      if row in d.others {
        assert row in Elements(d.others);
      } else {
        var m: nat :| m < |d.slots| && row in SlotRow(plan, receipt, d, m);
        assert !Leaves(plan, d, d', m);
        assert row in SlotRow(plan, receipt, d', m);
      }
    }
  }

  function MomentOf(plan: Plan, receipt: Receipts, d: Disk, t: real): Moment
    requires |plan.bundles| == |plan.originals| == |d.slots|
  {
    Moment(Elements(Rows(plan, receipt, d)), t)
  }

  /** Every step of the script or of its surroundings is a step of the catalog. */
  lemma NextIsCatalogStep(plan: Plan, receipt: Receipts, d: Disk, d': Disk, t: real, later: real, policy: Policy)
    requires PlanValid(plan) && Inv(plan, d) && Next(plan, d, d') && |d'.slots| == |d.slots|
    requires OnlyAdds(plan, d, d') && RuleKept(plan, receipt, d, d', t, policy) && t <= later
    ensures CatalogStep(MomentOf(plan, receipt, d, t), MomentOf(plan, receipt, d', later), policy)
  {
    if i :| 0 <= i < |d.slots| && Leaves(plan, d, d', i) {
      LeavesByMove(plan, d, d', i);
      RowsAfterMove(plan, receipt, d, d', i);
      OwnRowListed(plan, receipt, d, i);
      assert Retires(MomentOf(plan, receipt, d, t), MomentOf(plan, receipt, d', later), OwnRow(plan, i), policy);
    } else {
      RowsStay(plan, receipt, d, d');
    }
  }

  function Moments(plan: Plan, receipt: Receipts, run: seq<Disk>, times: seq<real>): seq<Moment>
    requires |plan.bundles| == |plan.originals| && |times| == |run|
    requires forall k | 0 <= k < |run| :: |run[k].slots| == |plan.bundles|
  {
    seq(|run|, k requires 0 <= k < |run| => MomentOf(plan, receipt, run[k], times[k]))
  }

  /** What happened so far: a run from the freshly sealed plan, with the moment at which
      each state was last looked at or reached. */
  ghost predicate History(plan: Plan, receipt: Receipts, run: seq<Disk>, times: seq<real>, policy: Policy) {
    && PlanValid(plan) && run != [] && |times| == |run| && ArchiveProtocol.Run(plan, run) && Initial(plan, run[0])
    && Ordered(times) && Undisturbed(plan, run) && Ruled(plan, receipt, run, times, policy)
  }

  /** The catalogs of such a history form a run of the retention rule. */
  lemma HistoryIsCatalogRun(plan: Plan, receipt: Receipts, run: seq<Disk>, times: seq<real>, policy: Policy)
    requires History(plan, receipt, run, times, policy)
    ensures CatalogRun(Moments(plan, receipt, run, times), policy)
  {
    var moments := Moments(plan, receipt, run, times);
    forall i | 0 <= i < |moments| - 1 ensures CatalogStep(moments[i], moments[i + 1], policy) {
      RunKeepsInv(plan, run, i);
      RunStep(plan, run, i + 1);
      assert Linked(plan, run, i + 1);
      NextIsCatalogStep(plan, receipt, run[i], run[i + 1], times[i], times[i + 1], policy);
    }
  }

  lemma CatalogRunsJoin(first: seq<Moment>, last: seq<Moment>, policy: Policy)
    requires CatalogRun(first, policy) && CatalogRun(last, policy)
    requires first != [] && last != [] && CatalogStep(first[|first| - 1], last[0], policy)
    ensures CatalogRun(first + last, policy)
  {
    var joined := first + last;
    forall i | 0 <= i < |joined| - 1 ensures CatalogStep(joined[i], joined[i + 1], policy) {
      if i + 1 < |first| {
        assert CatalogStep(first[i], first[i + 1], policy);
      } else if |first| <= i {
        var j := i - |first|;
        assert CatalogStep(last[j], last[j + 1], policy);
      }
    }
  }

  /** A plan whose bundles could all be retired when it was made is never refused as
      protected: after any history, and at any later time, every planned original that
      is still there may be retired. */
  lemma PlannedIsNeverProtected(plan: Plan, receipt: Receipts, run: seq<Disk>, times: seq<real>, policy: Policy,
                                planned: real, now: real)
    requires History(plan, receipt, run, times, policy)
    requires Retirable(plan, receipt, run[0], planned, policy) && planned <= times[0] && times[|run| - 1] <= now
    ensures Retirable(plan, receipt, run[|run| - 1], now, policy)
  {
    var moments, n := Moments(plan, receipt, run, times), |run|;
    var start, end := MomentOf(plan, receipt, run[0], planned), MomentOf(plan, receipt, run[n - 1], now);
    HistoryIsCatalogRun(plan, receipt, run, times, policy);
    CatalogRunsJoin([start], moments, policy);
    CatalogRunsJoin([start] + moments, [end], policy);
    var whole := [start] + moments + [end];
    forall i | 0 <= i < |plan.bundles| && run[n - 1].slots[i].source == Some(plan.originals[i])
      ensures !RankProtected(OwnRow(plan, i), end.rows, now, policy)
    {
      UnprotectedForever(whole, 0, n + 1, OwnRow(plan, i), policy);
    }
  }

  /** Every receipted bundle that was in the directory at any time is still there, or
      two strictly newer ones are: the two newest stay. */
  ghost predicate NewestStay(plan: Plan, receipt: Receipts, run: seq<Disk>)
    requires |plan.bundles| == |plan.originals| && run != []
    requires forall k | 0 <= k < |run| :: |run[k].slots| == |plan.bundles|
  {
    forall k, row | 0 <= k < |run| && row in Rows(plan, receipt, run[k]) && row.copied.Some? ::
      var rows := Elements(Rows(plan, receipt, run[|run| - 1]));
      row in rows || |Newer(rows, row.copied.value)| >= 2
  }

  lemma HistoryKeepsNewest(plan: Plan, receipt: Receipts, run: seq<Disk>, times: seq<real>, policy: Policy)
    requires History(plan, receipt, run, times, policy)
    ensures NewestStay(plan, receipt, run)
  {
    var moments := Moments(plan, receipt, run, times);
    HistoryIsCatalogRun(plan, receipt, run, times, policy);
    forall k, row | 0 <= k < |run| && row in Rows(plan, receipt, run[k]) && row.copied.Some?
      ensures row in moments[|run| - 1].rows || |Newer(moments[|run| - 1].rows, row.copied.value)| >= 2
    {
      TwoNewestStay(moments, k, |run| - 1, row, policy);
    }
  }

  /** The plan was made at that moment, from bundles that could all be retired, and time
      and surroundings have behaved since. */
  ghost predicate Fair(plan: Plan, receipt: Receipts, policy: Policy, planned: real, run: seq<Disk>, times: seq<real>, now: real) {
    && History(plan, receipt, run, times, policy)
    && planned <= times[0] && times[|run| - 1] <= now && Retirable(plan, receipt, run[0], planned, policy)
  }

  lemma FairWaits(plan: Plan, receipt: Receipts, policy: Policy, planned: real, run: seq<Disk>, times: seq<real>, now: real, later: real)
    requires Fair(plan, receipt, policy, planned, run, times, now) && now <= later
    ensures Fair(plan, receipt, policy, planned, run, times, later)
  {
  }

  /** Looking at the last state again does not change by what rule earlier ones were left,
      and one more step by the rule keeps to it. */
  lemma RuledLooks(plan: Plan, receipt: Receipts, policy: Policy, run: seq<Disk>, times: seq<real>, now: real)
    requires run != [] && |times| == |run| && ArchiveProtocol.Run(plan, run) && Ruled(plan, receipt, run, times, policy)
    ensures Ruled(plan, receipt, run, times[|run| - 1 := now], policy)
  {
    var looked := times[|run| - 1 := now];
    forall k | 0 < k < |run| ensures Linked(plan, run, k) && RuleKept(plan, receipt, run[k - 1], run[k], looked[k - 1], policy) {
      assert Linked(plan, run, k);
    }
  }

  lemma RuledGrows(plan: Plan, receipt: Receipts, policy: Policy, run: seq<Disk>, times: seq<real>, next: Disk, now: real)
    requires run != [] && |times| == |run| && ArchiveProtocol.Run(plan, run) && Ruled(plan, receipt, run, times, policy)
    requires var last := run[|run| - 1];
      |next.slots| == |plan.bundles| && Next(plan, last, next) && RuleKept(plan, receipt, last, next, times[|run| - 1], policy)
    ensures ArchiveProtocol.Run(plan, run + [next]) && Ruled(plan, receipt, run + [next], times + [now], policy)
  {
    var longer, moments := run + [next], times + [now];
    RunGrows(plan, run, next);
    forall k | 0 < k < |longer|
      ensures Linked(plan, longer, k) && RuleKept(plan, receipt, longer[k - 1], longer[k], moments[k - 1], policy)
    {
      assert k < |run| ==> Linked(plan, run, k);
    }
  }

  /** The last state is looked at once more. */
  lemma FairLooks(plan: Plan, receipt: Receipts, policy: Policy, planned: real, run: seq<Disk>, times: seq<real>, now: real)
    requires Fair(plan, receipt, policy, planned, run, times, now)
    ensures Fair(plan, receipt, policy, planned, run, times[|run| - 1 := now], now)
  {
    var looked := times[|run| - 1 := now];
    forall k | 0 < k < |run| ensures Linked(plan, run, k) && RuleKept(plan, receipt, run[k - 1], run[k], looked[k - 1], policy) {
      assert Linked(plan, run, k);
    }
  }

  lemma FairGrows(plan: Plan, receipt: Receipts, policy: Policy, planned: real, run: seq<Disk>, times: seq<real>, next: Disk, now: real)
    requires Fair(plan, receipt, policy, planned, run, times, now)
    requires var last := run[|run| - 1];
      |next.slots| == |plan.bundles| && Next(plan, last, next) && OnlyAdds(plan, last, next)
      && RuleKept(plan, receipt, last, next, times[|run| - 1], policy)
    ensures Fair(plan, receipt, policy, planned, run + [next], times + [now], now)
  {
    var longer, moments := run + [next], times + [now];
    RunGrows(plan, run, next);
    forall k | 0 < k < |longer|
      ensures Linked(plan, longer, k) && OnlyAdds(plan, longer[k - 1], longer[k])
      ensures RuleKept(plan, receipt, longer[k - 1], longer[k], moments[k - 1], policy)
    {
      assert k < |run| ==> Linked(plan, run, k);
    }
  }

  /** The script itself only adds: it moves nothing but planned originals. */
  lemma ScriptOnlyAdds(plan: Plan, d: Disk, d': Disk, j: nat)
    requires PlanValid(plan) && Inv(plan, d) && j < |d.slots| && SlotStep(plan, d, d', j)
    ensures OnlyAdds(plan, d, d')
  {
    forall i | 0 <= i < |d.slots| && d.slots[i].source.Some? && d.slots[i].source != Some(plan.originals[i])
      ensures d'.slots[i].source == d.slots[i].source
    {
      OnlyOriginalsMove(plan, d, d', j, i);
    }
  }
}
