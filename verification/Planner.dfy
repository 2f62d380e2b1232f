/** Choosing which bundles to relocate (scripts/archive-production-offsite-backups.py, plan). */
module Planner {
  import opened Keyed
  import opened Mapping
  import opened Options
  import opened Sorting
  import opened Texts
  import opened Retention

  datatype Budget = Budget(reclaim: nat, transferCap: nat, reserve: nat)

  /** What is measured of one candidate: bytes to transfer, bytes it occupies, and
      whether the archive already holds something under its name. */
  datatype Measured = Measured(logical: nat, occupied: nat, conflict: bool)

  datatype Refusal = TargetConflict | SafeCandidatesInsufficient | DataReserveInsufficient

  datatype Outcome = Selected(rows: seq<Row>) | Refused(why: Refusal)

  /** By receipt time, then by name. Rows without a receipt are never compared. */
  predicate OlderFirst(a: Row, b: Row) {
    if a.copied.None? || b.copied.None? then a.copied.None?
    else a.copied.value < b.copied.value || (a.copied.value == b.copied.value && LexLe(a.name, b.name))
  }

  function Unprotected(rows: seq<Row>, keep: set<Text>): (r: seq<Row>)
    ensures forall row :: row in r <==> row in rows && row.name !in keep
  {
    if rows == [] then []
    else if rows[0].name in keep then Unprotected(rows[1..], keep)
    else [rows[0]] + Unprotected(rows[1..], keep)
  }

  function Candidates(rows: seq<Row>, keep: set<Text>): seq<Row> {
    SortBy(OlderFirst, Unprotected(rows, keep))
  }

  function Logical(order: seq<Row>, facts: Row -> Measured, k: nat): nat
    requires k <= |order|
  {
    if k == 0 then 0 else Logical(order, facts, k - 1) + facts(order[k - 1]).logical
  }

  function Occupied(order: seq<Row>, facts: Row -> Measured, k: nat): nat
    requires k <= |order|
  {
    if k == 0 then 0 else Occupied(order, facts, k - 1) + facts(order[k - 1]).occupied
  }

  /** The k oldest candidates free enough and do not transfer too much. */
  predicate Enough(order: seq<Row>, facts: Row -> Measured, budget: Budget, k: nat)
    requires k <= |order|
  {
    k > 0 && Occupied(order, facts, k) >= budget.reclaim && Logical(order, facts, k) <= budget.transferCap
  }

  /** The bytes of some rows: what they transfer, and what they occupy. */
  function Transferred(facts: Row -> Measured, rows: seq<Row>): nat {
    Total(Map((row: Row) => facts(row).logical, rows))
  }

  function Freed(facts: Row -> Measured, rows: seq<Row>): nat {
    Total(Map((row: Row) => facts(row).occupied, rows))
  }

  lemma {:induction false} SumsMean(order: seq<Row>, facts: Row -> Measured, k: nat)
    requires k <= |order|
    ensures Logical(order, facts, k) == Transferred(facts, order[..k]) && Occupied(order, facts, k) == Freed(facts, order[..k])
  {
    if k > 0 {
      SumsMean(order, facts, k - 1);
      assert order[..k] == order[..k - 1] + [order[k - 1]];
      TotalAppend((row: Row) => facts(row).logical, order[..k - 1], order[k - 1]);
      TotalAppend((row: Row) => facts(row).occupied, order[..k - 1], order[k - 1]);
    }
  }

  predicate Shortest(order: seq<Row>, facts: Row -> Measured, budget: Budget, k: nat)
    requires k <= |order|
  {
    Enough(order, facts, budget, k) && forall j: nat | j < k :: !Enough(order, facts, budget, j)
  }

  /** The k-th candidate is looked at: the ones before it fit and do not suffice. */
  predicate Examined(order: seq<Row>, facts: Row -> Measured, budget: Budget, k: nat)
    requires k <= |order|
  {
    Logical(order, facts, k) <= budget.transferCap && forall j: nat | j <= k :: !Enough(order, facts, budget, j)
  }

  lemma {:induction false} SumsGrow(order: seq<Row>, facts: Row -> Measured, j: nat, k: nat)
    requires j <= k <= |order|
    ensures Logical(order, facts, j) <= Logical(order, facts, k)
    ensures Occupied(order, facts, j) <= Occupied(order, facts, k)
    decreases k
  {
    if j < k {
      SumsGrow(order, facts, j, k - 1);
    }
  }

  /** Nothing past a prefix that is too large can be enough. */
  lemma TooLarge(order: seq<Row>, facts: Row -> Measured, budget: Budget, k: nat)
    requires k <= |order| && Logical(order, facts, k) > budget.transferCap
    ensures forall j: nat | k <= j <= |order| :: !Enough(order, facts, budget, j)
  {
    forall j: nat | k <= j <= |order| ensures !Enough(order, facts, budget, j) {
      SumsGrow(order, facts, k, j);
    }
  }

  /** Where the loop stops short: the next candidate does not fit, or there is none. */
  lemma NothingBeyond(order: seq<Row>, facts: Row -> Measured, budget: Budget, k: nat)
    requires k <= |order| && forall j: nat | j <= k :: !Enough(order, facts, budget, j)
    requires forall j | 0 <= j < k :: !facts(order[j]).conflict
    requires k < |order| ==>
      !facts(order[k]).conflict && Logical(order, facts, k + 1) > budget.transferCap
    ensures forall j: nat | j <= |order| :: !Enough(order, facts, budget, j)
    ensures forall j: nat | j < |order| && facts(order[j]).conflict :: !Examined(order, facts, budget, j)
  {
    if k < |order| {
      TooLarge(order, facts, budget, k + 1);
      forall j: nat | j < |order| && facts(order[j]).conflict ensures !Examined(order, facts, budget, j) {
        SumsGrow(order, facts, k + 1, j);
      }
    }
  }

  /** Where the collecting loop ends: a conflict was met, the prefix became
      enough, or the next candidate does not fit or does not exist. */
  predicate Collected(order: seq<Row>, facts: Row -> Measured, budget: Budget, k: nat, conflict: bool)
    requires k <= |order|
  {
    && Logical(order, facts, k) <= budget.transferCap
    && (forall j | 0 <= j < k :: !facts(order[j]).conflict)
    && (forall j: nat | j < k :: !Enough(order, facts, budget, j))
    && if conflict then k < |order| && facts(order[k]).conflict && Examined(order, facts, budget, k)
       else (Enough(order, facts, budget, k) || k == |order|
             || (!facts(order[k]).conflict && Logical(order, facts, k + 1) > budget.transferCap))
  }

  method Collect(order: seq<Row>, facts: Row -> Measured, budget: Budget)
    returns (selected: seq<Row>, blocks: nat, logical: nat, conflict: bool)
    ensures selected <= order && Collected(order, facts, budget, |selected|, conflict)
    ensures blocks == Occupied(order, facts, |selected|) && logical == Logical(order, facts, |selected|)
  {
    selected, blocks, logical, conflict := [], 0, 0, false;
    while |selected| < |order|
      invariant selected <= order
      invariant blocks == Occupied(order, facts, |selected|)
      invariant logical == Logical(order, facts, |selected|) <= budget.transferCap
      invariant forall j | 0 <= j < |selected| :: !facts(order[j]).conflict
      invariant forall j: nat | j <= |selected| :: !Enough(order, facts, budget, j)
    {
      var row := order[|selected|];
      if facts(row).conflict {
        conflict := true;
        return;
      }
      if logical + facts(row).logical > budget.transferCap {
        return;
      }
      selected := selected + [row];
      logical := logical + facts(row).logical;
      blocks := blocks + facts(row).occupied;
      if blocks >= budget.reclaim {
        return;
      }
    }
  }

  /** Picks the shortest oldest-first prefix that is enough, and refuses exactly
      when there is none, when a candidate it looks at is already archived, or
      when the data disk cannot hold the selection above the reserve. */
  method Plan(rows: seq<Row>, keep: set<Text>, facts: Row -> Measured, budget: Budget, free: nat)
    returns (outcome: Outcome)
    ensures var order := Candidates(rows, keep);
      match outcome
      case Selected(rows) =>
        && rows <= order && Shortest(order, facts, budget, |rows|)
        && (forall row | row in rows :: !facts(row).conflict)
        && rows != [] && Freed(facts, rows) >= budget.reclaim && Transferred(facts, rows) <= budget.transferCap
        && free >= Transferred(facts, rows) + budget.reserve
        && (|rows| > 1 ==> Freed(facts, rows[..|rows| - 1]) < budget.reclaim)
      case Refused(TargetConflict) =>
        exists k: nat | k < |order| :: facts(order[k]).conflict && Examined(order, facts, budget, k)
      case Refused(SafeCandidatesInsufficient) =>
        && (forall k: nat | 0 < k <= |order| ::
              Freed(facts, order[..k]) < budget.reclaim || Transferred(facts, order[..k]) > budget.transferCap)
        && (forall k: nat | k < |order| && facts(order[k]).conflict :: !Examined(order, facts, budget, k))
      case Refused(DataReserveInsufficient) =>
        exists k: nat | k <= |order| ::
          && Shortest(order, facts, budget, k) && free < Logical(order, facts, k) + budget.reserve
          && forall j | 0 <= j < k :: !facts(order[j]).conflict
  {
    hide Candidates, Freed, Transferred, Logical, Occupied;
    var order := Candidates(rows, keep);
    var selected, blocks, logical, conflict := Collect(order, facts, budget);
    if conflict {
      return Refused(TargetConflict);
    }
    if blocks < budget.reclaim || selected == [] {
      NothingBeyond(order, facts, budget, |selected|);
      NoPrefixIsEnough(order, facts, budget);
      return Refused(SafeCandidatesInsufficient);
    }
    if free < logical + budget.reserve {
      return Refused(DataReserveInsufficient);
    }
    SelectionMeans(order, facts, budget, |selected|);
    assert order[..|selected|] == selected;
    return Selected(selected);
  }

  lemma NoPrefixIsEnough(order: seq<Row>, facts: Row -> Measured, budget: Budget)
    requires forall k: nat | k <= |order| :: !Enough(order, facts, budget, k)
    ensures forall k: nat | 0 < k <= |order| ::
      Freed(facts, order[..k]) < budget.reclaim || Transferred(facts, order[..k]) > budget.transferCap
  {
    hide Freed, Transferred, Logical, Occupied;
    forall k: nat | 0 < k <= |order|
      ensures Freed(facts, order[..k]) < budget.reclaim || Transferred(facts, order[..k]) > budget.transferCap
    {
      assert !Enough(order, facts, budget, k);
      SumsMean(order, facts, k);
    }
  }

  lemma SelectionMeans(order: seq<Row>, facts: Row -> Measured, budget: Budget, k: nat)
    requires 0 < k <= |order| && Shortest(order, facts, budget, k)
    ensures Freed(facts, order[..k]) >= budget.reclaim && Transferred(facts, order[..k]) <= budget.transferCap
    ensures Logical(order, facts, k) == Transferred(facts, order[..k])
    ensures k > 1 ==> Freed(facts, order[..k][..k - 1]) < budget.reclaim
  {
    SumsMean(order, facts, k);
    if k > 1 {
      SumsMean(order, facts, k - 1);
      SumsGrow(order, facts, k - 1, k);
      assert order[..k][..k - 1] == order[..k - 1];
      assert !Enough(order, facts, budget, k - 1);
    }
  }

  lemma OlderFirstTotal()
    ensures TotalPreorder(OlderFirst)
  {
    LexTotalPreorder();
  }

  /** The candidates are exactly the unprotected rows, and whatever prefix is
      selected, nothing left behind is older than anything taken. */
  lemma SelectionIsOldest(rows: seq<Row>, keep: set<Text>, k: nat)
    requires k <= |Candidates(rows, keep)|
    ensures var order := Candidates(rows, keep);
      && (forall row :: row in order <==> row in rows && row.name !in keep)
      && (forall taken, left | taken in order[..k] && left in order[k..] :: OlderFirst(taken, left))
      && forall taken, left | taken in order[..k] && left in order[k..] && taken.copied.Some? && left.copied.Some? ::
           || taken.copied.value < left.copied.value
           || (taken.copied == left.copied && (taken.name == left.name || Before(taken.name, left.name)))
  {
    var order := Candidates(rows, keep);
    MultisetMember(order, Unprotected(rows, keep));
    OlderFirstTotal();
    SortBySorted(OlderFirst, Unprotected(rows, keep));
    forall taken, left | taken in order[..k] && left in order[k..] ensures OlderFirst(taken, left) {
      var i :| 0 <= i < k && order[i] == taken;
      var j :| k <= j < |order| && order[j] == left;
      LexIsBefore(taken.name, left.name);
    }
    forall taken, left | taken in order[..k] && left in order[k..] && taken.copied.Some? && left.copied.Some?
      ensures taken.copied.value < left.copied.value
        || (taken.copied == left.copied && (taken.name == left.name || Before(taken.name, left.name)))
    {
      LexIsBefore(taken.name, left.name);
    }
  }
}
