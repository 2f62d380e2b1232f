/** Collecting all pages of a live list, with checks for drift
    (apps/web/lib/scoped-csv-export.ts, collectScopedExport). */
module ExportPages {
  import opened Options
  import opened Texts

  const MAX_SAFE := 0x1F_FFFF_FFFF_FFFF

  /** A row with its id, if that is a string. */
  datatype Row = Row(id: Option<Text>, content: Text)

  /** A page as answered; total is None when it is no safe integer, items when it is no list. */
  datatype Page = Page(items: Option<seq<Row>>, total: Option<int>, page: int, pageSize: int)

  /** The answer to the given request, counted from zero, for the given page; None when
      it fails. */
  type Fetch = (nat, int) -> Option<Page>

  /** Whether the export is still wanted at the given check, counted from zero. */
  type Live = nat -> bool

  datatype Export = Complete(rows: seq<Row>) | Cancelled | Invalid

  function Min(a: int, b: int): int { if a <= b then a else b }
  function Max(a: int, b: int): int { if a <= b then b else a }

  predicate WellFormed(answer: Option<Page>, page: int, pageSize: int) {
    && answer.Some?
    && answer.value.total.Some? && 0 <= answer.value.total.value <= MAX_SAFE
    && answer.value.page == page && answer.value.pageSize == pageSize && answer.value.items.Some?
  }

  /** A page that fits a list of the given length. */
  predicate PageFits(answer: Option<Page>, page: int, pageSize: int, limit: int, total: int) {
    && WellFormed(answer, page, pageSize)
    && answer.value.total.value == total && total <= limit
    && |answer.value.items.value| == Min(pageSize, Max(0, total - (page - 1) * pageSize))
  }

  predicate HasId(row: Row) {
    row.id.Some? && row.id.value != []
  }

  predicate GoodIds(rows: seq<Row>) {
    && (forall i | 0 <= i < |rows| :: HasId(rows[i]))
    && forall i, j | 0 <= i < j < |rows| :: rows[i].id != rows[j].id
  }

  /** The rows of the first n pages, in order. */
  function Joined(fetch: Fetch, n: nat): seq<Row> {
    if n == 0 then []
    else
      var answer := fetch(n - 1, n);
      Joined(fetch, n - 1) + if answer.Some? && answer.value.items.Some? then answer.value.items.value else []
  }

  /** Page n is the one at which the list is complete. */
  predicate IsLast(n: nat, total: int, pageSize: int) {
    1 <= n && total <= n * pageSize && (n == 1 || (n - 1) * pageSize < total)
  }

  ghost predicate FitsUpTo(fetch: Fetch, n: nat, pageSize: int, limit: int, total: int) {
    forall p {:trigger FitsAt(fetch, p, pageSize, limit, total)} | 1 <= p <= n :: FitsAt(fetch, p, pageSize, limit, total)
  }

  ghost predicate FitsAt(fetch: Fetch, p: nat, pageSize: int, limit: int, total: int)
    requires p > 0
  {
    PageFits(fetch(p - 1, p), p, pageSize, limit, total)
  }

  /** The first page, asked for once more at the end, has not changed. */
  predicate Unchanged(first: Option<Page>, final: Option<Page>, pageSize: int) {
    && first.Some? && final.Some? && final.value.total == first.value.total
    && final.value.page == 1 && final.value.pageSize == pageSize && final.value.items == first.value.items
  }

  ghost predicate LiveUpTo(live: Live, n: nat) {
    forall k | 0 <= k < n :: live(k)
  }

  /** All pages up to the last fit one list of distinct rows, no check found the export
      unwanted, and the first page was the same at the end. */
  ghost predicate Consistent(fetch: Fetch, live: Live, pageSize: int, limit: int, n: nat, total: int) {
    && IsLast(n, total, pageSize) && FitsUpTo(fetch, n, pageSize, limit, total)
    && GoodIds(Joined(fetch, n)) && LiveUpTo(live, 2 * n + 2)
    && Unchanged(fetch(0, 1), fetch(n, 1), pageSize)
  }

  lemma LastIsLater(n: nat, p: nat, total: int, pageSize: int)
    requires IsLast(n, total, pageSize) && pageSize > 0 && p > 0 && (p == 1 || (p - 1) * pageSize < total)
    ensures p <= n
  {
    ProductsGrow(n, p - 1, pageSize);
  }

  lemma ProductsGrow(a: int, b: int, size: int)
    requires size > 0
    ensures a <= b ==> a * size <= b * size
  {
  }

  lemma LastIsUnique(n: nat, m: nat, total: int, pageSize: int)
    requires IsLast(n, total, pageSize) && IsLast(m, total, pageSize) && pageSize > 0
    ensures n == m
  {
    LastIsLater(n, m, total, pageSize);
    LastIsLater(m, n, total, pageSize);
  }

  lemma GoodIdsPrefix(rows: seq<Row>, more: seq<Row>)
    requires GoodIds(rows + more)
    ensures GoodIds(rows)
  {
    forall i | 0 <= i < |rows| ensures HasId(rows[i]) {
      assert HasId((rows + more)[i]);
    }
    forall i, j | 0 <= i < j < |rows| ensures rows[i].id != rows[j].id {
      assert (rows + more)[i].id != (rows + more)[j].id;
    }
  }

  lemma {:induction false} JoinedPrefix(fetch: Fetch, p: nat, n: nat)
    requires p <= n && GoodIds(Joined(fetch, n))
    ensures GoodIds(Joined(fetch, p))
  {
    if p < n {
      var answer := fetch(n - 1, n);
      GoodIdsPrefix(Joined(fetch, n - 1), if answer.Some? && answer.value.items.Some? then answer.value.items.value else []);
      JoinedPrefix(fetch, p, n - 1);
    }
  }

  /** Adds the rows of a page, refusing rows without id and repeated ids. */
  method AddRows(rows: seq<Row>, ids: set<Text>, items: seq<Row>) returns (ok: bool, longer: seq<Row>, known: set<Text>)
    requires GoodIds(rows) && ids == set row | row in rows && HasId(row) :: row.id.value
    ensures ok <==> GoodIds(rows + items)
    ensures ok ==> longer == rows + items && known == set row | row in longer && HasId(row) :: row.id.value
  {
    longer, known := rows, ids;
    for i := 0 to |items|
      invariant longer == rows + items[..i] && GoodIds(longer)
      invariant known == set row | row in longer && HasId(row) :: row.id.value
    {
      var row := items[i];
      assert rows + items == longer + [row] + items[i + 1..];
      GoodIdsAppend(longer, row);
      if !HasId(row) || row.id.value in known {
        if GoodIds(rows + items) {
          GoodIdsPrefix(longer + [row], items[i + 1..]);
        }
        return false, longer, known;
      }
      known := known + {row.id.value};
      longer := longer + [row];
    }
    assert items[..|items|] == items;
    ok := true;
  }

  lemma GoodIdsAppend(rows: seq<Row>, row: Row)
    requires GoodIds(rows)
    ensures GoodIds(rows + [row]) <==>
      HasId(row) && row.id.value !in set r | r in rows && HasId(r) :: r.id.value
  {
    var longer := rows + [row];
    if GoodIds(longer) {
      assert HasId(longer[|rows|]);
      forall r | r in rows && HasId(r) ensures r.id.value != row.id.value {
        var i :| 0 <= i < |rows| && rows[i] == r;
        assert longer[i].id != longer[|rows|].id;
      }
    }
    if HasId(row) && row.id.value !in set r | r in rows && HasId(r) :: r.id.value {
      forall i, j | 0 <= i < j < |longer| ensures longer[i].id != longer[j].id {
        assert HasId(rows[i]) && rows[i] in rows;
      }
    }
  }

  /** What the loop knows before it asks for a page. */
  ghost predicate Underway(fetch: Fetch, live: Live, pageSize: int, limit: int, page: nat, rows: seq<Row>, total: int) {
    && page >= 1 && rows == Joined(fetch, page - 1) && GoodIds(rows) && LiveUpTo(live, 2 * (page - 1))
    && FitsUpTo(fetch, page - 1, pageSize, limit, total)
    && (page == 1 || ((page - 1) * pageSize < total && |rows| == (page - 1) * pageSize && total <= limit))
  }

  /** Total of the first page, once it has been fetched. */
  function TotalOf(fetch: Fetch): int {
    if fetch(0, 1).Some? && fetch(0, 1).value.total.Some? then fetch(0, 1).value.total.value else 0
  }

  /** Nothing consistent can come of a list one of whose needed pages, checks or rows is bad. */
  lemma Spoiled(fetch: Fetch, live: Live, pageSize: int, limit: int, page: nat, rows: seq<Row>)
    requires pageSize > 0 && Underway(fetch, live, pageSize, limit, page, rows, TotalOf(fetch))
    requires
      || !live(2 * page - 2) || !live(2 * page - 1)
      || !PageFits(fetch(page - 1, page), page, pageSize, limit, TotalOf(fetch))
      || !GoodIds(Joined(fetch, page))
    ensures forall n :: !Consistent(fetch, live, pageSize, limit, n, TotalOf(fetch))
  {
    forall n ensures !Consistent(fetch, live, pageSize, limit, n, TotalOf(fetch)) {
      if Consistent(fetch, live, pageSize, limit, n, TotalOf(fetch)) {
        LastIsLater(n, page, TotalOf(fetch), pageSize);
        assert FitsAt(fetch, page, pageSize, limit, TotalOf(fetch));
        JoinedPrefix(fetch, page, n);
      }
    }
  }

  lemma UnderwayNext(fetch: Fetch, live: Live, pageSize: int, limit: int, page: nat, rows: seq<Row>, total: int)
    requires page >= 1 && rows == Joined(fetch, page) && GoodIds(rows) && LiveUpTo(live, 2 * page)
    requires FitsUpTo(fetch, page, pageSize, limit, total) && total <= limit
    requires page * pageSize < total && |rows| == page * pageSize
    ensures Underway(fetch, live, pageSize, limit, page + 1, rows, total)
  {
    assert (page + 1) - 1 == page;
  }

  lemma FitsLonger(fetch: Fetch, page: nat, pageSize: int, limit: int, total: int)
    requires page > 0 && FitsUpTo(fetch, page - 1, pageSize, limit, total) && FitsAt(fetch, page, pageSize, limit, total)
    ensures FitsUpTo(fetch, page, pageSize, limit, total)
  {
    forall p | 1 <= p <= page ensures FitsAt(fetch, p, pageSize, limit, total) {
      assert p < page ==> FitsAt(fetch, p, pageSize, limit, total);
    }
  }

  lemma NextLength(page: nat, pageSize: int, total: int, sofar: int, added: int)
    requires pageSize > 0 && page >= 1 && total >= 0 && added == Min(pageSize, Max(0, total - (page - 1) * pageSize))
    requires if page == 1 then sofar == 0 else sofar == (page - 1) * pageSize < total
    ensures sofar + added <= total
    ensures sofar + added == total ==> IsLast(page, total, pageSize)
    ensures sofar + added != total ==> added > 0 && page * pageSize < total && sofar + added == page * pageSize
  {
    assert page * pageSize == (page - 1) * pageSize + pageSize;
  }

  // ---------- one unchanged list, and where the export is given up ----------

  /** The p-th page of a list, with the list's length. */
  function PageOf(rows: seq<Row>, p: int, pageSize: int): Option<Page>
    requires pageSize > 0 && p >= 1 && (p - 1) * pageSize <= |rows|
  {
    var from := (p - 1) * pageSize;
    var to := if from + pageSize < |rows| then from + pageSize else |rows|;
    Some(Page(Some(rows[from..to]), Some(|rows|), p, pageSize))
  }

  /** The list has n pages, the first of which may be empty. */
  predicate HasPages(rows: seq<Row>, pageSize: int, n: nat) {
    1 <= n && |rows| <= n * pageSize && (n == 1 || (n - 1) * pageSize < |rows|)
  }

  ghost predicate PagesAnswered(fetch: Fetch, pageSize: int, rows: seq<Row>, n: nat)
    requires pageSize > 0 && HasPages(rows, pageSize, n)
  {
    forall p {:trigger PageAnswered(fetch, pageSize, rows, p)} | 1 <= p <= n :: PageAnswered(fetch, pageSize, rows, p)
  }

  ghost predicate PageAnswered(fetch: Fetch, pageSize: int, rows: seq<Row>, p: nat)
    requires pageSize > 0 && p >= 1
  {
    (p - 1) * pageSize <= |rows| && fetch(p - 1, p) == PageOf(rows, p, pageSize)
  }

  /** Every answer, that of the first page asked for again included, is a page of one list
      of at most the permitted length, whose rows all have ids of their own, and at no check
      was the export given up. */
  ghost predicate Serves(fetch: Fetch, live: Live, pageSize: int, limit: int, rows: seq<Row>, n: nat)
    requires pageSize > 0
  {
    && HasPages(rows, pageSize, n) && |rows| <= limit && |rows| <= MAX_SAFE
    && (forall i | 0 <= i < |rows| :: rows[i].id.Some? && rows[i].id.value != [])
    && (forall i, j | 0 <= i < j < |rows| :: rows[i].id != rows[j].id)
    && PagesAnswered(fetch, pageSize, rows, n) && fetch(n, 1) == PageOf(rows, 1, pageSize)
    && forall k | 0 <= k < 2 * n + 2 :: live(k)
  }

  lemma PageBegins(rows: seq<Row>, pageSize: int, n: nat, p: nat)
    requires pageSize > 0 && HasPages(rows, pageSize, n) && 1 <= p <= n
    ensures (p - 1) * pageSize <= |rows|
  {
    ProductsGrow(p - 1, n - 1, pageSize);
  }

  lemma {:induction false} ServedIsJoined(fetch: Fetch, pageSize: int, rows: seq<Row>, n: nat, m: nat)
    requires pageSize > 0 && HasPages(rows, pageSize, n) && PagesAnswered(fetch, pageSize, rows, n) && m <= n
    ensures Joined(fetch, m) == rows[..Min(m * pageSize, |rows|)]
  {
    if m > 0 {
      ServedIsJoined(fetch, pageSize, rows, n, m - 1);
      assert PageAnswered(fetch, pageSize, rows, m);
      PageBegins(rows, pageSize, n, m);
      assert m * pageSize == (m - 1) * pageSize + pageSize;
      var from := (m - 1) * pageSize;
      var to := if from + pageSize < |rows| then from + pageSize else |rows|;
      assert rows[..to] == rows[..from] + rows[from..to];
    }
  }

  lemma ServesIsConsistent(fetch: Fetch, live: Live, pageSize: int, limit: int, rows: seq<Row>, n: nat)
    requires pageSize > 0 && Serves(fetch, live, pageSize, limit, rows, n)
    ensures Consistent(fetch, live, pageSize, limit, n, TotalOf(fetch)) && rows == Joined(fetch, n)
  {
    hide PageFits, Joined, PageOf;
    ServedIsJoined(fetch, pageSize, rows, n, n);
    assert rows[..|rows|] == rows;
    forall p | 1 <= p <= n ensures FitsAt(fetch, p, pageSize, limit, |rows|) {
      assert PageAnswered(fetch, pageSize, rows, p);
      PageOfFits(rows, p, pageSize, limit);
    }
    assert PageAnswered(fetch, pageSize, rows, 1);
    FirstPageOf(rows, pageSize);
  }

  lemma PageOfFits(rows: seq<Row>, p: int, pageSize: int, limit: int)
    requires pageSize > 0 && p >= 1 && (p - 1) * pageSize <= |rows| && |rows| <= limit && |rows| <= MAX_SAFE
    ensures PageFits(PageOf(rows, p, pageSize), p, pageSize, limit, |rows|)
  {
  }

  lemma FirstPageOf(rows: seq<Row>, pageSize: int)
    requires pageSize > 0
    ensures var page := PageOf(rows, 1, pageSize);
      page.Some? && page.value.total == Some(|rows|) && page.value.page == 1 && page.value.pageSize == pageSize
  {
  }

  lemma ConsistentIsServed(fetch: Fetch, live: Live, pageSize: int, limit: int, n: nat, total: int)
    requires pageSize > 0 && Consistent(fetch, live, pageSize, limit, n, total)
    ensures Serves(fetch, live, pageSize, limit, Joined(fetch, n), n)
  {
    var rows := Joined(fetch, n);
    ConsistentMeans(fetch, live, pageSize, limit, n, total);
    assert FitsAt(fetch, 1, pageSize, limit, total);
    forall p | 1 <= p <= n ensures PageAnswered(fetch, pageSize, rows, p) {
      PageBegins(rows, pageSize, n, p);
      PageIsSlice(fetch, pageSize, limit, n, total, p);
    }
    assert PageAnswered(fetch, pageSize, rows, 1);
  }

  lemma PageIsSlice(fetch: Fetch, pageSize: int, limit: int, n: nat, total: int, p: nat)
    requires pageSize > 0 && IsLast(n, total, pageSize) && FitsUpTo(fetch, n, pageSize, limit, total)
    requires 1 <= p <= n && |Joined(fetch, n)| == total && (p - 1) * pageSize <= total
    ensures fetch(p - 1, p) == PageOf(Joined(fetch, n), p, pageSize)
  {
    var rows := Joined(fetch, n);
    assert FitsAt(fetch, p, pageSize, limit, total);
    JoinedLength(fetch, p - 1, n, pageSize, limit, total);
    JoinedLength(fetch, p, n, pageSize, limit, total);
    JoinedBegins(fetch, p, n);
    JoinedBegins(fetch, p - 1, n);
    assert p * pageSize == (p - 1) * pageSize + pageSize;
    var before, items := Joined(fetch, p - 1), fetch(p - 1, p).value.items.value;
    assert Joined(fetch, p) == before + items;
    assert items == Joined(fetch, p)[|before|..];
    assert rows[|before|..|before| + |items|] == Joined(fetch, p)[|before|..];
  }

  lemma {:induction false} JoinedBegins(fetch: Fetch, p: nat, n: nat)
    requires p <= n
    ensures Joined(fetch, p) <= Joined(fetch, n)
  {
    if p < n {
      JoinedBegins(fetch, p, n - 1);
    }
  }

  /** At the k-th check, the first to fail, the export is given up: half as many pages have
      been taken, all of them good and the list not at an end before the last of them, and
      if the check follows a request, that has been answered. After the last page it is the
      first page that is asked for once more. */
  ghost predicate CancelledAt(fetch: Fetch, live: Live, pageSize: int, limit: int, k: nat) {
    var q, total := k / 2, TotalOf(fetch);
    && !live(k) && LiveUpTo(live, k)
    && FitsUpTo(fetch, q, pageSize, limit, total) && GoodIds(Joined(fetch, q))
    && (q <= 1 || (q - 1) * pageSize < total)
    && (k % 2 == 1 ==> if IsLast(q, total, pageSize) then fetch(q, 1).Some? else fetch(q, q + 1).Some?)
  }

  ghost predicate GivenUp(fetch: Fetch, live: Live, pageSize: int, limit: int) {
    exists k: nat :: CancelledAt(fetch, live, pageSize, limit, k)
  }

  lemma HalfEven(q: int)
    ensures (2 * q) / 2 == q && (2 * q) % 2 == 0 && (2 * q + 1) / 2 == q && (2 * q + 1) % 2 == 1
  {
  }

  /** The list is not at an end before the page that is asked for. */
  lemma NotLastYet(fetch: Fetch, live: Live, pageSize: int, limit: int, page: nat, rows: seq<Row>)
    requires pageSize > 0 && Underway(fetch, live, pageSize, limit, page, rows, TotalOf(fetch))
    ensures !IsLast(page - 1, TotalOf(fetch), pageSize)
    ensures page - 1 <= 1 || (page - 2) * pageSize < TotalOf(fetch)
  {
    if page > 1 {
      ProductsGrow(page - 2, page - 1, pageSize);
    }
  }

  lemma GivenUpBefore(fetch: Fetch, live: Live, pageSize: int, limit: int, page: nat, rows: seq<Row>)
    requires pageSize > 0 && Underway(fetch, live, pageSize, limit, page, rows, TotalOf(fetch))
    requires !live(2 * page - 2) || (!live(2 * page - 1) && fetch(page - 1, page).Some?)
    ensures GivenUp(fetch, live, pageSize, limit)
  {
    NotLastYet(fetch, live, pageSize, limit, page, rows);
    HalfEven(page - 1);
    if !live(2 * page - 2) {
      assert CancelledAt(fetch, live, pageSize, limit, 2 * page - 2);
    } else {
      assert CancelledAt(fetch, live, pageSize, limit, 2 * page - 1);
    }
  }

  /** A bad page is refused, not given up. */
  lemma RefusedNotGivenUp(fetch: Fetch, live: Live, pageSize: int, limit: int, page: nat, rows: seq<Row>)
    requires pageSize > 0 && Underway(fetch, live, pageSize, limit, page, rows, TotalOf(fetch))
    requires live(2 * page - 2) && (fetch(page - 1, page).Some? ==> live(2 * page - 1))
    requires !PageFits(fetch(page - 1, page), page, pageSize, limit, TotalOf(fetch)) || !GoodIds(Joined(fetch, page))
    ensures !GivenUp(fetch, live, pageSize, limit)
  {
    hide GoodIds, PageFits, TotalOf, Joined, IsLast, FitsUpTo, CancelledAt;
    NotLastYet(fetch, live, pageSize, limit, page, rows);
    forall k: nat ensures !CancelledAt(fetch, live, pageSize, limit, k) {
      if k >= 2 * page {
        NotPastBadPage(fetch, live, pageSize, limit, page, k);
      } else if k == 2 * page - 1 {
        NotAtAnswered(fetch, live, pageSize, limit, page);
      } else {
        NotWhileLive(fetch, live, pageSize, limit, k);
      }
    }
  }

  lemma NotWhileLive(fetch: Fetch, live: Live, pageSize: int, limit: int, k: nat)
    requires live(k)
    ensures !CancelledAt(fetch, live, pageSize, limit, k)
  {
  }

  lemma NotAtAnswered(fetch: Fetch, live: Live, pageSize: int, limit: int, page: nat)
    requires page >= 1 && !IsLast(page - 1, TotalOf(fetch), pageSize) && (fetch(page - 1, page).Some? ==> live(2 * page - 1))
    ensures !CancelledAt(fetch, live, pageSize, limit, 2 * page - 1)
  {
    HalfEven(page - 1);
  }

  lemma NotPastBadPage(fetch: Fetch, live: Live, pageSize: int, limit: int, page: nat, k: nat)
    requires pageSize > 0 && page >= 1 && k / 2 >= page
    requires !PageFits(fetch(page - 1, page), page, pageSize, limit, TotalOf(fetch)) || !GoodIds(Joined(fetch, page))
    ensures !CancelledAt(fetch, live, pageSize, limit, k)
  {
    hide GoodIds, PageFits, TotalOf, Joined, IsLast, LiveUpTo;
    if FitsUpTo(fetch, k / 2, pageSize, limit, TotalOf(fetch)) && GoodIds(Joined(fetch, k / 2)) {
      assert FitsAt(fetch, page, pageSize, limit, TotalOf(fetch));
      JoinedPrefix(fetch, page, k / 2);
    }
  }

  /** After the last page there is only the first one to ask for again. */
  lemma FinishedNotGivenUp(fetch: Fetch, live: Live, pageSize: int, limit: int, page: nat)
    requires pageSize > 0 && IsLast(page, TotalOf(fetch), pageSize) && LiveUpTo(live, 2 * page + 1)
    requires fetch(page, 1).Some? ==> live(2 * page + 1)
    ensures !GivenUp(fetch, live, pageSize, limit)
  {
    HalfEven(page);
    forall k: nat ensures !CancelledAt(fetch, live, pageSize, limit, k) {
      if k >= 2 * page + 2 {
        ProductsGrow(page, k / 2 - 1, pageSize);
      }
    }
  }

  lemma GivenUpAtEnd(fetch: Fetch, live: Live, pageSize: int, limit: int, page: nat)
    requires pageSize > 0 && IsLast(page, TotalOf(fetch), pageSize) && LiveUpTo(live, 2 * page)
    requires FitsUpTo(fetch, page, pageSize, limit, TotalOf(fetch)) && GoodIds(Joined(fetch, page))
    requires !live(2 * page) || (!live(2 * page + 1) && fetch(page, 1).Some?)
    ensures GivenUp(fetch, live, pageSize, limit)
  {
    HalfEven(page);
    if !live(2 * page) {
      assert CancelledAt(fetch, live, pageSize, limit, 2 * page);
    } else {
      assert CancelledAt(fetch, live, pageSize, limit, 2 * page + 1);
    }
  }

  /** Collects all pages. Some rows are the complete result exactly if the answers are the
      pages of that list, unchanged from the first request to the last; and the export is
      given up exactly if a check finds it unwanted before anything else is found wrong. */
  method Collect(fetch: Fetch, live: Live, pageSize: int, limit: int) returns (r: Export)
    requires pageSize > 0
    ensures r.Complete? ==> exists n: nat :: Serves(fetch, live, pageSize, limit, r.rows, n)
    ensures forall rows, n: nat :: Serves(fetch, live, pageSize, limit, rows, n) ==> r == Complete(rows)
    ensures r.Cancelled? <==> GivenUp(fetch, live, pageSize, limit)
  {
    var rows: seq<Row>, ids: set<Text>, total: Option<int> := [], {}, None;
    var page := 1;
    while true
      invariant Underway(fetch, live, pageSize, limit, page, rows, TotalOf(fetch))
      invariant ids == set row | row in rows && HasId(row) :: row.id.value
      invariant total == if page == 1 then None else Some(TotalOf(fetch))
      decreases limit - |rows|
    {
      if !live(2 * page - 2) {
        NothingServed(fetch, live, pageSize, limit, page, rows);
        GivenUpBefore(fetch, live, pageSize, limit, page, rows);
        return Cancelled;
      }
      var answer := fetch(page - 1, page);
      if answer.Some? && !live(2 * page - 1) {
        NothingServed(fetch, live, pageSize, limit, page, rows);
        GivenUpBefore(fetch, live, pageSize, limit, page, rows);
        return Cancelled;
      }
      if !WellFormed(answer, page, pageSize) || answer.value.total.value > limit {
        NothingServed(fetch, live, pageSize, limit, page, rows);
        RefusedNotGivenUp(fetch, live, pageSize, limit, page, rows);
        return Invalid;
      }
      if total.None? {
        total := answer.value.total;
      }
      var expected := Min(pageSize, Max(0, total.value - (page - 1) * pageSize));
      if answer.value.total != total || |answer.value.items.value| != expected {
        NothingServed(fetch, live, pageSize, limit, page, rows);
        RefusedNotGivenUp(fetch, live, pageSize, limit, page, rows);
        return Invalid;
      }
      var good, more;
      good, more, ids := AddRows(rows, ids, answer.value.items.value);
      if !good {
        NothingServed(fetch, live, pageSize, limit, page, rows);
        RefusedNotGivenUp(fetch, live, pageSize, limit, page, rows);
        return Invalid;
      }
      FitsLonger(fetch, page, pageSize, limit, TotalOf(fetch));
      NextLength(page, pageSize, TotalOf(fetch), |rows|, |answer.value.items.value|);
      rows := more;
      if |rows| == total.value {
        break;
      }
      UnderwayNext(fetch, live, pageSize, limit, page, rows, TotalOf(fetch));
      page := page + 1;
    }
    r := CheckFirstPage(fetch, live, pageSize, limit, page, rows);
  }

  lemma NothingServed(fetch: Fetch, live: Live, pageSize: int, limit: int, page: nat, rows: seq<Row>)
    requires pageSize > 0 && Underway(fetch, live, pageSize, limit, page, rows, TotalOf(fetch))
    requires
      || !live(2 * page - 2) || !live(2 * page - 1)
      || !PageFits(fetch(page - 1, page), page, pageSize, limit, TotalOf(fetch))
      || !GoodIds(Joined(fetch, page))
    ensures forall some, n: nat :: !Serves(fetch, live, pageSize, limit, some, n)
  {
    hide Serves, Consistent;
    Spoiled(fetch, live, pageSize, limit, page, rows);
    forall some, n: nat ensures !Serves(fetch, live, pageSize, limit, some, n) {
      if Serves(fetch, live, pageSize, limit, some, n) {
        ServesIsConsistent(fetch, live, pageSize, limit, some, n);
      }
    }
  }

  /** The first page, asked for again after the last, must not have changed. */
  method CheckFirstPage(fetch: Fetch, live: Live, pageSize: int, limit: int, page: nat, rows: seq<Row>) returns (r: Export)
    requires pageSize > 0 && IsLast(page, TotalOf(fetch), pageSize) && rows == Joined(fetch, page) && GoodIds(rows)
    requires FitsUpTo(fetch, page, pageSize, limit, TotalOf(fetch)) && LiveUpTo(live, 2 * page)
    ensures r.Complete? ==> exists n: nat :: Serves(fetch, live, pageSize, limit, r.rows, n)
    ensures forall some, n: nat :: Serves(fetch, live, pageSize, limit, some, n) ==> r == Complete(some)
    ensures r.Cancelled? <==> GivenUp(fetch, live, pageSize, limit)
  {
    hide Serves, GivenUp, GoodIds, FitsUpTo;
    forall some, n: nat | Serves(fetch, live, pageSize, limit, some, n)
      ensures n == page && some == rows && Consistent(fetch, live, pageSize, limit, page, TotalOf(fetch))
    {
      ServesIsConsistent(fetch, live, pageSize, limit, some, n);
      LastIsUnique(n, page, TotalOf(fetch), pageSize);
    }
    if !live(2 * page) {
      GivenUpAtEnd(fetch, live, pageSize, limit, page);
      return Cancelled;
    }
    var final := fetch(page, 1);
    if final.Some? && !live(2 * page + 1) {
      GivenUpAtEnd(fetch, live, pageSize, limit, page);
      return Cancelled;
    }
    FinishedNotGivenUp(fetch, live, pageSize, limit, page);
    if !Unchanged(fetch(0, 1), final, pageSize) {
      return Invalid;
    }
    ConsistentIsServed(fetch, live, pageSize, limit, page, TotalOf(fetch));
    return Complete(rows);
  }

  /** What a complete result is worth: every page was part of it, no row twice, as many
      as the list said there were. */
  lemma ConsistentMeans(fetch: Fetch, live: Live, pageSize: int, limit: int, n: nat, total: int)
    requires pageSize > 0 && Consistent(fetch, live, pageSize, limit, n, total)
    ensures |Joined(fetch, n)| == total <= limit
    ensures forall p | 1 <= p <= n :: IsKept(fetch, p, n)
  {
    JoinedLength(fetch, n, n, pageSize, limit, total);
    assert FitsAt(fetch, n, pageSize, limit, total);
    forall p | 1 <= p <= n ensures IsKept(fetch, p, n) {
      JoinedHolds(fetch, p, n);
    }
  }

  /** The rows of the page are part of the result. */
  ghost predicate IsKept(fetch: Fetch, p: nat, n: nat)
    requires p > 0
  {
    fetch(p - 1, p).Some? && fetch(p - 1, p).value.items.Some? ==>
      forall row | row in fetch(p - 1, p).value.items.value :: row in Joined(fetch, n)
  }

  lemma {:induction false} JoinedLength(fetch: Fetch, m: nat, n: nat, pageSize: int, limit: int, total: int)
    requires pageSize > 0 && m <= n && IsLast(n, total, pageSize) && FitsUpTo(fetch, n, pageSize, limit, total)
    ensures |Joined(fetch, m)| == Min(m * pageSize, total)
  {
    if m > 0 {
      JoinedLength(fetch, m - 1, n, pageSize, limit, total);
      assert FitsAt(fetch, m, pageSize, limit, total);
      ProductsGrow(m - 1, n - 1, pageSize);
      assert m * pageSize == (m - 1) * pageSize + pageSize;
    } else {
      assert FitsAt(fetch, 1, pageSize, limit, total);
    }
  }

  lemma {:induction false} JoinedHolds(fetch: Fetch, p: nat, n: nat)
    requires 1 <= p <= n
    ensures IsKept(fetch, p, n)
  {
    if p < n {
      JoinedHolds(fetch, p, n - 1);
    }
  }
}
