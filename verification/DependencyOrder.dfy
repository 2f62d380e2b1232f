/** Ordering imported items so that dependencies come first
    (packages/shared/src/hr-yuzhou-incremental.ts, orderYuzhouIncrementalItems). */
module DependencyOrder {
  import opened CanonicalJson
  import opened JsonText
  import opened JsonValues
  import opened Options
  import opened Paths
  import opened Sorting
  import opened Texts

  datatype Domain =
    | Organization | Position | Employee | Profile | Contract
    | Family | Skill | Credential | TrainingHistory | InsurancePolicy

  /** An optional property: missing, set to undefined, or set to a value. */
  datatype Optional = Missing | Undefined | Given(value: Json)

  datatype Item = Item(
    domain: Domain,
    sourceTable: Text,
    sourceKey: Text,
    fields: seq<Field>,
    rowDigest: Text,
    updatedAt: Optional,
    profileWitness: Optional,
    aliasAcceptance: Optional,
    initialWitness: Optional,
    policyWitness: Optional)

  datatype Ordering = Ordered(items: seq<Item>) | SourceDuplicate | DependencyCycle

  function DomainName(d: Domain): Text {
    match d
    case Organization => Ascii("organization")
    case Position => Ascii("position")
    case Employee => Ascii("employee")
    case Profile => Ascii("profile")
    case Contract => Ascii("contract")
    case Family => Ascii("family")
    case Skill => Ascii("skill")
    case Credential => Ascii("credential")
    case TrainingHistory => Ascii("training_history")
    case InsurancePolicy => Ascii("insurance_policy")
  }

  function KeyText(domain: Domain, sourceKey: Text): Text {
    DomainName(domain) + [COLON] + sourceKey
  }

  function KeyOf(item: Item): Text {
    KeyText(item.domain, item.sourceKey)
  }

  /** What a template literal makes of a value. */
  function Shown(j: Json): Text {
    match j
    case Null => NULL
    case Bool(b) => if b then TRUE else FALSE
    case Number(n) => PrintInteger(n)
    case String(s) => s
    case Array(elements) => ShownElements(j, elements)
    case Object(_) => Ascii("[object Object]")
  }

  function ShownElements(parent: Json, elements: seq<Json>): Text
    requires forall i | 0 <= i < |elements| :: elements[i] < parent
    decreases parent, 0, |elements|
  {
    if elements == [] then []
    else
      var first := if elements[0].Null? then [] else Shown(elements[0]);
      if |elements| == 1 then first else first + [COMMA] + ShownElements(parent, elements[1..])
  }

  function Lookup(fields: seq<Field>, key: Text): Text {
    if fields == [] then Ascii("undefined")
    else if fields[0].key == key then Shown(fields[0].value)
    else Lookup(fields[1..], key)
  }

  /** The keys an item may depend on, in the order in which they are followed. */
  function Referenced(item: Item): seq<Text> {
    [KeyText(Organization, Lookup(item.fields, Ascii("parentSourceKey"))),
     KeyText(Organization, Lookup(item.fields, Ascii("orgSourceKey"))),
     KeyText(Position, Lookup(item.fields, Ascii("parentPositionSourceKey"))),
     KeyText(Position, Lookup(item.fields, Ascii("positionSourceKey"))),
     KeyText(Employee, Lookup(item.fields, Ascii("employeeSourceKey")))]
  }

  /** The items by key, and the keys that an item refers to. */
  datatype Index = Index(entries: map<Text, Item>, refs: Item -> seq<Text>)

  ghost predicate Indexes(index: Index) {
    forall k | k in index.entries :: KeyOf(index.entries[k]) == k
  }

  function Resolve(entries: map<Text, Item>, keys: seq<Text>): (items: seq<Item>)
    ensures forall item :: item in items ==> exists k | k in keys :: k in entries && entries[k] == item
  {
    if keys == [] then []
    else (if keys[0] in entries then [entries[keys[0]]] else []) + Resolve(entries, keys[1..])
  }

  /** The dependencies of an item that are part of the package. */
  function Dependencies(index: Index, item: Item): seq<Item> {
    Resolve(index.entries, index.refs(item))
  }

  lemma {:induction false} ResolveMembers(entries: map<Text, Item>, keys: seq<Text>, item: Item)
    ensures item in Resolve(entries, keys) <==> exists k | k in keys :: k in entries && entries[k] == item
  {
    if keys != [] {
      ResolveMembers(entries, keys[1..], item);
      assert keys == [keys[0]] + keys[1..];
    }
  }

  predicate Known(index: Index, item: Item) {
    KeyOf(item) in index.entries && index.entries[KeyOf(item)] == item
  }

  lemma DependenciesKnown(index: Index, item: Item)
    requires Indexes(index)
    ensures forall d | d in Dependencies(index, item) :: Known(index, d)
  {
  }

  function Done(order: seq<Item>): set<Text> {
    set item | item in order :: KeyOf(item)
  }

  // ---------- depth-first search as a function ----------

  /** What visiting an item appends to the order; None when the search meets an item
      it is still visiting. */
  function Visit(index: Index, item: Item, visiting: set<Text>, order: seq<Item>): Option<seq<Item>>
    requires Indexes(index) && Known(index, item)
    decreases index.entries.Keys - visiting, 0
  {
    if KeyOf(item) in visiting then None
    else if KeyOf(item) in Done(order) then Some(order)
    else
      DependenciesKnown(index, item);
      match VisitAll(index, Dependencies(index, item), visiting + {KeyOf(item)}, order)
      case None => None
      case Some(after) => Some(after + [item])
  }

  function VisitAll(index: Index, items: seq<Item>, visiting: set<Text>, order: seq<Item>): Option<seq<Item>>
    requires Indexes(index) && forall item | item in items :: Known(index, item)
    decreases index.entries.Keys - visiting, 1 + |items|
  {
    if items == [] then Some(order)
    else
      match Visit(index, items[0], visiting, order)
      case None => None
      case Some(after) => VisitAll(index, items[1..], visiting, after)
  }

  predicate UniqueKeysIn(items: seq<Item>) {
    forall i, j | 0 <= i < j < |items| :: KeyOf(items[i]) != KeyOf(items[j])
  }

  function Entries(items: seq<Item>): map<Text, Item> {
    if items == [] then map[] else Entries(items[..|items| - 1])[KeyOf(items[|items| - 1]) := items[|items| - 1]]
  }

  type References = Item -> seq<Text>

  function IndexOf(items: seq<Item>, refs: References): Index {
    Index(Entries(items), refs)
  }

  lemma {:induction false} EntriesOfItems(items: seq<Item>)
    ensures Entries(items).Keys == Done(items)
    ensures forall k | k in Entries(items) :: KeyOf(Entries(items)[k]) == k && Entries(items)[k] in items
  {
    if items != [] {
      var n := |items| - 1;
      EntriesOfItems(items[..n]);
      assert items == items[..n] + [items[n]];
    }
  }

  lemma {:induction false} AllKnown(items: seq<Item>, refs: References)
    requires UniqueKeysIn(items)
    ensures Indexes(IndexOf(items, refs)) && forall item | item in items :: Known(IndexOf(items, refs), item)
  {
    EntriesOfItems(items);
    forall item | item in items ensures Known(IndexOf(items, refs), item) {
      assert KeyOf(item) in Done(items);
      var other := Entries(items)[KeyOf(item)];
      assert other in items && KeyOf(other) == KeyOf(item);
    }
  }

  /** The order of the items under given references. */
  function OrderBy(items: seq<Item>, refs: References): Ordering {
    if !UniqueKeysIn(items) then SourceDuplicate
    else
      AllKnown(items, refs);
      match VisitAll(IndexOf(items, refs), items, {}, [])
      case None => DependencyCycle
      case Some(order) => Ordered(order)
  }

  function Order(items: seq<Item>): Ordering {
    OrderBy(items, Referenced)
  }

  // ---------- a successful search orders topologically ----------

  /** Dependencies come earlier, and nothing comes twice. */
  ghost predicate Topological(index: Index, order: seq<Item>) {
    && UniqueKeysIn(order)
    && (forall item | item in order :: Known(index, item))
    && forall k {:trigger Supported(index, order, k)} | 0 <= k < |order| :: Supported(index, order, k)
  }

  ghost predicate Supported(index: Index, order: seq<Item>, k: nat)
    requires k < |order|
  {
    forall d | d in Dependencies(index, order[k]) :: d in order[..k]
  }

  lemma TopologicalAppend(index: Index, order: seq<Item>, item: Item)
    requires Topological(index, order) && Known(index, item) && KeyOf(item) !in Done(order)
    requires forall d | d in Dependencies(index, item) :: d in order
    ensures Topological(index, order + [item])
  {
    var longer := order + [item];
    forall k | 0 <= k < |longer| ensures Supported(index, longer, k) {
      if k < |order| {
        assert Supported(index, order, k) && longer[..k] == order[..k];
      } else {
        assert longer[..k] == order;
      }
    }
    forall i, j | 0 <= i < j < |longer| ensures KeyOf(longer[i]) != KeyOf(longer[j]) {
      assert order[i] in order;
    }
  }

  lemma KnownDone(index: Index, order: seq<Item>, item: Item)
    requires Topological(index, order) && Known(index, item) && KeyOf(item) in Done(order)
    ensures item in order
  {
    var other :| other in order && KeyOf(other) == KeyOf(item);
    assert Known(index, other);
  }

  lemma {:induction false} VisitOrders(index: Index, item: Item, visiting: set<Text>, order: seq<Item>)
    requires Indexes(index) && Known(index, item) && Topological(index, order) && Done(order) !! visiting
    ensures var after := Visit(index, item, visiting, order);
      after.Some? ==> Topological(index, after.value) && Done(after.value) !! visiting
                      && order <= after.value && item in after.value
    decreases index.entries.Keys - visiting, 0
  {
    var key := KeyOf(item);
    if key !in visiting {
      if key in Done(order) {
        KnownDone(index, order, item);
      } else {
        DependenciesKnown(index, item);
        VisitAllOrders(index, Dependencies(index, item), visiting + {key}, order);
        var after := VisitAll(index, Dependencies(index, item), visiting + {key}, order);
        if after.Some? {
          TopologicalAppend(index, after.value, item);
        }
      }
    }
  }

  lemma {:induction false} VisitAllOrders(index: Index, items: seq<Item>, visiting: set<Text>, order: seq<Item>)
    requires Indexes(index) && (forall item | item in items :: Known(index, item))
    requires Topological(index, order) && Done(order) !! visiting
    ensures var after := VisitAll(index, items, visiting, order);
      after.Some? ==> Topological(index, after.value) && Done(after.value) !! visiting
                      && order <= after.value && forall item | item in items :: item in after.value
    decreases index.entries.Keys - visiting, 1 + |items|
  {
    if items != [] {
      VisitOrders(index, items[0], visiting, order);
      var first := Visit(index, items[0], visiting, order);
      if first.Some? {
        VisitAllOrders(index, items[1..], visiting, first.value);
        assert items == [items[0]] + items[1..];
      }
    }
  }

  lemma UniqueIsDistinct(items: seq<Item>)
    requires UniqueKeysIn(items)
    ensures Distinct(items)
  {
  }

  /** The result is a rearrangement of the input in which every dependency that is
      in the package precedes the item that needs it. */
  lemma OrderIsTopological(items: seq<Item>, refs: References)
    requires OrderBy(items, refs).Ordered?
    ensures var order := OrderBy(items, refs).items;
      multiset(order) == multiset(items) && Topological(IndexOf(items, refs), order)
  {
    var index := IndexOf(items, refs);
    AllKnown(items, refs);
    EntriesOfItems(items);
    VisitAllOrders(index, items, {}, []);
    var order := OrderBy(items, refs).items;
    forall item | item in order ensures item in items {
      assert Known(index, item);
    }
    UniqueIsDistinct(order);
    UniqueIsDistinct(items);
    DistinctSameElements(order, items);
  }

  // ---------- a failed search has met a cycle, and only then ----------

  function Successors(index: Index): Item -> seq<Item> {
    item => Dependencies(index, item)
  }

  /** Some item of the package depends on itself. */
  ghost predicate HasCycle(index: Index) {
    exists k | k in index.entries :: Leads(Successors(index), index.entries[k], index.entries[k])
  }

  /** Every item being visited leads to the one visited now. */
  ghost predicate OnStack(index: Index, visiting: set<Text>, item: Item) {
    forall k | k in visiting :: k in index.entries && Leads(Successors(index), index.entries[k], item)
  }

  lemma {:induction false} VisitFindsCycle(index: Index, item: Item, visiting: set<Text>, order: seq<Item>)
    requires Indexes(index) && Known(index, item) && OnStack(index, visiting, item)
    requires Visit(index, item, visiting, order).None?
    ensures HasCycle(index)
    decreases index.entries.Keys - visiting, 0
  {
    var key := KeyOf(item);
    if key !in visiting {
      DependenciesKnown(index, item);
      forall d, k | d in Dependencies(index, item) && k in visiting + {key} ensures k in index.entries && Leads(Successors(index), index.entries[k], d) {
        if k == key {
          LeadsOneStep(Successors(index), item, d);
        } else {
          LeadsOn(Successors(index), index.entries[k], item, d);
        }
      }
      VisitAllFindsCycle(index, Dependencies(index, item), visiting + {key}, order);
    }
  }

  lemma {:induction false} VisitAllFindsCycle(index: Index, items: seq<Item>, visiting: set<Text>, order: seq<Item>)
    requires Indexes(index) && forall item | item in items :: Known(index, item) && OnStack(index, visiting, item)
    requires VisitAll(index, items, visiting, order).None?
    ensures HasCycle(index)
    decreases index.entries.Keys - visiting, 1 + |items|
  {
    var first := Visit(index, items[0], visiting, order);
    if first.None? {
      VisitFindsCycle(index, items[0], visiting, order);
    } else {
      VisitAllFindsCycle(index, items[1..], visiting, first.value);
    }
  }

  ghost predicate Earlier(order: seq<Item>, a: Item, b: Item) {
    exists i, j | 0 <= i < j < |order| :: order[i] == a && order[j] == b
  }

  /** Along a path one moves to ever earlier places of a topological order. */
  lemma {:induction false} PathGoesBack(index: Index, order: seq<Item>, p: seq<Item>)
    requires Topological(index, order) && Path(Successors(index), p) && p[0] in order
    ensures Earlier(order, p[|p| - 1], p[0])
  {
    var n := |p| - 1;
    assert StepAt(Successors(index), p, n);
    if n == 1 {
      var j: nat :| j < |order| && order[j] == p[0];
      DependencyEarlier(index, order, j, p[n]);
    } else {
      PathPrefix(Successors(index), p, n);
      PathGoesBack(index, order, p[..n]);
      StepBack(index, order, p[n], p[n - 1], p[0]);
    }
  }

  lemma StepBack(index: Index, order: seq<Item>, d: Item, a: Item, b: Item)
    requires Topological(index, order) && Earlier(order, a, b) && d in Dependencies(index, a)
    ensures Earlier(order, d, b)
  {
    var i, j :| 0 <= i < j < |order| && order[i] == a && order[j] == b;
    DependencyEarlier(index, order, i, d);
  }

  lemma DependencyEarlier(index: Index, order: seq<Item>, j: nat, d: Item)
    requires Topological(index, order) && j < |order| && d in Dependencies(index, order[j])
    ensures exists i :: 0 <= i < j && order[i] == d
  {
    assert Supported(index, order, j);
  }

  lemma TopologicalHasNoCycle(index: Index, order: seq<Item>)
    requires Topological(index, order) && forall k | k in index.entries :: index.entries[k] in order
    ensures !HasCycle(index)
  {
    forall k | k in index.entries ensures !Leads(Successors(index), index.entries[k], index.entries[k]) {
      forall p | Path(Successors(index), p) && p[0] == index.entries[k] == p[|p| - 1] ensures false {
        PathGoesBack(index, order, p);
      }
    }
  }

  /** The cycle error is raised exactly when some item depends on itself, directly
      or through others; the duplicate error, which goes first, exactly when two
      items have the same domain and source key. */
  lemma ErrorsAreExact(items: seq<Item>, refs: References)
    ensures OrderBy(items, refs).SourceDuplicate? <==>
      exists i, j | 0 <= i < j < |items| :: items[i].domain == items[j].domain && items[i].sourceKey == items[j].sourceKey
    ensures OrderBy(items, refs).DependencyCycle? <==>
      !OrderBy(items, refs).SourceDuplicate? && HasCycle(IndexOf(items, refs))
  {
    forall i, j | 0 <= i < j < |items|
      ensures KeyOf(items[i]) == KeyOf(items[j]) <==>
        items[i].domain == items[j].domain && items[i].sourceKey == items[j].sourceKey
    {
      if KeyOf(items[i]) == KeyOf(items[j]) {
        KeyTextInjective(items[i].domain, items[i].sourceKey, items[j].domain, items[j].sourceKey);
      }
    }
    if UniqueKeysIn(items) {
      var index := IndexOf(items, refs);
      AllKnown(items, refs);
      EntriesOfItems(items);
      if OrderBy(items, refs).DependencyCycle? {
        VisitAllFindsCycle(index, items, {}, []);
      } else {
        var order := OrderBy(items, refs).items;
        OrderIsTopological(items, refs);
        MultisetMember(order, items);
        TopologicalHasNoCycle(index, order);
      }
    }
  }

  lemma DomainNameShape(d: Domain)
    ensures forall i | 0 <= i < |DomainName(d)| :: DomainName(d)[i] != COLON
    ensures DomainName(d) != []
  {
  }

  lemma DomainNameInjective(d: Domain, e: Domain)
    requires DomainName(d) == DomainName(e)
    ensures d == e
  {
    assert DomainName(d)[0] == DomainName(e)[0];
    assert |DomainName(d)| == |DomainName(e)|;
    assert DomainName(d)[|DomainName(d)| - 1] == DomainName(e)[|DomainName(e)| - 1];
  }

  /** No domain name contains a colon, so the joined key determines both parts. */
  lemma KeyTextInjective(d: Domain, s: Text, e: Domain, t: Text)
    requires KeyText(d, s) == KeyText(e, t)
    ensures d == e && s == t
  {
    var a, b := KeyText(d, s), KeyText(e, t);
    DomainNameShape(d);
    DomainNameShape(e);
    assert a[|DomainName(d)|] == COLON && b[|DomainName(e)|] == COLON;
    assert forall i | 0 <= i < |DomainName(d)| :: a[i] == DomainName(d)[i];
    assert forall i | 0 <= i < |DomainName(e)| :: b[i] == DomainName(e)[i];
    assert |DomainName(d)| == |DomainName(e)|;
    assert DomainName(d) == a[..|DomainName(d)|] && DomainName(e) == b[..|DomainName(e)|];
    assert s == a[|DomainName(d)| + 1..] && t == b[|DomainName(e)| + 1..];
    DomainNameInjective(d, e);
  }

  // ---------- an ordered list stays as it is, and so does every part of it ----------

  lemma {:induction false} VisitDone(index: Index, items: seq<Item>, visiting: set<Text>, order: seq<Item>)
    requires Indexes(index) && forall item | item in items :: Known(index, item)
    requires forall item | item in items :: KeyOf(item) in Done(order) && KeyOf(item) !in visiting
    ensures VisitAll(index, items, visiting, order) == Some(order)
  {
    if items != [] {
      assert items == [items[0]] + items[1..];
      VisitDone(index, items[1..], visiting, order);
    }
  }

  lemma {:induction false} VisitInOrder(index: Index, items: seq<Item>, k: nat)
    requires Indexes(index) && Topological(index, items) && k <= |items|
    ensures VisitAll(index, items[k..], {}, items[..k]) == Some(items)
    decreases |items| - k
  {
    if k < |items| {
      VisitSupported(index, items, k);
      VisitAllStep(index, items[k], items[k + 1..], {}, items[..k]);
      VisitInOrder(index, items, k + 1);
      assert items[k..] == [items[k]] + items[k + 1..];
    } else {
      assert items[..k] == items;
    }
  }

  /** An item whose dependencies are all done is simply appended. */
  lemma VisitSupported(index: Index, items: seq<Item>, k: nat)
    requires Indexes(index) && Topological(index, items) && k < |items|
    ensures Visit(index, items[k], {}, items[..k]) == Some(items[..k + 1])
  {
    var item := items[k];
    assert Supported(index, items, k);
    DependenciesKnown(index, item);
    forall d | d in Dependencies(index, item) ensures KeyOf(d) in Done(items[..k]) && KeyOf(d) !in {KeyOf(item)} {
      var i :| 0 <= i < k && items[i] == d;
      assert items[..k][i] == d;
    }
    VisitDone(index, Dependencies(index, item), {KeyOf(item)}, items[..k]);
    NotDoneBefore(items, k);
    assert {} + {KeyOf(item)} == {KeyOf(item)};
    assert items[..k] + [item] == items[..k + 1];
  }

  lemma NotDoneBefore(items: seq<Item>, k: nat)
    requires UniqueKeysIn(items) && k < |items|
    ensures KeyOf(items[k]) !in Done(items[..k])
  {
    forall item | item in items[..k] ensures KeyOf(item) != KeyOf(items[k]) {
      var i :| 0 <= i < k && items[..k][i] == item;
    }
  }

  /** A list that is already in dependency order is returned unchanged. */
  lemma OrderedIsFixed(items: seq<Item>, refs: References)
    requires Topological(IndexOf(items, refs), items)
    ensures OrderBy(items, refs) == Ordered(items)
  {
    AllKnown(items, refs);
    VisitInOrder(IndexOf(items, refs), items, 0);
    assert items[0..] == items && items[..0] == [];
  }

  lemma SliceTopological(items: seq<Item>, refs: References, order: seq<Item>, a: nat, b: nat)
    requires UniqueKeysIn(items) && a <= b <= |order|
    requires Topological(IndexOf(items, refs), order)
    ensures Topological(IndexOf(order[a..b], refs), order[a..b])
  {
    var slice := order[a..b];
    AllKnown(slice, refs);
    forall k | 0 <= k < |slice| ensures Supported(IndexOf(slice, refs), slice, k) {
      forall d | d in Dependencies(IndexOf(slice, refs), slice[k]) ensures d in slice[..k] {
        SliceDependency(items, refs, order, a, b, k, d);
      }
    }
  }

  /** What an item of a part depends on within the part precedes it there. */
  lemma SliceDependency(items: seq<Item>, refs: References, order: seq<Item>, a: nat, b: nat, k: nat, d: Item)
    requires UniqueKeysIn(items) && a <= b <= |order| && k < b - a
    requires Topological(IndexOf(items, refs), order)
    requires d in Dependencies(IndexOf(order[a..b], refs), order[a..b][k])
    ensures d in order[a..b][..k]
  {
    var slice, whole := order[a..b], IndexOf(items, refs);
    var key := DependencyKey(slice, refs, slice[k], d);
    var i := PlaceInSlice(order, a, b, d);
    SliceAt(order, a, b, k);
    EarlierByKey(whole, order, i, a + k, key);
    SliceAt(order, a, b, i - a);
    assert slice[..k][i - a] == d;
  }

  lemma SliceAt<T>(s: seq<T>, a: nat, b: nat, k: nat)
    requires a <= b <= |s| && k < b - a
    ensures s[a..b][k] == s[a + k]
  {
  }

  lemma PlaceInSlice<T>(s: seq<T>, a: nat, b: nat, x: T) returns (i: nat)
    requires a <= b <= |s| && x in s[a..b]
    ensures a <= i < b && s[i] == x
  {
    var j: nat :| j < b - a && s[a..b][j] == x;
    i := a + j;
  }

  lemma EarlierByKey(index: Index, order: seq<Item>, i: nat, j: nat, key: Text)
    requires Topological(index, order) && i < |order| && j < |order|
    requires key == KeyOf(order[i]) && key in index.refs(order[j])
    ensures i < j
  {
    var d, item := order[i], order[j];
    assert d in Dependencies(index, item) by {
      assert Known(index, d);
      ResolveMembers(index.entries, index.refs(item), d);
    }
    DependencyEarlier(index, order, j, d);
    UniqueIsDistinct(order);
  }

  lemma DependencyKey(items: seq<Item>, refs: References, item: Item, d: Item) returns (key: Text)
    requires d in Dependencies(IndexOf(items, refs), item)
    ensures key in refs(item) && key == KeyOf(d) && d in items
  {
    EntriesOfItems(items);
    ResolveMembers(Entries(items), refs(item), d);
    key :| key in refs(item) && key in Entries(items) && Entries(items)[key] == d;
  }

  /** Chunking is safe: every contiguous part of an ordered package is itself in
      order, so ordering it again changes nothing. */
  lemma SlicesAreFixed(items: seq<Item>, refs: References, a: nat, b: nat)
    requires OrderBy(items, refs).Ordered? && a <= b <= |OrderBy(items, refs).items|
    ensures OrderBy(OrderBy(items, refs).items[a..b], refs) == Ordered(OrderBy(items, refs).items[a..b])
  {
    OrderIsTopological(items, refs);
    SliceTopological(items, refs, OrderBy(items, refs).items, a, b);
    OrderedIsFixed(OrderBy(items, refs).items[a..b], refs);
  }

  // ---------- the search as the program runs it ----------

  lemma ResolveStep(entries: map<Text, Item>, keys: seq<Text>, r: nat)
    requires r < |keys|
    ensures Resolve(entries, keys[r..])
         == if keys[r] in entries then [entries[keys[r]]] + Resolve(entries, keys[r + 1..])
            else Resolve(entries, keys[r + 1..])
  {
    assert keys[r..][1..] == keys[r + 1..];
  }

  lemma VisitAllStep(index: Index, item: Item, rest: seq<Item>, visiting: set<Text>, order: seq<Item>)
    requires Indexes(index) && Known(index, item) && forall other | other in rest :: Known(index, other)
    ensures var first := Visit(index, item, visiting, order);
      VisitAll(index, [item] + rest, visiting, order)
        == if first.None? then None else VisitAll(index, rest, visiting, first.value)
  {
    assert ([item] + rest)[1..] == rest;
  }

  class Search {
    const index: Index
    var visiting: set<Text>
    var done: set<Text>
    var ordered: seq<Item>

    constructor (index: Index)
      ensures this.index == index && visiting == {} && done == {} && ordered == []
    {
      this.index := index;
      visiting, done, ordered := {}, {}, [];
    }

    /** Visits one item; false stands for the cycle error. */
    method VisitItem(item: Item) returns (ok: bool)
      requires Indexes(index) && Known(index, item) && done == Done(ordered)
      modifies this
      ensures ok <==> Visit(index, item, old(visiting), old(ordered)).Some?
      ensures ok ==> Visit(index, item, old(visiting), old(ordered)) == Some(ordered)
      ensures ok ==> visiting == old(visiting) && done == Done(ordered)
      decreases index.entries.Keys - visiting
    {
      var key := KeyOf(item);
      if key in visiting {
        return false;
      }
      if key in done {
        return true;
      }
      visiting := visiting + {key};
      ghost var entered, all := visiting, Dependencies(index, item);
      DependenciesKnown(index, item);
      var keys := index.refs(item);
      for r := 0 to |keys|
        invariant visiting == entered && done == Done(ordered)
        invariant VisitAll(index, Resolve(index.entries, keys[r..]), entered, ordered)
          == VisitAll(index, all, entered, old(ordered))
      {
        ResolveStep(index.entries, keys, r);
        if keys[r] in index.entries {
          var d := index.entries[keys[r]];
          ghost var rest, before := Resolve(index.entries, keys[r + 1..]), ordered;
          VisitAllStep(index, d, rest, entered, before);
          ok := VisitItem(d);
          if !ok {
            return;
          }
        }
      }
      visiting := visiting - {key};
      done := done + {key};
      ordered := ordered + [item];
      assert old(visiting) == entered - {key};
      return true;
    }
  }

  /** Indexes the items, refusing duplicates, and visits them in turn. */
  method OrderItems(items: seq<Item>) returns (r: Ordering)
    ensures r == Order(items)
  {
    r := OrderItemsBy(items, Referenced);
  }

  method OrderItemsBy(items: seq<Item>, refs: References) returns (r: Ordering)
    ensures r == OrderBy(items, refs)
  {
    var entries: map<Text, Item> := map[];
    for i := 0 to |items|
      invariant entries == Entries(items[..i]) && UniqueKeysIn(items[..i])
    {
      EntriesOfItems(items[..i]);
      assert items[..i + 1][..i] == items[..i];
      if KeyOf(items[i]) in entries {
        DuplicateMet(items, i);
        return SourceDuplicate;
      }
      UniqueLonger(items, i);
      entries := entries[KeyOf(items[i]) := items[i]];
    }
    assert items[..|items|] == items;
    AllKnown(items, refs);
    var search := new Search(Index(entries, refs));
    for i := 0 to |items|
      invariant search.index == IndexOf(items, refs) && search.visiting == {} && search.done == Done(search.ordered)
      invariant VisitAll(search.index, items[i..], {}, search.ordered) == VisitAll(search.index, items, {}, [])
    {
      assert items[i..][1..] == items[i + 1..];
      var ok := search.VisitItem(items[i]);
      if !ok {
        return DependencyCycle;
      }
    }
    return Ordered(search.ordered);
  }

  lemma DuplicateMet(items: seq<Item>, i: nat)
    requires i < |items| && KeyOf(items[i]) in Done(items[..i])
    ensures !UniqueKeysIn(items)
  {
    var earlier :| earlier in items[..i] && KeyOf(earlier) == KeyOf(items[i]);
    var j :| 0 <= j < i && items[..i][j] == earlier;
    assert KeyOf(items[j]) == KeyOf(items[i]);
  }

  lemma UniqueLonger(items: seq<Item>, i: nat)
    requires i < |items| && UniqueKeysIn(items[..i]) && KeyOf(items[i]) !in Done(items[..i])
    ensures UniqueKeysIn(items[..i + 1])
  {
    var longer := items[..i + 1];
    forall a, b | 0 <= a < b < |longer| ensures KeyOf(longer[a]) != KeyOf(longer[b]) {
      if b < i {
        assert KeyOf(items[..i][a]) != KeyOf(items[..i][b]);
      } else {
        assert items[..i][a] in items[..i];
      }
    }
  }
}
