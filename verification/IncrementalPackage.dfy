/** The canonical form of an incremental package
    (packages/shared/src/hr-yuzhou-incremental.ts, canonicalYuzhouIncrementalPackage). */
module IncrementalPackage {
  import opened CanonicalJson
  import opened DependencyOrder
  import opened JsonText
  import opened JsonValues
  import opened Mapping
  import opened Paths
  import opened Sorting
  import opened Texts

  /** Whether one string does not come after another under the locale's collation. */
  type Collation = (Text, Text) -> bool

  function Rank(d: Domain): nat {
    match d
    case Organization => 0
    case Position => 1
    case Employee => 2
    case Profile => 3
    case Contract => 4
    case Family => 5
    case Skill => 6
    case Credential => 7
    case TrainingHistory => 8
    case InsurancePolicy => 9
  }

  function SortKey(item: Item): Text {
    item.sourceTable + [COLON] + item.sourceKey
  }

  function ItemLe(collate: Collation): (Item, Item) -> bool {
    (a: Item, b: Item) =>
      Rank(a.domain) < Rank(b.domain) || (a.domain == b.domain && collate(SortKey(a), SortKey(b)))
  }

  function FieldLe(collate: Collation): (Field, Field) -> bool {
    (a: Field, b: Field) => collate(a.key, b.key)
  }

  /** A property set to undefined is dropped. */
  function Settled(o: Optional): Optional {
    if o.Undefined? then Missing else o
  }

  function Normalize(collate: Collation, item: Item): Item {
    Item(item.domain, item.sourceTable, item.sourceKey, SortBy(FieldLe(collate), item.fields), item.rowDigest,
         Settled(item.updatedAt), Settled(item.profileWitness), Settled(item.aliasAcceptance),
         Settled(item.initialWitness), Settled(item.policyWitness))
  }

  function Normalizer(collate: Collation): Item -> Item {
    item => Normalize(collate, item)
  }

  /** The items as they are sorted, before dependencies are moved forward. */
  function Prepared(items: seq<Item>, collate: Collation): seq<Item> {
    SortBy(ItemLe(collate), Map(Normalizer(collate), items))
  }

  function Canonical(items: seq<Item>, collate: Collation): Ordering {
    Order(Prepared(items, collate))
  }

  lemma ItemLePreorder(collate: Collation)
    requires TotalPreorder(collate)
    ensures TotalPreorder(ItemLe(collate))
  {
    var le := ItemLe(collate);
    forall a, b ensures le(a, b) || le(b, a) {
      assert collate(SortKey(a), SortKey(b)) || collate(SortKey(b), SortKey(a));
      assert Rank(a.domain) == Rank(b.domain) ==> a.domain == b.domain;
    }
    forall a, b, c | le(a, b) && le(b, c) ensures le(a, c) {
      if a.domain == b.domain && b.domain == c.domain {
        assert collate(SortKey(a), SortKey(b)) && collate(SortKey(b), SortKey(c));
      }
    }
  }

  lemma FieldLePreorder(collate: Collation)
    requires TotalPreorder(collate)
    ensures TotalPreorder(FieldLe(collate))
  {
    var le := FieldLe(collate);
    forall a, b ensures le(a, b) || le(b, a) {
      assert collate(a.key, b.key) || collate(b.key, a.key);
    }
    forall a, b, c | le(a, b) && le(b, c) ensures le(a, c) {
      assert collate(a.key, b.key) && collate(b.key, c.key);
    }
  }

  lemma NormalizeTwice(collate: Collation, item: Item)
    requires TotalPreorder(collate)
    ensures Normalize(collate, Normalize(collate, item)) == Normalize(collate, item)
  {
    FieldLePreorder(collate);
    SortBySorted(FieldLe(collate), item.fields);
    SortByFixed(FieldLe(collate), SortBy(FieldLe(collate), item.fields));
  }

  /** No two of the items would be equal for the sort. */
  ghost predicate SortsStrictly(items: seq<Item>, collate: Collation) {
    NoTies(ItemLe(collate), Map(Normalizer(collate), items))
  }

  /** Without ties, the canonical package does not depend on the order of the input. */
  lemma CanonicalIgnoresOrder(items: seq<Item>, others: seq<Item>, collate: Collation)
    requires TotalPreorder(collate) && SortsStrictly(items, collate)
    requires multiset(items) == multiset(others)
    ensures Canonical(items, collate) == Canonical(others, collate)
  {
    ItemLePreorder(collate);
    MapMultiset(Normalizer(collate), items, others);
    SortByCanonical(ItemLe(collate), Map(Normalizer(collate), items), Map(Normalizer(collate), others));
  }

  /** Without ties, a canonical package is its own canonical form. */
  lemma CanonicalIsIdempotent(items: seq<Item>, collate: Collation)
    requires TotalPreorder(collate) && SortsStrictly(items, collate)
    requires Canonical(items, collate).Ordered?
    ensures Canonical(Canonical(items, collate).items, collate) == Canonical(items, collate)
  {
    var normal, canonical := Map(Normalizer(collate), items), Canonical(items, collate).items;
    OrderIsTopological(Prepared(items, collate), Referenced);
    MultisetMember(canonical, normal);
    forall item | item in canonical ensures Normalizer(collate)(item) == item {
      MapMember(Normalizer(collate), items, item);
      var original :| original in items && Normalizer(collate)(original) == item;
      NormalizeTwice(collate, original);
    }
    MapFixed(Normalizer(collate), canonical);
    ItemLePreorder(collate);
    SortByCanonical(ItemLe(collate), normal, canonical);
  }

  // ---------- canonicalising neither hides nor introduces an error ----------

  /** Items as parsed: no property occurs twice among the fields. */
  ghost predicate Parsed(items: seq<Item>) {
    forall item | item in items :: UniqueKeys(item.fields)
  }

  lemma {:induction false} LookupFinds(fields: seq<Field>, key: Text)
    requires UniqueKeys(fields)
    ensures (forall f | f in fields :: f.key != key) ==> Lookup(fields, key) == Ascii("undefined")
    ensures forall f | f in fields && f.key == key :: Lookup(fields, key) == Shown(f.value)
  {
    if fields != [] {
      assert fields == [fields[0]] + fields[1..];
      LookupFinds(fields[1..], key);
    }
  }

  lemma SortedLookup(fields: seq<Field>, collate: Collation, key: Text)
    requires UniqueKeys(fields)
    ensures Lookup(SortBy(FieldLe(collate), fields), key) == Lookup(fields, key)
  {
    var sorted := SortBy(FieldLe(collate), fields);
    MultisetMember(sorted, fields);
    UniqueKeysAnyOrder(fields, sorted);
    LookupFinds(fields, key);
    LookupFinds(sorted, key);
  }

  lemma UniqueKeysAnyOrder(fields: seq<Field>, others: seq<Field>)
    requires UniqueKeys(fields) && multiset(fields) == multiset(others)
    ensures UniqueKeys(others)
  {
    assert Distinct(fields);
    DistinctPermutation(fields, others);
    MultisetMember(fields, others);
    forall i, j | 0 <= i < j < |others| ensures others[i].key != others[j].key {
      assert others[i] in fields && others[j] in fields && others[i] != others[j];
    }
  }

  lemma SameReferences(item: Item, collate: Collation)
    requires UniqueKeys(item.fields)
    ensures Referenced(Normalize(collate, item)) == Referenced(item)
  {
    forall key ensures Lookup(Normalize(collate, item).fields, key) == Lookup(item.fields, key) {
      SortedLookup(item.fields, collate, key);
    }
  }

  lemma SameKeys(items: seq<Item>, collate: Collation)
    ensures multiset(Map(KeyOf, Prepared(items, collate))) == multiset(Map(KeyOf, items))
    ensures UniqueKeysIn(Prepared(items, collate)) <==> UniqueKeysIn(items)
  {
    var normal, prepared := Map(Normalizer(collate), items), Prepared(items, collate);
    MapMultiset(KeyOf, prepared, normal);
    assert Map(KeyOf, normal) == Map(KeyOf, items);
    DistinctKeys(items);
    DistinctKeys(prepared);
    DistinctMultiset(Map(KeyOf, items));
    DistinctMultiset(Map(KeyOf, prepared));
  }

  lemma DistinctKeys(items: seq<Item>)
    ensures UniqueKeysIn(items) <==> Distinct(Map(KeyOf, items))
  {
    hide KeyOf;
    if UniqueKeysIn(items) {
      forall i, j | 0 <= i < j < |items| ensures Map(KeyOf, items)[i] != Map(KeyOf, items)[j] {
        assert KeyOf(items[i]) != KeyOf(items[j]);
      }
    } else {
      var i, j :| 0 <= i < j < |items| && KeyOf(items[i]) == KeyOf(items[j]);
      assert Map(KeyOf, items)[i] == Map(KeyOf, items)[j];
    }
  }

  /** The second index holds, under each key, the normal form of the first one's item. */
  ghost predicate Mirrors(from: map<Text, Item>, to: map<Text, Item>, collate: Collation) {
    && from.Keys == to.Keys
    && forall k | k in from :: to[k] == Normalize(collate, from[k]) && KeyOf(from[k]) == k && UniqueKeys(from[k].fields)
  }

  lemma PreparedMirrors(items: seq<Item>, collate: Collation)
    requires Parsed(items) && UniqueKeysIn(items)
    ensures Mirrors(Entries(items), Entries(Prepared(items, collate)), collate)
  {
    var prepared, normal := Prepared(items, collate), Map(Normalizer(collate), items);
    SameKeys(items, collate);
    EntriesOfItems(items);
    EntriesOfItems(prepared);
    AllKnown(prepared, Referenced);
    MultisetMember(prepared, normal);
    forall k | k in Entries(items) ensures k in Entries(prepared) && Entries(prepared)[k] == Normalize(collate, Entries(items)[k]) {
      var item := Entries(items)[k];
      MapMember(Normalizer(collate), items, Normalize(collate, item));
      assert Normalizer(collate)(item) in prepared;
    }
    forall k | k in Entries(prepared) ensures k in Entries(items) {
      MapMember(Normalizer(collate), items, Entries(prepared)[k]);
      var item :| item in items && Normalizer(collate)(item) == Entries(prepared)[k];
      assert KeyOf(item) in Done(items);
    }
  }

  lemma MirroredStep(from: map<Text, Item>, to: map<Text, Item>, collate: Collation, j: Text, k: Text)
    requires Mirrors(from, to, collate) && j in from && k in from
    ensures to[k] in Dependencies(Index(to, Referenced), to[j])
       <==> from[k] in Dependencies(Index(from, Referenced), from[j])
  {
    SameReferences(from[j], collate);
    ResolveMembers(from, Referenced(from[j]), from[k]);
    ResolveMembers(to, Referenced(to[j]), to[k]);
    assert KeyOf(to[k]) == k;
  }

  lemma StepIsKnown(index: Index, p: seq<Item>, i: nat)
    requires Indexes(index) && Path(Successors(index), p) && 0 < i < |p|
    ensures Known(index, p[i])
  {
    assert StepAt(Successors(index), p, i);
    DependenciesKnown(index, p[i - 1]);
  }

  lemma CycleOf(index: Index) returns (p: seq<Item>)
    requires Indexes(index) && HasCycle(index)
    ensures Path(Successors(index), p) && p[0] == p[|p| - 1]
    ensures forall item | item in p :: Known(index, item)
  {
    var k :| k in index.entries && Leads(Successors(index), index.entries[k], index.entries[k]);
    var start := index.entries[k];
    p :| Path(Successors(index), p) && p[0] == start && p[|p| - 1] == start;
    forall i | 0 <= i < |p| ensures Known(index, p[i]) {
      if i > 0 {
        StepIsKnown(index, p, i);
      }
    }
  }

  lemma CarryCycle(from: Index, to: Index)
    requires Indexes(from) && Indexes(to) && from.entries.Keys == to.entries.Keys
    requires forall j, k | j in from.entries && k in from.entries && from.entries[k] in Dependencies(from, from.entries[j])
      :: to.entries[k] in Dependencies(to, to.entries[j])
    requires HasCycle(from)
    ensures HasCycle(to)
  {
    var p := CycleOf(from);
    var image := (item: Item) => if KeyOf(item) in to.entries then to.entries[KeyOf(item)] else item;
    CarryPath(Successors(from), Successors(to), image, p);
    assert image(p[0]) == to.entries[KeyOf(p[0])];
  }

  /** An input is refused in canonical form exactly when it is refused as it stands,
      and with the same error: a duplicate key or a dependency cycle. */
  lemma CanonicalErrors(items: seq<Item>, collate: Collation)
    requires Parsed(items)
    ensures Canonical(items, collate).SourceDuplicate? <==> Order(items).SourceDuplicate?
    ensures Canonical(items, collate).DependencyCycle? <==> Order(items).DependencyCycle?
  {
    var prepared := Prepared(items, collate);
    SameKeys(items, collate);
    ErrorsAreExact(items, Referenced);
    ErrorsAreExact(prepared, Referenced);
    if UniqueKeysIn(items) {
      AllKnown(items, Referenced);
      AllKnown(prepared, Referenced);
      PreparedMirrors(items, collate);
      forall j, k | j in Entries(items) && k in Entries(items)
        ensures Entries(prepared)[k] in Dependencies(IndexOf(prepared, Referenced), Entries(prepared)[j])
           <==> Entries(items)[k] in Dependencies(IndexOf(items, Referenced), Entries(items)[j])
      {
        MirroredStep(Entries(items), Entries(prepared), collate, j, k);
      }
      if HasCycle(IndexOf(items, Referenced)) {
        CarryCycle(IndexOf(items, Referenced), IndexOf(prepared, Referenced));
      }
      if HasCycle(IndexOf(prepared, Referenced)) {
        CarryCycle(IndexOf(prepared, Referenced), IndexOf(items, Referenced));
      }
    }
  }

  /** A canonical package holds exactly the normalised items, dependencies first. */
  lemma CanonicalIsTopological(items: seq<Item>, collate: Collation)
    requires Canonical(items, collate).Ordered?
    ensures var canonical := Canonical(items, collate).items;
      && multiset(canonical) == multiset(Map(Normalizer(collate), items))
      && Topological(IndexOf(Prepared(items, collate), Referenced), canonical)
  {
    OrderIsTopological(Prepared(items, collate), Referenced);
  }

  // ---------- what ties do ----------

  /** The first item refers neither to itself nor to the second. */
  ghost predicate NeedsNeither(refs: References, a: Item, b: Item) {
    forall k | k in refs(a) :: k != KeyOf(a) && k != KeyOf(b)
  }

  /** Two tied items that need nothing from each other stay in the order in which
      they came, so the canonical package then depends on the input order. */
  lemma TiesKeepInputOrder(a: Item, b: Item, collate: Collation)
    requires KeyOf(a) != KeyOf(b)
    requires a.domain == b.domain && collate(SortKey(a), SortKey(b)) && collate(SortKey(b), SortKey(a))
    requires UniqueKeys(a.fields) && UniqueKeys(b.fields)
    requires NeedsNeither(Referenced, a, b) && NeedsNeither(Referenced, b, a)
    ensures Canonical([a, b], collate) == Ordered([Normalize(collate, a), Normalize(collate, b)])
    ensures Canonical([b, a], collate) == Ordered([Normalize(collate, b), Normalize(collate, a)])
    ensures Canonical([a, b], collate) != Canonical([b, a], collate)
  {
    SameReferences(a, collate);
    SameReferences(b, collate);
    var x, y := Normalize(collate, a), Normalize(collate, b);
    PreparedPair(a, b, collate);
    PreparedPair(b, a, collate);
    assert KeyOf(x) == KeyOf(a) && KeyOf(y) == KeyOf(b);
    PairInOrder(x, y, Referenced);
    PairInOrder(y, x, Referenced);
    assert [x, y][0] != [y, x][0];
  }

  lemma SortPair<T>(le: (T, T) -> bool, a: T, b: T)
    requires le(a, b)
    ensures SortBy(le, [a, b]) == [a, b]
  {
    assert [a, b][1..] == [b] && SortBy(le, [b]) == [b];
  }

  lemma PreparedPair(a: Item, b: Item, collate: Collation)
    requires a.domain == b.domain && collate(SortKey(a), SortKey(b))
    ensures Prepared([a, b], collate) == [Normalize(collate, a), Normalize(collate, b)]
  {
    var pair := [Normalize(collate, a), Normalize(collate, b)];
    assert Map(Normalizer(collate), [a, b]) == pair;
    assert SortKey(pair[0]) == SortKey(a) && SortKey(pair[1]) == SortKey(b);
    SortPair(ItemLe(collate), pair[0], pair[1]);
  }

  lemma PairInOrder(a: Item, b: Item, refs: References)
    requires KeyOf(a) != KeyOf(b) && NeedsNeither(refs, a, b) && NeedsNeither(refs, b, a)
    ensures OrderBy([a, b], refs) == Ordered([a, b])
  {
    var pair := [a, b];
    var index := IndexOf(pair, refs);
    AllKnown(pair, refs);
    EntriesOfItems(pair);
    forall i | 0 <= i < 2 ensures Supported(index, pair, i) {
      forall d ensures d !in Dependencies(index, pair[i]) {
        ResolveMembers(index.entries, refs(pair[i]), d);
      }
    }
    OrderedIsFixed(pair, refs);
  }

  /** Equal for the sort. */
  ghost predicate Tied(a: Item, b: Item, collate: Collation) {
    a.domain == b.domain && collate(SortKey(a), SortKey(b)) && collate(SortKey(b), SortKey(a))
  }

  lemma UntiedIgnoresOrder(a: Item, b: Item, collate: Collation)
    requires TotalPreorder(collate) && !Tied(a, b, collate)
    ensures Canonical([a, b], collate) == Canonical([b, a], collate)
  {
    var normal := Map(Normalizer(collate), [a, b]);
    forall x, y | x in normal && y in normal && ItemLe(collate)(x, y) && ItemLe(collate)(y, x) ensures x == y {
      assert SortKey(normal[0]) == SortKey(a) && SortKey(normal[1]) == SortKey(b);
    }
    assert multiset([a, b]) == multiset([b, a]);
    CanonicalIgnoresOrder([a, b], [b, a], collate);
  }

  lemma SameEntries(x: Item, y: Item)
    requires KeyOf(x) != KeyOf(y)
    ensures Entries([x, y]) == Entries([y, x]) == map[KeyOf(x) := x, KeyOf(y) := y]
  {
    assert [x, y][..1] == [x] && [y, x][..1] == [y] && [x][..0] == [] && [y][..0] == [];
    assert Entries([x]) == map[KeyOf(x) := x] && Entries([y]) == map[KeyOf(y) := y];
    assert Entries([x, y]) == Entries([x])[KeyOf(y) := y] && Entries([y, x]) == Entries([y])[KeyOf(x) := x];
  }

  /** A topological order of two items ends with the one that needs the other. */
  lemma NeedyComesLast(index: Index, needed: Item, needy: Item, order: seq<Item>)
    requires Topological(index, order) && multiset(order) == multiset{needed, needy} && needed != needy
    requires needed in Dependencies(index, needy)
    ensures order == [needed, needy]
  {
    assert |order| == |multiset(order)| == 2;
    assert order == [order[0], order[1]];
    assert order[0] in multiset(order) && order[1] in multiset(order);
    assert Supported(index, order, 0) && order[..0] == [];
    assert KeyOf(order[0]) != KeyOf(order[1]);
  }

  /** Whether two items run into a cycle does not depend on their order. */
  lemma SameCycle(x: Item, y: Item, refs: References)
    requires KeyOf(x) != KeyOf(y)
    ensures IndexOf([x, y], refs) == IndexOf([y, x], refs)
    ensures HasCycle(IndexOf([x, y], refs)) ==> OrderBy([x, y], refs) == OrderBy([y, x], refs) == DependencyCycle
    ensures !HasCycle(IndexOf([x, y], refs)) ==> OrderBy([x, y], refs).Ordered? && OrderBy([y, x], refs).Ordered?
  {
    SameEntries(x, y);
    ErrorsAreExact([x, y], refs);
    ErrorsAreExact([y, x], refs);
  }

  lemma NeedyForcesOrder(needed: Item, needy: Item, refs: References)
    requires KeyOf(needed) != KeyOf(needy) && KeyOf(needed) in refs(needy)
    ensures OrderBy([needed, needy], refs) == OrderBy([needy, needed], refs)
  {
    var index := IndexOf([needed, needy], refs);
    SameEntries(needed, needy);
    SameCycle(needed, needy, refs);
    ResolveMembers(index.entries, refs(needy), needed);
    if !HasCycle(index) {
      OrderIsTopological([needed, needy], refs);
      OrderIsTopological([needy, needed], refs);
      assert multiset([needed, needy]) == multiset{needed, needy} == multiset([needy, needed]);
      NeedyComesLast(index, needed, needy, OrderBy([needed, needy], refs).items);
      NeedyComesLast(index, needed, needy, OrderBy([needy, needed], refs).items);
    }
  }

  lemma PairOrderForced(x: Item, y: Item, refs: References)
    requires KeyOf(x) != KeyOf(y) && !(NeedsNeither(refs, x, y) && NeedsNeither(refs, y, x))
    ensures OrderBy([x, y], refs) == OrderBy([y, x], refs)
  {
    if KeyOf(y) in refs(x) {
      NeedyForcesOrder(y, x, refs);
    } else if KeyOf(x) in refs(y) {
      NeedyForcesOrder(x, y, refs);
    } else {
      SameEntries(x, y);
      SameCycle(x, y, refs);
      var index := IndexOf([x, y], refs);
      ResolveMembers(index.entries, refs(x), x);
      ResolveMembers(index.entries, refs(y), y);
      if !HasCycle(index) {
        NotOnItself(index, x);
        NotOnItself(index, y);
      }
    }
  }

  lemma NotOnItself(index: Index, item: Item)
    requires !HasCycle(index) && Known(index, item)
    ensures item !in Dependencies(index, item)
  {
    if item in Dependencies(index, item) {
      LeadsOneStep(Successors(index), item, item);
    }
  }

  /** Of two items, the canonical package depends on the order in which they came if and
      only if they are different entries that tie and neither refers to itself or the
      other. */
  lemma OrderMattersExactly(a: Item, b: Item, collate: Collation)
    requires TotalPreorder(collate) && UniqueKeys(a.fields) && UniqueKeys(b.fields)
    ensures Canonical([a, b], collate) != Canonical([b, a], collate) <==>
      && KeyOf(a) != KeyOf(b) && Tied(a, b, collate)
      && NeedsNeither(Referenced, a, b) && NeedsNeither(Referenced, b, a)
  {
    if !Tied(a, b, collate) {
      UntiedIgnoresOrder(a, b, collate);
    } else if KeyOf(a) == KeyOf(b) {
      KeyTextInjective(a.domain, a.sourceKey, b.domain, b.sourceKey);
      CanonicalErrors([a, b], collate);
      CanonicalErrors([b, a], collate);
      ErrorsAreExact([a, b], Referenced);
      ErrorsAreExact([b, a], Referenced);
      assert [a, b][0].sourceKey == [a, b][1].sourceKey && [b, a][0].sourceKey == [b, a][1].sourceKey;
    } else if NeedsNeither(Referenced, a, b) && NeedsNeither(Referenced, b, a) {
      TiesKeepInputOrder(a, b, collate);
    } else {
      SameReferences(a, collate);
      SameReferences(b, collate);
      PreparedPair(a, b, collate);
      PreparedPair(b, a, collate);
      PairOrderForced(Normalize(collate, a), Normalize(collate, b), Referenced);
    }
  }

  function Bare(table: Text, key: Text): Item {
    Item(Skill, table, key, [], [], Missing, Missing, Missing, Missing, Missing)
  }

  /** For instance two skill rows without fields, one of table "t:u" under the key "v",
      one of table "t" under the key "u:v", whatever the collation. */
  lemma CollidingPair(collate: Collation) returns (a: Item, b: Item)
    requires TotalPreorder(collate)
    ensures a.sourceTable == Ascii("t:u") && a.sourceKey == Ascii("v")
    ensures b.sourceTable == Ascii("t") && b.sourceKey == Ascii("u:v")
    ensures Canonical([a, b], collate) != Canonical([b, a], collate)
  {
    a, b := Bare(Ascii("t:u"), Ascii("v")), Bare(Ascii("t"), Ascii("u:v"));
    assert Ascii("t:u") == Ascii("t") + [COLON] + Ascii("u") && Ascii("u:v") == Ascii("u") + [COLON] + Ascii("v");
    JoinedKeysCollide(a, b, Ascii("t"), Ascii("u"), Ascii("v"));
    BareNeedsNothing(a, b);
    BareNeedsNothing(b, a);
    if KeyOf(a) == KeyOf(b) {
      KeyTextInjective(a.domain, a.sourceKey, b.domain, b.sourceKey);
      assert false;
    }
    TiesKeepInputOrder(a, b, collate);
  }

  lemma BareNeedsNothing(a: Item, b: Item)
    requires a.domain.Skill? && b.domain.Skill?
    ensures NeedsNeither(Referenced, a, b)
  {
    forall k | k in Referenced(a) ensures k != KeyOf(a) && k != KeyOf(b) {
      var domain, key :| k == KeyText(domain, key) && !domain.Skill?;
      if k == KeyOf(a) {
        KeyTextInjective(domain, key, a.domain, a.sourceKey);
      } else if k == KeyOf(b) {
        KeyTextInjective(domain, key, b.domain, b.sourceKey);
      }
    }
  }

  lemma SameTableSameKey(a: Item, b: Item)
    requires a.sourceTable == b.sourceTable && SortKey(a) == SortKey(b)
    ensures a.sourceKey == b.sourceKey
  {
    var n := |a.sourceTable| + 1;
    assert a.sourceKey == SortKey(a)[n..] && b.sourceKey == SortKey(b)[n..];
  }

  lemma NormalTied(a: Item, b: Item, collate: Collation)
    requires var x, y := Normalize(collate, a), Normalize(collate, b); ItemLe(collate)(x, y) && ItemLe(collate)(y, x)
    ensures Tied(a, b, collate)
  {
    var x, y := Normalize(collate, a), Normalize(collate, b);
    assert SortKey(x) == SortKey(a) && SortKey(y) == SortKey(b);
  }

  ghost predicate TellsApart(collate: Collation) {
    forall x, y {:trigger collate(x, y)} | collate(x, y) && collate(y, x) :: x == y
  }

  lemma TiedSameKey(a: Item, b: Item, collate: Collation)
    requires TellsApart(collate) && Tied(a, b, collate) && a.sourceTable == b.sourceTable
    ensures KeyOf(a) == KeyOf(b)
  {
    SameTableSameKey(a, b);
  }

  ghost predicate OneTableEach(items: seq<Item>) {
    forall a, b | a in items && b in items && a.domain == b.domain :: a.sourceTable == b.sourceTable
  }

  lemma SameKeySameItem(items: seq<Item>, a: Item, b: Item)
    requires UniqueKeysIn(items) && a in items && b in items && KeyOf(a) == KeyOf(b)
    ensures a == b
  {
    var i, j :| 0 <= i < |items| && 0 <= j < |items| && items[i] == a && items[j] == b;
  }

  /** Where every domain has one table, as the importers demand of most, and the
      collation tells all strings apart, nothing ties. */
  lemma FixedTablesSortStrictly(items: seq<Item>, collate: Collation)
    requires UniqueKeysIn(items) && TellsApart(collate) && OneTableEach(items)
    ensures SortsStrictly(items, collate)
  {
    hide Map, KeyOf, SortKey, Normalize;
    var le, normal := ItemLe(collate), Map(Normalizer(collate), items);
    forall x, y | x in normal && y in normal && le(x, y) && le(y, x) ensures x == y {
      var i, j :| 0 <= i < |normal| && 0 <= j < |normal| && normal[i] == x && normal[j] == y;
      var a, b := items[i], items[j];
      assert x == Normalize(collate, a) && y == Normalize(collate, b);
      NormalTied(a, b, collate);
      TiedSameKey(a, b, collate);
      SameKeySameItem(items, a, b);
    }
  }

  /** Items can tie even under exact comparison: the joined sort key does not say
      where the table name ends. */
  lemma JoinedKeysCollide(a: Item, b: Item, table: Text, middle: Text, key: Text)
    requires a.sourceTable == table + [COLON] + middle && a.sourceKey == key
    requires b.sourceTable == table && b.sourceKey == middle + [COLON] + key
    ensures SortKey(a) == SortKey(b) && a.sourceTable != b.sourceTable && a.sourceKey != b.sourceKey
  {
    assert SortKey(a) == table + [COLON] + middle + [COLON] + key == SortKey(b);
    assert |a.sourceTable| > |b.sourceTable| && |a.sourceKey| < |b.sourceKey|;
  }
}
