/** What the order of an incremental package means for its items: five properties say
    what an item depends on (packages/shared/src/hr-yuzhou-incremental.ts,
    orderYuzhouIncrementalItems, canonicalYuzhouIncrementalPackage). */
module ItemDependencies {
  import opened CanonicalJson
  import opened DependencyOrder
  import opened IncrementalPackage
  import opened JsonValues
  import opened Mapping
  import opened Options
  import opened Paths
  import opened Sorting
  import opened Texts

  /** The properties that are followed, in turn, and the domain that each points to. */
  const FOLLOWED: seq<(Text, Domain)> := [
    (Ascii("parentSourceKey"), Organization),
    (Ascii("orgSourceKey"), Organization),
    (Ascii("parentPositionSourceKey"), Position),
    (Ascii("positionSourceKey"), Position),
    (Ascii("employeeSourceKey"), Employee)]

  predicate Points(property: Text, to: Domain) {
    (property, to) in FOLLOWED
  }

  /** What a template literal makes of a value: a string is shown as it is, and so are the
      JSON texts of null, booleans and numbers. */
  ghost predicate ShownAs(j: Json, t: Text) {
    match j
    case String(s) => s == t
    case Array(_) => Shown(j) == t
    case Object(_) => t == Ascii("[object Object]")
    case _ => t == Print(j)
  }

  predicate Absent(fields: seq<Field>, property: Text) {
    forall f | f in fields :: f.key != property
  }

  /** One item depends on another: a property that points to its domain shows its source
      key. A property that is not there shows as "undefined". */
  ghost predicate Mentions(a: Item, b: Item) {
    exists property: Text :: MentionsBy(a, b, property)
  }

  ghost predicate MentionsBy(a: Item, b: Item, property: Text) {
    && Points(property, b.domain)
    && if Absent(a.fields, property) then b.sourceKey == Ascii("undefined")
       else exists f | f in a.fields :: f.key == property && ShownAs(f.value, b.sourceKey)
  }

  /** Each item of the chain depends on the next, and the last is the first again. */
  ghost predicate ClosedChain(items: seq<Item>, chain: seq<Item>) {
    && |chain| >= 2 && chain[0] == chain[|chain| - 1]
    && (forall item | item in chain :: item in items)
    && forall k {:trigger LinkAt(chain, k)} | 0 < k < |chain| :: LinkAt(chain, k)
  }

  ghost predicate LinkAt(chain: seq<Item>, k: nat)
    requires 0 < k < |chain|
  {
    Mentions(chain[k - 1], chain[k])
  }

  lemma ShowsWhatItSays(j: Json, t: Text)
    ensures Shown(j) == t <==> ShownAs(j, t)
  {
  }

  lemma LookupMeans(fields: seq<Field>, property: Text, t: Text)
    requires UniqueKeys(fields)
    ensures Lookup(fields, property) == t <==>
      if Absent(fields, property) then t == Ascii("undefined")
      else exists f | f in fields :: f.key == property && ShownAs(f.value, t)
  {
    hide Shown, ShownAs;
    LookupFinds(fields, property);
    if !Absent(fields, property) {
      var f :| f in fields && f.key == property;
      ShowsWhatItSays(f.value, t);
      forall g | g in fields && g.key == property ensures g == f {
      }
    }
  }

  lemma ReferencedAt(item: Item, i: nat)
    requires i < 5
    ensures |Referenced(item)| == 5 && Referenced(item)[i] == KeyText(FOLLOWED[i].1, Lookup(item.fields, FOLLOWED[i].0))
  {
    hide DomainName, Lookup, KeyText;
  }

  lemma ReferencedByProperty(item: Item, to: Domain, key: Text)
    ensures KeyText(to, key) in Referenced(item) <==>
      exists property: Text :: Points(property, to) && Lookup(item.fields, property) == key
  {
    hide DomainName, Lookup, Referenced;
    if property: Text :| Points(property, to) && Lookup(item.fields, property) == key {
      var i :| 0 <= i < 5 && FOLLOWED[i] == (property, to);
      ReferencedAt(item, i);
    }
    if KeyText(to, key) in Referenced(item) {
      ReferencedAt(item, 0);
      var i :| 0 <= i < 5 && Referenced(item)[i] == KeyText(to, key);
      ReferencedAt(item, i);
      KeyTextInjective(FOLLOWED[i].1, Lookup(item.fields, FOLLOWED[i].0), to, key);
      assert Points(FOLLOWED[i].0, to);
    }
  }

  lemma ReferencedMeans(a: Item, b: Item)
    requires UniqueKeys(a.fields)
    ensures KeyOf(b) in Referenced(a) <==> Mentions(a, b)
  {
    hide Lookup, Referenced, Absent, ShownAs, KeyText, Points;
    ReferencedByProperty(a, b.domain, b.sourceKey);
    forall property: Text
      ensures MentionsBy(a, b, property) <==> Points(property, b.domain) && Lookup(a.fields, property) == b.sourceKey
    {
      LookupMeans(a.fields, property, b.sourceKey);
    }
  }

  /** The search follows exactly what the properties mention. */
  lemma DependsMeans(items: seq<Item>, a: Item, b: Item)
    requires UniqueKeysIn(items) && b in items && UniqueKeys(a.fields)
    ensures b in Dependencies(IndexOf(items, Referenced), a) <==> Mentions(a, b)
  {
    var index := IndexOf(items, Referenced);
    AllKnown(items, Referenced);
    ResolveMembers(index.entries, Referenced(a), b);
    ReferencedMeans(a, b);
  }

  // ---------- every dependency precedes what depends on it ----------

  /** An ordered package holds the same items, each after everything in the package that
      its five properties mention. */
  lemma OrderFollowsProperties(items: seq<Item>)
    requires Order(items).Ordered? && Parsed(items)
    ensures var order := Order(items).items;
      && multiset(order) == multiset(items)
      && forall i, j | 0 <= i < |order| && 0 <= j < |order| && Mentions(order[j], order[i]) :: i < j
  {
    hide Mentions, Referenced;
    var order := Order(items).items;
    OrderIsTopological(items, Referenced);
    MultisetMember(order, items);
    forall i, j | 0 <= i < |order| && 0 <= j < |order| && Mentions(order[j], order[i]) ensures i < j {
      assert order[i] in items && order[j] in items;
      DependsMeans(items, order[j], order[i]);
      DependencyEarlier(IndexOf(items, Referenced), order, j, order[i]);
      UniqueIsDistinct(order);
    }
  }

  /** For instance, a property that holds the source key as a string. */
  lemma MentionedByString(a: Item, b: Item, f: Field)
    requires UniqueKeys(a.fields) && f in a.fields && Points(f.key, b.domain)
    requires f.value.String? && f.value.s == b.sourceKey
    ensures Mentions(a, b)
  {
    assert MentionsBy(a, b, f.key);
  }

  /** So in an ordered package an item with such a property stands after the item of that
      domain and source key. */
  lemma OrderFollowsStrings(items: seq<Item>, i: nat, j: nat, f: Field)
    requires Order(items).Ordered? && Parsed(items)
    requires i < |Order(items).items| && j < |Order(items).items| && f in Order(items).items[j].fields
    requires Points(f.key, Order(items).items[i].domain)
    requires f.value.String? && f.value.s == Order(items).items[i].sourceKey
    ensures i < j
  {
    OrderFollowsProperties(items);
    MultisetMember(Order(items).items, items);
    assert Order(items).items[j] in items;
    MentionedByString(Order(items).items[j], Order(items).items[i], f);
  }

  // ---------- the cycle error ----------

  lemma ChainMakesCycle(items: seq<Item>, chain: seq<Item>)
    requires Parsed(items) && UniqueKeysIn(items) && ClosedChain(items, chain)
    ensures HasCycle(IndexOf(items, Referenced))
  {
    hide Mentions, Referenced;
    var index := IndexOf(items, Referenced);
    AllKnown(items, Referenced);
    forall k | 0 < k < |chain| ensures Paths.StepAt(Successors(index), chain, k) {
      assert LinkAt(chain, k);
      DependsMeans(items, chain[k - 1], chain[k]);
    }
    assert Path(Successors(index), chain);
    assert Known(index, chain[0]);
  }

  lemma CycleMakesChain(items: seq<Item>) returns (chain: seq<Item>)
    requires Parsed(items) && UniqueKeysIn(items) && HasCycle(IndexOf(items, Referenced))
    ensures ClosedChain(items, chain)
  {
    hide Mentions, Referenced;
    var index := IndexOf(items, Referenced);
    AllKnown(items, Referenced);
    EntriesOfItems(items);
    chain := CycleOf(index);
    forall item | item in chain ensures item in items {
      assert Known(index, item);
    }
    forall k | 0 < k < |chain| ensures LinkAt(chain, k) {
      assert Paths.StepAt(Successors(index), chain, k);
      DependsMeans(items, chain[k - 1], chain[k]);
    }
  }

  /** A package without duplicates is refused exactly if following the five properties
      leads from some item back to it. */
  lemma CycleErrorIsExact(items: seq<Item>)
    requires Parsed(items)
    ensures Order(items).DependencyCycle? <==>
      !Order(items).SourceDuplicate? && exists chain: seq<Item> :: ClosedChain(items, chain)
  {
    ErrorsAreExact(items, Referenced);
    if UniqueKeysIn(items) {
      if HasCycle(IndexOf(items, Referenced)) {
        var chain := CycleMakesChain(items);
      }
      if chain: seq<Item> :| ClosedChain(items, chain) {
        ChainMakesCycle(items, chain);
      }
    }
  }

  // ---------- the turn in which dependencies come ----------

  /** The i-th property of the item holds that item's source key. */
  ghost predicate Holds(item: Item, i: nat, needed: Item)
    requires i < 5
  {
    needed.domain == FOLLOWED[i].1 &&
    exists f | f in item.fields :: f.key == FOLLOWED[i].0 && f.value.String? && f.value.s == needed.sourceKey
  }

  /** It mentions nothing in the package. */
  ghost predicate Independent(items: seq<Item>, item: Item) {
    forall other | other in items :: !Mentions(item, other)
  }

  lemma NothingNeeded(items: seq<Item>, item: Item)
    requires UniqueKeysIn(items) && Parsed(items) && item in items && Independent(items, item)
    ensures Dependencies(IndexOf(items, Referenced), item) == []
  {
    hide Mentions, Referenced;
    var index := IndexOf(items, Referenced);
    var all := Dependencies(index, item);
    AllKnown(items, Referenced);
    EntriesOfItems(items);
    if all != [] {
      assert all[0] in all && all[0] in items;
      DependsMeans(items, item, all[0]);
      assert false;
    }
  }

  lemma {:induction false} VisitIndependent(index: Index, some: seq<Item>, visiting: set<Text>, order: seq<Item>)
    requires Indexes(index) && UniqueKeysIn(some)
    requires forall item | item in some :: Known(index, item) && Dependencies(index, item) == []
    requires forall item | item in some :: KeyOf(item) !in visiting && KeyOf(item) !in Done(order)
    ensures VisitAll(index, some, visiting, order) == Some(order + some)
  {
    if some == [] {
      assert order + some == order;
    } else {
      var after := order + [some[0]];
      assert Visit(index, some[0], visiting, order) == Some(after);
      forall i | 1 <= i < |some| ensures KeyOf(some[i]) !in Done(after) {
        assert some[i] in some;
      }
      VisitIndependent(index, some[1..], visiting, after);
      assert after + some[1..] == order + some;
    }
  }

  lemma {:induction false} ResolveAll(entries: map<Text, Item>, keys: seq<Text>, some: seq<Item>)
    requires |keys| == |some| && forall i | 0 <= i < |keys| :: keys[i] in entries && entries[keys[i]] == some[i]
    ensures Resolve(entries, keys) == some
  {
    if keys != [] {
      ResolveAll(entries, keys[1..], some[1..]);
      assert some == [some[0]] + some[1..];
    }
  }

  lemma NeededInTurn(items: seq<Item>, needed: seq<Item>)
    requires UniqueKeysIn(items) && Parsed(items) && items != [] && |needed| == 5
    requires forall i | 0 <= i < 5 :: Holds(items[0], i, needed[i]) && needed[i] in items
    ensures Dependencies(IndexOf(items, Referenced), items[0]) == needed
  {
    var index, item := IndexOf(items, Referenced), items[0];
    AllKnown(items, Referenced);
    ReferencedAt(item, 0);
    forall i | 0 <= i < 5 ensures Referenced(item)[i] in index.entries && index.entries[Referenced(item)[i]] == needed[i] {
      ReferencedAt(item, i);
      var f :| f in item.fields && f.key == FOLLOWED[i].0 && f.value.String? && f.value.s == needed[i].sourceKey;
      LookupFinds(item.fields, f.key);
      assert Known(index, needed[i]);
    }
    ResolveAll(index.entries, Referenced(item), needed);
  }

  /** If the first item holds five keys of items that need nothing themselves, these come
      first, in the order in which the properties are followed, and then the item. */
  lemma DependenciesComeInTurn(items: seq<Item>, needed: seq<Item>)
    requires Order(items).Ordered? && Parsed(items) && items != [] && |needed| == 5
    requires forall i | 0 <= i < 5 :: Holds(items[0], i, needed[i]) && needed[i] in items && Independent(items, needed[i])
    requires needed[0] != needed[1] && needed[2] != needed[3]
    ensures needed + [items[0]] <= Order(items).items
  {
    hide Holds, Referenced, Mentions, KeyOf, Dependencies, Topological, Visit;
    var index, item := IndexOf(items, Referenced), items[0];
    AllKnown(items, Referenced);
    FirstItemVisited(items, needed);
    NothingYet(index);
    VisitOrders(index, item, {}, []);
    VisitAllStep(index, item, items[1..], {}, []);
    assert items == [item] + items[1..];
    VisitAllOrders(index, items[1..], {}, needed + [item]);
  }

  lemma NothingYet(index: Index)
    ensures Topological(index, [])
  {
  }

  lemma FirstItemVisited(items: seq<Item>, needed: seq<Item>)
    requires UniqueKeysIn(items) && Parsed(items) && items != [] && |needed| == 5
    requires forall i | 0 <= i < 5 :: Holds(items[0], i, needed[i]) && needed[i] in items && Independent(items, needed[i])
    requires needed[0] != needed[1] && needed[2] != needed[3]
    requires Indexes(IndexOf(items, Referenced)) && Known(IndexOf(items, Referenced), items[0])
    ensures Visit(IndexOf(items, Referenced), items[0], {}, []) == Some(needed + [items[0]])
  {
    hide Holds, Referenced, Mentions, KeyOf;
    var index, item := IndexOf(items, Referenced), items[0];
    AllKnown(items, Referenced);
    NeededInTurn(items, needed);
    NeededApart(items, needed);
    forall other | other in needed ensures Dependencies(index, other) == [] {
      NothingNeeded(items, other);
    }
    VisitIndependent(index, needed, {KeyOf(item)}, []);
    assert {} + {KeyOf(item)} == {KeyOf(item)} && [] + needed == needed;
  }

  lemma NeededApart(items: seq<Item>, needed: seq<Item>)
    requires UniqueKeysIn(items) && Parsed(items) && items != [] && |needed| == 5
    requires forall i | 0 <= i < 5 :: Holds(items[0], i, needed[i]) && needed[i] in items && Independent(items, needed[i])
    requires needed[0] != needed[1] && needed[2] != needed[3]
    ensures UniqueKeysIn(needed) && forall other | other in needed :: KeyOf(other) != KeyOf(items[0])
  {
    hide Referenced, Mentions, KeyOf, FOLLOWED, Holds;
    assert KeyOf(needed[0]) != KeyOf(needed[1]) && KeyOf(needed[2]) != KeyOf(needed[3]) by {
      if KeyOf(needed[0]) == KeyOf(needed[1]) {
        SameKeySameItem(items, needed[0], needed[1]);
      }
      if KeyOf(needed[2]) == KeyOf(needed[3]) {
        SameKeySameItem(items, needed[2], needed[3]);
      }
    }
    forall i, j | 0 <= i < j < 5 ensures KeyOf(needed[i]) != KeyOf(needed[j]) {
      if !(i == 0 && j == 1) && !(i == 2 && j == 3) {
        OtherDomain(items[0], i, j, needed[i], needed[j]);
      }
    }
    forall i | 0 <= i < 5 ensures KeyOf(needed[i]) != KeyOf(items[0]) {
      HoldsMentions(items[0], i, needed[i]);
    }
  }

  lemma OtherDomain(item: Item, i: nat, j: nat, a: Item, b: Item)
    requires i < j < 5 && !(i == 0 && j == 1) && !(i == 2 && j == 3)
    requires Holds(item, i, a) && Holds(item, j, b)
    ensures KeyOf(a) != KeyOf(b)
  {
    hide KeyText;
    assert a.domain != b.domain;
    if KeyOf(a) == KeyOf(b) {
      KeyTextInjective(a.domain, a.sourceKey, b.domain, b.sourceKey);
    }
  }

  lemma HoldsMentions(item: Item, i: nat, needed: Item)
    requires UniqueKeys(item.fields) && i < 5 && Holds(item, i, needed)
    ensures Mentions(item, needed)
  {
    var f :| f in item.fields && f.key == FOLLOWED[i].0 && f.value.String? && f.value.s == needed.sourceKey;
    assert FOLLOWED[i] in FOLLOWED;
    MentionedByString(item, needed, f);
  }

  // ---------- the canonical package ----------

  /** The domains as the canonical package has them. */
  const DOMAINS: seq<Domain> := [Organization, Position, Employee, Profile, Contract, Family, Skill, Credential,
                                 TrainingHistory, InsurancePolicy]

  function Joined(item: Item): Text {
    item.sourceTable + [':' as nat] + item.sourceKey
  }

  /** One item may stand before another: its domain comes first, or the domains are the
      same and its table and key do not come after the other's. */
  ghost predicate MayPrecede(collate: Collation, a: Item, b: Item) {
    exists i, j | 0 <= i <= j < |DOMAINS| ::
      DOMAINS[i] == a.domain && DOMAINS[j] == b.domain && (i == j ==> collate(Joined(a), Joined(b)))
  }

  /** The same item with its fields sorted by name, and without properties that are set to
      undefined. */
  ghost predicate IsNormalOf(collate: Collation, normal: Item, item: Item) {
    && normal.domain == item.domain && normal.sourceTable == item.sourceTable && normal.sourceKey == item.sourceKey
    && normal.rowDigest == item.rowDigest
    && multiset(normal.fields) == multiset(item.fields)
    && (forall i, j | 0 <= i < j < |normal.fields| :: collate(normal.fields[i].key, normal.fields[j].key))
    && WithoutUndefined(normal.updatedAt, item.updatedAt)
    && WithoutUndefined(normal.profileWitness, item.profileWitness)
    && WithoutUndefined(normal.aliasAcceptance, item.aliasAcceptance)
    && WithoutUndefined(normal.initialWitness, item.initialWitness)
    && WithoutUndefined(normal.policyWitness, item.policyWitness)
  }

  predicate WithoutUndefined(after: Optional, before: Optional) {
    if before.Given? then after == before else after.Missing?
  }

  lemma NormalizeIsNormal(collate: Collation, item: Item)
    requires TotalPreorder(collate)
    ensures IsNormalOf(collate, Normalize(collate, item), item)
  {
    FieldLePreorder(collate);
    SortBySorted(FieldLe(collate), item.fields);
    var fields := Normalize(collate, item).fields;
    forall i, j | 0 <= i < j < |fields| ensures collate(fields[i].key, fields[j].key) {
      assert FieldLe(collate)(fields[i], fields[j]);
    }
  }

  lemma PrecedesAsListed(collate: Collation, a: Item, b: Item)
    requires ItemLe(collate)(a, b)
    ensures MayPrecede(collate, a, b)
  {
    hide Rank;
    RankedAsListed(a.domain);
    RankedAsListed(b.domain);
    assert Joined(a) == SortKey(a) && Joined(b) == SortKey(b);
  }

  lemma RankedAsListed(d: Domain)
    ensures Rank(d) < |DOMAINS| && DOMAINS[Rank(d)] == d
  {
  }

  lemma PreparedIsParsed(items: seq<Item>, collate: Collation)
    requires Parsed(items)
    ensures Parsed(Prepared(items, collate))
  {
    var normal, prepared := Map(Normalizer(collate), items), Prepared(items, collate);
    MultisetMember(prepared, normal);
    forall item | item in prepared ensures UniqueKeys(item.fields) {
      MapMember(Normalizer(collate), items, item);
      var original :| original in items && Normalizer(collate)(original) == item;
      UniqueKeysAnyOrder(original.fields, item.fields);
    }
  }

  /** A canonical package holds the normal forms of the items, each after everything in it
      that its five properties mention. */
  lemma CanonicalFollowsProperties(items: seq<Item>, collate: Collation)
    requires TotalPreorder(collate) && Canonical(items, collate).Ordered? && Parsed(items)
    ensures var order := Canonical(items, collate).items;
      && (exists normal: seq<Item> :: multiset(order) == multiset(normal) && AreNormal(collate, normal, items))
      && forall i, j | 0 <= i < |order| && 0 <= j < |order| && Mentions(order[j], order[i]) :: i < j
  {
    hide Mentions, Referenced, Normalize, IsNormalOf;
    PreparedIsParsed(items, collate);
    OrderFollowsProperties(Prepared(items, collate));
    var normal := Map(Normalizer(collate), items);
    forall i | 0 <= i < |items| ensures IsNormalOf(collate, normal[i], items[i]) {
      NormalizeIsNormal(collate, items[i]);
    }
    assert AreNormal(collate, normal, items);
  }

  ghost predicate AreNormal(collate: Collation, normal: seq<Item>, items: seq<Item>) {
    |normal| == |items| && forall i | 0 <= i < |items| :: IsNormalOf(collate, normal[i], items[i])
  }

  /** If nothing in it depends on anything in it, it is in the order of domains, tables and
      keys. */
  lemma CanonicalIsListed(items: seq<Item>, collate: Collation)
    requires TotalPreorder(collate) && Canonical(items, collate).Ordered? && Parsed(items)
    requires forall item | item in Prepared(items, collate) :: Independent(Prepared(items, collate), item)
    ensures var order := Canonical(items, collate).items;
      forall i, j | 0 <= i < j < |order| :: MayPrecede(collate, order[i], order[j])
  {
    hide Mentions, Referenced, Rank, MayPrecede;
    var prepared := Prepared(items, collate);
    PreparedIsParsed(items, collate);
    AllKnown(prepared, Referenced);
    forall item | item in prepared ensures Dependencies(IndexOf(prepared, Referenced), item) == [] {
      NothingNeeded(prepared, item);
    }
    VisitIndependent(IndexOf(prepared, Referenced), prepared, {}, []);
    assert [] + prepared == prepared;
    ItemLePreorder(collate);
    SortBySorted(ItemLe(collate), Map(Normalizer(collate), items));
    forall i, j | 0 <= i < j < |prepared| ensures MayPrecede(collate, prepared[i], prepared[j]) {
      PrecedesAsListed(collate, prepared[i], prepared[j]);
    }
  }
}
