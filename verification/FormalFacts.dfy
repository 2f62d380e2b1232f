/** What the derived definition says about the facts it was derived from, field by field
    (packages/shared/src/hr-performance-source-activation.ts,
    deriveHrPerformanceSourceFormalDefinition). */
module FormalFacts {
  import opened FormalDefinition
  import opened Keyed
  import opened Mapping
  import opened NumericText
  import opened Options
  import opened Sorting
  import opened Texts

  // ---------- what a property of a fact says ----------

  /** A text is the property, null being none. */
  predicate SaysText(r: Record, k: Key, t: Option<Text>) {
    k in r.values &&
    match r.values[k]
    case Null => t.None?
    case Str(s) => t == Some(s)
    case Flag(_) => false
  }

  /** The digits of a text, with or without a minus sign, are those of the number. */
  predicate Denotes(s: Text, n: int) {
    if s != [] && s[0] == '-' as nat then s[1..] != [] && AllDigits(s[1..]) && -n == NatOf(s[1..])
    else s != [] && AllDigits(s) && n == NatOf(s)
  }

  predicate SaysOrder(r: Record, k: Key, n: Option<int>) {
    k in r.values &&
    match r.values[k]
    case Null => n.None?
    case Str(s) => n.Some? && Denotes(s, n.value)
    case Flag(_) => false
  }

  predicate SaysSwitch(r: Record, k: Key, b: Option<bool>) {
    k in r.values &&
    match r.values[k]
    case Null => b.None?
    case Flag(on) => b == Some(on)
    case Str(_) => false
  }

  /** The name of the source item that a fact is about. */
  predicate Names(r: Record, name: Text) {
    if ItemId !in r.values then name == Ascii("undefined")
    else
      match r.values[ItemId]
      case Null => name == Ascii("null")
      case Str(s) => name == s
      case Flag(on) => name == if on then Ascii("true") else Ascii("false")
  }

  ghost predicate SameItem(a: Record, b: Record) {
    exists name: Text :: Names(a, name) && Names(b, name)
  }

  /** The fact belongs to the assessment of the profile. */
  predicate OfAssessment(p: Record, r: Record) {
    if Assessment in p.values then AssessmentId in r.values && r.values[AssessmentId] == p.values[Assessment]
    else AssessmentId !in r.values
  }

  // ---------- which facts are taken ----------

  /** Exactly the facts of that kind, as often as they occur, by ascending identity. */
  ghost predicate Lists(records: seq<Record>, some: seq<Record>, kind: Record -> bool) {
    && (forall r :: multiset(some)[r] == if kind(r) then multiset(records)[r] else 0)
    && forall i, j | 0 <= i < j < |some| :: InTurn(some[i], some[j])
  }

  ghost predicate InTurn(a: Record, b: Record) {
    a.identity == b.identity || Before(a.identity, b.identity)
  }

  function ItemFact(p: Record): Record -> bool {
    (r: Record) => r.family.DimensionProfile? && OfAssessment(p, r)
  }

  function GradeFact(p: Record): Record -> bool {
    (r: Record) => r.family.LevelRule? && OfAssessment(p, r)
  }

  ghost function GuideFact(items: seq<Record>): Record -> bool {
    (r: Record) => r.family.DimensionLevelGuide? && exists item | item in items :: SameItem(r, item)
  }

  ghost function GuideFactOf(item: Record): Record -> bool {
    (r: Record) => r.family.DimensionLevelGuide? && SameItem(r, item)
  }

  function ResultFact(): Record -> bool {
    (r: Record) => r.family.DimensionResult?
  }

  // ---------- what the parts of the definition say ----------

  predicate HeadingSays(d: Definition, p: Record) {
    && SaysText(p, AssessmentName, d.displayName) && SaysText(p, Department, d.departmentLabel)
    && SaysText(p, SPercent, d.weights.s) && SaysText(p, MPercent, d.weights.m) && SaysText(p, TPercent, d.weights.t)
    && SaysText(p, XPercent, d.weights.x) && SaysText(p, CPercent, d.weights.c)
    && SaysSwitch(p, Master, d.adjustments.master.sourceSwitch)
    && SaysSwitch(p, Timekeep, d.adjustments.timekeep.sourceSwitch)
    && SaysSwitch(p, Bonus, d.adjustments.bonus.sourceSwitch)
  }

  /** Nothing is configured yet. */
  predicate Unconfigured(d: Definition, w: Workflow) {
    var none := Policy(None, None, [], None, None);
    && d.channels == Channels(none, none, none, none, none)
    && d.adjustments.master.policy == d.adjustments.timekeep.policy == d.adjustments.bonus.policy == none
    && !d.adjustments.master.manualWithEvidence && !d.adjustments.timekeep.manualWithEvidence
    && !d.adjustments.bonus.manualWithEvidence
    && w.selfAppraisal == w.appraisal == w.description == w.salaryReference == MasterPolicy(None, [], None, None)
  }

  predicate ItemSays(item: Item, r: Record) {
    && item.id == Ascii("item:") + r.identity
    && SaysText(r, ItemName, item.name) && SaysText(r, FullValue, item.fullValue)
    && SaysOrder(r, MyOrder, item.order) && SaysText(r, AssessmentId, item.assessmentRef)
  }

  predicate GradeSays(grade: GradeCandidate, r: Record) {
    && grade.id == Ascii("grade:") + r.identity
    && SaysText(r, AssGrade, Some(grade.code)) && SaysText(r, Description, grade.description)
    && SaysText(r, MyOrder, grade.orderText) && SaysText(r, AssessmentId, grade.assessmentRef)
    && SaysText(r, MinValue, grade.minValue) && SaysText(r, MaxValue, grade.maxValue)
  }

  predicate GuideSays(guide: Guide, r: Record) {
    && guide.id == Ascii("guide:") + r.identity
    && SaysText(r, Grade, guide.grade) && SaysText(r, Description, guide.description)
    && SaysText(r, MinValue, guide.minValue) && SaysText(r, MaxValue, guide.maxValue)
    && SaysOrder(r, MyOrder, guide.order)
  }

  /** The guides of an item are those of the facts about the same source item. */
  ghost predicate GuidesSay(records: seq<Record>, item: Item, r: Record) {
    exists own: seq<Record> :: Lists(records, own, GuideFactOf(r)) && EachGuideSays(item.guides, own)
  }

  predicate EachGuideSays(guides: seq<Guide>, own: seq<Record>) {
    |guides| == |own| && forall k | 0 <= k < |own| :: GuideSays(guides[k], own[k])
  }

  predicate EachItemSays(items: seq<Item>, links: seq<ItemLink>, facts: seq<Record>) {
    && |items| == |links| == |facts|
    && forall k | 0 <= k < |facts| :: ItemSays(items[k], facts[k]) && links[k] == ItemLink(facts[k].identity, items[k].id)
  }

  predicate EachGradeSays(grades: seq<GradeCandidate>, links: seq<GradeLink>, facts: seq<Record>) {
    && |grades| == |links| == |facts|
    && forall k | 0 <= k < |facts| :: GradeSays(grades[k], facts[k]) && links[k] == GradeLink(facts[k].identity, grades[k].id)
  }

  /** The formal id of the item that a fact is about. */
  ghost predicate IsTarget(items: seq<Record>, r: Record, id: Text) {
    exists item | item in items :: SameItem(r, item) && id == Ascii("item:") + item.identity
  }

  ghost predicate GuidesLinked(links: seq<GuideLink>, items: seq<Record>, facts: seq<Record>) {
    && |links| == |facts|
    && forall k | 0 <= k < |facts| ::
         && links[k].identity == facts[k].identity && links[k].guideId == Ascii("guide:") + facts[k].identity
         && IsTarget(items, facts[k], links[k].itemId)
  }

  ghost predicate ResultsLinked(links: seq<DetailLink>, details: seq<Detail>, items: seq<Record>, facts: seq<Record>) {
    && |links| == |details| == |facts|
    && forall k | 0 <= k < |facts| ::
         && links[k].identity == facts[k].identity && details[k] == Detail(links[k].detailId, links[k].itemId)
         && details[k].id == Ascii("detail:") + facts[k].identity && IsTarget(items, facts[k], details[k].itemId)
  }

  /** The profile is the first one with the identity. */
  ghost predicate IsProfile(records: seq<Record>, identity: Text, p: Record) {
    exists i | 0 <= i < |records| :: ProfileAt(records, identity, i) && records[i] == p
  }

  ghost predicate ProfileAt(records: seq<Record>, identity: Text, i: nat)
    requires i < |records|
  {
    && records[i].family.TemplateProfile? && records[i].identity == identity
    && forall j | 0 <= j < i :: !(records[j].family.TemplateProfile? && records[j].identity == identity)
  }

  // ---------- proofs ----------

  lemma {:induction false} FilterCounts<T(!new)>(keep: T -> bool, s: seq<T>, x: T)
    ensures multiset(Filter(keep, s))[x] == if keep(x) then multiset(s)[x] else 0
  {
    if s != [] {
      FilterCounts(keep, s[1..], x);
      var rest := Filter(keep, s[1..]);
      assert s == [s[0]] + s[1..];
      assert Filter(keep, s) == if keep(s[0]) then [s[0]] + rest else rest;
    }
  }

  lemma {:induction false} FilterSorted<T(!new)>(keep: T -> bool, s: seq<T>, le: (T, T) -> bool)
    requires SortedBy(le, s)
    ensures SortedBy(le, Filter(keep, s))
  {
    if s != [] {
      FilterSorted(keep, s[1..], le);
      var rest := Filter(keep, s[1..]);
      assert Filter(keep, s) == if keep(s[0]) then [s[0]] + rest else rest;
      forall i | 0 <= i < |rest| ensures le(s[0], rest[i]) {
        assert rest[i] in rest;
        var j :| 0 <= j < |s[1..]| && s[1..][j] == rest[i];
        assert s[j + 1] == rest[i];
      }
    }
  }

  /** Keeping some of the sorted facts lists them. */
  lemma FilterLists(records: seq<Record>, keep: Record -> bool, kind: Record -> bool)
    requires forall r | r in records :: keep(r) == kind(r)
    ensures Lists(records, Filter(keep, SortBy(IdentityLe(), records)), kind)
  {
    var some := Filter(keep, SortBy(IdentityLe(), records));
    ByTextPreorder(IdentityOf);
    SortBySorted(IdentityLe(), records);
    FilterSorted(keep, SortBy(IdentityLe(), records), IdentityLe());
    forall r ensures multiset(some)[r] == if kind(r) then multiset(records)[r] else 0 {
      FilterCounts(keep, SortBy(IdentityLe(), records), r);
      assert r in records <==> multiset(records)[r] > 0;
    }
    SortedInTurn(some);
  }

  lemma SortedInTurn(some: seq<Record>)
    requires SortedBy(IdentityLe(), some)
    ensures forall i, j | 0 <= i < j < |some| :: InTurn(some[i], some[j])
  {
    hide Before;
    forall i, j | 0 <= i < j < |some| ensures InTurn(some[i], some[j]) {
      var le := IdentityLe();
      assert le(some[i], some[j]);
      assert le(some[i], some[j]) == LexLe(IdentityOf(some[i]), IdentityOf(some[j]));
      LexIsBefore(some[i].identity, some[j].identity);
    }
  }

  lemma TextSays(r: Record, k: Key)
    requires ReadsText(Get(r, k))
    ensures SaysText(r, k, TextOf(Get(r, k)))
  {
  }

  lemma OrderSays(r: Record, k: Key)
    requires ReadsOrder(Get(r, k))
    ensures SaysOrder(r, k, OrderOf(Get(r, k)))
  {
  }

  lemma SwitchSays(r: Record, k: Key)
    requires ReadsSwitch(Get(r, k))
    ensures SaysSwitch(r, k, SwitchOf(Get(r, k)))
  {
  }

  lemma NamesSourceItem(r: Record, name: Text)
    ensures Names(r, name) <==> SourceItem(r) == name
  {
  }

  lemma SameItemMeans(a: Record, b: Record)
    ensures SameItem(a, b) <==> SourceItem(a) == SourceItem(b)
  {
    NamesSourceItem(a, SourceItem(a));
    NamesSourceItem(b, SourceItem(a));
    if name: Text :| Names(a, name) && Names(b, name) {
      NamesSourceItem(a, name);
      NamesSourceItem(b, name);
    }
  }

  lemma BelongsMeans(family: Family, p: Record, r: Record)
    ensures Belongs(family, p)(r) <==> r.family == family && OfAssessment(p, r)
  {
  }

  lemma GradeIsSaid(r: Record)
    requires GradeReads(r)
    ensures GradeSays(MakeGrade(r), r)
  {
    hide SaysText, TextOf, Get;
    TextSays(r, Description);
    TextSays(r, MyOrder);
    TextSays(r, AssessmentId);
    TextSays(r, MinValue);
    TextSays(r, MaxValue);
    CodeIsSaid(r);
  }

  lemma CodeIsSaid(r: Record)
    requires TextOf(Get(r, AssGrade)).Some?
    ensures SaysText(r, AssGrade, TextOf(Get(r, AssGrade)))
  {
  }

  lemma GuideIsSaid(r: Record)
    requires GuideReads(r)
    ensures GuideSays(MakeGuide(r), r)
  {
    hide SaysText, SaysOrder, TextOf, OrderOf, Get;
    TextSays(r, Grade);
    TextSays(r, Description);
    TextSays(r, MinValue);
    TextSays(r, MaxValue);
    OrderSays(r, MyOrder);
  }

  lemma ItemIsSaid(r: Record, guides: seq<Record>)
    requires ItemReads(r)
    ensures ItemSays(MakeItem(guides)(r), r)
  {
    hide SaysText, SaysOrder, TextOf, OrderOf, Get;
    TextSays(r, ItemName);
    TextSays(r, FullValue);
    OrderSays(r, MyOrder);
    TextSays(r, AssessmentId);
  }

  lemma HeadingIsSaid(sorted: seq<Record>, p: Record)
    requires ProfileReads(p)
    ensures HeadingSays(MakeDefinition(sorted, p), p)
  {
    hide SaysText, SaysSwitch, TextOf, SwitchOf, Get;
    TextSays(p, AssessmentName);
    TextSays(p, Department);
    TextSays(p, SPercent);
    TextSays(p, MPercent);
    TextSays(p, TPercent);
    TextSays(p, XPercent);
    TextSays(p, CPercent);
    SwitchSays(p, Master);
    SwitchSays(p, Timekeep);
    SwitchSays(p, Bonus);
  }

  lemma {:induction false} FirstProfile(records: seq<Record>, identity: Text)
    requires FindProfile(records, identity).Some?
    ensures IsProfile(records, identity, FindProfile(records, identity).value)
  {
    if records[0].family.TemplateProfile? && records[0].identity == identity {
      assert ProfileAt(records, identity, 0);
    } else {
      FirstProfile(records[1..], identity);
      var i :| 0 <= i < |records[1..]| && ProfileAt(records[1..], identity, i)
        && records[1..][i] == FindProfile(records, identity).value;
      forall j | 0 <= j < i + 1 ensures !(records[j].family.TemplateProfile? && records[j].identity == identity) {
        assert j > 0 ==> records[j] == records[1..][j - 1];
      }
      assert ProfileAt(records, identity, i + 1);
    }
  }

  lemma TargetIsSaid(items: seq<Record>, r: Record)
    requires RefersTo(items)(r)
    ensures IsTarget(items, r, TargetId(items, r))
  {
    TargetIsItem(items, r);
    var item :| item in items && SourceItem(item) == SourceItem(r) && TargetId(items, r) == ItemIdOf(item);
    SameItemMeans(r, item);
  }

  lemma RefersMeans(items: seq<Record>, r: Record)
    ensures RefersTo(items)(r) <==> exists item | item in items :: SameItem(r, item)
  {
    MapMember(SourceItem, items, SourceItem(r));
    forall item | item in items ensures SameItem(r, item) <==> SourceItem(item) == SourceItem(r) {
      SameItemMeans(r, item);
    }
  }

  /** A filter on a filter is a filter on both. */
  lemma {:induction false} FilterTwice<T(!new)>(f: T -> bool, g: T -> bool, both: T -> bool, s: seq<T>)
    requires forall x | x in s :: both(x) == (f(x) && g(x))
    ensures Filter(f, Filter(g, s)) == Filter(both, s)
  {
    if s != [] {
      FilterTwice(f, g, both, s[1..]);
      var rest := Filter(g, s[1..]);
      assert s[0] in s;
      if g(s[0]) {
        assert Filter(g, s) == [s[0]] + rest && ([s[0]] + rest)[1..] == rest;
      } else {
        assert Filter(g, s) == rest;
      }
    }
  }

  lemma GuidesListed(records: seq<Record>, items: seq<Record>)
    ensures Lists(records, Filter(RefersTo(items), Filter(OfFamily(DimensionLevelGuide), SortBy(IdentityLe(), records))),
                  GuideFact(items))
  {
    var sorted := SortBy(IdentityLe(), records);
    var both := (r: Record) => RefersTo(items)(r) && OfFamily(DimensionLevelGuide)(r);
    FilterTwice(RefersTo(items), OfFamily(DimensionLevelGuide), both, sorted);
    forall r ensures both(r) == GuideFact(items)(r) {
      RefersMeans(items, r);
    }
    FilterLists(records, both, GuideFact(items));
  }

  lemma OwnGuidesListed(records: seq<Record>, p: Record, item: Record)
    requires item in ItemsOf(SortBy(IdentityLe(), records), p)
    ensures Lists(records, Filter(SameSourceItem(item), GuidesOf(SortBy(IdentityLe(), records), p)), GuideFactOf(item))
  {
    var sorted := SortBy(IdentityLe(), records);
    var items := ItemsOf(sorted, p);
    var guide := (r: Record) => RefersTo(items)(r) && OfFamily(DimensionLevelGuide)(r);
    var own := (r: Record) => SameSourceItem(item)(r) && guide(r);
    FilterTwice(RefersTo(items), OfFamily(DimensionLevelGuide), guide, sorted);
    FilterTwice(SameSourceItem(item), guide, own, sorted);
    forall r ensures own(r) == GuideFactOf(item)(r) {
      SameItemMeans(r, item);
      RefersMeans(items, r);
    }
    FilterLists(records, own, GuideFactOf(item));
  }

  // ---------- the whole derivation ----------

  lemma ItemsListed(records: seq<Record>, p: Record)
    ensures Lists(records, ItemsOf(SortBy(IdentityLe(), records), p), ItemFact(p))
  {
    hide Lists;
    forall r | r in records ensures Belongs(DimensionProfile, p)(r) == ItemFact(p)(r) {
      BelongsMeans(DimensionProfile, p, r);
    }
    FilterLists(records, Belongs(DimensionProfile, p), ItemFact(p));
  }

  lemma GradesListed(records: seq<Record>, p: Record)
    ensures Lists(records, GradesOf(SortBy(IdentityLe(), records), p), GradeFact(p))
  {
    hide Lists;
    forall r | r in records ensures Belongs(LevelRule, p)(r) == GradeFact(p)(r) {
      BelongsMeans(LevelRule, p, r);
    }
    FilterLists(records, Belongs(LevelRule, p), GradeFact(p));
  }

  lemma ResultsListed(records: seq<Record>)
    ensures Lists(records, DetailsOf(SortBy(IdentityLe(), records)), ResultFact())
  {
    hide Lists;
    FilterLists(records, OfFamily(DimensionResult), ResultFact());
  }

  lemma EachItemIsSaid(items: seq<Record>, guides: seq<Record>)
    requires ItemsRead(items)
    ensures EachItemSays(Map(MakeItem(guides), items), Map(LinkItem, items), items)
  {
    hide ItemSays, ItemReads;
    forall k | 0 <= k < |items| ensures ItemSays(MakeItem(guides)(items[k]), items[k]) {
      assert items[k] in items;
      ItemIsSaid(items[k], guides);
    }
  }

  lemma EachGradeIsSaid(grades: seq<Record>)
    requires GradesRead(grades)
    ensures EachGradeSays(Map(MakeGrade, grades), Map(LinkGrade, grades), grades)
  {
    hide GradeSays, GradeReads;
    forall k | 0 <= k < |grades| ensures GradeSays(MakeGrade(grades[k]), grades[k]) {
      assert grades[k] in grades;
      GradeIsSaid(grades[k]);
    }
  }

  lemma OwnGuidesAreSaid(records: seq<Record>, p: Record, item: Record)
    requires GuidesRead(GuidesOf(SortBy(IdentityLe(), records), p)) && item in ItemsOf(SortBy(IdentityLe(), records), p)
    ensures GuidesSay(records, MakeItem(GuidesOf(SortBy(IdentityLe(), records), p))(item), item)
  {
    hide GuideSays, GuideReads, Lists;
    var guides := GuidesOf(SortBy(IdentityLe(), records), p);
    var own := Filter(SameSourceItem(item), guides);
    OwnGuidesListed(records, p, item);
    forall k | 0 <= k < |own| ensures GuideSays(MakeGuide(own[k]), own[k]) {
      assert own[k] in own && own[k] in guides;
      GuideIsSaid(own[k]);
    }
    assert EachGuideSays(Map(MakeGuide, own), own);
  }

  lemma EachGuideIsLinked(items: seq<Record>, guides: seq<Record>)
    requires forall g | g in guides :: RefersTo(items)(g)
    ensures GuidesLinked(Map(LinkGuide(items), guides), items, guides)
  {
    hide IsTarget;
    forall k | 0 <= k < |guides| ensures IsTarget(items, guides[k], TargetId(items, guides[k])) {
      assert guides[k] in guides;
      TargetIsSaid(items, guides[k]);
    }
  }

  lemma EachResultIsLinked(items: seq<Record>, details: seq<Record>)
    requires DetailsRead(details, items)
    ensures ResultsLinked(Map(LinkDetail(items), details), Map(MakeDetail(items), details), items, details)
  {
    hide IsTarget;
    forall k | 0 <= k < |details| ensures IsTarget(items, details[k], TargetId(items, details[k])) {
      assert details[k] in details;
      TargetIsSaid(items, details[k]);
    }
  }

  lemma PartsAreSaid(records: seq<Record>, p: Record)
    requires Derivable(records, p)
    ensures var d, sorted := Derived(records, p), SortBy(IdentityLe(), records);
      var items := ItemsOf(sorted, p);
      && EachItemSays(d.definition.items, d.links.items, items)
      && (forall k | 0 <= k < |items| :: GuidesSay(records, d.definition.items[k], items[k]))
      && EachGradeSays(d.definition.grades, d.links.grades, GradesOf(sorted, p))
      && GuidesLinked(d.links.guides, items, GuidesOf(sorted, p))
      && ResultsLinked(d.links.details, d.workflow.details, items, DetailsOf(sorted))
  {
    hide EachItemSays, EachGradeSays, GuidesLinked, ResultsLinked, GuidesSay, ItemsRead, GradesRead, DetailsRead, DefinitionOk;
    var sorted := SortBy(IdentityLe(), records);
    var items, guides := ItemsOf(sorted, p), GuidesOf(sorted, p);
    EachItemIsSaid(items, guides);
    forall k | 0 <= k < |items| ensures GuidesSay(records, MakeItem(guides)(items[k]), items[k]) {
      assert items[k] in items;
      OwnGuidesAreSaid(records, p, items[k]);
    }
    EachGradeIsSaid(GradesOf(sorted, p));
    EachGuideIsLinked(items, guides);
    EachResultIsLinked(items, DetailsOf(sorted));
  }

  /** Everything derived says what its fact says, and every fact of the assessment is
      taken: the heading, the weights and the switches are those of the first profile with
      the identity, every item, grade and guide has the texts and the order of its fact,
      and every link leads to the item that the fact is about. */
  lemma DerivedSaysWhatFactsSay(records: seq<Record>, identity: Text)
    returns (p: Record, items: seq<Record>, grades: seq<Record>, guides: seq<Record>, results: seq<Record>)
    requires Outcome(records, identity).Some?
    ensures IsProfile(records, identity, p)
    ensures Lists(records, items, ItemFact(p)) && Lists(records, grades, GradeFact(p))
    ensures Lists(records, guides, GuideFact(items)) && Lists(records, results, ResultFact())
    ensures var d := Outcome(records, identity).value;
      && HeadingSays(d.definition, p) && Unconfigured(d.definition, d.workflow) && d.links.profile == identity
      && EachItemSays(d.definition.items, d.links.items, items)
      && (forall k | 0 <= k < |items| :: GuidesSay(records, d.definition.items[k], items[k]))
      && EachGradeSays(d.definition.grades, d.links.grades, grades)
      && GuidesLinked(d.links.guides, items, guides)
      && ResultsLinked(d.links.details, d.workflow.details, items, results)
  {
    hide EachItemSays, EachGradeSays, GuidesLinked, ResultsLinked, GuidesSay, DefinitionOk, Lists, HeadingSays, IsProfile;
    p := FindProfile(records, identity).value;
    var sorted := SortBy(IdentityLe(), records);
    items, grades, guides, results := ItemsOf(sorted, p), GradesOf(sorted, p), GuidesOf(sorted, p), DetailsOf(sorted);
    FirstProfile(records, identity);
    HeadingIsSaid(sorted, p);
    ItemsListed(records, p);
    GradesListed(records, p);
    GuidesListed(records, items);
    ResultsListed(records);
    PartsAreSaid(records, p);
  }
}
