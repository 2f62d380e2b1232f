/** Deriving a formal performance definition from the facts of the old system, and the
    two validators its output has to pass
    (packages/shared/src/hr-performance-source-activation.ts,
    packages/shared/src/hr-performance-channel-definition.ts,
    packages/shared/src/hr-performance-channel-workflow.ts). */
module FormalDefinition {
  import opened Keyed
  import opened Mapping
  import opened NumericText
  import opened Options
  import opened Sorting
  import opened Texts

  // ---------- source facts ----------

  datatype Family = TemplateProfile | LevelRule | DimensionProfile | DimensionLevelGuide | DimensionResult | MasterResult

  datatype Key =
    | Assessment | AssessmentName | Department
    | SPercent | MPercent | TPercent | XPercent | CPercent
    | Master | Timekeep | Bonus
    | AssessmentId | AssGrade | Description | MyOrder | MinValue | MaxValue
    | ItemId | ItemName | FullValue | Grade

  datatype Cell = Null | Str(text: Text) | Flag(on: bool)

  datatype Record = Record(family: Family, identity: Text, values: map<Key, Cell>)

  /** A property of a fact; None when it is missing. */
  function Get(r: Record, k: Key): Option<Cell> {
    if k in r.values then Some(r.values[k]) else None
  }

  /** Null and strings can be read as strings, anything else fails. */
  predicate ReadsText(c: Option<Cell>) {
    c.Some? && !c.value.Flag?
  }

  function TextOf(c: Option<Cell>): Option<Text> {
    if c.Some? && c.value.Str? then Some(c.value.text) else None
  }

  predicate ReadsOrder(c: Option<Cell>) {
    c.Some? && (c.value.Null? || (c.value.Str? && IsInt32(c.value.text)))
  }

  function OrderOf(c: Option<Cell>): Option<int> {
    if c.Some? && c.value.Str? && IsInt32(c.value.text) then Some(IntOf(c.value.text)) else None
  }

  predicate ReadsSwitch(c: Option<Cell>) {
    c.Some? && !c.value.Str?
  }

  function SwitchOf(c: Option<Cell>): Option<bool> {
    if c.Some? && c.value.Flag? then Some(c.value.on) else None
  }

  /** The text under which a source item is remembered. */
  function Shown(c: Option<Cell>): Text {
    match c
    case None => Ascii("undefined")
    case Some(Null) => Ascii("null")
    case Some(Str(t)) => t
    case Some(Flag(b)) => if b then Ascii("true") else Ascii("false")
  }

  function SourceItem(r: Record): Text {
    Shown(Get(r, ItemId))
  }

  function IdentityOf(r: Record): Text {
    r.identity
  }

  // ---------- the formal definition and its validators ----------

  datatype Stage = SelfReview | ManagerReview | Calibration
  datatype Actor = SelfActor | ManagerActor | CalibratorActor
  datatype Policy = Policy(
    businessName: Option<Text>, stage: Option<Stage>, actors: seq<Actor>,
    required: Option<bool>, allowExplicitNull: Option<bool>)
  datatype Adjustment = Adjustment(policy: Policy, sourceSwitch: Option<bool>, manualWithEvidence: bool)

  datatype Guide = Guide(
    id: Text, grade: Option<Text>, description: Option<Text>, minValue: Option<Text>, maxValue: Option<Text>,
    order: Option<int>)
  datatype Item = Item(
    id: Text, name: Option<Text>, fullValue: Option<Text>, order: Option<int>, assessmentRef: Option<Text>,
    guides: seq<Guide>)
  datatype GradeCandidate = GradeCandidate(
    id: Text, code: Text, description: Option<Text>, orderText: Option<Text>, assessmentRef: Option<Text>,
    minValue: Option<Text>, maxValue: Option<Text>)

  datatype Weights = Weights(s: Option<Text>, m: Option<Text>, t: Option<Text>, x: Option<Text>, c: Option<Text>)
  datatype Channels = Channels(s: Policy, m: Policy, t: Policy, x: Policy, c: Policy)
  datatype Adjustments = Adjustments(master: Adjustment, timekeep: Adjustment, bonus: Adjustment)

  datatype Definition = Definition(
    displayName: Option<Text>, departmentLabel: Option<Text>, weights: Weights, channels: Channels,
    adjustments: Adjustments, items: seq<Item>, grades: seq<GradeCandidate>)

  datatype Detail = Detail(id: Text, itemId: Text)
  datatype MasterPolicy = MasterPolicy(
    stage: Option<Stage>, actors: seq<Actor>, required: Option<bool>, allowExplicitNull: Option<bool>)
  datatype Workflow = Workflow(
    details: seq<Detail>, selfAppraisal: MasterPolicy, appraisal: MasterPolicy, description: MasterPolicy,
    salaryReference: MasterPolicy)

  predicate TextOk(t: Option<Text>, max: nat) {
    t.Some? ==> |t.value| <= max
  }

  predicate IntStringOk(t: Option<Text>) {
    t.Some? ==> IsInt32(t.value)
  }

  predicate DecimalOk(t: Option<Text>) {
    t.Some? ==> IsDecimal(t.value, 2, 16)
  }

  predicate OrderOk(o: Option<int>) {
    o.Some? ==> INT_MIN <= o.value <= INT_MAX
  }

  predicate UniqueActors(actors: seq<Actor>) {
    forall i, j | 0 <= i < j < |actors| :: actors[i] != actors[j]
  }

  predicate PolicyOk(p: Policy) {
    TextOk(p.businessName, 120) && UniqueActors(p.actors)
  }

  predicate IdOk(id: Text) {
    0 < |id| <= 128
  }

  function GuideId(g: Guide): Text { g.id }
  function ItemKey(i: Item): Text { i.id }
  function GradeKey(g: GradeCandidate): Text { g.id }
  function DetailKey(d: Detail): Text { d.id }

  predicate DistinctIds(ids: seq<Text>) {
    forall i, j | 0 <= i < j < |ids| :: ids[i] != ids[j]
  }

  predicate GuideOk(g: Guide) {
    && IdOk(g.id) && TextOk(g.grade, 64) && TextOk(g.description, 500)
    && DecimalOk(g.minValue) && DecimalOk(g.maxValue) && OrderOk(g.order)
  }

  predicate GuidesOk(guides: seq<Guide>) {
    DistinctIds(Map(GuideId, guides)) && forall g | g in guides :: GuideOk(g)
  }

  predicate ItemOk(i: Item) {
    && IdOk(i.id) && TextOk(i.name, 100) && DecimalOk(i.fullValue) && OrderOk(i.order) && IntStringOk(i.assessmentRef)
    && GuidesOk(i.guides)
  }

  predicate GradeOk(g: GradeCandidate) {
    && IdOk(g.id) && |g.code| <= 64 && TextOk(g.description, 500) && TextOk(g.orderText, 2)
    && IntStringOk(g.assessmentRef) && DecimalOk(g.minValue) && DecimalOk(g.maxValue)
  }

  predicate WeightsOk(w: Weights) {
    IntStringOk(w.s) && IntStringOk(w.m) && IntStringOk(w.t) && IntStringOk(w.x) && IntStringOk(w.c)
  }

  predicate ChannelsOk(c: Channels, a: Adjustments) {
    && PolicyOk(c.s) && PolicyOk(c.m) && PolicyOk(c.t) && PolicyOk(c.x) && PolicyOk(c.c)
    && PolicyOk(a.master.policy) && PolicyOk(a.timekeep.policy) && PolicyOk(a.bonus.policy)
  }

  predicate HeadingOk(d: Definition) {
    && TextOk(d.displayName, 120) && TextOk(d.departmentLabel, 30) && WeightsOk(d.weights)
    && ChannelsOk(d.channels, d.adjustments)
  }

  predicate ItemsOk(items: seq<Item>) {
    DistinctIds(Map(ItemKey, items)) && forall i | i in items :: ItemOk(i)
  }

  predicate GradesOk(grades: seq<GradeCandidate>) {
    DistinctIds(Map(GradeKey, grades)) && forall g | g in grades :: GradeOk(g)
  }

  predicate DefinitionOk(d: Definition) {
    HeadingOk(d) && ItemsOk(d.items) && GradesOk(d.grades)
  }

  predicate DetailOk(d: Detail, definition: Definition) {
    IdOk(d.id) && IdOk(d.itemId) && d.itemId in Map(ItemKey, definition.items)
  }

  predicate WorkflowOk(w: Workflow, definition: Definition) {
    && DefinitionOk(definition)
    && DistinctIds(Map(DetailKey, w.details)) && (forall d | d in w.details :: DetailOk(d, definition))
    && UniqueActors(w.selfAppraisal.actors) && UniqueActors(w.appraisal.actors)
    && UniqueActors(w.description.actors) && UniqueActors(w.salaryReference.actors)
  }

  // ---------- what is derived ----------

  datatype ItemLink = ItemLink(identity: Text, itemId: Text)
  datatype GuideLink = GuideLink(identity: Text, itemId: Text, guideId: Text)
  datatype GradeLink = GradeLink(identity: Text, gradeId: Text)
  datatype DetailLink = DetailLink(identity: Text, detailId: Text, itemId: Text)

  datatype Links = Links(
    profile: Text, items: seq<ItemLink>, guides: seq<GuideLink>, grades: seq<GradeLink>, details: seq<DetailLink>)

  datatype Derivation = Derivation(definition: Definition, workflow: Workflow, links: Links)

  const EMPTY_POLICY := Policy(None, None, [], None, None)
  const EMPTY_MASTER := MasterPolicy(None, [], None, None)

  function ItemIdOf(r: Record): Text { Ascii("item:") + r.identity }
  function GradeIdOf(r: Record): Text { Ascii("grade:") + r.identity }
  function GuideIdOf(r: Record): Text { Ascii("guide:") + r.identity }
  function DetailIdOf(r: Record): Text { Ascii("detail:") + r.identity }

  function IdentityLe(): (Record, Record) -> bool {
    ByText(IdentityOf)
  }

  function FindProfile(records: seq<Record>, identity: Text): (p: Option<Record>)
    ensures p.Some? ==> p.value in records && p.value.family.TemplateProfile? && p.value.identity == identity
    ensures p.None? ==> forall r | r in records :: !(r.family.TemplateProfile? && r.identity == identity)
  {
    if records == [] then None
    else if records[0].family.TemplateProfile? && records[0].identity == identity then Some(records[0])
    else FindProfile(records[1..], identity)
  }

  /** Facts of a family that belong to the profile's assessment. */
  function Belongs(family: Family, p: Record): Record -> bool {
    (r: Record) => r.family == family && Get(r, AssessmentId) == Get(p, Assessment)
  }

  function OfFamily(family: Family): Record -> bool {
    (r: Record) => r.family == family
  }

  function ItemsOf(sorted: seq<Record>, p: Record): seq<Record> {
    Filter(Belongs(DimensionProfile, p), sorted)
  }

  function GradesOf(sorted: seq<Record>, p: Record): seq<Record> {
    Filter(Belongs(LevelRule, p), sorted)
  }

  /** Whether a fact refers to one of the items. */
  function RefersTo(items: seq<Record>): Record -> bool {
    (r: Record) => SourceItem(r) in Map(SourceItem, items)
  }

  function GuidesOf(sorted: seq<Record>, p: Record): seq<Record> {
    Filter(RefersTo(ItemsOf(sorted, p)), Filter(OfFamily(DimensionLevelGuide), sorted))
  }

  function DetailsOf(sorted: seq<Record>): seq<Record> {
    Filter(OfFamily(DimensionResult), sorted)
  }

  /** The formal id of the item a fact refers to. */
  function TargetId(items: seq<Record>, r: Record): Text {
    if items == [] then []
    else if SourceItem(items[0]) == SourceItem(r) then ItemIdOf(items[0])
    else TargetId(items[1..], r)
  }

  function MakeGuide(r: Record): Guide {
    Guide(GuideIdOf(r), TextOf(Get(r, Grade)), TextOf(Get(r, Description)), TextOf(Get(r, MinValue)),
          TextOf(Get(r, MaxValue)), OrderOf(Get(r, MyOrder)))
  }

  function SameSourceItem(item: Record): Record -> bool {
    (r: Record) => SourceItem(r) == SourceItem(item)
  }

  function BareItem(r: Record, guides: seq<Guide>): Item {
    Item(ItemIdOf(r), TextOf(Get(r, ItemName)), TextOf(Get(r, FullValue)), OrderOf(Get(r, MyOrder)),
         TextOf(Get(r, AssessmentId)), guides)
  }

  function MakeItem(guides: seq<Record>): Record -> Item {
    (r: Record) => BareItem(r, Map(MakeGuide, Filter(SameSourceItem(r), guides)))
  }

  function MakeGrade(r: Record): GradeCandidate {
    GradeCandidate(
      GradeIdOf(r), if TextOf(Get(r, AssGrade)).Some? then TextOf(Get(r, AssGrade)).value else [],
      TextOf(Get(r, Description)), TextOf(Get(r, MyOrder)), TextOf(Get(r, AssessmentId)),
      TextOf(Get(r, MinValue)), TextOf(Get(r, MaxValue)))
  }

  function MakeDetail(items: seq<Record>): Record -> Detail {
    (r: Record) => Detail(DetailIdOf(r), TargetId(items, r))
  }

  function LinkItem(r: Record): ItemLink { ItemLink(r.identity, ItemIdOf(r)) }
  function LinkGrade(r: Record): GradeLink { GradeLink(r.identity, GradeIdOf(r)) }
  function LinkGuide(items: seq<Record>): Record -> GuideLink {
    (r: Record) => GuideLink(r.identity, TargetId(items, r), GuideIdOf(r))
  }
  function LinkDetail(items: seq<Record>): Record -> DetailLink {
    (r: Record) => DetailLink(r.identity, DetailIdOf(r), TargetId(items, r))
  }

  function MakeWeights(p: Record): Weights {
    Weights(TextOf(Get(p, SPercent)), TextOf(Get(p, MPercent)), TextOf(Get(p, TPercent)),
            TextOf(Get(p, XPercent)), TextOf(Get(p, CPercent)))
  }

  function MakeAdjustments(p: Record): Adjustments {
    Adjustments(Adjustment(EMPTY_POLICY, SwitchOf(Get(p, Master)), false),
                Adjustment(EMPTY_POLICY, SwitchOf(Get(p, Timekeep)), false),
                Adjustment(EMPTY_POLICY, SwitchOf(Get(p, Bonus)), false))
  }

  function MakeDefinition(sorted: seq<Record>, p: Record): Definition {
    Definition(
      TextOf(Get(p, AssessmentName)), TextOf(Get(p, Department)), MakeWeights(p),
      Channels(EMPTY_POLICY, EMPTY_POLICY, EMPTY_POLICY, EMPTY_POLICY, EMPTY_POLICY), MakeAdjustments(p),
      Map(MakeItem(GuidesOf(sorted, p)), ItemsOf(sorted, p)), Map(MakeGrade, GradesOf(sorted, p)))
  }

  function MakeWorkflow(sorted: seq<Record>, p: Record): Workflow {
    Workflow(Map(MakeDetail(ItemsOf(sorted, p)), DetailsOf(sorted)), EMPTY_MASTER, EMPTY_MASTER, EMPTY_MASTER, EMPTY_MASTER)
  }

  function MakeLinks(sorted: seq<Record>, p: Record): Links {
    var items := ItemsOf(sorted, p);
    Links(p.identity, Map(LinkItem, items), Map(LinkGuide(items), GuidesOf(sorted, p)),
          Map(LinkGrade, GradesOf(sorted, p)), Map(LinkDetail(items), DetailsOf(sorted)))
  }

  predicate ProfileReads(p: Record) {
    && ReadsText(Get(p, AssessmentName)) && ReadsText(Get(p, Department))
    && ReadsText(Get(p, SPercent)) && ReadsText(Get(p, MPercent)) && ReadsText(Get(p, TPercent))
    && ReadsText(Get(p, XPercent)) && ReadsText(Get(p, CPercent))
    && ReadsSwitch(Get(p, Master)) && ReadsSwitch(Get(p, Timekeep)) && ReadsSwitch(Get(p, Bonus))
  }

  predicate ItemReads(r: Record) {
    && ReadsText(Get(r, ItemName)) && ReadsText(Get(r, FullValue)) && ReadsOrder(Get(r, MyOrder))
    && ReadsText(Get(r, AssessmentId))
  }

  predicate GradeReads(r: Record) {
    && TextOf(Get(r, AssGrade)).Some? && ReadsText(Get(r, Description)) && ReadsText(Get(r, MyOrder))
    && ReadsText(Get(r, AssessmentId)) && ReadsText(Get(r, MinValue)) && ReadsText(Get(r, MaxValue))
  }

  predicate GuideReads(r: Record) {
    && ReadsText(Get(r, Grade)) && ReadsText(Get(r, Description)) && ReadsText(Get(r, MinValue))
    && ReadsText(Get(r, MaxValue)) && ReadsOrder(Get(r, MyOrder))
  }

  ghost predicate ItemsRead(items: seq<Record>) {
    forall r | r in items :: ItemReads(r)
  }

  ghost predicate GradesRead(grades: seq<Record>) {
    forall r | r in grades :: GradeReads(r)
  }

  ghost predicate GuidesRead(guides: seq<Record>) {
    forall r | r in guides :: GuideReads(r)
  }

  ghost predicate DetailsRead(details: seq<Record>, items: seq<Record>) {
    forall r | r in details :: RefersTo(items)(r)
  }

  ghost predicate Succeeds(sorted: seq<Record>, p: Record) {
    var items := ItemsOf(sorted, p);
    && ProfileReads(p) && ItemsRead(items) && DistinctOn(SourceItem, items)
    && GradesRead(GradesOf(sorted, p)) && GuidesRead(GuidesOf(sorted, p)) && DetailsRead(DetailsOf(sorted), items)
    && DefinitionOk(MakeDefinition(sorted, p))
  }

  function Derived(records: seq<Record>, p: Record): Derivation {
    var sorted := SortBy(IdentityLe(), records);
    Derivation(MakeDefinition(sorted, p), MakeWorkflow(sorted, p), MakeLinks(sorted, p))
  }

  ghost predicate Derivable(records: seq<Record>, p: Record) {
    Succeeds(SortBy(IdentityLe(), records), p)
  }

  /** The derivation as a whole: None stands for the error. */
  ghost function Outcome(records: seq<Record>, identity: Text): Option<Derivation> {
    var p := FindProfile(records, identity);
    if p.Some? && Derivable(records, p.value) then Some(Derived(records, p.value)) else None
  }

  // ---------- when it succeeds ----------

  predicate IntegerCell(c: Option<Cell>) {
    c.Some? && (c.value.Null? || (c.value.Str? && IsInt32(c.value.text)))
  }

  predicate TextCell(c: Option<Cell>, max: nat) {
    c.Some? && (c.value.Null? || (c.value.Str? && |c.value.text| <= max))
  }

  predicate NumericCell(c: Option<Cell>) {
    c.Some? && (c.value.Null? || (c.value.Str? && IsDecimal(c.value.text, 2, 16)))
  }

  predicate SwitchCell(c: Option<Cell>) {
    c.Some? && !c.value.Str?
  }

  /** A fact whose fields have the types of the source columns. */
  predicate WellTyped(r: Record) {
    && |r.identity| == 64
    && match r.family
       case TemplateProfile =>
         && IntegerCell(Get(r, Assessment)) && TextCell(Get(r, AssessmentName), 50) && TextCell(Get(r, Department), 30)
         && IntegerCell(Get(r, SPercent)) && IntegerCell(Get(r, MPercent)) && IntegerCell(Get(r, TPercent))
         && IntegerCell(Get(r, XPercent)) && IntegerCell(Get(r, CPercent))
         && SwitchCell(Get(r, Master)) && SwitchCell(Get(r, Timekeep)) && SwitchCell(Get(r, Bonus))
       case LevelRule =>
         && TextCell(Get(r, AssGrade), 12) && TextCell(Get(r, Description), 500) && TextCell(Get(r, MyOrder), 2)
         && IntegerCell(Get(r, AssessmentId)) && IntegerCell(Get(r, MinValue)) && IntegerCell(Get(r, MaxValue))
       case DimensionProfile =>
         && IntegerCell(Get(r, ItemId)) && IntegerCell(Get(r, AssessmentId)) && TextCell(Get(r, ItemName), 100)
         && NumericCell(Get(r, FullValue)) && IntegerCell(Get(r, MyOrder))
       case DimensionLevelGuide =>
         && IntegerCell(Get(r, ItemId)) && TextCell(Get(r, Grade), 12) && TextCell(Get(r, Description), 500)
         && IntegerCell(Get(r, MinValue)) && IntegerCell(Get(r, MaxValue)) && IntegerCell(Get(r, MyOrder))
       case DimensionResult => IntegerCell(Get(r, ItemId))
       case MasterResult => true
  }

  ghost predicate AllWellTyped(records: seq<Record>) {
    forall r | r in records :: WellTyped(r)
  }

  lemma IntegerDecimal(c: Option<Cell>)
    requires IntegerCell(c)
    ensures DecimalOk(TextOf(c)) && IntStringOk(TextOf(c)) && OrderOk(OrderOf(c)) && ReadsText(c) && ReadsOrder(c)
  {
    if c.value.Str? {
      IntegerIsDecimal(c.value.text, 2, 16);
    }
  }

  lemma TypedGuide(r: Record)
    requires WellTyped(r) && r.family.DimensionLevelGuide?
    ensures GuideReads(r) && GuideOk(MakeGuide(r))
  {
    IntegerDecimal(Get(r, MinValue));
    IntegerDecimal(Get(r, MaxValue));
    IntegerDecimal(Get(r, MyOrder));
  }

  lemma TypedGrade(r: Record)
    requires WellTyped(r) && r.family.LevelRule?
    ensures GradeReads(r) <==> Get(r, AssGrade) != Some(Null)
    ensures GradeReads(r) ==> GradeOk(MakeGrade(r))
  {
    IntegerDecimal(Get(r, MinValue));
    IntegerDecimal(Get(r, MaxValue));
    IntegerDecimal(Get(r, AssessmentId));
  }

  lemma TypedItem(r: Record, guides: seq<Record>)
    requires WellTyped(r) && r.family.DimensionProfile?
    requires forall g | g in guides :: WellTyped(g) && g.family.DimensionLevelGuide?
    ensures ItemReads(r)
    ensures ItemOk(MakeItem(guides)(r)) <==> DistinctOn(IdentityOf, Filter(SameSourceItem(r), guides))
  {
    var own := Filter(SameSourceItem(r), guides);
    GuideIdsDistinct(own);
    TypedGuideList(own);
    TypedItemFields(r, Map(MakeGuide, own));
  }

  lemma TypedItemFields(r: Record, guides: seq<Guide>)
    requires WellTyped(r) && r.family.DimensionProfile?
    ensures ItemReads(r) && (ItemOk(BareItem(r, guides)) <==> GuidesOk(guides))
  {
    IntegerDecimal(Get(r, AssessmentId));
    IntegerDecimal(Get(r, MyOrder));
  }

  lemma TypedGuideList(guides: seq<Record>)
    requires forall g | g in guides :: WellTyped(g) && g.family.DimensionLevelGuide?
    ensures forall g | g in Map(MakeGuide, guides) :: GuideOk(g)
  {
    forall g | g in Map(MakeGuide, guides) ensures GuideOk(g) {
      MapMember(MakeGuide, guides, g);
      var source :| source in guides && MakeGuide(source) == g;
      TypedGuide(source);
    }
  }

  /** Ids made by putting a word before the identities are distinct exactly when the
      identities are. */
  lemma PrefixedDistinct(ids: seq<Text>, word: Text, records: seq<Record>)
    requires |ids| == |records| && forall i | 0 <= i < |ids| :: ids[i] == word + records[i].identity
    ensures DistinctIds(ids) <==> DistinctOn(IdentityOf, records)
  {
    forall i, j | 0 <= i < j < |ids| ensures ids[i] != ids[j] <==> Differ(IdentityOf)(records[i], records[j]) {
      assert IdentityOf(records[i]) == ids[i][|word|..] && IdentityOf(records[j]) == ids[j][|word|..];
    }
  }

  lemma GuideIdsDistinct(guides: seq<Record>)
    ensures DistinctIds(Map(GuideId, Map(MakeGuide, guides))) <==> DistinctOn(IdentityOf, guides)
  {
    PrefixedDistinct(Map(GuideId, Map(MakeGuide, guides)), Ascii("guide:"), guides);
  }

  lemma ItemIdsDistinct(items: seq<Record>, guides: seq<Record>)
    ensures DistinctIds(Map(ItemKey, Map(MakeItem(guides), items))) <==> DistinctOn(IdentityOf, items)
  {
    PrefixedDistinct(Map(ItemKey, Map(MakeItem(guides), items)), Ascii("item:"), items);
  }

  lemma GradeIdsDistinct(grades: seq<Record>)
    ensures DistinctIds(Map(GradeKey, Map(MakeGrade, grades))) <==> DistinctOn(IdentityOf, grades)
  {
    PrefixedDistinct(Map(GradeKey, Map(MakeGrade, grades)), Ascii("grade:"), grades);
  }

  lemma DetailIdsDistinct(items: seq<Record>, details: seq<Record>)
    ensures DistinctIds(Map(DetailKey, Map(MakeDetail(items), details))) <==> DistinctOn(IdentityOf, details)
  {
    PrefixedDistinct(Map(DetailKey, Map(MakeDetail(items), details)), Ascii("detail:"), details);
  }

  /** What well-typed facts still have to satisfy. */
  ghost predicate Consistent(sorted: seq<Record>, p: Record) {
    var items, grades := ItemsOf(sorted, p), GradesOf(sorted, p);
    && DistinctOn(SourceItem, items) && DistinctOn(IdentityOf, items) && DistinctOn(IdentityOf, grades)
    && GuidesUnique(sorted, p) && CodesGiven(sorted, p) && ResultsResolve(sorted, p)
  }

  ghost predicate GuidesUnique(sorted: seq<Record>, p: Record) {
    forall r | r in ItemsOf(sorted, p) :: DistinctOn(IdentityOf, Filter(SameSourceItem(r), GuidesOf(sorted, p)))
  }

  ghost predicate CodesGiven(sorted: seq<Record>, p: Record) {
    forall r | r in GradesOf(sorted, p) :: Get(r, AssGrade) != Some(Null)
  }

  ghost predicate ResultsResolve(sorted: seq<Record>, p: Record) {
    forall r | r in DetailsOf(sorted) :: exists i | i in ItemsOf(sorted, p) :: SourceItem(i) == SourceItem(r)
  }

  lemma TypedProfile(p: Record)
    requires WellTyped(p) && p.family.TemplateProfile?
    ensures ProfileReads(p) && WeightsOk(MakeWeights(p))
    ensures TextOk(TextOf(Get(p, AssessmentName)), 120) && TextOk(TextOf(Get(p, Department)), 30)
  {
  }

  lemma TypedItems(sorted: seq<Record>, p: Record)
    requires AllWellTyped(sorted)
    ensures ItemsRead(ItemsOf(sorted, p))
    ensures ItemsOk(Map(MakeItem(GuidesOf(sorted, p)), ItemsOf(sorted, p))) <==>
      DistinctOn(IdentityOf, ItemsOf(sorted, p)) && GuidesUnique(sorted, p)
  {
    ItemIdsDistinct(ItemsOf(sorted, p), GuidesOf(sorted, p));
    var items, guides := ItemsOf(sorted, p), GuidesOf(sorted, p);
    forall r | r in items
      ensures ItemReads(r) && (ItemOk(MakeItem(guides)(r)) <==> DistinctOn(IdentityOf, Filter(SameSourceItem(r), guides)))
    {
      TypedItem(r, guides);
    }
    MapAll(MakeItem(guides), ItemOk, items);
  }

  lemma TypedGrades(sorted: seq<Record>, p: Record)
    requires AllWellTyped(sorted)
    ensures GradesRead(GradesOf(sorted, p)) <==> CodesGiven(sorted, p)
    ensures GradesRead(GradesOf(sorted, p)) ==>
      (GradesOk(Map(MakeGrade, GradesOf(sorted, p))) <==> DistinctOn(IdentityOf, GradesOf(sorted, p)))
  {
    GradeIdsDistinct(GradesOf(sorted, p));
    var grades := GradesOf(sorted, p);
    forall r | r in grades
      ensures (GradeReads(r) <==> Get(r, AssGrade) != Some(Null)) && (GradeReads(r) ==> GradeOk(MakeGrade(r)))
    {
      TypedGrade(r);
    }
    MapAll(MakeGrade, GradeOk, grades);
  }

  lemma DetailsRefer(sorted: seq<Record>, p: Record)
    ensures DetailsRead(DetailsOf(sorted), ItemsOf(sorted, p)) <==> ResultsResolve(sorted, p)
  {
    forall r | r in DetailsOf(sorted)
      ensures RefersTo(ItemsOf(sorted, p))(r) <==> exists i | i in ItemsOf(sorted, p) :: SourceItem(i) == SourceItem(r)
    {
      MapMember(SourceItem, ItemsOf(sorted, p), SourceItem(r));
    }
  }

  /** From well-typed facts the derivation fails only for facts that contradict each
      other: a source item twice, an identity twice where ids are made from it, a
      grade without code, or a result whose item is not there. Nothing that passed
      the checks of the source fields fails a check of the formal definition. */
  lemma SucceedsExactly(records: seq<Record>, p: Record)
    requires AllWellTyped(records) && p in records && p.family.TemplateProfile?
    ensures Derivable(records, p) <==> Consistent(SortBy(IdentityLe(), records), p)
  {
    var sorted := SortBy(IdentityLe(), records);
    MultisetMember(sorted, records);
    TypedProfile(p);
    TypedSucceeds(sorted, p);
  }

  lemma TypedSucceeds(sorted: seq<Record>, p: Record)
    requires AllWellTyped(sorted) && WellTyped(p) && p.family.TemplateProfile?
    ensures Succeeds(sorted, p) <==> Consistent(sorted, p)
  {
    TypedProfile(p);
    TypedItems(sorted, p);
    TypedGrades(sorted, p);
    TypedGuides(sorted, p);
    DetailsRefer(sorted, p);
    if GradesRead(GradesOf(sorted, p)) {
      TypedDefinition(sorted, p);
    }
  }

  lemma TypedDefinition(sorted: seq<Record>, p: Record)
    requires AllWellTyped(sorted) && WellTyped(p) && p.family.TemplateProfile?
    requires GradesRead(GradesOf(sorted, p))
    ensures DefinitionOk(MakeDefinition(sorted, p)) <==>
      && DistinctOn(IdentityOf, ItemsOf(sorted, p)) && DistinctOn(IdentityOf, GradesOf(sorted, p))
      && GuidesUnique(sorted, p)
  {
    TypedHeading(sorted, p);
    TypedItems(sorted, p);
    TypedGrades(sorted, p);
  }

  lemma TypedHeading(sorted: seq<Record>, p: Record)
    requires WellTyped(p) && p.family.TemplateProfile?
    ensures HeadingOk(MakeDefinition(sorted, p))
  {
    TypedProfile(p);
  }

  lemma TypedGuides(sorted: seq<Record>, p: Record)
    requires AllWellTyped(sorted)
    ensures GuidesRead(GuidesOf(sorted, p))
  {
    forall r | r in GuidesOf(sorted, p) ensures GuideReads(r) {
      TypedGuide(r);
    }
  }

  // ---------- both validators ----------

  /** A fact that refers to an item gets the formal id of an item with its source id. */
  lemma {:induction false} TargetIsItem(items: seq<Record>, r: Record)
    requires RefersTo(items)(r)
    ensures exists item | item in items :: SourceItem(item) == SourceItem(r) && TargetId(items, r) == ItemIdOf(item)
  {
    MapMember(SourceItem, items, SourceItem(r));
    if SourceItem(items[0]) != SourceItem(r) {
      var item :| item in items && SourceItem(item) == SourceItem(r);
      assert items == [items[0]] + items[1..];
      MapMember(SourceItem, items[1..], SourceItem(r));
      TargetIsItem(items[1..], r);
    }
  }

  lemma DerivedItemIds(sorted: seq<Record>, p: Record)
    ensures Map(ItemKey, MakeDefinition(sorted, p).items) == Map(ItemIdOf, ItemsOf(sorted, p))
  {
    MapAfter(ItemKey, MakeItem(GuidesOf(sorted, p)), ItemIdOf, ItemsOf(sorted, p));
  }

  /** The derived definition passes its validator, and the derived workflow passes the
      other one exactly when no two results share an identity, which the derivation
      itself does not look at. */
  lemma DerivedPassesBoth(records: seq<Record>, p: Record)
    requires AllWellTyped(records) && Derivable(records, p)
    ensures var d := Derived(records, p);
      && DefinitionOk(d.definition)
      && (WorkflowOk(d.workflow, d.definition) <==> DistinctOn(IdentityOf, DetailsOf(SortBy(IdentityLe(), records))))
  {
    var sorted := SortBy(IdentityLe(), records);
    MultisetMember(sorted, records);
    var items, details, definition := ItemsOf(sorted, p), DetailsOf(sorted), MakeDefinition(sorted, p);
    DetailIdsDistinct(items, details);
    DerivedItemIds(sorted, p);
    forall r | r in details ensures DetailOk(MakeDetail(items)(r), definition) {
      TargetIsItem(items, r);
      var item :| item in items && TargetId(items, r) == ItemIdOf(item);
      MapMember(ItemIdOf, items, ItemIdOf(item));
    }
    forall d | d in Map(MakeDetail(items), details) ensures DetailOk(d, definition) {
      MapMember(MakeDetail(items), details, d);
    }
  }

  // ---------- the links ----------

  function ItemLinkIdentity(l: ItemLink): Text { l.identity }
  function ItemLinkId(l: ItemLink): Text { l.itemId }
  function GradeLinkIdentity(l: GradeLink): Text { l.identity }
  function GradeLinkId(l: GradeLink): Text { l.gradeId }
  function DetailLinkIdentity(l: DetailLink): Text { l.identity }
  function DetailLinkEnds(l: DetailLink): Detail { Detail(l.detailId, l.itemId) }
  function GuideLinkId(l: GuideLink): Text { l.guideId }
  function OfItem(itemId: Text): GuideLink -> bool {
    (l: GuideLink) => l.itemId == itemId
  }

  lemma {:induction false} FilterMap<A(!new), B(!new)>(f: A -> B, keep: B -> bool, keepSource: A -> bool, s: seq<A>)
    requires forall x | x in s :: keep(f(x)) == keepSource(x)
    ensures Filter(keep, Map(f, s)) == Map(f, Filter(keepSource, s))
  {
    if s != [] {
      assert s == [s[0]] + s[1..];
      FilterMap(f, keep, keepSource, s[1..]);
      assert Map(f, s) == [f(s[0])] + Map(f, s[1..]);
    }
  }

  lemma SameTarget(items: seq<Record>, r: Record, item: Record)
    requires DistinctOn(SourceItem, items) && DistinctOn(IdentityOf, items)
    requires RefersTo(items)(r) && item in items
    ensures TargetId(items, r) == ItemIdOf(item) <==> SourceItem(r) == SourceItem(item)
  {
    TargetIsItem(items, r);
    var target :| target in items && SourceItem(target) == SourceItem(r) && TargetId(items, r) == ItemIdOf(target);
    if TargetId(items, r) == ItemIdOf(item) {
      assert item.identity == ItemIdOf(item)[|Ascii("item:")|..] == target.identity;
      SameKey(IdentityOf, items, item, target);
    }
    if SourceItem(r) == SourceItem(item) {
      SameKey(SourceItem, items, item, target);
    }
  }

  /** Item links list the selected item facts in order, each with its own formal id. */
  lemma ItemLinksAreOneToOne(records: seq<Record>, p: Record)
    requires Derivable(records, p)
    ensures var d := Derived(records, p);
      && Map(ItemLinkIdentity, d.links.items) == Map(IdentityOf, ItemsOf(SortBy(IdentityLe(), records), p))
      && Map(ItemLinkId, d.links.items) == Map(ItemKey, d.definition.items)
      && DistinctIds(Map(ItemKey, d.definition.items))
  {
    var items := ItemsOf(SortBy(IdentityLe(), records), p);
    DerivedItemIds(SortBy(IdentityLe(), records), p);
    MapAfter(ItemLinkIdentity, LinkItem, IdentityOf, items);
    MapAfter(ItemLinkId, LinkItem, ItemIdOf, items);
  }

  /** So do grade links. */
  lemma GradeLinksAreOneToOne(records: seq<Record>, p: Record)
    requires Derivable(records, p)
    ensures var d := Derived(records, p);
      && Map(GradeLinkIdentity, d.links.grades) == Map(IdentityOf, GradesOf(SortBy(IdentityLe(), records), p))
      && Map(GradeLinkId, d.links.grades) == Map(GradeKey, d.definition.grades)
      && DistinctIds(Map(GradeKey, d.definition.grades))
  {
    var grades := GradesOf(SortBy(IdentityLe(), records), p);
    MapAfter(GradeLinkIdentity, LinkGrade, IdentityOf, grades);
    MapAfter(GradeLinkId, LinkGrade, GradeIdOf, grades);
    MapAfter(GradeKey, MakeGrade, GradeIdOf, grades);
  }

  /** And result links, with the details of the workflow. */
  lemma DetailLinksAreOneToOne(records: seq<Record>, p: Record)
    requires Derivable(records, p)
    ensures var d := Derived(records, p);
      && Map(DetailLinkIdentity, d.links.details) == Map(IdentityOf, DetailsOf(SortBy(IdentityLe(), records)))
      && Map(DetailLinkEnds, d.links.details) == d.workflow.details
  {
    var sorted := SortBy(IdentityLe(), records);
    var items, details := ItemsOf(sorted, p), DetailsOf(sorted);
    MapAfter(DetailLinkIdentity, LinkDetail(items), IdentityOf, details);
    MapAfter(DetailLinkEnds, LinkDetail(items), MakeDetail(items), details);
  }

  /** The guides of every formal item are exactly the facts linked to it, and no guide
      is linked to anything else. */
  lemma GuidesFollowLinks(records: seq<Record>, p: Record)
    requires Derivable(records, p)
    ensures var d := Derived(records, p);
      && (forall i | i in d.definition.items :: Map(GuideId, i.guides) == Map(GuideLinkId, Filter(OfItem(i.id), d.links.guides)))
      && (forall l | l in d.links.guides :: l.itemId in Map(ItemKey, d.definition.items))
  {
    var sorted := SortBy(IdentityLe(), records);
    var items, guides := ItemsOf(sorted, p), GuidesOf(sorted, p);
    DerivedItemIds(sorted, p);
    ItemIdsDistinct(items, guides);
    var derived := Map(MakeItem(guides), items);
    assert MakeDefinition(sorted, p).items == derived;
    forall i | i in derived
      ensures Map(GuideId, i.guides) == Map(GuideLinkId, Filter(OfItem(i.id), MakeLinks(sorted, p).guides))
    {
      MapMember(MakeItem(guides), items, i);
      var item :| item in items && MakeItem(guides)(item) == i;
      GuidesLinked(items, guides, item);
    }
    forall l | l in Map(LinkGuide(items), guides) ensures l.itemId in Map(ItemIdOf, items) {
      MapMember(LinkGuide(items), guides, l);
      var g :| g in guides && LinkGuide(items)(g) == l;
      TargetIsItem(items, g);
      var item :| item in items && TargetId(items, g) == ItemIdOf(item);
      MapMember(ItemIdOf, items, ItemIdOf(item));
    }
  }

  lemma GuidesLinked(items: seq<Record>, guides: seq<Record>, item: Record)
    requires DistinctOn(SourceItem, items) && DistinctOn(IdentityOf, items) && item in items
    requires forall g | g in guides :: RefersTo(items)(g)
    ensures Map(GuideId, MakeItem(guides)(item).guides)
         == Map(GuideLinkId, Filter(OfItem(ItemIdOf(item)), Map(LinkGuide(items), guides)))
  {
    forall g | g in guides ensures OfItem(ItemIdOf(item))(LinkGuide(items)(g)) == SameSourceItem(item)(g) {
      SameTarget(items, g, item);
    }
    FilterMap(LinkGuide(items), OfItem(ItemIdOf(item)), SameSourceItem(item), guides);
    var own := Filter(SameSourceItem(item), guides);
    MapAfter(GuideLinkId, LinkGuide(items), GuideIdOf, own);
    MapAfter(GuideId, MakeGuide, GuideIdOf, own);
  }

  // ---------- independence of order ----------

  /** With distinct identities, the order of the facts in the snapshot is immaterial,
      for the outcome and for the error alike. */
  lemma DerivationIgnoresOrder(records: seq<Record>, others: seq<Record>, identity: Text)
    requires multiset(records) == multiset(others) && DistinctOn(IdentityOf, records)
    ensures Outcome(records, identity) == Outcome(others, identity)
  {
    MultisetMember(records, others);
    SortByTextUnique(IdentityOf, records, others);
    var p, q := FindProfile(records, identity), FindProfile(others, identity);
    if p.Some? && q.Some? {
      SameKey(IdentityOf, records, p.value, q.value);
    }
  }

  // ---------- the derivation as the program runs it ----------

  lemma PlaceOfId(items: seq<Item>, id: Text) returns (place: nat)
    requires id in Map(ItemKey, items)
    ensures place < |items| && items[place].id == id
  {
    place :| place < |items| && Map(ItemKey, items)[place] == id;
    assert ItemKey(items[place]) == id;
  }

  method FindItem(items: seq<Item>, id: Text) returns (j: nat)
    requires id in Map(ItemKey, items)
    ensures j < |items| && items[j].id == id
  {
    ghost var place := PlaceOfId(items, id);
    j := 0;
    while items[j].id != id
      invariant j <= place
      decreases place - j
    {
      j := j + 1;
    }
  }

  ghost predicate Remembers(bySource: map<Text, Text>, items: seq<Record>) {
    forall r {:trigger Recalls(bySource, items, r)} :: Recalls(bySource, items, r)
  }

  /** Looking a fact's source item up finds the formal id of its item, if there is one. */
  ghost predicate Recalls(bySource: map<Text, Text>, items: seq<Record>, r: Record) {
    && (SourceItem(r) in bySource <==> RefersTo(items)(r))
    && (SourceItem(r) in bySource ==> bySource[SourceItem(r)] == TargetId(items, r))
  }

  lemma RemembersOne(bySource: map<Text, Text>, items: seq<Record>, item: Record)
    requires Remembers(bySource, items) && SourceItem(item) !in bySource
    ensures Remembers(bySource[SourceItem(item) := ItemIdOf(item)], items + [item])
  {
    MapAppend(SourceItem, items, item);
    assert Recalls(bySource, items, item);
    var more, longer := bySource[SourceItem(item) := ItemIdOf(item)], items + [item];
    forall r ensures Recalls(more, longer, r) {
      assert Recalls(bySource, items, r);
      TargetAppend(items, item, r);
    }
  }

  lemma {:induction false} TargetAppend(items: seq<Record>, item: Record, r: Record)
    requires SourceItem(item) !in Map(SourceItem, items)
    ensures TargetId(items + [item], r) == if SourceItem(r) == SourceItem(item) then ItemIdOf(item) else TargetId(items, r)
  {
    if items == [] {
      assert [] + [item] == [item];
    } else {
      assert Map(SourceItem, items)[0] == SourceItem(items[0]);
      assert Map(SourceItem, items) == [SourceItem(items[0])] + Map(SourceItem, items[1..]);
      TargetAppend(items[1..], item, r);
      assert (items + [item])[1..] == items[1..] + [item];
    }
  }

  lemma SourceKeyTaken(items: seq<Record>, item: Record)
    ensures DistinctOn(SourceItem, items + [item]) <==> DistinctOn(SourceItem, items) && SourceItem(item) !in Map(SourceItem, items)
  {
    PairwiseAppend(Differ(SourceItem), items, item);
    MapMember(SourceItem, items, SourceItem(item));
  }

  method ReadItems(items: seq<Record>)
    returns (ok: bool, bySource: map<Text, Text>, links: seq<ItemLink>, made: seq<Item>)
    ensures ok <==> ItemsRead(items) && DistinctOn(SourceItem, items)
    ensures ok ==> Remembers(bySource, items) && links == Map(LinkItem, items) && made == Map(MakeItem([]), items)
  {
    bySource, links, made := map[], [], [];
    for i := 0 to |items|
      invariant ItemsRead(items[..i]) && DistinctOn(SourceItem, items[..i]) && Remembers(bySource, items[..i])
      invariant links == Map(LinkItem, items[..i]) && made == Map(MakeItem([]), items[..i])
    {
      var item := items[i];
      assert items[..i + 1] == items[..i] + [item];
      assert Recalls(bySource, items[..i], item);
      SourceKeyTaken(items[..i], item);
      DistinctPrefix(items, i + 1);
      if SourceItem(item) in bySource {
        ok := false;
        return;
      }
      RemembersOne(bySource, items[..i], item);
      bySource := bySource[SourceItem(item) := ItemIdOf(item)];
      MapAppend(LinkItem, items[..i], item);
      links := links + [LinkItem(item)];
      if !ItemReads(item) {
        ok := false;
        return;
      }
      MapAppend(MakeItem([]), items[..i], item);
      made := made + [BareItem(item, [])];
    }
    assert items[..|items|] == items;
    ok := true;
  }

  lemma DistinctPrefix(items: seq<Record>, n: nat)
    requires n <= |items|
    ensures DistinctOn(SourceItem, items) ==> DistinctOn(SourceItem, items[..n])
  {
  }

  method ReadGrades(grades: seq<Record>) returns (ok: bool, links: seq<GradeLink>, made: seq<GradeCandidate>)
    ensures ok <==> GradesRead(grades)
    ensures ok ==> links == Map(LinkGrade, grades) && made == Map(MakeGrade, grades)
  {
    links, made := [], [];
    for i := 0 to |grades|
      invariant GradesRead(grades[..i])
      invariant links == Map(LinkGrade, grades[..i]) && made == Map(MakeGrade, grades[..i])
    {
      assert grades[..i + 1] == grades[..i] + [grades[i]];
      MapAppend(LinkGrade, grades[..i], grades[i]);
      MapAppend(MakeGrade, grades[..i], grades[i]);
      links := links + [LinkGrade(grades[i])];
      if !GradeReads(grades[i]) {
        ok := false;
        return;
      }
      made := made + [MakeGrade(grades[i])];
    }
    assert grades[..|grades|] == grades;
    ok := true;
  }

  method ReadDetails(details: seq<Record>, ghost items: seq<Record>, bySource: map<Text, Text>)
    returns (ok: bool, links: seq<DetailLink>, made: seq<Detail>)
    requires Remembers(bySource, items)
    ensures ok <==> DetailsRead(details, items)
    ensures ok ==> links == Map(LinkDetail(items), details) && made == Map(MakeDetail(items), details)
  {
    links, made := [], [];
    for i := 0 to |details|
      invariant DetailsRead(details[..i], items)
      invariant links == Map(LinkDetail(items), details[..i]) && made == Map(MakeDetail(items), details[..i])
    {
      var detail := details[i];
      assert details[..i + 1] == details[..i] + [detail];
      MapAppend(LinkDetail(items), details[..i], detail);
      MapAppend(MakeDetail(items), details[..i], detail);
      assert Recalls(bySource, items, detail);
      if SourceItem(detail) !in bySource {
        ok := false;
        return;
      }
      var itemId := bySource[SourceItem(detail)];
      links := links + [DetailLink(detail.identity, DetailIdOf(detail), itemId)];
      made := made + [Detail(DetailIdOf(detail), itemId)];
    }
    assert details[..|details|] == details;
    ok := true;
  }

  lemma GuideAddedAt(items: seq<Record>, guides: seq<Record>, g: Record, i: nat)
    requires DistinctOn(SourceItem, items) && DistinctOn(IdentityOf, items) && RefersTo(items)(g) && i < |items|
    ensures Map(MakeGuide, Filter(SameSourceItem(items[i]), guides + [g]))
         == Map(MakeGuide, Filter(SameSourceItem(items[i]), guides))
            + if ItemIdOf(items[i]) == TargetId(items, g) then [MakeGuide(g)] else []
  {
    SameTarget(items, g, items[i]);
    FilterAppend(SameSourceItem(items[i]), guides, g);
    if SourceItem(g) == SourceItem(items[i]) {
      MapAppend(MakeGuide, Filter(SameSourceItem(items[i]), guides), g);
    }
  }

  lemma SameItemId(items: seq<Record>, i: nat, j: nat)
    requires DistinctOn(IdentityOf, items) && i < |items| && j < |items| && ItemIdOf(items[i]) == ItemIdOf(items[j])
    ensures i == j
  {
    assert items[i].identity == ItemIdOf(items[i])[|Ascii("item:")|..];
    assert items[j].identity == ItemIdOf(items[j])[|Ascii("item:")|..];
    assert IdentityOf(items[i]) == IdentityOf(items[j]);
    if i < j {
      PairwiseAt(Differ(IdentityOf), items, i, j);
    } else if j < i {
      PairwiseAt(Differ(IdentityOf), items, j, i);
    }
  }

  function WithGuide(i: Item, g: Guide): Item {
    i.(guides := i.guides + [g])
  }

  lemma GuideAddedTo(items: seq<Record>, guides: seq<Record>, g: Record, i: nat, j: nat)
    requires DistinctOn(SourceItem, items) && DistinctOn(IdentityOf, items) && RefersTo(items)(g)
    requires i < |items| && j < |items| && ItemIdOf(items[j]) == TargetId(items, g)
    ensures var was, becomes := MakeItem(guides)(items[i]), MakeItem(guides + [g])(items[i]);
      becomes == if i == j then WithGuide(was, MakeGuide(g)) else was
  {
    assert ItemIdOf(items[i]) == TargetId(items, g) <==> i == j by {
      if ItemIdOf(items[i]) == TargetId(items, g) {
        SameItemId(items, i, j);
      }
    }
    GuideAddedAt(items, guides, g, i);
    OneGuideMore(items[i], guides, g, i == j);
  }

  lemma OneGuideMore(r: Record, guides: seq<Record>, g: Record, joins: bool)
    requires Map(MakeGuide, Filter(SameSourceItem(r), guides + [g]))
          == Map(MakeGuide, Filter(SameSourceItem(r), guides)) + if joins then [MakeGuide(g)] else []
    ensures var was, becomes := MakeItem(guides)(r), MakeItem(guides + [g])(r);
      becomes == if joins then WithGuide(was, MakeGuide(g)) else was
  {
  }

  /** Adding a guide to the item it refers to. */
  lemma GuideAdded(items: seq<Record>, guides: seq<Record>, g: Record, j: nat)
    requires DistinctOn(SourceItem, items) && DistinctOn(IdentityOf, items) && RefersTo(items)(g)
    requires j < |items| && ItemIdOf(items[j]) == TargetId(items, g)
    ensures var made := Map(MakeItem(guides), items);
      Map(MakeItem(guides + [g]), items) == made[j := WithGuide(made[j], MakeGuide(g))]
  {
    forall i | 0 <= i < |items|
      ensures MakeItem(guides + [g])(items[i])
           == if i == j then WithGuide(MakeItem(guides)(items[i]), MakeGuide(g)) else MakeItem(guides)(items[i])
    {
      GuideAddedTo(items, guides, g, i, j);
    }
    MapUpdated(MakeItem(guides + [g]), MakeItem(guides), items, j);
  }

  lemma MapUpdated<A, B>(f: A -> B, g: A -> B, s: seq<A>, j: nat)
    requires j < |s| && forall i | 0 <= i < |s| && i != j :: f(s[i]) == g(s[i])
    ensures Map(f, s) == Map(g, s)[j := f(s[j])]
  {
  }

  /** The guides so far are linked and have joined their items. */
  ghost predicate Placed(items: seq<Record>, guides: seq<Record>, links: seq<GuideLink>, made: seq<Item>) {
    && links == Map(LinkGuide(items), guides)
    && Map(ItemKey, made) == Map(ItemIdOf, items)
    && (DistinctOn(IdentityOf, items) ==> made == Map(MakeItem(guides), items))
  }

  /** One guide that refers to an item joins that item. */
  method PlaceGuide(ghost items: seq<Record>, ghost before: seq<Record>, guide: Record, itemId: Text,
                    links: seq<GuideLink>, made: seq<Item>)
    returns (linked: seq<GuideLink>, placed: seq<Item>)
    requires Placed(items, before, links, made)
    requires DistinctOn(SourceItem, items) && RefersTo(items)(guide) && itemId == TargetId(items, guide)
    ensures Placed(items, before + [guide], linked, placed)
  {
    IdInMap(items, guide);
    var j := FindItem(made, itemId);
    PlacedOneMore(items, before, guide, links, made, j);
    linked := links + [GuideLink(guide.identity, itemId, GuideIdOf(guide))];
    placed := made[j := WithGuide(made[j], MakeGuide(guide))];
  }

  lemma PlacedOneMore(items: seq<Record>, before: seq<Record>, guide: Record, links: seq<GuideLink>, made: seq<Item>, j: nat)
    requires Placed(items, before, links, made) && DistinctOn(SourceItem, items) && RefersTo(items)(guide)
    requires j < |made| && made[j].id == TargetId(items, guide)
    ensures Placed(items, before + [guide], links + [LinkGuide(items)(guide)], made[j := WithGuide(made[j], MakeGuide(guide))])
  {
    assert |made| == |Map(ItemKey, made)| == |items|;
    assert Map(ItemKey, made)[j] == Map(ItemIdOf, items)[j];
    if DistinctOn(IdentityOf, items) {
      GuideAdded(items, before, guide, j);
    }
    MapAppend(LinkGuide(items), before, guide);
    SameKeyMap(made, j, MakeGuide(guide));
  }

  lemma SameKeyMap(made: seq<Item>, j: nat, g: Guide)
    requires j < |made|
    ensures Map(ItemKey, made[j := WithGuide(made[j], g)]) == Map(ItemKey, made)
  {
  }

  method ReadGuides(all: seq<Record>, ghost items: seq<Record>, bySource: map<Text, Text>, bare: seq<Item>)
    returns (ok: bool, links: seq<GuideLink>, made: seq<Item>)
    requires Remembers(bySource, items) && bare == Map(MakeItem([]), items) && DistinctOn(SourceItem, items)
    ensures ok <==> GuidesRead(Filter(RefersTo(items), all))
    ensures ok ==> Placed(items, Filter(RefersTo(items), all), links, made)
  {
    links, made := [], bare;
    ghost var placed: seq<Record> := [];
    MapAfter(ItemKey, MakeItem([]), ItemIdOf, items);
    for i := 0 to |all|
      invariant placed == Filter(RefersTo(items), all[..i])
      invariant GuidesRead(placed) && Placed(items, placed, links, made)
    {
      var guide := all[i];
      NextFiltered(RefersTo(items), all, i);
      assert Recalls(bySource, items, guide);
      if SourceItem(guide) in bySource {
        if !GuideReads(guide) {
          assert guide in Filter(RefersTo(items), all);
          ok := false;
          return;
        }
        links, made := PlaceGuide(items, placed, guide, bySource[SourceItem(guide)], links, made);
        placed := placed + [guide];
      }
    }
    WholePrefix(all);
    ok := true;
  }

  lemma WholePrefix<T>(s: seq<T>)
    ensures s[..|s|] == s
  {
  }

  lemma IdInMap(items: seq<Record>, r: Record)
    requires RefersTo(items)(r)
    ensures TargetId(items, r) in Map(ItemIdOf, items)
  {
    TargetIsItem(items, r);
    var item :| item in items && TargetId(items, r) == ItemIdOf(item);
    MapMember(ItemIdOf, items, ItemIdOf(item));
  }

  /** Repeated item identities make repeated item ids, whatever the guides. */
  lemma RepeatedIdsRejected(items: seq<Record>, made: seq<Item>)
    requires Map(ItemKey, made) == Map(ItemIdOf, items)
    ensures ItemsOk(made) ==> DistinctOn(IdentityOf, items)
  {
    PrefixedDistinct(Map(ItemKey, made), Ascii("item:"), items);
  }

  /** Reads the facts of the assessment, in sorted order. */
  method ReadFacts(sorted: seq<Record>, p: Record)
    returns (ok: bool, links: Links, made: seq<Item>, grades: seq<GradeCandidate>, details: seq<Detail>)
    ensures ok <==>
      && ItemsRead(ItemsOf(sorted, p)) && DistinctOn(SourceItem, ItemsOf(sorted, p)) && GradesRead(GradesOf(sorted, p))
      && GuidesRead(GuidesOf(sorted, p)) && DetailsRead(DetailsOf(sorted), ItemsOf(sorted, p))
    ensures ok ==>
      && links == MakeLinks(sorted, p) && Placed(ItemsOf(sorted, p), GuidesOf(sorted, p), links.guides, made)
      && grades == Map(MakeGrade, GradesOf(sorted, p)) && details == Map(MakeDetail(ItemsOf(sorted, p)), DetailsOf(sorted))
  {
    links, made, grades, details := Links(p.identity, [], [], [], []), [], [], [];
    var items := Filter(Belongs(DimensionProfile, p), sorted);
    var bySource, itemLinks, bare, gradeLinks, guideLinks, detailLinks;
    ok, bySource, itemLinks, bare := ReadItems(items);
    if !ok {
      return;
    }
    ok, gradeLinks, grades := ReadGrades(Filter(Belongs(LevelRule, p), sorted));
    if !ok {
      return;
    }
    ok, guideLinks, made := ReadGuides(Filter(OfFamily(DimensionLevelGuide), sorted), items, bySource, bare);
    if !ok {
      return;
    }
    ok, detailLinks, details := ReadDetails(Filter(OfFamily(DimensionResult), sorted), items, bySource);
    links := Links(p.identity, itemLinks, guideLinks, gradeLinks, detailLinks);
  }

  /** Repeated item identities fail the check, and otherwise the items are as derived. */
  lemma AssembledRight(sorted: seq<Record>, p: Record, links: seq<GuideLink>, made: seq<Item>)
    requires Placed(ItemsOf(sorted, p), GuidesOf(sorted, p), links, made)
    ensures var derived := Map(MakeItem(GuidesOf(sorted, p)), ItemsOf(sorted, p));
      made == derived || (!ItemsOk(made) && !ItemsOk(derived))
  {
    RepeatedIdsRejected(ItemsOf(sorted, p), made);
    DerivedItemIds(sorted, p);
    RepeatedIdsRejected(ItemsOf(sorted, p), MakeDefinition(sorted, p).items);
  }

  lemma DefinitionAssembled(sorted: seq<Record>, p: Record, links: seq<GuideLink>, definition: Definition)
    requires Placed(ItemsOf(sorted, p), GuidesOf(sorted, p), links, definition.items)
    requires definition.(items := []) == MakeDefinition(sorted, p).(items := [])
    ensures DefinitionOk(definition) <==> DefinitionOk(MakeDefinition(sorted, p))
    ensures DefinitionOk(definition) ==> definition == MakeDefinition(sorted, p)
  {
    hide ItemsOk, GradesOk, Placed;
    AssembledRight(sorted, p, links, definition.items);
  }

  method DeriveFrom(sorted: seq<Record>, p: Record) returns (r: Option<Derivation>)
    ensures r == if Succeeds(sorted, p)
      then Some(Derivation(MakeDefinition(sorted, p), MakeWorkflow(sorted, p), MakeLinks(sorted, p))) else None
  {
    hide ProfileReads, ItemsRead, GradesRead, GuidesRead, DetailsRead, DefinitionOk, DistinctOn, Placed;
    if !ProfileReads(p) {
      return None;
    }
    var ok, links, made, grades, details := ReadFacts(sorted, p);
    if !ok {
      return None;
    }
    var definition := Definition(
      TextOf(Get(p, AssessmentName)), TextOf(Get(p, Department)), MakeWeights(p),
      Channels(EMPTY_POLICY, EMPTY_POLICY, EMPTY_POLICY, EMPTY_POLICY, EMPTY_POLICY), MakeAdjustments(p), made, grades);
    DefinitionAssembled(sorted, p, links.guides, definition);
    if !DefinitionOk(definition) {
      return None;
    }
    return Some(Derivation(definition, Workflow(details, EMPTY_MASTER, EMPTY_MASTER, EMPTY_MASTER, EMPTY_MASTER), links));
  }

  method Derive(records: seq<Record>, identity: Text) returns (r: Option<Derivation>)
    ensures r == Outcome(records, identity)
  {
    var profile := FindProfile(records, identity);
    if profile.None? {
      return None;
    }
    r := DeriveFrom(SortBy(IdentityLe(), records), profile.value);
  }
}
