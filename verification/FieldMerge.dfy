/** Normalising imported fields and merging them three ways into a record
    (packages/shared/src/hr-yuzhou-record-incremental.ts,
    packages/shared/src/hr-yuzhou-family-incremental.ts). */
module FieldMerge {
  import opened Mapping
  import opened Options
  import opened Sorting
  import opened Texts

  datatype Kind = Skill | Credential | Family

  datatype Field =
    | SkillName | LegacyGrade | Note
    | CredentialType | CredentialName | CredentialNumber | IssuingAuthority | AcquiredDate | ValidTo
    | Relationship | FullName | Contact | BirthDate | WorkUnit | JobTitle | PoliticalStatus

  predicate Admits(kind: Kind, field: Field) {
    match kind
    case Skill => field.SkillName? || field.LegacyGrade? || field.Note?
    case Credential =>
      || field.CredentialType? || field.CredentialName? || field.CredentialNumber? || field.IssuingAuthority?
      || field.AcquiredDate? || field.ValidTo? || field.Note?
    case Family =>
      || field.Relationship? || field.FullName? || field.Contact? || field.BirthDate? || field.WorkUnit?
      || field.JobTitle? || field.PoliticalStatus?
  }

  predicate Required(field: Field) {
    field.SkillName? || field.CredentialType? || field.CredentialName? || field.Relationship? || field.FullName?
  }

  predicate IsDateField(field: Field) {
    field.AcquiredDate? || field.ValidTo? || field.BirthDate?
  }

  function Limit(field: Field): nat {
    match field
    case SkillName => 160
    case LegacyGrade => 64
    case Note => 2000
    case CredentialType => 64
    case CredentialName => 160
    case CredentialNumber => 64
    case IssuingAuthority => 200
    case AcquiredDate => 10
    case ValidTo => 10
    case Relationship => 32
    case FullName => 100
    case Contact => 64
    case BirthDate => 10
    case WorkUnit => 200
    case JobTitle => 160
    case PoliticalStatus => 64
  }

  // ---------- strings ----------

  const STAR: nat := 42
  const DASH: nat := 45
  const ZERO: nat := 48

  predicate High(u: nat) { 0xD800 <= u <= 0xDBFF }
  predicate Low(u: nat) { 0xDC00 <= u <= 0xDFFF }

  /** No surrogate without its other half. */
  predicate WellPaired(t: Text) {
    && (forall i | 0 <= i < |t| && High(t[i]) :: i + 1 < |t| && Low(t[i + 1]))
    && (forall i | 0 <= i < |t| && Low(t[i]) :: 0 < i && High(t[i - 1]))
  }

  /** Which code units count as white space; surrogates never do. */
  ghost predicate IsSpacing(space: nat -> bool) {
    forall u | High(u) || Low(u) :: !space(u)
  }

  function TrimStart(space: nat -> bool, t: Text): Text {
    if t != [] && space(t[0]) then TrimStart(space, t[1..]) else t
  }

  function TrimEnd(space: nat -> bool, t: Text): Text {
    if t != [] && space(t[|t| - 1]) then TrimEnd(space, t[..|t| - 1]) else t
  }

  function Trim(space: nat -> bool, t: Text): Text {
    TrimEnd(space, TrimStart(space, t))
  }

  predicate Readable(t: Text) {
    0 !in t && WellPaired(t)
  }

  lemma {:induction false} TrimStartReadable(space: nat -> bool, t: Text)
    requires IsSpacing(space) && Readable(t)
    ensures var r := TrimStart(space, t); Readable(r) && (r == [] || !space(r[0]))
  {
    if t != [] && space(t[0]) {
      var rest := t[1..];
      forall i | 0 <= i < |rest| && Low(rest[i]) ensures 0 < i && High(rest[i - 1]) {
        assert Low(t[i + 1]) && High(t[i]);
      }
      forall i | 0 <= i < |rest| && High(rest[i]) ensures i + 1 < |rest| && Low(rest[i + 1]) {
        assert High(t[i + 1]) && Low(t[i + 2]);
      }
      TrimStartReadable(space, rest);
    }
  }

  lemma {:induction false} TrimEndReadable(space: nat -> bool, t: Text)
    requires IsSpacing(space) && Readable(t) && (t == [] || !space(t[0]))
    ensures var r := TrimEnd(space, t);
      Readable(r) && (r == [] || (!space(r[0]) && !space(r[|r| - 1])))
  {
    if t != [] && space(t[|t| - 1]) {
      var rest := t[..|t| - 1];
      forall i | 0 <= i < |rest| && High(rest[i]) ensures i + 1 < |rest| && Low(rest[i + 1]) {
        assert High(t[i]) && Low(t[i + 1]);
      }
      TrimEndReadable(space, rest);
    }
  }

  /** Trimming keeps a string readable, and a second time does nothing. */
  lemma TrimTwice(space: nat -> bool, t: Text)
    requires IsSpacing(space) && Readable(t)
    ensures Readable(Trim(space, t)) && Trim(space, Trim(space, t)) == Trim(space, t)
  {
    TrimStartReadable(space, t);
    TrimEndReadable(space, TrimStart(space, t));
  }

  ghost predicate AllSpace(space: nat -> bool, t: Text) {
    forall i | 0 <= i < |t| :: space(t[i])
  }

  lemma {:induction false} TrimStartIsExact(space: nat -> bool, t: Text)
    ensures var r := TrimStart(space, t);
      && |r| <= |t| && t == t[..|t| - |r|] + r && AllSpace(space, t[..|t| - |r|]) && (r == [] || !space(r[0]))
  {
    if t != [] && space(t[0]) {
      TrimStartIsExact(space, t[1..]);
      var r := TrimStart(space, t[1..]);
      var n := |t| - |r|;
      assert t[..n] == [t[0]] + t[1..][..n - 1];
      assert t == [t[0]] + t[1..];
    }
  }

  lemma {:induction false} TrimEndIsExact(space: nat -> bool, t: Text)
    ensures var r := TrimEnd(space, t);
      && |r| <= |t| && t == r + t[|r|..] && AllSpace(space, t[|r|..]) && (r == [] || !space(r[|r| - 1]))
  {
    if t != [] && space(t[|t| - 1]) {
      var n := |t| - 1;
      TrimEndIsExact(space, t[..n]);
      var r := TrimEnd(space, t[..n]);
      assert t[|r|..] == t[..n][|r|..] + [t[n]];
    }
  }

  /** Trimming takes the white space off both ends, and nothing else. */
  lemma TrimIsExact(space: nat -> bool, t: Text) returns (before: Text, after: Text)
    ensures t == before + Trim(space, t) + after && AllSpace(space, before) && AllSpace(space, after)
    ensures var r := Trim(space, t); r == [] || (!space(r[0]) && !space(r[|r| - 1]))
  {
    var u := TrimStart(space, t);
    TrimStartIsExact(space, t);
    TrimEndIsExact(space, u);
    before, after := t[..|t| - |u|], u[|Trim(space, t)|..];
    assert Trim(space, t) != [] ==> Trim(space, t)[0] == u[0];
  }

  // ---------- calendar dates ----------

  predicate IsDigit(u: nat) { ZERO <= u <= ZERO + 9 }

  function Two(t: Text, i: nat): nat
    requires i + 2 <= |t| && IsDigit(t[i]) && IsDigit(t[i + 1])
  {
    10 * (t[i] - ZERO) + (t[i + 1] - ZERO)
  }

  predicate DateShape(t: Text) {
    && |t| == 10 && t[4] == DASH && t[7] == DASH
    && IsDigit(t[0]) && IsDigit(t[1]) && IsDigit(t[2]) && IsDigit(t[3])
    && IsDigit(t[5]) && IsDigit(t[6]) && IsDigit(t[8]) && IsDigit(t[9])
  }

  function YearOf(t: Text): nat
    requires DateShape(t)
  {
    100 * Two(t, 0) + Two(t, 2)
  }

  function MonthOf(t: Text): nat
    requires DateShape(t)
  {
    Two(t, 5)
  }

  function DayOf(t: Text): nat
    requires DateShape(t)
  {
    Two(t, 8)
  }

  predicate LeapYear(y: nat) {
    y % 4 == 0 && (y % 100 != 0 || y % 400 == 0)
  }

  function DaysIn(y: nat, m: nat): nat {
    if m == 2 then (if LeapYear(y) then 29 else 28)
    else if m == 4 || m == 6 || m == 9 || m == 11 then 30
    else 31
  }

  predicate IsDate(t: Text) {
    DateShape(t) && 1 <= YearOf(t) && 1 <= MonthOf(t) <= 12 && 1 <= DayOf(t) <= DaysIn(YearOf(t), MonthOf(t))
  }

  predicate NotAfter(s: Text, t: Text)
    requires DateShape(s) && DateShape(t)
  {
    || YearOf(s) < YearOf(t)
    || (YearOf(s) == YearOf(t) && (MonthOf(s) < MonthOf(t) || (MonthOf(s) == MonthOf(t) && DayOf(s) <= DayOf(t))))
  }

  lemma LexStep(s: Text, t: Text)
    requires s != [] && t != []
    ensures LexLe(s, t) <==> s[0] < t[0] || (s[0] == t[0] && LexLe(s[1..], t[1..]))
  {
  }

  /** Comparing two dates as strings compares them in time. */
  lemma DatesCompareInTime(s: Text, t: Text)
    requires DateShape(s) && DateShape(t)
    ensures LexLe(s, t) <==> NotAfter(s, t)
  {
    LexSteps(s, t, 0);
    LexSteps(s, t, 1);
    LexSteps(s, t, 2);
    LexSteps(s, t, 3);
    LexSteps(s, t, 4);
    LexSteps(s, t, 5);
    LexSteps(s, t, 6);
    LexSteps(s, t, 7);
    LexSteps(s, t, 8);
    LexSteps(s, t, 9);
    assert s[0..] == s && t[0..] == t && s[10..] == [] && t[10..] == [];
  }

  lemma LexSteps(s: Text, t: Text, i: nat)
    requires i < |s| && i < |t|
    ensures LexLe(s[i..], t[i..]) <==> s[i] < t[i] || (s[i] == t[i] && LexLe(s[i + 1..], t[i + 1..]))
  {
    LexStep(s[i..], t[i..]);
    assert s[i..][1..] == s[i + 1..] && t[i..][1..] == t[i + 1..];
  }

  // ---------- normalisation ----------

  datatype Key = Known(field: Field) | Unknown
  datatype Raw = Null | Str(text: Text) | Other
  datatype Entry = Entry(key: Key, raw: Raw)
  datatype Input = Object(entries: seq<Entry>) | NotObject

  /** A normalised field; None clears it. */
  datatype Fact = Fact(field: Field, value: Option<Text>)

  predicate TextOk(field: Field, t: Text) {
    && |t| <= Limit(field)
    && (Required(field) ==> t != [])
    && (field.CredentialNumber? ==> STAR !in t)
    && (IsDateField(field) && t != [] ==> IsDate(t))
  }

  predicate EntryOk(kind: Kind, space: nat -> bool, e: Entry) {
    && e.key.Known? && Admits(kind, e.key.field)
    && match e.raw
       case Null => !Required(e.key.field)
       case Str(t) => Readable(t) && TextOk(e.key.field, Trim(space, t))
       case Other => false
  }

  function FactOf(space: nat -> bool, e: Entry): Fact
    requires e.key.Known?
  {
    var t := if e.raw.Str? then Trim(space, e.raw.text) else [];
    Fact(e.key.field, if t == [] then None else Some(t))
  }

  function FactsOf(space: nat -> bool, entries: seq<Entry>): (facts: seq<Fact>)
    requires forall e | e in entries :: e.key.Known?
    ensures |facts| == |entries| && forall i | 0 <= i < |entries| :: facts[i] == FactOf(space, entries[i])
  {
    if entries == [] then []
    else
      var n := |entries| - 1;
      FactsOf(space, entries[..n]) + [FactOf(space, entries[n])]
  }

  function ValueOf(facts: seq<Fact>, field: Field): Option<Text> {
    if facts == [] then None
    else if facts[0].field == field then facts[0].value
    else ValueOf(facts[1..], field)
  }

  predicate InOrder(acquired: Option<Text>, validTo: Option<Text>) {
    acquired.Some? && acquired.value != [] && validTo.Some? && validTo.value != [] ==> LexLe(acquired.value, validTo.value)
  }

  /** The property names of an object are distinct. */
  ghost predicate IsObject(input: Input) {
    input.Object? ==> forall i, j | 0 <= i < j < |input.entries| :: input.entries[i].key != input.entries[j].key || input.entries[i].key.Unknown?
  }

  predicate EntriesOk(kind: Kind, space: nat -> bool, entries: seq<Entry>) {
    forall e | e in entries :: EntryOk(kind, space, e)
  }

  predicate DatesOk(kind: Kind, facts: seq<Fact>) {
    kind.Family? || InOrder(ValueOf(facts, AcquiredDate), ValueOf(facts, ValidTo))
  }

  /** The normal form of an input, or None for the error. */
  function Normalized(kind: Kind, space: nat -> bool, input: Input): Option<seq<Fact>> {
    if input.NotObject? || !EntriesOk(kind, space, input.entries) then None
    else
      var facts := FactsOf(space, input.entries);
      if DatesOk(kind, facts) then Some(facts) else None
  }

  method Normalize(kind: Kind, space: nat -> bool, input: Input) returns (r: Option<seq<Fact>>)
    ensures r == Normalized(kind, space, input)
  {
    if input.NotObject? {
      return None;
    }
    var facts: seq<Fact> := [];
    for i := 0 to |input.entries|
      invariant EntriesOk(kind, space, input.entries[..i])
      invariant facts == FactsOf(space, input.entries[..i])
    {
      var e := input.entries[i];
      assert input.entries[..i + 1][..i] == input.entries[..i];
      assert e in input.entries;
      if e.key.Unknown? || !Admits(kind, e.key.field) {
        return None;
      }
      var field := e.key.field;
      match e.raw
      case Null =>
        if Required(field) {
          return None;
        }
        facts := facts + [Fact(field, None)];
      case Other =>
        return None;
      case Str(raw) =>
        if !Readable(raw) {
          return None;
        }
        var text := Trim(space, raw);
        if |text| > Limit(field) || (Required(field) && text == []) || (field.CredentialNumber? && STAR in text) {
          return None;
        }
        if IsDateField(field) && text != [] && !IsDate(text) {
          return None;
        }
        facts := facts + [Fact(field, if text == [] then None else Some(text))];
    }
    assert input.entries[..|input.entries|] == input.entries;
    if !DatesOk(kind, facts) {
      return None;
    }
    return Some(facts);
  }

  /** Normalised facts given as an input again. */
  function Again(facts: seq<Fact>): Input {
    Object(Map(EntryOf, facts))
  }

  function EntryOf(f: Fact): Entry {
    Entry(Known(f.field), if f.value.None? then Null else Str(f.value.value))
  }

  lemma FactAgain(kind: Kind, space: nat -> bool, e: Entry)
    requires IsSpacing(space) && EntryOk(kind, space, e)
    ensures var again := EntryOf(FactOf(space, e));
      EntryOk(kind, space, again) && FactOf(space, again) == FactOf(space, e)
  {
    if e.raw.Str? {
      TrimTwice(space, e.raw.text);
    }
  }

  /** Normalising normalised fields changes nothing. */
  lemma NormalizedIsFixed(kind: Kind, space: nat -> bool, input: Input)
    requires IsSpacing(space) && Normalized(kind, space, input).Some?
    ensures Normalized(kind, space, Again(Normalized(kind, space, input).value)) == Normalized(kind, space, input)
  {
    var entries := input.entries;
    var facts := FactsOf(space, entries);
    var again := Map(EntryOf, facts);
    forall i | 0 <= i < |entries| ensures EntryOk(kind, space, again[i]) && FactOf(space, again[i]) == facts[i] {
      assert entries[i] in entries;
      FactAgain(kind, space, entries[i]);
    }
    assert FactsOf(space, again) == facts;
  }

  // ---------- the three-way merge ----------

  type Record = map<Field, Option<Text>>

  datatype Verdict = Unbased | Same | Converged | Clash | Write

  /** What becomes of one incoming field. */
  function Judge(f: Fact, source: Record, current: Record, target: Record): Verdict {
    if f.field !in source || f.field !in current || f.field !in target then Unbased
    else if f.value == source[f.field] then Same
    else if f.value == current[f.field] then Converged
    else if current[f.field] != target[f.field] then Clash
    else Write
  }

  datatype Conflict = BaselineUnknown | OnField(field: Field) | Archived | DateRangeInvalid
  datatype Verb = Update | Unchanged | Conflicting
  datatype Plan = Plan(verb: Verb, changed: seq<Field>, conflicts: seq<Conflict>, writable: Record)

  /** What the loop over the fields has collected. */
  datatype Tally = Tally(changed: seq<Field>, conflicts: seq<Conflict>, writable: Record)

  function Collect(facts: seq<Fact>, source: Record, current: Record, target: Record): Tally {
    if facts == [] then Tally([], [], map[])
    else
      var n := |facts| - 1;
      var t, f := Collect(facts[..n], source, current, target), facts[n];
      match Judge(f, source, current, target)
      case Unbased =>
        var noted := if BaselineUnknown in t.conflicts then t.conflicts else t.conflicts + [BaselineUnknown];
        t.(conflicts := noted + [OnField(f.field)])
      case Same => t
      case Converged => t.(changed := t.changed + [f.field])
      case Clash => t.(changed := t.changed + [f.field], conflicts := t.conflicts + [OnField(f.field)])
      case Write => t.(changed := t.changed + [f.field], writable := t.writable[f.field := f.value])
  }

  function At(r: Record, field: Field): Option<Text> {
    if field in r then r[field] else None
  }

  function Merged(current: Record, writable: Record): Record {
    current + writable
  }

  predicate BreaksDates(kind: Kind, current: Record, writable: Record) {
    && kind.Credential? && writable != map[]
    && !InOrder(At(Merged(current, writable), AcquiredDate), At(Merged(current, writable), ValidTo))
  }

  function Conclude(kind: Kind, t: Tally, current: Record, archived: bool): Plan {
    var frozen := if archived && t.changed != [] then t.conflicts + [Archived] else t.conflicts;
    var conflicts := if BreaksDates(kind, current, t.writable) then frozen + [DateRangeInvalid] else frozen;
    Plan(if conflicts != [] then Conflicting else if t.changed != [] then Update else Unchanged,
         t.changed, conflicts, if conflicts != [] then map[] else t.writable)
  }

  function Planned(kind: Kind, space: nat -> bool, incoming: Input, source: Record, current: Record, target: Record, archived: bool): Option<Plan> {
    var facts := Normalized(kind, space, incoming);
    if facts.None? then None
    else Some(Conclude(kind, Collect(facts.value, source, current, target), current, archived))
  }

  /** Compares the fields one by one. */
  method CompareFields(facts: seq<Fact>, source: Record, current: Record, target: Record)
    returns (changed: seq<Field>, conflicts: seq<Conflict>, writable: Record)
    ensures Tally(changed, conflicts, writable) == Collect(facts, source, current, target)
  {
    changed, conflicts, writable := [], [], map[];
    for i := 0 to |facts|
      invariant Tally(changed, conflicts, writable) == Collect(facts[..i], source, current, target)
    {
      assert facts[..i + 1][..i] == facts[..i];
      var f := facts[i];
      if f.field !in source || f.field !in current || f.field !in target {
        if BaselineUnknown !in conflicts {
          conflicts := conflicts + [BaselineUnknown];
        }
        conflicts := conflicts + [OnField(f.field)];
      } else if f.value != source[f.field] {
        changed := changed + [f.field];
        if f.value != current[f.field] {
          if current[f.field] != target[f.field] {
            conflicts := conflicts + [OnField(f.field)];
          } else {
            writable := writable[f.field := f.value];
          }
        }
      }
    }
    assert facts[..|facts|] == facts;
  }

  method PlanFields(kind: Kind, space: nat -> bool, incoming: Input, source: Record, current: Record, target: Record, archived: bool)
    returns (r: Option<Plan>)
    ensures r == Planned(kind, space, incoming, source, current, target, archived)
  {
    var normal := Normalize(kind, space, incoming);
    if normal.None? {
      return None;
    }
    var changed, conflicts, writable := CompareFields(normal.value, source, current, target);
    if archived && changed != [] {
      conflicts := conflicts + [Archived];
    }
    var merged := current + writable;
    if kind.Credential? && writable != map[] && !InOrder(At(merged, AcquiredDate), At(merged, ValidTo)) {
      conflicts := conflicts + [DateRangeInvalid];
    }
    return Some(Plan(
      if conflicts != [] then Conflicting else if changed != [] then Update else Unchanged,
      changed, conflicts, if conflicts != [] then map[] else writable));
  }

  ghost predicate DistinctFields(facts: seq<Fact>) {
    forall i, j | 0 <= i < j < |facts| :: facts[i].field != facts[j].field
  }

  lemma NormalizedDistinct(kind: Kind, space: nat -> bool, input: Input)
    requires input.Object? && IsObject(input) && Normalized(kind, space, input).Some?
    ensures DistinctFields(Normalized(kind, space, input).value)
  {
    var facts := Normalized(kind, space, input).value;
    forall i, j | 0 <= i < j < |facts| ensures facts[i].field != facts[j].field {
      assert input.entries[i] in input.entries && input.entries[j] in input.entries;
    }
  }

  // ---------- what the tally says, field by field ----------

  ghost predicate Judged(facts: seq<Fact>, source: Record, current: Record, target: Record, k: Field, verdicts: set<Verdict>) {
    exists f | f in facts :: f.field == k && Judge(f, source, current, target) in verdicts
  }

  lemma JudgedLonger(facts: seq<Fact>, source: Record, current: Record, target: Record, k: Field, verdicts: set<Verdict>)
    requires facts != []
    ensures var n := |facts| - 1;
      Judged(facts, source, current, target, k, verdicts) <==>
        || Judged(facts[..n], source, current, target, k, verdicts)
        || (facts[n].field == k && Judge(facts[n], source, current, target) in verdicts)
  {
    var n := |facts| - 1;
    assert facts == facts[..n] + [facts[n]];
  }

  lemma {:induction false} ChangedMeans(facts: seq<Fact>, source: Record, current: Record, target: Record, k: Field)
    ensures k in Collect(facts, source, current, target).changed <==>
      Judged(facts, source, current, target, k, {Converged, Clash, Write})
  {
    if facts != [] {
      ChangedMeans(facts[..|facts| - 1], source, current, target, k);
      JudgedLonger(facts, source, current, target, k, {Converged, Clash, Write});
    }
  }

  lemma {:induction false} WritableMeans(facts: seq<Fact>, source: Record, current: Record, target: Record, k: Field)
    ensures k in Collect(facts, source, current, target).writable <==>
      Judged(facts, source, current, target, k, {Write})
  {
    if facts != [] {
      WritableMeans(facts[..|facts| - 1], source, current, target, k);
      JudgedLonger(facts, source, current, target, k, {Write});
    }
  }

  lemma {:induction false} WritableValue(facts: seq<Fact>, source: Record, current: Record, target: Record, f: Fact)
    requires DistinctFields(facts) && f in facts && f.field in Collect(facts, source, current, target).writable
    ensures Collect(facts, source, current, target).writable[f.field] == f.value
  {
    var n := |facts| - 1;
    assert facts == facts[..n] + [facts[n]];
    if f in facts[..n] {
      assert f.field != facts[n].field;
      WritableValue(facts[..n], source, current, target, f);
    } else if Judge(f, source, current, target) != Write {
      WritableMeans(facts[..n], source, current, target, f.field);
    }
  }

  lemma {:induction false} ConflictsMean(facts: seq<Fact>, source: Record, current: Record, target: Record)
    ensures Collect(facts, source, current, target).conflicts == [] <==>
      forall f | f in facts :: Judge(f, source, current, target) !in {Unbased, Clash}
  {
    if facts != [] {
      var n := |facts| - 1;
      ConflictsMean(facts[..n], source, current, target);
      assert forall f | f in facts[..n] :: f in facts;
      assert facts[n] in facts;
      assert forall f | f in facts :: f in facts[..n] || f == facts[n] by {
        assert facts == facts[..n] + [facts[n]];
      }
    }
  }

  // ---------- what a plan promises ----------

  /** The arguments of a plan that was made. */
  ghost predicate Made(kind: Kind, space: nat -> bool, incoming: Input, source: Record, current: Record, target: Record, archived: bool) {
    incoming.Object? && IsObject(incoming) && Planned(kind, space, incoming, source, current, target, archived).Some?
  }

  /** A plan only writes fields whose present value is the one last imported into the
      record, and only to the incoming value. */
  lemma WritesOnlyUntouchedFields(kind: Kind, space: nat -> bool, incoming: Input, source: Record, current: Record, target: Record, archived: bool)
    requires Made(kind, space, incoming, source, current, target, archived)
    ensures var plan := Planned(kind, space, incoming, source, current, target, archived).value;
      forall k | k in plan.writable ::
        && k in current && k in target && current[k] == target[k]
        && Fact(k, plan.writable[k]) in Normalized(kind, space, incoming).value
  {
    var facts := Normalized(kind, space, incoming).value;
    NormalizedDistinct(kind, space, incoming);
    forall k | k in Collect(facts, source, current, target).writable
      ensures k in current && k in target && current[k] == target[k]
        && Fact(k, Collect(facts, source, current, target).writable[k]) in facts
    {
      WritableIsUntouched(facts, source, current, target, k);
    }
  }

  lemma WritableIsUntouched(facts: seq<Fact>, source: Record, current: Record, target: Record, k: Field)
    requires DistinctFields(facts) && k in Collect(facts, source, current, target).writable
    ensures k in current && k in target && current[k] == target[k]
    ensures Fact(k, Collect(facts, source, current, target).writable[k]) in facts
  {
    WritableMeans(facts, source, current, target, k);
    var f :| f in facts && f.field == k && Judge(f, source, current, target) == Write;
    WritableValue(facts, source, current, target, f);
  }

  // ---------- the plan on source, current, target and incoming values ----------

  /** No baseline is known for the field. */
  predicate LacksBaseline(f: Fact, source: Record, current: Record, target: Record) {
    f.field !in source || f.field !in current || f.field !in target
  }

  /** The source has changed the field. */
  predicate Changes(f: Fact, source: Record, current: Record, target: Record) {
    f.field in source && f.field in current && f.field in target && f.value != source[f.field]
  }

  /** So has the target since the last import, and to something else. */
  predicate Clashes(f: Fact, source: Record, current: Record, target: Record) {
    Changes(f, source, current, target) && f.value != current[f.field] && current[f.field] != target[f.field]
  }

  /** The target still holds what was imported last. */
  predicate Writes(f: Fact, source: Record, current: Record, target: Record) {
    Changes(f, source, current, target) && f.value != current[f.field] && current[f.field] == target[f.field]
  }

  lemma JudgeMeans(f: Fact, source: Record, current: Record, target: Record)
    ensures var v := Judge(f, source, current, target);
      && (v.Unbased? <==> LacksBaseline(f, source, current, target))
      && (v.Converged? || v.Clash? || v.Write? <==> Changes(f, source, current, target))
      && (v.Clash? <==> Clashes(f, source, current, target)) && (v.Write? <==> Writes(f, source, current, target))
  {
  }

  /** With what the facts would write, the field would hold that text. */
  ghost predicate WouldHold(facts: seq<Fact>, source: Record, current: Record, target: Record, k: Field, t: Text) {
    if exists f | f in facts :: f.field == k && Writes(f, source, current, target) then
      exists f | f in facts :: f.field == k && Writes(f, source, current, target) && f.value == Some(t)
    else k in current && current[k] == Some(t)
  }

  /** Something would be written, and then the end date would come before the start. */
  ghost predicate DatesCross(facts: seq<Fact>, source: Record, current: Record, target: Record) {
    && (exists f | f in facts :: Writes(f, source, current, target))
    && exists from: Text, to: Text :: CrossedBy(facts, source, current, target, from, to)
  }

  ghost predicate CrossedBy(facts: seq<Fact>, source: Record, current: Record, target: Record, from: Text, to: Text) {
    && from != [] && to != [] && Before(to, from)
    && WouldHold(facts, source, current, target, AcquiredDate, from)
    && WouldHold(facts, source, current, target, ValidTo, to)
  }

  lemma WritableIsExact(facts: seq<Fact>, source: Record, current: Record, target: Record, k: Field)
    requires DistinctFields(facts)
    ensures var w := Collect(facts, source, current, target).writable;
      && (k in w <==> exists f | f in facts :: f.field == k && Writes(f, source, current, target))
      && (k in w ==> Fact(k, w[k]) in facts && Writes(Fact(k, w[k]), source, current, target))
  {
    hide Collect, Judge, Writes;
    WritableMeans(facts, source, current, target, k);
    forall f | f in facts ensures Judge(f, source, current, target).Write? <==> Writes(f, source, current, target) {
      JudgeMeans(f, source, current, target);
    }
    if f :| f in facts && f.field == k && Writes(f, source, current, target) {
      WritableValue(facts, source, current, target, f);
    }
  }

  lemma WouldHoldMeans(facts: seq<Fact>, source: Record, current: Record, target: Record, k: Field, t: Text)
    requires DistinctFields(facts)
    ensures At(Merged(current, Collect(facts, source, current, target).writable), k) == Some(t) <==>
      WouldHold(facts, source, current, target, k, t)
  {
    hide Collect, Writes;
    WritableIsExact(facts, source, current, target, k);
    var w := Collect(facts, source, current, target).writable;
    if k in w {
      forall f | f in facts && f.field == k ensures f == Fact(k, w[k]) {
        var i, j :| 0 <= i < |facts| && 0 <= j < |facts| && facts[i] == f && facts[j] == Fact(k, w[k]);
      }
    }
  }

  lemma CrossMeans(facts: seq<Fact>, source: Record, current: Record, target: Record)
    requires DistinctFields(facts)
    ensures var w := Collect(facts, source, current, target).writable;
      BreaksDates(Credential, current, w) <==> DatesCross(facts, source, current, target)
  {
    hide Collect, Writes, WouldHold, LexLe, Before;
    var w := Collect(facts, source, current, target).writable;
    SomethingWritten(facts, source, current, target);
    var merged := Merged(current, w);
    forall from: Text, to: Text
      ensures CrossedBy(facts, source, current, target, from, to) <==>
        from != [] && to != [] && Before(to, from) && At(merged, AcquiredDate) == Some(from) && At(merged, ValidTo) == Some(to)
    {
      WouldHoldMeans(facts, source, current, target, AcquiredDate, from);
      WouldHoldMeans(facts, source, current, target, ValidTo, to);
    }
    if At(merged, AcquiredDate).Some? && At(merged, ValidTo).Some? {
      var from, to := At(merged, AcquiredDate).value, At(merged, ValidTo).value;
      NotLeMeansBefore(from, to);
      assert CrossedBy(facts, source, current, target, from, to) <==> from != [] && to != [] && Before(to, from);
    }
  }

  lemma SomethingWritten(facts: seq<Fact>, source: Record, current: Record, target: Record)
    requires DistinctFields(facts)
    ensures Collect(facts, source, current, target).writable != map[] <==>
      exists f | f in facts :: Writes(f, source, current, target)
  {
    hide Collect, Writes;
    var w := Collect(facts, source, current, target).writable;
    if f :| f in facts && Writes(f, source, current, target) {
      WritableIsExact(facts, source, current, target, f.field);
    }
    if w != map[] {
      var k :| k in w;
      WritableIsExact(facts, source, current, target, k);
    }
  }

  lemma NotLeMeansBefore(s: Text, t: Text)
    ensures !LexLe(s, t) <==> Before(t, s)
  {
    LexIsBefore(t, s);
    LexTotal(s, t);
    if LexLe(s, t) && LexLe(t, s) {
      LexAntisymmetric(s, t);
      NotBeforeItself(s);
    }
    LexTotal(s, s);
    NotBeforeItself(s);
  }

  lemma NotBeforeItself(s: Text)
    ensures !Before(s, s)
  {
  }

  /** Which plans are conflicts: a field without baseline, a field that both sides changed
      differently, a change to an archived record, or credential dates that would cross. */
  lemma ConflictsExactly(kind: Kind, space: nat -> bool, incoming: Input, source: Record, current: Record, target: Record, archived: bool)
    requires Made(kind, space, incoming, source, current, target, archived)
    ensures var plan, facts := Planned(kind, space, incoming, source, current, target, archived).value, Normalized(kind, space, incoming).value;
      plan.verb.Conflicting? <==>
        || (exists f | f in facts :: LacksBaseline(f, source, current, target) || Clashes(f, source, current, target))
        || (archived && exists f | f in facts :: Changes(f, source, current, target))
        || (kind.Credential? && DatesCross(facts, source, current, target))
  {
    hide Judge, LacksBaseline, Clashes, Changes, DatesCross, Collect, BreaksDates, Normalized;
    var facts := Normalized(kind, space, incoming).value;
    NormalizedDistinct(kind, space, incoming);
    ConflictsMean(facts, source, current, target);
    ChangedMeansChanges(facts, source, current, target);
    forall f | f in facts
      ensures Judge(f, source, current, target) in {Unbased, Clash} <==>
        LacksBaseline(f, source, current, target) || Clashes(f, source, current, target)
    {
      JudgeMeans(f, source, current, target);
    }
    CrossMeans(facts, source, current, target);
    OnlyCredentialsCross(kind, current, Collect(facts, source, current, target).writable);
  }

  lemma OnlyCredentialsCross(kind: Kind, current: Record, writable: Record)
    ensures BreaksDates(kind, current, writable) <==> kind.Credential? && BreaksDates(Credential, current, writable)
  {
  }

  lemma ChangedMeansChanges(facts: seq<Fact>, source: Record, current: Record, target: Record)
    ensures Collect(facts, source, current, target).changed != [] <==> exists f | f in facts :: Changes(f, source, current, target)
  {
    hide Collect, Judge, Changes;
    var changed := Collect(facts, source, current, target).changed;
    forall f | f in facts
      ensures Judge(f, source, current, target) in {Converged, Clash, Write} <==> Changes(f, source, current, target)
    {
      JudgeMeans(f, source, current, target);
    }
    if changed != [] {
      assert changed[0] in changed;
      ChangedMeans(facts, source, current, target, changed[0]);
    }
    if f :| f in facts && Changes(f, source, current, target) {
      ChangedMeans(facts, source, current, target, f.field);
    }
  }

  /** What a plan writes: nothing if it is a conflict; otherwise exactly the fields that the
      source changed to something the record does not hold and the target left alone, and
      to the incoming value. */
  lemma WritesExactly(kind: Kind, space: nat -> bool, incoming: Input, source: Record, current: Record, target: Record, archived: bool)
    requires Made(kind, space, incoming, source, current, target, archived)
    ensures var plan, facts := Planned(kind, space, incoming, source, current, target, archived).value, Normalized(kind, space, incoming).value;
      if plan.verb.Conflicting? then plan.writable == map[]
      else
        && (forall f | f in facts && Writes(f, source, current, target) ::
              f.field in plan.writable && plan.writable[f.field] == f.value)
        && (forall k | k in plan.writable :: exists f | f in facts :: f.field == k && Writes(f, source, current, target))
  {
    hide Collect, Writes, Normalized;
    var facts := Normalized(kind, space, incoming).value;
    NormalizedDistinct(kind, space, incoming);
    var w := Collect(facts, source, current, target).writable;
    forall k | k in w ensures exists f | f in facts :: f.field == k && Writes(f, source, current, target) {
      WritableIsExact(facts, source, current, target, k);
    }
    forall f | f in facts && Writes(f, source, current, target) ensures f.field in w && w[f.field] == f.value {
      WritableIsExact(facts, source, current, target, f.field);
      WritableValue(facts, source, current, target, f);
    }
  }

  function FieldOf(f: Fact): Field {
    f.field
  }

  /** A field is reported as changed exactly if the source changed it, in the order in
      which the fields came in; and a plan with changes and no conflict is an update. */
  lemma ChangesExactly(kind: Kind, space: nat -> bool, incoming: Input, source: Record, current: Record, target: Record, archived: bool)
    requires Made(kind, space, incoming, source, current, target, archived)
    ensures var plan, facts := Planned(kind, space, incoming, source, current, target, archived).value, Normalized(kind, space, incoming).value;
      && plan.changed == Map(FieldOf, Filter((f: Fact) => Changes(f, source, current, target), facts))
      && (plan.verb.Update? <==> !plan.verb.Conflicting? && exists f | f in facts :: Changes(f, source, current, target))
  {
    hide Collect, Changes, Normalized;
    var facts := Normalized(kind, space, incoming).value;
    ChangedMeansChanges(facts, source, current, target);
    ChangedInTurn(facts, source, current, target);
  }

  lemma {:induction false} ChangedInTurn(facts: seq<Fact>, source: Record, current: Record, target: Record)
    ensures Collect(facts, source, current, target).changed
      == Map(FieldOf, Filter((f: Fact) => Changes(f, source, current, target), facts))
  {
    if facts != [] {
      hide Changes, Judge;
      var n := |facts| - 1;
      var keep := (f: Fact) => Changes(f, source, current, target);
      ChangedInTurn(facts[..n], source, current, target);
      JudgeMeans(facts[n], source, current, target);
      assert facts == facts[..n] + [facts[n]];
      FilterAppend(keep, facts[..n], facts[n]);
      if keep(facts[n]) {
        MapAppend(FieldOf, Filter(keep, facts[..n]), facts[n]);
      }
    }
  }

  /** A conflict is reported on exactly the fields that have one, and each of the other
      three kinds exactly if there is one. */
  lemma ConflictsListed(kind: Kind, space: nat -> bool, incoming: Input, source: Record, current: Record, target: Record, archived: bool)
    requires Made(kind, space, incoming, source, current, target, archived)
    ensures var plan, facts := Planned(kind, space, incoming, source, current, target, archived).value, Normalized(kind, space, incoming).value;
      && (forall k :: OnField(k) in plan.conflicts <==> exists f | f in facts ::
            f.field == k && (LacksBaseline(f, source, current, target) || Clashes(f, source, current, target)))
      && (BaselineUnknown in plan.conflicts <==> exists f | f in facts :: LacksBaseline(f, source, current, target))
      && (Archived in plan.conflicts <==> archived && exists f | f in facts :: Changes(f, source, current, target))
      && (DateRangeInvalid in plan.conflicts <==> kind.Credential? && DatesCross(facts, source, current, target))
  {
    hide Collect, Changes, LacksBaseline, Clashes, DatesCross, BreaksDates, Normalized;
    var facts := Normalized(kind, space, incoming).value;
    NormalizedDistinct(kind, space, incoming);
    CollectedConflicts(facts, source, current, target);
    ChangedMeansChanges(facts, source, current, target);
    CrossMeans(facts, source, current, target);
    OnlyCredentialsCross(kind, current, Collect(facts, source, current, target).writable);
  }

  lemma {:induction false} CollectedConflicts(facts: seq<Fact>, source: Record, current: Record, target: Record)
    ensures var c := Collect(facts, source, current, target).conflicts;
      && (forall k :: OnField(k) in c <==> exists f | f in facts ::
            f.field == k && (LacksBaseline(f, source, current, target) || Clashes(f, source, current, target)))
      && (BaselineUnknown in c <==> exists f | f in facts :: LacksBaseline(f, source, current, target))
      && Archived !in c && DateRangeInvalid !in c
  {
    hide LacksBaseline, Clashes, Changes, Writes, Judge;
    if facts != [] {
      var n := |facts| - 1;
      assert facts == facts[..n] + [facts[n]];
      CollectedConflicts(facts[..n], source, current, target);
      JudgeMeans(facts[n], source, current, target);
    }
  }

  /** After carrying out a plan without conflict, every changed field holds the
      incoming value and every other field is as before. */
  lemma PlanConverges(kind: Kind, space: nat -> bool, incoming: Input, source: Record, current: Record, target: Record, archived: bool)
    requires Made(kind, space, incoming, source, current, target, archived)
    requires !Planned(kind, space, incoming, source, current, target, archived).value.verb.Conflicting?
    ensures var plan, facts := Planned(kind, space, incoming, source, current, target, archived).value, Normalized(kind, space, incoming).value;
      var merged := Merged(current, plan.writable);
      && (forall f | f in facts && f.field in plan.changed :: f.field in merged && merged[f.field] == f.value)
      && (forall k | k in current && k !in plan.changed :: merged[k] == current[k])
      && merged.Keys == current.Keys
  {
    var facts := Normalized(kind, space, incoming).value;
    var t := Collect(facts, source, current, target);
    NormalizedDistinct(kind, space, incoming);
    ConflictsMean(facts, source, current, target);
    forall f | f in facts && f.field in t.changed ensures f.field in Merged(current, t.writable) && Merged(current, t.writable)[f.field] == f.value {
      ChangedFieldConverges(facts, source, current, target, f);
    }
    WritableIsChanged(facts, source, current, target);
  }

  lemma ChangedFieldConverges(facts: seq<Fact>, source: Record, current: Record, target: Record, f: Fact)
    requires DistinctFields(facts) && f in facts && Judge(f, source, current, target) !in {Unbased, Clash}
    ensures var t := Collect(facts, source, current, target);
      f.field in t.changed ==> f.field in Merged(current, t.writable) && Merged(current, t.writable)[f.field] == f.value
  {
    ChangedMeans(facts, source, current, target, f.field);
    WritableMeans(facts, source, current, target, f.field);
    SameField(facts, source, current, target, f);
    if f.field in Collect(facts, source, current, target).writable {
      WritableValue(facts, source, current, target, f);
    }
  }

  lemma WritableIsChanged(facts: seq<Fact>, source: Record, current: Record, target: Record)
    ensures var t := Collect(facts, source, current, target);
      forall k | k in t.writable :: k in t.changed && k in current
  {
    var t := Collect(facts, source, current, target);
    forall k | k in t.writable ensures k in t.changed && k in current {
      ChangedMeans(facts, source, current, target, k);
      WritableMeans(facts, source, current, target, k);
    }
  }

  /** Only one fact speaks of a field. */
  lemma SameField(facts: seq<Fact>, source: Record, current: Record, target: Record, f: Fact)
    requires DistinctFields(facts) && f in facts
    ensures forall verdicts: set<Verdict> :: Judged(facts, source, current, target, f.field, verdicts) <==> Judge(f, source, current, target) in verdicts
  {
    forall g | g in facts && g.field == f.field ensures g == f {
      var i, j :| 0 <= i < |facts| && 0 <= j < |facts| && facts[i] == f && facts[j] == g;
    }
  }

  /** A plan that writes credential fields leaves the two dates in order, if both are given. */
  lemma WrittenDatesInOrder(space: nat -> bool, incoming: Input, source: Record, current: Record, target: Record, archived: bool)
    requires Made(Credential, space, incoming, source, current, target, archived)
    ensures var plan := Planned(Credential, space, incoming, source, current, target, archived).value;
      plan.writable != map[] ==>
        InOrder(At(Merged(current, plan.writable), AcquiredDate), At(Merged(current, plan.writable), ValidTo))
  {
  }

  /** The source baseline after an import: what came in. */
  function Advance(source: Record, facts: seq<Fact>): Record {
    if facts == [] then source
    else
      var n := |facts| - 1;
      Advance(source, facts[..n])[facts[n].field := facts[n].value]
  }

  lemma {:induction false} AdvanceMeans(source: Record, facts: seq<Fact>, f: Fact)
    requires DistinctFields(facts) && f in facts
    ensures f.field in Advance(source, facts) && Advance(source, facts)[f.field] == f.value
  {
    var n := |facts| - 1;
    assert facts == facts[..n] + [facts[n]];
    if f in facts[..n] {
      AdvanceMeans(source, facts[..n], f);
    }
  }

  /** Importing the same input again, with the source baseline advanced and the first
      plan carried out, finds nothing changed and writes nothing. */
  lemma ReplanIsUnchanged(kind: Kind, space: nat -> bool, incoming: Input, source: Record, current: Record, target: Record, archived: bool, rebased: Record)
    requires Made(kind, space, incoming, source, current, target, archived)
    requires !Planned(kind, space, incoming, source, current, target, archived).value.verb.Conflicting?
    requires rebased.Keys >= target.Keys
    ensures var plan, facts := Planned(kind, space, incoming, source, current, target, archived).value, Normalized(kind, space, incoming).value;
      Planned(kind, space, incoming, Advance(source, facts), Merged(current, plan.writable), rebased, archived)
        == Some(Plan(Unchanged, [], [], map[]))
  {
    var plan, facts := Planned(kind, space, incoming, source, current, target, archived).value, Normalized(kind, space, incoming).value;
    NormalizedDistinct(kind, space, incoming);
    ConflictsMean(facts, source, current, target);
    forall f | f in facts ensures Judge(f, Advance(source, facts), Merged(current, plan.writable), rebased) == Same {
      AdvanceMeans(source, facts, f);
    }
    NothingCollected(facts, Advance(source, facts), Merged(current, plan.writable), rebased);
  }

  lemma {:induction false} NothingCollected(facts: seq<Fact>, source: Record, current: Record, target: Record)
    requires forall f | f in facts :: Judge(f, source, current, target) == Same
    ensures Collect(facts, source, current, target) == Tally([], [], map[])
  {
    if facts != [] {
      var n := |facts| - 1;
      assert facts == facts[..n] + [facts[n]];
      NothingCollected(facts[..n], source, current, target);
    }
  }
}
