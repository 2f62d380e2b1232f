/** What the three hashes of a payroll source package pin down
    (packages/shared/src/hr-yuzhou-payroll-source.ts, yuzhouPayrollSourceHashInputs,
    validateYuzhouPayrollSourceHashes). */
module PayrollHashes {
  import opened CanonicalJson
  import opened JsonValues
  import opened Keyed
  import opened Mapping
  import opened Options
  import opened PayrollPackage
  import opened Sorting
  import opened Texts

  /** The code units of a literal in the basic plane. */
  function Key(s: string): (units: Units)
    ensures |units| == |s| && forall i | 0 <= i < |s| && s[i] < '\U{10000}' :: units[i] == s[i] as nat
  {
    seq(|s|, i requires 0 <= i < |s| => if s[i] as nat < 0x1_0000 then s[i] as nat else 0)
  }

  // ---------- objects with given keys ----------

  function Properties(keys: seq<Units>, values: seq<Json>): (fields: seq<JsonValues.Field>)
    requires |keys| == |values|
    ensures |fields| == |keys|
  {
    seq(|keys|, i requires 0 <= i < |keys| => Field(keys[i], values[i]))
  }

  function Properly(keys: seq<Units>, values: seq<Json>): Json
    requires |keys| == |values|
  {
    Object(Properties(keys, values))
  }

  lemma ProperlyFormed(keys: seq<Units>, values: seq<Json>)
    requires |keys| == |values| && Distinct(keys) && forall v | v in values :: WellFormed(v)
    ensures WellFormed(Properly(keys, values))
  {
    var fields := Properties(keys, values);
    forall i, j | 0 <= i < j < |fields| ensures fields[i].key != fields[j].key {
      assert keys[i] != keys[j];
    }
  }

  /** Objects with the same distinct keys are the same only if their values are. */
  lemma SameProperties(keys: seq<Units>, values: seq<Json>, others: seq<Json>, i: nat)
    requires i < |keys| == |values| == |others| && Distinct(keys) && Same(Properly(keys, values), Properly(keys, others))
    ensures Same(values[i], others[i])
  {
    var es, fs := Properties(keys, values), Properties(keys, others);
    assert es[i] in es;
    var f :| f in fs && f.key == es[i].key && Same(es[i].value, f.value);
    var j :| 0 <= j < |fs| && fs[j] == f;
    assert keys[j] == keys[i];
    assert i == j;
  }

  // ---------- the hash inputs as JSON ----------

  predicate IsText(t: Text) {
    forall i | 0 <= i < |t| :: t[i] < 0x1_0000
  }

  function OptionalText(t: Option<Text>): Json
    requires t.Some? ==> IsText(t.value)
  {
    if t.Some? then String(t.value) else Null
  }

  function KindText(k: Kind): Units {
    match k
    case DecimalKind => Key("decimal")
    case TextKind => Key("text")
    case DateKind => Key("date")
  }

  function CategoryText(c: Category): Units {
    match c
    case Earning => Key("earning")
    case Deduction => Key("deduction")
    case EmployerContribution => Key("employer_contribution")
    case Summarised => Key("summary")
    case Informational => Key("informational")
    case Unclassified => Key("unclassified")
  }

  predicate MarkPrintable(m: BookMark) {
    IsSafe(m.scheme) && IsSafe(m.closeState) && IsText(m.closeHash)
  }

  predicate RosterPrintable(r: Roster) {
    IsSafe(r.scheme) && forall p | p in r.people :: IsText(p)
  }

  predicate ItemPrintable(i: Item) {
    && IsText(i.name) && IsText(i.code) && IsText(i.displayName) && IsText(i.legacyType) && IsText(i.addOrSub)
    && (i.scale.Some? ==> IsSafe(i.scale.value)) && IsSafe(i.sortNo) && IsText(i.sourceHash)
    && (i.metadata.Some? ==> WellFormed(i.metadata.value))
  }

  predicate FormulaPrintable(f: Formula) {
    && IsSafe(f.id) && (f.itemCode.Some? ==> IsText(f.itemCode.value)) && IsText(f.expression)
    && (f.condition.Some? ==> IsText(f.condition.value)) && IsSafe(f.calculationOrder) && IsText(f.sourceHash)
  }

  predicate CataloguePrintable(c: Catalogue) {
    && IsSafe(c.scheme) && (forall i | i in c.items :: ItemPrintable(i)) && (forall f | f in c.formulas :: FormulaPrintable(f))
  }

  const MARK_KEYS: seq<Units> := [Key("scheme"), Key("closeState"), Key("closeSourceHash")]
  const ROSTER_KEYS: seq<Units> := [Key("scheme"), Key("roster")]
  const CATALOGUE_KEYS: seq<Units> := [Key("scheme"), Key("items"), Key("formulas")]
  const FORMULA_KEYS: seq<Units> := [Key("legacyFormulaId"), Key("itemCode"), Key("rawExpression"), Key("rawCondition"),
                                     Key("calculationOrder"), Key("sourceHash")]
  const ITEM_KEYS: seq<Units> := [Key("legacyItemName"), Key("itemCode"), Key("displayName"), Key("valueType"),
                                  Key("legacyItemType"), Key("legacyAddOrSub"), Key("itemCategory"), Key("decimalScale"),
                                  Key("sortNo"), Key("sourceHash")]
  const METADATA_KEY: Units := Key("declarativeMetadata")

  function MarkValues(m: BookMark): seq<Json>
    requires MarkPrintable(m)
  {
    [Number(m.scheme), Number(m.closeState), String(m.closeHash)]
  }

  function MarkJson(m: BookMark): Json
    requires MarkPrintable(m)
  {
    Properly(MARK_KEYS, MarkValues(m))
  }

  function RosterValues(r: Roster): seq<Json>
    requires RosterPrintable(r)
  {
    [Number(r.scheme), Array(seq(|r.people|, i requires 0 <= i < |r.people| => assert r.people[i] in r.people; String(r.people[i])))]
  }

  function RosterJson(r: Roster): Json
    requires RosterPrintable(r)
  {
    Properly(ROSTER_KEYS, RosterValues(r))
  }

  function ItemValues(i: Item): seq<Json>
    requires ItemPrintable(i)
  {
    [String(i.name), String(i.code), String(i.displayName), String(KindText(i.kind)), String(i.legacyType), String(i.addOrSub),
     String(CategoryText(i.category)), if i.scale.Some? then Number(i.scale.value) else Null, Number(i.sortNo), String(i.sourceHash)]
  }

  function ItemJson(i: Item): Json
    requires ItemPrintable(i)
  {
    if i.metadata.Some? then Properly(ITEM_KEYS + [METADATA_KEY], ItemValues(i) + [i.metadata.value])
    else Properly(ITEM_KEYS, ItemValues(i))
  }

  function FormulaValues(f: Formula): seq<Json>
    requires FormulaPrintable(f)
  {
    [Number(f.id), OptionalText(f.itemCode), String(f.expression), OptionalText(f.condition),
     Number(f.calculationOrder), String(f.sourceHash)]
  }

  function FormulaJson(f: Formula): Json
    requires FormulaPrintable(f)
  {
    Properly(FORMULA_KEYS, FormulaValues(f))
  }

  function CatalogueValues(c: Catalogue): seq<Json>
    requires CataloguePrintable(c)
  {
    [Number(c.scheme),
     Array(seq(|c.items|, i requires 0 <= i < |c.items| => assert c.items[i] in c.items; ItemJson(c.items[i]))),
     Array(seq(|c.formulas|, i requires 0 <= i < |c.formulas| => assert c.formulas[i] in c.formulas; FormulaJson(c.formulas[i])))]
  }

  function CatalogueJson(c: Catalogue): Json
    requires CataloguePrintable(c)
  {
    Properly(CATALOGUE_KEYS, CatalogueValues(c))
  }

  predicate Printable(p: Package) {
    var inputs := InputsOf(p);
    && (forall m | m in inputs.bookSet :: MarkPrintable(m)) && (forall r | r in inputs.roster :: RosterPrintable(r))
    && (forall c | c in inputs.catalog :: CataloguePrintable(c))
  }

  function BookSetJson(p: Package): Json
    requires Printable(p)
  {
    var marks := InputsOf(p).bookSet;
    Array(seq(|marks|, i requires 0 <= i < |marks| => assert marks[i] in marks; MarkJson(marks[i])))
  }

  function RostersJson(p: Package): Json
    requires Printable(p)
  {
    var rosters := InputsOf(p).roster;
    Array(seq(|rosters|, i requires 0 <= i < |rosters| => assert rosters[i] in rosters; RosterJson(rosters[i])))
  }

  function CatalogsJson(p: Package): Json
    requires Printable(p)
  {
    var catalogs := InputsOf(p).catalog;
    Array(seq(|catalogs|, i requires 0 <= i < |catalogs| => assert catalogs[i] in catalogs; CatalogueJson(catalogs[i])))
  }

  // ---------- the keys are distinct ----------

  lemma MarkKeysDistinct()
    ensures Distinct(MARK_KEYS) && Distinct(ROSTER_KEYS) && Distinct(CATALOGUE_KEYS)
  {
    assert |MARK_KEYS[0]| == 6 && |MARK_KEYS[1]| == 10 && |MARK_KEYS[2]| == 15;
    assert ROSTER_KEYS[0][0] == 's' as nat && ROSTER_KEYS[1][0] == 'r' as nat;
    assert |CATALOGUE_KEYS[0]| == 6 && |CATALOGUE_KEYS[1]| == 5 && |CATALOGUE_KEYS[2]| == 8;
  }

  lemma FormulaKeysDistinct()
    ensures Distinct(FORMULA_KEYS)
  {
    var k := FORMULA_KEYS;
    assert |k[0]| == 15 && |k[1]| == 8 && |k[2]| == 13 && |k[3]| == 12 && |k[4]| == 16 && |k[5]| == 10;
  }

  lemma ItemKeysDistinct()
    ensures Distinct(ITEM_KEYS) && METADATA_KEY !in ITEM_KEYS && Distinct(ITEM_KEYS + [METADATA_KEY])
  {
    var k := ITEM_KEYS;
    assert |k[0]| == 14 && |k[1]| == 8 && |k[2]| == 11 && |k[3]| == 9 && |k[4]| == 14;
    assert |k[5]| == 14 && |k[6]| == 12 && |k[7]| == 12 && |k[8]| == 6 && |k[9]| == 10 && |METADATA_KEY| == 19;
    assert k[0][10] == 'N' as nat && k[4][10] == 'T' as nat && k[5][10] == 'r' as nat;
    assert k[6][0] == 'i' as nat && k[7][0] == 'd' as nat;
    forall i | 0 <= i < |k| ensures |k[i]| != 19 {
    }
  }

  // ---------- what the hash inputs say ----------

  /** The object has a property of that name and value. */
  ghost predicate Has(j: Json, name: string, value: Json) {
    j.Object? && exists f | f in j.fields :: f.value == value && IsNamed(f, name)
  }

  predicate IsNamed(f: JsonValues.Field, name: string) {
    |f.key| == |name| && forall i | 0 <= i < |name| :: f.key[i] == name[i] as nat
  }

  predicate IsAscii(name: string) {
    forall i | 0 <= i < |name| :: name[i] as nat < 128
  }

  lemma HasAt(keys: seq<Units>, values: seq<Json>, i: nat, name: string)
    requires |keys| == |values| && i < |keys| && keys[i] == Key(name) && IsAscii(name)
    ensures Has(Properly(keys, values), name, values[i])
  {
    var f := Properties(keys, values)[i];
    assert f in Properties(keys, values) && IsNamed(f, name);
  }

  ghost function OptionalString(t: Option<Text>): Json
    requires t.Some? ==> IsText(t.value)
  {
    match t
    case None => Null
    case Some(text) => String(text)
  }

  /** What stands for a book in the first hash input. */
  lemma MarkSays(m: BookMark)
    requires MarkPrintable(m)
    ensures var j := MarkJson(m);
      && Has(j, "scheme", Number(m.scheme)) && Has(j, "closeState", Number(m.closeState))
      && Has(j, "closeSourceHash", String(m.closeHash)) && |j.fields| == 3
  {
    hide Has;
    HasAt(MARK_KEYS, MarkValues(m), 0, "scheme");
    HasAt(MARK_KEYS, MarkValues(m), 1, "closeState");
    HasAt(MARK_KEYS, MarkValues(m), 2, "closeSourceHash");
  }

  /** In the second: its people, in canonical order. */
  lemma RosterSays(r: Roster)
    requires RosterPrintable(r)
    ensures var j := RosterJson(r);
      && Has(j, "scheme", Number(r.scheme)) && |j.fields| == 2
      && exists names: seq<Json> :: Has(j, "roster", Array(names)) && |names| == |r.people|
           && forall i | 0 <= i < |names| :: names[i].String? && names[i].s == r.people[i]
  {
    hide Has;
    HasAt(ROSTER_KEYS, RosterValues(r), 0, "scheme");
    HasAt(ROSTER_KEYS, RosterValues(r), 1, "roster");
    var names := RosterValues(r)[1].elements;
    assert |names| == |r.people| && forall i | 0 <= i < |names| :: names[i].String? && names[i].s == r.people[i];
  }

  /** In the third, for each item and formula of its catalogue. */
  lemma FormulaSays(f: Formula)
    requires FormulaPrintable(f)
    ensures var j := FormulaJson(f);
      && Has(j, "legacyFormulaId", Number(f.id)) && Has(j, "itemCode", OptionalString(f.itemCode))
      && Has(j, "rawExpression", String(f.expression)) && Has(j, "rawCondition", OptionalString(f.condition))
      && Has(j, "calculationOrder", Number(f.calculationOrder)) && Has(j, "sourceHash", String(f.sourceHash))
      && |j.fields| == 6
  {
    hide Has, Key;
    var v := FormulaValues(f);
    HasAt(FORMULA_KEYS, v, 0, "legacyFormulaId");
    HasAt(FORMULA_KEYS, v, 1, "itemCode");
    HasAt(FORMULA_KEYS, v, 2, "rawExpression");
    HasAt(FORMULA_KEYS, v, 3, "rawCondition");
    HasAt(FORMULA_KEYS, v, 4, "calculationOrder");
    HasAt(FORMULA_KEYS, v, 5, "sourceHash");
  }

  lemma ItemSays(i: Item)
    requires ItemPrintable(i)
    ensures var j := ItemJson(i);
      && Has(j, "legacyItemName", String(i.name)) && Has(j, "itemCode", String(i.code))
      && Has(j, "displayName", String(i.displayName)) && Has(j, "valueType", String(KindText(i.kind)))
      && Has(j, "legacyItemType", String(i.legacyType)) && Has(j, "legacyAddOrSub", String(i.addOrSub))
      && Has(j, "itemCategory", String(CategoryText(i.category)))
      && Has(j, "decimalScale", if i.scale.Some? then Number(i.scale.value) else Null)
      && Has(j, "sortNo", Number(i.sortNo)) && Has(j, "sourceHash", String(i.sourceHash))
      && (i.metadata.Some? ==> Has(j, "declarativeMetadata", i.metadata.value))
      && |j.fields| == if i.metadata.Some? then 11 else 10
  {
    hide Has, KindText, CategoryText;
    var keys := if i.metadata.Some? then ITEM_KEYS + [METADATA_KEY] else ITEM_KEYS;
    var v := if i.metadata.Some? then ItemValues(i) + [i.metadata.value] else ItemValues(i);
    TextsSaid(i, keys, v);
    OthersSaid(i, keys, v);
    if i.metadata.Some? {
      HasAt(keys, v, 10, "declarativeMetadata");
    }
  }

  lemma TextsSaid(i: Item, keys: seq<Units>, v: seq<Json>)
    requires ItemPrintable(i) && |keys| == |v| && ITEM_KEYS <= keys && ItemValues(i) <= v
    ensures var j := Properly(keys, v);
      && Has(j, "legacyItemName", String(i.name)) && Has(j, "itemCode", String(i.code))
      && Has(j, "displayName", String(i.displayName)) && Has(j, "legacyItemType", String(i.legacyType))
      && Has(j, "legacyAddOrSub", String(i.addOrSub))
  {
    hide Has, KindText, CategoryText, Properties, Properly, Key;
    assert forall k | 0 <= k < 6 :: keys[k] == ITEM_KEYS[k] && v[k] == ItemValues(i)[k];
    HasAt(keys, v, 0, "legacyItemName");
    HasAt(keys, v, 1, "itemCode");
    HasAt(keys, v, 2, "displayName");
    HasAt(keys, v, 4, "legacyItemType");
    HasAt(keys, v, 5, "legacyAddOrSub");
  }

  lemma OthersSaid(i: Item, keys: seq<Units>, v: seq<Json>)
    requires ItemPrintable(i) && |keys| == |v| && ITEM_KEYS <= keys && ItemValues(i) <= v
    ensures var j := Properly(keys, v);
      && Has(j, "valueType", String(KindText(i.kind))) && Has(j, "itemCategory", String(CategoryText(i.category)))
      && Has(j, "decimalScale", if i.scale.Some? then Number(i.scale.value) else Null)
      && Has(j, "sortNo", Number(i.sortNo)) && Has(j, "sourceHash", String(i.sourceHash))
  {
    hide Has, KindText, CategoryText, Properties, Properly, Key;
    assert forall k | 3 <= k < 10 :: keys[k] == ITEM_KEYS[k] && v[k] == ItemValues(i)[k];
    HasAt(keys, v, 3, "valueType");
    HasAt(keys, v, 6, "itemCategory");
    HasAt(keys, v, 7, "decimalScale");
    HasAt(keys, v, 8, "sortNo");
    HasAt(keys, v, 9, "sourceHash");
  }

  // ---------- the same JSON means the same input ----------

  lemma SameMark(m: BookMark, n: BookMark)
    requires MarkPrintable(m) && MarkPrintable(n) && Same(MarkJson(m), MarkJson(n))
    ensures m == n
  {
    MarkKeysDistinct();
    var v, w := MarkValues(m), MarkValues(n);
    forall i | 0 <= i < 3 ensures Same(v[i], w[i]) {
      SameProperties(MARK_KEYS, v, w, i);
    }
    assert Same(v[0], w[0]) && Same(v[1], w[1]) && Same(v[2], w[2]);
  }

  lemma SameRoster(r: Roster, s: Roster)
    requires RosterPrintable(r) && RosterPrintable(s) && Same(RosterJson(r), RosterJson(s))
    ensures r == s
  {
    MarkKeysDistinct();
    var v, w := RosterValues(r), RosterValues(s);
    SameProperties(ROSTER_KEYS, v, w, 0);
    SameProperties(ROSTER_KEYS, v, w, 1);
    forall i | 0 <= i < |r.people| ensures r.people[i] == s.people[i] {
      assert Same(v[1].elements[i], w[1].elements[i]);
    }
  }

  /** An item with its metadata as canonical text: the order of its keys is immaterial. */
  datatype PrintedItem = PrintedItem(item: Item, metadata: Option<Text>)

  function Printed(i: Item): PrintedItem {
    PrintedItem(i.(metadata := None), if i.metadata.Some? then Some(Print(i.metadata.value)) else None)
  }

  lemma KindsApart(k: Kind, l: Kind)
    requires KindText(k) == KindText(l)
    ensures k == l
  {
    assert |Key("decimal")| == 7 && Key("text")[0] == 't' as nat && Key("date")[0] == 'd' as nat;
  }

  lemma CategoriesApart(c: Category, d: Category)
    requires CategoryText(c) == CategoryText(d)
    ensures c == d
  {
    assert Key("earning")[0] == 'e' as nat && |Key("earning")| == 7 && |Key("deduction")| == 9 && |Key("employer_contribution")| == 21;
    assert Key("summary")[0] == 's' as nat && |Key("informational")| == 13 && |Key("unclassified")| == 12;
  }

  lemma SameItemValues(i: Item, j: Item)
    requires ItemPrintable(i) && ItemPrintable(j)
    requires forall k | 0 <= k < 10 :: Same(ItemValues(i)[k], ItemValues(j)[k])
    ensures i.(metadata := None) == j.(metadata := None)
  {
    var v, w := ItemValues(i), ItemValues(j);
    assert Same(v[0], w[0]) && Same(v[1], w[1]) && Same(v[2], w[2]) && Same(v[3], w[3]) && Same(v[4], w[4]);
    assert Same(v[5], w[5]) && Same(v[6], w[6]) && Same(v[7], w[7]) && Same(v[8], w[8]) && Same(v[9], w[9]);
    KindsApart(i.kind, j.kind);
    CategoriesApart(i.category, j.category);
  }

  lemma SameItem(i: Item, j: Item)
    requires ItemPrintable(i) && ItemPrintable(j) && Same(ItemJson(i), ItemJson(j))
    ensures Printed(i) == Printed(j)
  {
    ItemKeysDistinct();
    var v, w := ItemValues(i), ItemValues(j);
    if i.metadata.Some? {
      var keys, vs := ITEM_KEYS + [METADATA_KEY], v + [i.metadata.value];
      assert j.metadata.Some?;
      var ws := w + [j.metadata.value];
      forall k | 0 <= k < 11 ensures Same(vs[k], ws[k]) {
        SameProperties(keys, vs, ws, k);
      }
      forall k | 0 <= k < 10 ensures Same(v[k], w[k]) {
        assert vs[k] == v[k] && ws[k] == w[k];
      }
      assert Same(vs[10], ws[10]);
      SamePrints(i.metadata.value, j.metadata.value);
    } else {
      forall k | 0 <= k < 10 ensures Same(v[k], w[k]) {
        SameProperties(ITEM_KEYS, v, w, k);
      }
    }
    SameItemValues(i, j);
  }

  lemma SameFormula(f: Formula, g: Formula)
    requires FormulaPrintable(f) && FormulaPrintable(g) && Same(FormulaJson(f), FormulaJson(g))
    ensures f == g
  {
    FormulaKeysDistinct();
    var v, w := FormulaValues(f), FormulaValues(g);
    forall k | 0 <= k < 6 ensures Same(v[k], w[k]) {
      SameProperties(FORMULA_KEYS, v, w, k);
    }
    assert Same(v[0], w[0]) && Same(v[1], w[1]) && Same(v[2], w[2]) && Same(v[3], w[3]) && Same(v[4], w[4]) && Same(v[5], w[5]);
  }

  /** A catalogue with its items printed. */
  datatype PrintedCatalogue = PrintedCatalogue(scheme: int, items: seq<PrintedItem>, formulas: seq<Formula>)

  function PrintedCatalogueOf(c: Catalogue): PrintedCatalogue {
    PrintedCatalogue(c.scheme, Map(Printed, c.items), c.formulas)
  }

  lemma SameCatalogue(c: Catalogue, d: Catalogue)
    requires CataloguePrintable(c) && CataloguePrintable(d) && Same(CatalogueJson(c), CatalogueJson(d))
    ensures PrintedCatalogueOf(c) == PrintedCatalogueOf(d)
  {
    MarkKeysDistinct();
    var v, w := CatalogueValues(c), CatalogueValues(d);
    forall k | 0 <= k < 3 ensures Same(v[k], w[k]) {
      SameProperties(CATALOGUE_KEYS, v, w, k);
    }
    assert Same(v[0], w[0]) && Same(v[1], w[1]) && Same(v[2], w[2]);
    forall i | 0 <= i < |c.items| ensures Printed(c.items[i]) == Printed(d.items[i]) {
      assert Same(v[1].elements[i], w[1].elements[i]);
      assert c.items[i] in c.items && d.items[i] in d.items;
      SameItem(c.items[i], d.items[i]);
    }
    forall i | 0 <= i < |c.formulas| ensures c.formulas[i] == d.formulas[i] {
      assert Same(v[2].elements[i], w[2].elements[i]);
      assert c.formulas[i] in c.formulas && d.formulas[i] in d.formulas;
      SameFormula(c.formulas[i], d.formulas[i]);
    }
  }

  // ---------- every input is well-formed JSON ----------

  lemma ItemFormed(i: Item)
    requires ItemPrintable(i)
    ensures WellFormed(ItemJson(i))
  {
    ItemKeysDistinct();
    forall v | v in ItemValues(i) ensures WellFormed(v) {
    }
    if i.metadata.Some? {
      ProperlyFormed(ITEM_KEYS + [METADATA_KEY], ItemValues(i) + [i.metadata.value]);
    } else {
      ProperlyFormed(ITEM_KEYS, ItemValues(i));
    }
  }

  lemma CatalogueFormed(c: Catalogue)
    requires CataloguePrintable(c)
    ensures WellFormed(CatalogueJson(c))
  {
    MarkKeysDistinct();
    FormulaKeysDistinct();
    var v := CatalogueValues(c);
    forall e | e in v[1].elements ensures WellFormed(e) {
      var i :| 0 <= i < |c.items| && v[1].elements[i] == e;
      assert c.items[i] in c.items;
      ItemFormed(c.items[i]);
    }
    forall e | e in v[2].elements ensures WellFormed(e) {
      var i :| 0 <= i < |c.formulas| && v[2].elements[i] == e;
      assert c.formulas[i] in c.formulas;
      ProperlyFormed(FORMULA_KEYS, FormulaValues(c.formulas[i]));
    }
    assert WellFormed(v[0]) && WellFormed(v[1]) && WellFormed(v[2]);
    ProperlyFormed(CATALOGUE_KEYS, v);
  }

  lemma MarkFormed(m: BookMark)
    requires MarkPrintable(m)
    ensures WellFormed(MarkJson(m))
  {
    MarkKeysDistinct();
    ProperlyFormed(MARK_KEYS, MarkValues(m));
  }

  lemma MarksFormed(p: Package)
    requires Printable(p)
    ensures WellFormed(BookSetJson(p))
  {
    var marks := InputsOf(p).bookSet;
    forall e | e in BookSetJson(p).elements ensures WellFormed(e) {
      var i :| 0 <= i < |marks| && BookSetJson(p).elements[i] == e;
      assert marks[i] in marks;
      MarkFormed(marks[i]);
    }
  }

  lemma RostersFormed(p: Package)
    requires Printable(p)
    ensures WellFormed(RostersJson(p))
  {
    var rosters := InputsOf(p).roster;
    forall e | e in RostersJson(p).elements ensures WellFormed(e) {
      var i :| 0 <= i < |rosters| && RostersJson(p).elements[i] == e;
      assert rosters[i] in rosters;
      RosterFormed(rosters[i]);
    }
  }

  lemma CatalogsFormed(p: Package)
    requires Printable(p)
    ensures WellFormed(CatalogsJson(p))
  {
    var catalogs := InputsOf(p).catalog;
    forall e | e in CatalogsJson(p).elements ensures WellFormed(e) {
      var i :| 0 <= i < |catalogs| && CatalogsJson(p).elements[i] == e;
      assert catalogs[i] in catalogs;
      CatalogueFormed(catalogs[i]);
    }
  }

  lemma RosterFormed(r: Roster)
    requires RosterPrintable(r)
    ensures WellFormed(RosterJson(r))
  {
    MarkKeysDistinct();
    assert forall e | e in RosterValues(r)[1].elements :: e.String?;
    ProperlyFormed(ROSTER_KEYS, RosterValues(r));
  }

  // ---------- what the hashes pin down ----------

  /** What the hash inputs cover of a book. */
  datatype BookFacts = BookFacts(
    scheme: int, closeState: int, closeHash: Text, people: multiset<Text>,
    items: multiset<PrintedItem>, formulas: multiset<Formula>)

  function FactsOf(b: Book): BookFacts {
    BookFacts(b.scheme, b.closeState, b.closeHash, multiset(Map(PersonOf, b.records)),
              multiset(Map(Printed, b.items)), multiset(b.formulas))
  }

  lemma CanonicalBookFacts(b: Book)
    ensures FactsOf(CanonicalBook(b)) == FactsOf(b)
  {
    MapMultiset(PersonOf, CanonicalBook(b).records, Map(CanonicalRecord, b.records));
    assert Map(PersonOf, Map(CanonicalRecord, b.records)) == Map(PersonOf, b.records);
    MapMultiset(Printed, CanonicalBook(b).items, b.items);
  }

  lemma CanonicalFacts(p: Package)
    ensures multiset(Map(FactsOf, Canonical(p).books)) == multiset(Map(FactsOf, p.books))
  {
    forall b | b in p.books ensures FactsOf(CanonicalBook(b)) == FactsOf(b) {
      CanonicalBookFacts(b);
    }
    MapMultiset(FactsOf, Canonical(p).books, Map(CanonicalBook, p.books));
    MapAfter(FactsOf, CanonicalBook, FactsOf, p.books);
  }

  /** The digest of a text; distinct texts have distinct digests. */
  type Digest = Text -> Text

  ghost predicate Collisionless(digest: Digest) {
    forall x, y {:trigger digest(x), digest(y)} :: digest(x) == digest(y) ==> x == y
  }

  /** The three declared hashes are the digests of the canonical texts. */
  predicate HashesMatch(digest: Digest, p: Package)
    requires Printable(p)
  {
    && p.header.bookSet == digest(Print(BookSetJson(p)))
    && p.header.roster == digest(Print(RostersJson(p)))
    && p.header.catalog == digest(Print(CatalogsJson(p)))
  }

  lemma SameTexts(digest: Digest, p: Package, q: Package)
    requires Collisionless(digest) && Printable(p) && Printable(q) && HashesMatch(digest, p) && HashesMatch(digest, q)
    requires p.header.bookSet == q.header.bookSet && p.header.roster == q.header.roster
    requires p.header.catalog == q.header.catalog
    ensures Same(BookSetJson(p), BookSetJson(q)) && Same(RostersJson(p), RostersJson(q)) && Same(CatalogsJson(p), CatalogsJson(q))
  {
    MarksFormed(p);
    MarksFormed(q);
    RostersFormed(p);
    RostersFormed(q);
    CatalogsFormed(p);
    CatalogsFormed(q);
    CanonicalIsFaithful(BookSetJson(p), BookSetJson(q));
    CanonicalIsFaithful(RostersJson(p), RostersJson(q));
    CanonicalIsFaithful(CatalogsJson(p), CatalogsJson(q));
  }

  lemma SameMarks(p: Package, q: Package)
    requires Printable(p) && Printable(q) && Same(BookSetJson(p), BookSetJson(q))
    ensures InputsOf(p).bookSet == InputsOf(q).bookSet
  {
    var a, b := InputsOf(p).bookSet, InputsOf(q).bookSet;
    forall i | 0 <= i < |a| ensures a[i] == b[i] {
      assert a[i] in a && b[i] in b;
      assert Same(BookSetJson(p).elements[i], BookSetJson(q).elements[i]);
      SameMark(a[i], b[i]);
    }
  }

  lemma SameRosters(p: Package, q: Package)
    requires Printable(p) && Printable(q) && Same(RostersJson(p), RostersJson(q))
    ensures InputsOf(p).roster == InputsOf(q).roster
  {
    var a, b := InputsOf(p).roster, InputsOf(q).roster;
    forall i | 0 <= i < |a| ensures a[i] == b[i] {
      assert a[i] in a && b[i] in b;
      assert Same(RostersJson(p).elements[i], RostersJson(q).elements[i]);
      SameRoster(a[i], b[i]);
    }
  }

  lemma SameCatalogs(p: Package, q: Package)
    requires Printable(p) && Printable(q) && Same(CatalogsJson(p), CatalogsJson(q))
    ensures Map(PrintedCatalogueOf, InputsOf(p).catalog) == Map(PrintedCatalogueOf, InputsOf(q).catalog)
  {
    var a, b := InputsOf(p).catalog, InputsOf(q).catalog;
    forall i | 0 <= i < |a| ensures PrintedCatalogueOf(a[i]) == PrintedCatalogueOf(b[i]) {
      assert a[i] in a && b[i] in b;
      assert Same(CatalogsJson(p).elements[i], CatalogsJson(q).elements[i]);
      SameCatalogue(a[i], b[i]);
    }
  }

  /** Two packages that pass the hash check with the same three hashes agree, book by
      book, on scheme, closing state, people, items and formulas; item metadata up to
      the order of its keys. */
  lemma HashesPinContent(digest: Digest, p: Package, q: Package)
    requires Collisionless(digest) && Printable(p) && Printable(q) && HashesMatch(digest, p) && HashesMatch(digest, q)
    requires p.header.bookSet == q.header.bookSet && p.header.roster == q.header.roster
    requires p.header.catalog == q.header.catalog
    ensures multiset(Map(FactsOf, p.books)) == multiset(Map(FactsOf, q.books))
  {
    SameTexts(digest, p, q);
    SameMarks(p, q);
    SameRosters(p, q);
    SameCatalogs(p, q);
    InputsDetermineFacts(p, q);
    CanonicalFacts(p);
    CanonicalFacts(q);
  }

  lemma InputsDetermineFacts(p: Package, q: Package)
    requires InputsOf(p).bookSet == InputsOf(q).bookSet && InputsOf(p).roster == InputsOf(q).roster
    requires Map(PrintedCatalogueOf, InputsOf(p).catalog) == Map(PrintedCatalogueOf, InputsOf(q).catalog)
    ensures Map(FactsOf, Canonical(p).books) == Map(FactsOf, Canonical(q).books)
  {
    var books, others := Canonical(p).books, Canonical(q).books;
    assert |InputsOf(p).bookSet| == |books| && |InputsOf(q).bookSet| == |others|;
    forall i | 0 <= i < |books| ensures FactsOf(books[i]) == FactsOf(others[i]) {
      assert InputsOf(p).bookSet[i] == MarkOf(books[i]) && InputsOf(q).bookSet[i] == MarkOf(others[i]);
      assert InputsOf(p).roster[i] == RosterOf(books[i]) && InputsOf(q).roster[i] == RosterOf(others[i]);
      assert Map(PrintedCatalogueOf, InputsOf(p).catalog)[i] == PrintedCatalogueOf(CatalogueOf(books[i]));
      assert Map(PrintedCatalogueOf, InputsOf(q).catalog)[i] == PrintedCatalogueOf(CatalogueOf(others[i]));
    }
  }
}
