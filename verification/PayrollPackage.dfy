/** The monthly payroll source package: its canonical form, its hash inputs and
    what makes it acceptable (packages/shared/src/hr-yuzhou-payroll-source.ts). */
module PayrollPackage {
  import opened CanonicalJson
  import opened JsonText
  import opened JsonValues
  import opened Keyed
  import opened Mapping
  import opened Options
  import opened Sorting
  import opened Texts

  const MAX_BYTES := 8 * 1024 * 1024
  const MAX_BOOKS := 50
  const MAX_RECORDS := 5000
  const MAX_VALUES := 200000
  const MAX_ITEMS := 2048
  const MAX_FORMULAS := 4096
  const INT_MIN := -0x8000_0000
  const INT_MAX := 0x7FFF_FFFF

  datatype Kind = DecimalKind | TextKind | DateKind
  datatype Category = Earning | Deduction | EmployerContribution | Summarised | Informational | Unclassified

  datatype Value = Value(
    column: Text, kind: Kind, sourceNull: bool,
    decimal: Option<Text>, text: Option<Text>, date: Option<Text>,
    sourceHash: Text)

  /** An amount of the summary: missing, null or a string. */
  datatype Amount = Absent | Nothing | Amount(digits: Text)
  datatype Summary = Summary(gross: Amount, deduction: Amount, tax: Amount, net: Amount)

  datatype Record = Record(
    person: Text, rowHash: Text, employee: Text, table: Text,
    values: seq<Value>, summary: Summary)

  datatype Item = Item(
    name: Text, code: Text, displayName: Text, kind: Kind, legacyType: Text, addOrSub: Text,
    category: Category, scale: Option<int>, sortNo: int, sourceHash: Text, metadata: Option<Json>)

  datatype Formula = Formula(
    id: int, itemCode: Option<Text>, expression: Text, condition: Option<Text>,
    calculationOrder: int, sourceHash: Text)

  datatype Book = Book(
    scheme: int, name: Option<Text>, closeState: int, closeHash: Text,
    records: seq<Record>, items: seq<Item>, formulas: seq<Formula>)

  /** The properties of a package other than its books. */
  datatype Header = Header(
    tenantId: Text, parkId: Text, manifestId: Text, sourceInstance: Text, month: Text, extractedAt: Text,
    evidence: Text, headVersion: int, headHash: Option<Text>, bookSet: Text, roster: Text, catalog: Text)

  datatype Package = Package(header: Header, books: seq<Book>)

  // ---------- canonical form ----------

  function ColumnOf(v: Value): Text { v.column }
  function PersonOf(r: Record): Text { r.person }
  function RowHashOf(r: Record): Text { r.rowHash }
  function EmployeeOf(r: Record): Text { r.employee }
  function CodeOf(i: Item): Text { i.code }
  function IdOf(f: Formula): int { f.id }
  function SchemeOf(b: Book): int { b.scheme }

  function CanonicalRecord(r: Record): Record {
    r.(values := SortBy(ByText(ColumnOf), r.values))
  }

  function CanonicalBook(b: Book): Book {
    b.(records := SortBy(ByText(PersonOf), Map(CanonicalRecord, b.records)),
       items := SortBy(ByText(CodeOf), b.items),
       formulas := SortBy(ByNumber(IdOf), b.formulas))
  }

  function Canonical(p: Package): Package {
    p.(books := SortBy(ByNumber(SchemeOf), Map(CanonicalBook, p.books)))
  }

  // ---------- what a package says, regardless of order ----------

  datatype RecordBag = RecordBag(
    person: Text, rowHash: Text, employee: Text, table: Text, values: multiset<Value>, summary: Summary)

  datatype BookBag = BookBag(
    scheme: int, name: Option<Text>, closeState: int, closeHash: Text,
    records: multiset<RecordBag>, items: multiset<Item>, formulas: multiset<Formula>)

  datatype PackageBag = PackageBag(header: Header, books: multiset<BookBag>)

  function BagOfRecord(r: Record): RecordBag {
    RecordBag(r.person, r.rowHash, r.employee, r.table, multiset(r.values), r.summary)
  }

  function BagOfBook(b: Book): BookBag {
    BookBag(b.scheme, b.name, b.closeState, b.closeHash,
            multiset(Map(BagOfRecord, b.records)), multiset(b.items), multiset(b.formulas))
  }

  function Bag(p: Package): PackageBag {
    PackageBag(p.header, multiset(Map(BagOfBook, p.books)))
  }

  // ---------- the uniqueness that makes every sort strict ----------

  ghost predicate StrictRecord(r: Record) {
    DistinctOn(ColumnOf, r.values)
  }

  ghost predicate StrictBook(b: Book) {
    && (forall r | r in b.records :: StrictRecord(r))
    && DistinctOn(PersonOf, b.records)
    && DistinctOn(CodeOf, b.items)
    && DistinctOn(IdOf, b.formulas)
  }

  ghost predicate Strict(p: Package) {
    && (forall b | b in p.books :: StrictBook(b))
    && DistinctOn(SchemeOf, p.books)
  }

  lemma SameRecord(r: Record, s: Record)
    requires StrictRecord(r) && BagOfRecord(r) == BagOfRecord(s)
    ensures CanonicalRecord(r) == CanonicalRecord(s)
  {
    SortByTextUnique(ColumnOf, r.values, s.values);
  }

  lemma SameRecords(records: seq<Record>, others: seq<Record>)
    requires forall r | r in records :: StrictRecord(r)
    requires multiset(Map(BagOfRecord, records)) == multiset(Map(BagOfRecord, others))
    ensures multiset(Map(CanonicalRecord, records)) == multiset(Map(CanonicalRecord, others))
  {
    forall i, j | 0 <= i < |records| && 0 <= j < |others| && BagOfRecord(records[i]) == BagOfRecord(others[j])
      ensures CanonicalRecord(records[i]) == CanonicalRecord(others[j])
    {
      SameRecord(records[i], others[j]);
    }
    MapThrough(BagOfRecord, CanonicalRecord, records, others);
  }

  lemma SameBook(b: Book, c: Book)
    requires StrictBook(b) && BagOfBook(b) == BagOfBook(c)
    ensures CanonicalBook(b) == CanonicalBook(c)
  {
    SameRecords(b.records, c.records);
    MapDistinctOn(CanonicalRecord, PersonOf, PersonOf, b.records);
    SortByTextUnique(PersonOf, Map(CanonicalRecord, b.records), Map(CanonicalRecord, c.records));
    SortByTextUnique(CodeOf, b.items, c.items);
    SortByNumberUnique(IdOf, b.formulas, c.formulas);
  }

  lemma SameBooks(books: seq<Book>, others: seq<Book>)
    requires forall b | b in books :: StrictBook(b)
    requires multiset(Map(BagOfBook, books)) == multiset(Map(BagOfBook, others))
    ensures multiset(Map(CanonicalBook, books)) == multiset(Map(CanonicalBook, others))
  {
    assert Determines(BagOfBook, CanonicalBook, books, others) by {
      forall i, j | 0 <= i < |books| && 0 <= j < |others| && BagOfBook(books[i]) == BagOfBook(others[j])
        ensures CanonicalBook(books[i]) == CanonicalBook(others[j])
      {
        SameBook(books[i], others[j]);
      }
    }
    MapThrough(BagOfBook, CanonicalBook, books, others);
  }

  lemma SamePackage(p: Package, q: Package)
    requires Strict(p) && Bag(p) == Bag(q)
    ensures Canonical(p) == Canonical(q)
  {
    SameBooks(p.books, q.books);
    MapDistinctOn(CanonicalBook, SchemeOf, SchemeOf, p.books);
    SortByNumberUnique(SchemeOf, Map(CanonicalBook, p.books), Map(CanonicalBook, q.books));
  }

  lemma CanonicalBookBag(b: Book)
    ensures BagOfBook(CanonicalBook(b)) == BagOfBook(b)
  {
    MapMultiset(BagOfRecord, CanonicalBook(b).records, Map(CanonicalRecord, b.records));
    assert Map(BagOfRecord, Map(CanonicalRecord, b.records)) == Map(BagOfRecord, b.records);
  }

  /** Canonicalising loses nothing but the order. */
  lemma CanonicalKeepsContent(p: Package)
    ensures Bag(Canonical(p)) == Bag(p)
  {
    forall i | 0 <= i < |p.books| ensures BagOfBook(CanonicalBook(p.books[i])) == BagOfBook(p.books[i]) {
      CanonicalBookBag(p.books[i]);
    }
    MapMultiset(BagOfBook, Canonical(p).books, Map(CanonicalBook, p.books));
    assert Map(BagOfBook, Map(CanonicalBook, p.books)) == Map(BagOfBook, p.books);
  }

  /** Two packages have the same canonical form exactly when they say the same. */
  lemma CanonicalIdentifies(p: Package, q: Package)
    requires Strict(p)
    ensures Canonical(p) == Canonical(q) <==> Bag(p) == Bag(q)
  {
    CanonicalKeepsContent(p);
    CanonicalKeepsContent(q);
    if Bag(p) == Bag(q) {
      SamePackage(p, q);
    }
  }

  /** Not after the other in UTF-16 order. */
  ghost predicate UpTo(s: Text, t: Text) {
    s == t || Before(s, t)
  }

  lemma SortedByText<T(!new)>(key: T -> Text, s: seq<T>)
    ensures var r := SortBy(ByText(key), s); forall i, j | 0 <= i < j < |r| :: UpTo(key(r[i]), key(r[j]))
  {
    hide Before, SortBy;
    ByTextPreorder(key);
    SortBySorted(ByText(key), s);
    var r := SortBy(ByText(key), s);
    forall i, j | 0 <= i < j < |r| ensures UpTo(key(r[i]), key(r[j])) {
      assert ByText(key)(r[i], r[j]) == LexLe(key(r[i]), key(r[j]));
      LexIsBefore(key(r[i]), key(r[j]));
    }
  }

  lemma SortedByNumber<T(!new)>(key: T -> int, s: seq<T>)
    ensures var r := SortBy(ByNumber(key), s); forall i, j | 0 <= i < j < |r| :: key(r[i]) <= key(r[j])
  {
    hide SortBy;
    assert TotalPreorder(ByNumber(key));
    SortBySorted(ByNumber(key), s);
    var r := SortBy(ByNumber(key), s);
    forall i, j | 0 <= i < j < |r| ensures key(r[i]) <= key(r[j]) {
      assert ByNumber(key)(r[i], r[j]) == (key(r[i]) <= key(r[j]));
    }
  }

  ghost predicate RecordSorted(r: Record) {
    forall i, j | 0 <= i < j < |r.values| :: UpTo(r.values[i].column, r.values[j].column)
  }

  /** Records by person, items by code and formulas by id; in each record values by column. */
  ghost predicate BookSorted(b: Book) {
    && (forall i, j | 0 <= i < j < |b.records| :: UpTo(b.records[i].person, b.records[j].person))
    && (forall i, j | 0 <= i < j < |b.items| :: UpTo(b.items[i].code, b.items[j].code))
    && (forall i, j | 0 <= i < j < |b.formulas| :: b.formulas[i].id <= b.formulas[j].id)
    && forall r | r in b.records :: RecordSorted(r)
  }

  lemma PeopleSorted(records: seq<Record>, r: seq<Record>)
    requires r == SortBy(ByText(PersonOf), records)
    ensures forall i, j | 0 <= i < j < |r| :: UpTo(r[i].person, r[j].person)
  {
    hide UpTo, SortBy;
    var key := PersonOf;
    SortedByText(key, records);
    forall i, j | 0 <= i < j < |r| ensures UpTo(r[i].person, r[j].person) {
      assert UpTo(key(r[i]), key(r[j]));
    }
  }

  lemma CodesSorted(items: seq<Item>, r: seq<Item>)
    requires r == SortBy(ByText(CodeOf), items)
    ensures forall i, j | 0 <= i < j < |r| :: UpTo(r[i].code, r[j].code)
  {
    hide UpTo, SortBy;
    var key := CodeOf;
    SortedByText(key, items);
    forall i, j | 0 <= i < j < |r| ensures UpTo(r[i].code, r[j].code) {
      assert UpTo(key(r[i]), key(r[j]));
    }
  }

  lemma ColumnsSorted(values: seq<Value>, r: seq<Value>)
    requires r == SortBy(ByText(ColumnOf), values)
    ensures forall i, j | 0 <= i < j < |r| :: UpTo(r[i].column, r[j].column)
  {
    hide UpTo, SortBy;
    var key := ColumnOf;
    SortedByText(key, values);
    forall i, j | 0 <= i < j < |r| ensures UpTo(r[i].column, r[j].column) {
      assert UpTo(key(r[i]), key(r[j]));
    }
  }

  lemma FormulasSorted(formulas: seq<Formula>, r: seq<Formula>)
    requires r == SortBy(ByNumber(IdOf), formulas)
    ensures forall i, j | 0 <= i < j < |r| :: r[i].id <= r[j].id
  {
    hide SortBy;
    var key := IdOf;
    SortedByNumber(key, formulas);
    forall i, j | 0 <= i < j < |r| ensures r[i].id <= r[j].id {
      assert key(r[i]) <= key(r[j]);
    }
  }

  lemma SchemesSorted(books: seq<Book>, r: seq<Book>)
    requires r == SortBy(ByNumber(SchemeOf), books)
    ensures forall i, j | 0 <= i < j < |r| :: r[i].scheme <= r[j].scheme
  {
    hide SortBy;
    var key := SchemeOf;
    SortedByNumber(key, books);
    forall i, j | 0 <= i < j < |r| ensures r[i].scheme <= r[j].scheme {
      assert key(r[i]) <= key(r[j]);
    }
  }

  lemma CanonicalRecordSorted(r: Record)
    ensures RecordSorted(CanonicalRecord(r))
  {
    hide UpTo;
    ColumnsSorted(r.values, CanonicalRecord(r).values);
  }

  lemma CanonicalBookSorted(b: Book)
    ensures BookSorted(CanonicalBook(b))
  {
    hide UpTo, RecordSorted, CanonicalRecord;
    var mapped, book := Map(CanonicalRecord, b.records), CanonicalBook(b);
    PeopleSorted(mapped, book.records);
    CodesSorted(b.items, book.items);
    FormulasSorted(b.formulas, book.formulas);
    forall r | r in book.records ensures RecordSorted(r) {
      MultisetMember(SortBy(ByText(PersonOf), mapped), mapped);
      MapMember(CanonicalRecord, b.records, r);
      var original :| original in b.records && CanonicalRecord(original) == r;
      CanonicalRecordSorted(original);
    }
  }

  /** The canonical form has its books by scheme and everything in them in order. */
  lemma CanonicalIsSorted(p: Package)
    ensures var books := Canonical(p).books;
      (forall i, j | 0 <= i < j < |books| :: books[i].scheme <= books[j].scheme) && forall b | b in books :: BookSorted(b)
  {
    hide BookSorted, CanonicalBook;
    var mapped, books := Map(CanonicalBook, p.books), Canonical(p).books;
    SchemesSorted(mapped, books);
    forall b | b in books ensures BookSorted(b) {
      MultisetMember(SortBy(ByNumber(SchemeOf), mapped), mapped);
      MapMember(CanonicalBook, p.books, b);
      var original :| original in p.books && CanonicalBook(original) == b;
      CanonicalBookSorted(original);
    }
  }

  lemma CanonicalBookTwice(b: Book)
    ensures CanonicalBook(CanonicalBook(b)) == CanonicalBook(b)
  {
    var mapped := Map(CanonicalRecord, b.records);
    var records := SortBy(ByText(PersonOf), mapped);
    MultisetMember(records, mapped);
    forall r | r in records ensures CanonicalRecord(r) == r {
      MapMember(CanonicalRecord, b.records, r);
      var original :| original in b.records && CanonicalRecord(original) == r;
      SortByTextTwice(ColumnOf, original.values);
    }
    MapFixed(CanonicalRecord, records);
    SortByTextTwice(PersonOf, mapped);
    SortByTextTwice(CodeOf, b.items);
    SortByNumberTwice(IdOf, b.formulas);
  }

  /** The canonical form is canonical. */
  lemma CanonicalIsIdempotent(p: Package)
    ensures Canonical(Canonical(p)) == Canonical(p)
  {
    var mapped := Map(CanonicalBook, p.books);
    var books := SortBy(ByNumber(SchemeOf), mapped);
    MultisetMember(books, mapped);
    forall b | b in books ensures CanonicalBook(b) == b {
      MapMember(CanonicalBook, p.books, b);
      var original :| original in p.books && CanonicalBook(original) == b;
      CanonicalBookTwice(original);
    }
    MapFixed(CanonicalBook, books);
    SortByNumberTwice(SchemeOf, mapped);
  }

  // ---------- what makes a package acceptable ----------

  /** The checks of single strings and of the item metadata, and the size in bytes
      of the JSON text of a package. */
  datatype Checks = Checks(
    scope: Header -> bool,
    text: (Text, nat, bool) -> bool,
    hash: Text -> bool,
    decimal: Text -> bool,
    date: Text -> bool,
    uuid: Text -> bool,
    metadata: Item -> bool,
    size: Package -> nat)

  predicate HeaderOk(c: Checks, h: Header) {
    && c.scope(h)
    && 0 <= h.headVersion <= INT_MAX
    && (if h.headVersion == 0 then h.headHash.None? else h.headHash.Some? && c.hash(h.headHash.value))
    && c.hash(h.evidence) && c.hash(h.bookSet) && c.hash(h.roster) && c.hash(h.catalog)
  }

  /** A column may call an item by its code or by its legacy name. */
  predicate Names(item: Item, column: Text) {
    column == item.code || column == item.name
  }

  predicate NoSharedAlias(x: Item, y: Item) {
    x.code != y.code && x.code != y.name && x.name != y.code && x.name != y.name
  }

  predicate ItemOk(c: Checks, item: Item) {
    && c.metadata(item)
    && c.text(item.code, 96, false) && c.text(item.name, 64, false) && c.text(item.displayName, 200, true)
    && c.text(item.legacyType, 64, true) && c.text(item.addOrSub, 32, true)
    && INT_MIN <= item.sortNo <= INT_MAX && c.hash(item.sourceHash)
    && (if item.kind.DecimalKind? then item.scale.Some? && 0 <= item.scale.value <= 4 else item.scale.None?)
  }

  predicate FormulaOk(c: Checks, f: Formula) {
    && 1 <= f.id <= INT_MAX && 1 <= f.calculationOrder <= INT_MAX
    && (f.itemCode.Some? ==> c.text(f.itemCode.value, 96, false))
    && c.text(f.expression, MAX_BYTES, true)
    && (f.condition.Some? ==> c.text(f.condition.value, MAX_BYTES, true))
    && c.hash(f.sourceHash)
  }

  /** A null carries nothing; any other value carries exactly what its type says. */
  predicate PresenceOk(v: Value) {
    && (v.decimal.Some? <==> !v.sourceNull && v.kind.DecimalKind?)
    && (v.text.Some? <==> !v.sourceNull && v.kind.TextKind?)
    && (v.date.Some? <==> !v.sourceNull && v.kind.DateKind?)
  }

  predicate ContentOk(c: Checks, v: Value) {
    && (v.decimal.Some? ==> c.decimal(v.decimal.value))
    && (v.text.Some? ==> c.text(v.text.value, MAX_BYTES, true))
    && (v.date.Some? ==> c.date(v.date.value))
  }

  ghost predicate ValueOk(c: Checks, items: seq<Item>, v: Value) {
    && c.text(v.column, 64, false) && c.hash(v.sourceHash)
    && (exists item | item in items :: Names(item, v.column) && item.kind == v.kind)
    && PresenceOk(v) && ContentOk(c, v)
  }

  /** No item is called by both values. */
  ghost function TargetsApart(items: seq<Item>): (Value, Value) -> bool {
    (v: Value, w: Value) => forall item | item in items :: !(Names(item, v.column) && Names(item, w.column))
  }

  ghost predicate ValuesOk(c: Checks, items: seq<Item>, values: seq<Value>) {
    && (forall v | v in values :: ValueOk(c, items, v))
    && DistinctOn(ColumnOf, values)
    && Pairwise(TargetsApart(items), values)
  }

  predicate AmountOk(c: Checks, a: Amount) {
    a.Amount? ==> c.decimal(a.digits)
  }

  function TwoDigits(n: int): Text {
    if 0 <= n < 10 then Ascii("0") + PrintInteger(n) else PrintInteger(n)
  }

  predicate TableOk(scheme: int, table: Text) {
    table == Ascii("salary") + TwoDigits(scheme) || table == Ascii("dbo.salary") + TwoDigits(scheme)
  }

  predicate RecordFieldsOk(c: Checks, scheme: int, r: Record) {
    && c.text(r.person, 256, false) && c.hash(r.rowHash) && c.uuid(r.employee)
    && TableOk(scheme, r.table) && r.values != []
    && AmountOk(c, r.summary.gross) && AmountOk(c, r.summary.deduction)
    && AmountOk(c, r.summary.tax) && AmountOk(c, r.summary.net)
  }

  ghost predicate RecordOk(c: Checks, scheme: int, items: seq<Item>, r: Record) {
    RecordFieldsOk(c, scheme, r) && ValuesOk(c, items, r.values)
  }

  ghost predicate CatalogueOk(c: Checks, items: seq<Item>) {
    (forall item | item in items :: ItemOk(c, item)) && Pairwise(NoSharedAlias, items)
  }

  ghost predicate FormulasOk(c: Checks, formulas: seq<Formula>) {
    (forall f | f in formulas :: FormulaOk(c, f)) && DistinctOn(IdOf, formulas)
  }

  ghost predicate RecordsOk(c: Checks, scheme: int, items: seq<Item>, records: seq<Record>) {
    && (forall r | r in records :: RecordOk(c, scheme, items, r))
    && DistinctOn(PersonOf, records) && DistinctOn(RowHashOf, records) && DistinctOn(EmployeeOf, records)
  }

  predicate BookFieldsOk(c: Checks, b: Book) {
    && 1 <= b.scheme <= 35 && (b.closeState == 0 || b.closeState == 1) && c.hash(b.closeHash)
    && (b.name.Some? ==> c.text(b.name.value, 200, true))
    && b.records != []
  }

  ghost predicate BookOk(c: Checks, b: Book) {
    && BookFieldsOk(c, b)
    && CatalogueOk(c, b.items) && FormulasOk(c, b.formulas) && RecordsOk(c, b.scheme, b.items, b.records)
  }

  /** No formula id occurs in both books. */
  predicate FormulasApart(x: Book, y: Book) {
    forall f, g | f in x.formulas && g in y.formulas :: f.id != g.id
  }

  function ValueCount(r: Record): nat { |r.values| }
  function RecordTotal(b: Book): nat { |b.records| }
  function ValueTotal(b: Book): nat { Total(Map(ValueCount, b.records)) }
  function ItemTotal(b: Book): nat { |b.items| }
  function FormulaTotal(b: Book): nat { |b.formulas| }

  predicate WithinLimits(books: seq<Book>) {
    && 0 < Total(Map(RecordTotal, books)) <= MAX_RECORDS
    && 0 < Total(Map(ValueTotal, books)) <= MAX_VALUES
    && Total(Map(ItemTotal, books)) <= MAX_ITEMS
    && Total(Map(FormulaTotal, books)) <= MAX_FORMULAS
  }

  ghost predicate BooksOk(c: Checks, books: seq<Book>) {
    && (forall b | b in books :: BookOk(c, b))
    && DistinctOn(SchemeOf, books)
    && Pairwise(FormulasApart, books)
  }

  ghost predicate Valid(c: Checks, p: Package) {
    && HeaderOk(c, p.header)
    && 0 < |p.books| <= MAX_BOOKS
    && BooksOk(c, p.books)
    && WithinLimits(p.books)
    && c.size(Canonical(p)) <= MAX_BYTES
  }

  // ---------- validity does not depend on order ----------

  lemma BookIsStrict(c: Checks, b: Book)
    requires BookOk(c, b)
    ensures StrictBook(b)
  {
    forall i, j | 0 <= i < j < |b.items| ensures Differ(CodeOf)(b.items[i], b.items[j]) {
      PairwiseAt(NoSharedAlias, b.items, i, j);
      assert CodeOf(b.items[i]) != CodeOf(b.items[j]);
    }
    forall r | r in b.records ensures StrictRecord(r) {
      assert RecordOk(c, b.scheme, b.items, r);
    }
  }

  lemma ValidIsStrict(c: Checks, p: Package)
    requires Valid(c, p)
    ensures Strict(p)
  {
    forall b | b in p.books ensures StrictBook(b) {
      BookIsStrict(c, b);
    }
  }

  lemma ValuesAnyOrder(c: Checks, items: seq<Item>, others: seq<Item>, values: seq<Value>, rearranged: seq<Value>)
    requires multiset(items) == multiset(others) && multiset(values) == multiset(rearranged)
    requires ValuesOk(c, items, values)
    ensures ValuesOk(c, others, rearranged)
  {
    MultisetMember(items, others);
    MultisetMember(values, rearranged);
    DistinctOnAnyOrder(ColumnOf, values, rearranged);
    PairwiseAnyOrder(TargetsApart(items), values, rearranged);
    forall v | v in rearranged ensures ValueOk(c, others, v) {
      assert v in values && ValueOk(c, items, v);
    }
    forall i, j | 0 <= i < j < |rearranged| ensures TargetsApart(others)(rearranged[i], rearranged[j]) {
      assert TargetsApart(items)(rearranged[i], rearranged[j]);
    }
  }

  lemma RecordAnyOrder(c: Checks, scheme: int, items: seq<Item>, others: seq<Item>, r: Record, s: Record)
    requires multiset(items) == multiset(others) && BagOfRecord(r) == BagOfRecord(s)
    requires RecordOk(c, scheme, items, r)
    ensures RecordOk(c, scheme, others, s)
  {
    ValuesAnyOrder(c, items, others, r.values, s.values);
    MultisetMember(r.values, s.values);
  }

  function BagPerson(r: RecordBag): Text { r.person }
  function BagRowHash(r: RecordBag): Text { r.rowHash }
  function BagEmployee(r: RecordBag): Text { r.employee }

  lemma RecordKeysAnyOrder<K>(key: Record -> K, bagKey: RecordBag -> K, records: seq<Record>, others: seq<Record>)
    requires multiset(Map(BagOfRecord, records)) == multiset(Map(BagOfRecord, others))
    requires forall r :: bagKey(BagOfRecord(r)) == key(r)
    requires DistinctOn(key, records)
    ensures DistinctOn(key, others)
  {
    MapDistinctOn(BagOfRecord, key, bagKey, records);
    MapDistinctOn(BagOfRecord, key, bagKey, others);
    DistinctOnAnyOrder(bagKey, Map(BagOfRecord, records), Map(BagOfRecord, others));
  }

  lemma RecordsAnyOrder(c: Checks, scheme: int, items: seq<Item>, others: seq<Item>, records: seq<Record>, rearranged: seq<Record>)
    requires multiset(items) == multiset(others)
    requires multiset(Map(BagOfRecord, records)) == multiset(Map(BagOfRecord, rearranged))
    requires RecordsOk(c, scheme, items, records)
    ensures RecordsOk(c, scheme, others, rearranged)
  {
    RecordKeysAnyOrder(PersonOf, BagPerson, records, rearranged);
    RecordKeysAnyOrder(RowHashOf, BagRowHash, records, rearranged);
    RecordKeysAnyOrder(EmployeeOf, BagEmployee, records, rearranged);
    forall s | s in rearranged ensures RecordOk(c, scheme, others, s) {
      var r := Counterpart(BagOfRecord, records, rearranged, s);
      RecordAnyOrder(c, scheme, items, others, r, s);
    }
  }

  lemma CatalogueAnyOrder(c: Checks, items: seq<Item>, others: seq<Item>)
    requires multiset(items) == multiset(others) && CatalogueOk(c, items)
    ensures CatalogueOk(c, others)
  {
    MultisetMember(items, others);
    PairwiseAnyOrder(NoSharedAlias, items, others);
  }

  lemma FormulasAnyOrder(c: Checks, formulas: seq<Formula>, others: seq<Formula>)
    requires multiset(formulas) == multiset(others) && FormulasOk(c, formulas)
    ensures FormulasOk(c, others)
  {
    MultisetMember(formulas, others);
    DistinctOnAnyOrder(IdOf, formulas, others);
  }

  lemma BookAnyOrder(c: Checks, b: Book, d: Book)
    requires BagOfBook(b) == BagOfBook(d) && BookOk(c, b)
    ensures BookOk(c, d)
  {
    CatalogueAnyOrder(c, b.items, d.items);
    FormulasAnyOrder(c, b.formulas, d.formulas);
    RecordsAnyOrder(c, b.scheme, b.items, d.items, b.records, d.records);
    MultisetMember(Map(BagOfRecord, b.records), Map(BagOfRecord, d.records));
  }

  function BagScheme(b: BookBag): int { b.scheme }
  predicate BagFormulasApart(x: BookBag, y: BookBag) {
    forall f, g | f in x.formulas && g in y.formulas :: f.id != g.id
  }

  lemma BooksAnyOrder(c: Checks, books: seq<Book>, others: seq<Book>)
    requires multiset(Map(BagOfBook, books)) == multiset(Map(BagOfBook, others))
    requires BooksOk(c, books)
    ensures BooksOk(c, others)
  {
    forall d | d in others ensures BookOk(c, d) {
      var b := Counterpart(BagOfBook, books, others, d);
      BookAnyOrder(c, b, d);
    }
    MapDistinctOn(BagOfBook, SchemeOf, BagScheme, books);
    MapDistinctOn(BagOfBook, SchemeOf, BagScheme, others);
    DistinctOnAnyOrder(BagScheme, Map(BagOfBook, books), Map(BagOfBook, others));
    FormulasApartInBags(books);
    FormulasApartInBags(others);
    PairwiseAnyOrder(BagFormulasApart, Map(BagOfBook, books), Map(BagOfBook, others));
  }

  lemma FormulasApartInBags(books: seq<Book>)
    ensures Pairwise(BagFormulasApart, Map(BagOfBook, books)) <==> Pairwise(FormulasApart, books)
  {
    forall x, y | x in books && y in books ensures BagFormulasApart(BagOfBook(x), BagOfBook(y)) == FormulasApart(x, y) {
      assert forall f :: f in x.formulas <==> f in BagOfBook(x).formulas;
      assert forall f :: f in y.formulas <==> f in BagOfBook(y).formulas;
    }
    MapPairwise(BagOfBook, FormulasApart, BagFormulasApart, books);
  }

  lemma TotalsAnyOrder(count: Book -> nat, books: seq<Book>, others: seq<Book>)
    requires multiset(Map(BagOfBook, books)) == multiset(Map(BagOfBook, others))
    requires Determines(BagOfBook, count, books, others)
    ensures Total(Map(count, books)) == Total(Map(count, others))
  {
    MapThrough(BagOfBook, count, books, others);
    TotalAnyOrder(Map(count, books), Map(count, others));
  }

  lemma SameValueTotal(b: Book, d: Book)
    requires BagOfBook(b) == BagOfBook(d)
    ensures ValueTotal(b) == ValueTotal(d)
  {
    forall i, j | 0 <= i < |b.records| && 0 <= j < |d.records| && BagOfRecord(b.records[i]) == BagOfRecord(d.records[j])
      ensures ValueCount(b.records[i]) == ValueCount(d.records[j])
    {
      MultisetMember(b.records[i].values, d.records[j].values);
    }
    MapThrough(BagOfRecord, ValueCount, b.records, d.records);
    TotalAnyOrder(Map(ValueCount, b.records), Map(ValueCount, d.records));
  }

  lemma SameCounts(b: Book, d: Book)
    requires BagOfBook(b) == BagOfBook(d)
    ensures RecordTotal(b) == RecordTotal(d) && ItemTotal(b) == ItemTotal(d) && FormulaTotal(b) == FormulaTotal(d)
  {
    MultisetMember(Map(BagOfRecord, b.records), Map(BagOfRecord, d.records));
    MultisetMember(b.items, d.items);
    MultisetMember(b.formulas, d.formulas);
  }

  lemma BagsDetermineCounts(books: seq<Book>, others: seq<Book>)
    ensures Determines(BagOfBook, RecordTotal, books, others) && Determines(BagOfBook, ValueTotal, books, others)
    ensures Determines(BagOfBook, ItemTotal, books, others) && Determines(BagOfBook, FormulaTotal, books, others)
  {
    forall i, j | 0 <= i < |books| && 0 <= j < |others| && BagOfBook(books[i]) == BagOfBook(others[j])
      ensures RecordTotal(books[i]) == RecordTotal(others[j]) && ItemTotal(books[i]) == ItemTotal(others[j])
      ensures FormulaTotal(books[i]) == FormulaTotal(others[j]) && ValueTotal(books[i]) == ValueTotal(others[j])
    {
      SameCounts(books[i], others[j]);
      SameValueTotal(books[i], others[j]);
    }
  }

  lemma LimitsAnyOrder(books: seq<Book>, others: seq<Book>)
    requires multiset(Map(BagOfBook, books)) == multiset(Map(BagOfBook, others))
    ensures WithinLimits(books) <==> WithinLimits(others)
  {
    BagsDetermineCounts(books, others);
    TotalsAnyOrder(RecordTotal, books, others);
    TotalsAnyOrder(ValueTotal, books, others);
    TotalsAnyOrder(ItemTotal, books, others);
    TotalsAnyOrder(FormulaTotal, books, others);
  }

  /** Reordering books, records, values, items or formulas makes no package valid
      or invalid. */
  lemma ValidityIgnoresOrder(c: Checks, p: Package, q: Package)
    requires Bag(p) == Bag(q)
    ensures Valid(c, p) <==> Valid(c, q)
  {
    if Valid(c, p) {
      ValidAnyOrder(c, p, q);
    }
    if Valid(c, q) {
      ValidAnyOrder(c, q, p);
    }
  }

  lemma ValidAnyOrder(c: Checks, p: Package, q: Package)
    requires Bag(p) == Bag(q) && Valid(c, p)
    ensures Valid(c, q)
  {
    MultisetMember(Map(BagOfBook, p.books), Map(BagOfBook, q.books));
    BooksAnyOrder(c, p.books, q.books);
    LimitsAnyOrder(p.books, q.books);
    ValidIsStrict(c, p);
    SamePackage(p, q);
  }

  /** In particular the canonical form of a package is valid exactly when it is. */
  lemma CanonicalIsValid(c: Checks, p: Package)
    ensures Valid(c, Canonical(p)) <==> Valid(c, p)
  {
    CanonicalKeepsContent(p);
    ValidityIgnoresOrder(c, p, Canonical(p));
  }

  // ---------- hash inputs ----------

  datatype BookMark = BookMark(scheme: int, closeState: int, closeHash: Text)
  datatype Roster = Roster(scheme: int, people: seq<Text>)
  datatype Catalogue = Catalogue(scheme: int, items: seq<Item>, formulas: seq<Formula>)
  datatype HashInputs = HashInputs(bookSet: seq<BookMark>, roster: seq<Roster>, catalog: seq<Catalogue>)

  function MarkOf(b: Book): BookMark { BookMark(b.scheme, b.closeState, b.closeHash) }
  function RosterOf(b: Book): Roster { Roster(b.scheme, Map(PersonOf, b.records)) }
  function CatalogueOf(b: Book): Catalogue { Catalogue(b.scheme, b.items, b.formulas) }

  function InputsOf(p: Package): HashInputs {
    var books := Canonical(p).books;
    HashInputs(Map(MarkOf, books), Map(RosterOf, books), Map(CatalogueOf, books))
  }

  /** Packages that say the same have the same hash inputs, and canonicalising
      first makes no difference. */
  lemma HashInputsIgnoreOrder(c: Checks, p: Package, q: Package)
    requires Valid(c, p) && Bag(p) == Bag(q)
    ensures InputsOf(p) == InputsOf(q)
    ensures InputsOf(Canonical(p)) == InputsOf(p)
  {
    ValidIsStrict(c, p);
    SamePackage(p, q);
    CanonicalIsIdempotent(p);
  }

  // ---------- columns and items ----------

  ghost predicate Named(items: seq<Item>, v: Value) {
    exists item | item in items :: Names(item, v.column)
  }

  /** Which item each value of a record belongs to. */
  ghost function TargetOf(items: seq<Item>, v: Value): (item: Item)
    requires Named(items, v)
    ensures item in items && Names(item, v.column)
  {
    var item :| item in items && Names(item, v.column);
    item
  }

  /** In a valid book every value belongs to exactly one item, of the same type, and
      no two values of a record to the same one. */
  lemma ColumnsNameItemsOnce(c: Checks, b: Book, r: Record)
    requires BookOk(c, b) && r in b.records
    ensures forall v | v in r.values :: Named(b.items, v) && TargetOf(b.items, v).kind == v.kind
    ensures forall v, x, y | v in r.values && x in b.items && y in b.items && Names(x, v.column) && Names(y, v.column) :: x == y
    ensures forall i, j | 0 <= i < j < |r.values| :: TargetOf(b.items, r.values[i]) != TargetOf(b.items, r.values[j])
    ensures |r.values| <= |b.items|
  {
    assert RecordOk(c, b.scheme, b.items, r);
    forall v, x, y | v in r.values && x in b.items && y in b.items && Names(x, v.column) && Names(y, v.column) ensures x == y
    {
      var i, j :| 0 <= i < |b.items| && 0 <= j < |b.items| && b.items[i] == x && b.items[j] == y;
    }
    forall v | v in r.values ensures Named(b.items, v) && TargetOf(b.items, v).kind == v.kind {
      assert ValueOk(c, b.items, v);
    }
    forall i, j | 0 <= i < j < |r.values| ensures TargetOf(b.items, r.values[i]) != TargetOf(b.items, r.values[j]) {
      assert TargetsApart(b.items)(r.values[i], r.values[j]);
    }
    AtMostAsMany(b.items, r.values);
  }

  lemma AtMostAsMany(items: seq<Item>, values: seq<Value>)
    requires forall v | v in values :: Named(items, v)
    requires forall i, j | 0 <= i < j < |values| :: TargetOf(items, values[i]) != TargetOf(items, values[j])
    ensures |values| <= |items|
  {
    var targets := seq(|values|, i requires 0 <= i < |values| => TargetOf(items, values[i]));
    InjectionCounts(targets, items);
  }

  // ---------- the validator as the program runs it ----------

  ghost function KeySet<T, K>(key: T -> K, s: seq<T>): set<K> {
    set x | x in s :: key(x)
  }

  lemma KeySetAppend<T, K>(key: T -> K, s: seq<T>, x: T)
    ensures KeySet(key, s + [x]) == KeySet(key, s) + {key(x)}
  {
    assert forall y :: y in s + [x] <==> y in s || y == x;
  }

  lemma DistinctOnAppend<T, K>(key: T -> K, s: seq<T>, x: T)
    ensures DistinctOn(key, s + [x]) <==> DistinctOn(key, s) && key(x) !in KeySet(key, s)
    ensures KeySet(key, s + [x]) == KeySet(key, s) + {key(x)}
  {
    PairwiseAppend(Differ(key), s, x);
    KeySetAppend(key, s, x);
  }

  ghost predicate Bears(aliases: map<Text, Item>, items: seq<Item>, a: Text)
    requires a in aliases
  {
    aliases[a] in items && Names(aliases[a], a)
  }

  /** The aliases lead to the items that bear them. */
  ghost predicate AliasesOf(aliases: map<Text, Item>, items: seq<Item>) {
    && (forall a {:trigger Bears(aliases, items, a)} | a in aliases :: Bears(aliases, items, a))
    && (forall item | item in items :: item.code in aliases && item.name in aliases)
  }

  method ReadItems(c: Checks, items: seq<Item>) returns (ok: bool, aliases: map<Text, Item>)
    ensures ok <==> CatalogueOk(c, items)
    ensures ok ==> AliasesOf(aliases, items)
  {
    aliases := map[];
    var codes: set<Text>, names: set<Text> := {}, {};
    for i := 0 to |items|
      invariant CatalogueOk(c, items[..i]) && AliasesOf(aliases, items[..i])
      invariant codes == KeySet(CodeOf, items[..i]) && names == KeySet(NameOf, items[..i])
    {
      var item := items[i];
      assert items[..i + 1] == items[..i] + [item];
      PairwiseAppend(NoSharedAlias, items[..i], item);
      PairwisePrefix(NoSharedAlias, items, i + 1);
      AliasTaken(items[..i], aliases, item);
      KeySetAppend(CodeOf, items[..i], item);
      KeySetAppend(NameOf, items[..i], item);
      if !ItemOk(c, item) || item.code in codes || item.name in names {
        return false, aliases;
      }
      codes, names := codes + {item.code}, names + {item.name};
      if item.code in aliases || item.name in aliases {
        return false, aliases;
      }
      AliasAdded(items[..i], aliases, item);
      aliases := aliases[item.code := item][item.name := item];
    }
    assert items[..|items|] == items;
    return true, aliases;
  }

  function NameOf(i: Item): Text { i.name }

  lemma PairwisePrefix<T>(rel: (T, T) -> bool, s: seq<T>, n: nat)
    requires n <= |s|
    ensures Pairwise(rel, s) ==> Pairwise(rel, s[..n])
  {
  }

  lemma AliasAdded(items: seq<Item>, aliases: map<Text, Item>, item: Item)
    requires AliasesOf(aliases, items) && item.code !in aliases && item.name !in aliases
    ensures AliasesOf(aliases[item.code := item][item.name := item], items + [item])
  {
    var longer := aliases[item.code := item][item.name := item];
    forall a | a in longer ensures Bears(longer, items + [item], a) {
      if a in aliases {
        assert Bears(aliases, items, a);
      }
    }
  }

  /** An alias is taken when an earlier item bears it. */
  lemma AliasTaken(items: seq<Item>, aliases: map<Text, Item>, item: Item)
    requires AliasesOf(aliases, items)
    ensures item.code in aliases || item.name in aliases <==> exists other | other in items :: !NoSharedAlias(other, item)
    ensures item.code in KeySet(CodeOf, items) || item.name in KeySet(NameOf, items) ==>
      item.code in aliases || item.name in aliases
  {
    if item.code in aliases {
      assert Bears(aliases, items, item.code);
      assert !NoSharedAlias(aliases[item.code], item);
    }
    if item.name in aliases {
      assert Bears(aliases, items, item.name);
      assert !NoSharedAlias(aliases[item.name], item);
    }
  }

  method ReadFormulas(c: Checks, formulas: seq<Formula>, taken: set<int>) returns (ok: bool, ids: set<int>)
    ensures ok <==> FormulasOk(c, formulas) && KeySet(IdOf, formulas) !! taken
    ensures ok ==> ids == taken + KeySet(IdOf, formulas)
  {
    ids := taken;
    for i := 0 to |formulas|
      invariant FormulasOk(c, formulas[..i]) && KeySet(IdOf, formulas[..i]) !! taken
      invariant ids == taken + KeySet(IdOf, formulas[..i])
    {
      assert formulas[..i + 1] == formulas[..i] + [formulas[i]];
      DistinctOnAppend(IdOf, formulas[..i], formulas[i]);
      PairwisePrefix(Differ(IdOf), formulas, i + 1);
      if !FormulaOk(c, formulas[i]) || formulas[i].id in ids {
        assert formulas[i].id in KeySet(IdOf, formulas);
        return false, ids;
      }
      ids := ids + {formulas[i].id};
    }
    assert formulas[..|formulas|] == formulas;
    return true, ids;
  }

  method ReadValues(c: Checks, ghost items: seq<Item>, aliases: map<Text, Item>, values: seq<Value>) returns (ok: bool)
    requires CatalogueOk(c, items) && AliasesOf(aliases, items)
    ensures ok <==> ValuesOk(c, items, values)
  {
    var columns: set<Text>, targets: set<Text> := {}, {};
    for i := 0 to |values|
      invariant ValuesOk(c, items, values[..i])
      invariant columns == KeySet(ColumnOf, values[..i])
      invariant targets == TargetCodes(items, values[..i])
    {
      var v := values[i];
      assert values[..i + 1] == values[..i] + [v];
      OneMoreValue(c, items, values[..i], v);
      ValuesPrefix(c, items, values, i + 1);
      KeySetAppend(ColumnOf, values[..i], v);
      TargetTaken(c, items, aliases, values[..i], v);
      if !c.text(v.column, 64, false) || v.column in columns || !c.hash(v.sourceHash) || v.column !in aliases {
        return false;
      }
      var item := aliases[v.column];
      if item.code in targets || item.kind != v.kind {
        return false;
      }
      columns, targets := columns + {v.column}, targets + {item.code};
      if !PresenceOk(v) || !ContentOk(c, v) {
        return false;
      }
    }
    assert values[..|values|] == values;
    return true;
  }

  lemma OneMoreValue(c: Checks, items: seq<Item>, values: seq<Value>, v: Value)
    ensures ValuesOk(c, items, values + [v]) <==>
      && ValuesOk(c, items, values) && ValueOk(c, items, v)
      && v.column !in KeySet(ColumnOf, values) && forall w | w in values :: TargetsApart(items)(w, v)
  {
    DistinctOnAppend(ColumnOf, values, v);
    PairwiseAppend(TargetsApart(items), values, v);
    assert forall w :: w in values + [v] <==> w in values || w == v;
  }

  lemma ValuesPrefix(c: Checks, items: seq<Item>, values: seq<Value>, n: nat)
    requires n <= |values|
    ensures ValuesOk(c, items, values) ==> ValuesOk(c, items, values[..n])
  {
    PairwisePrefix(Differ(ColumnOf), values, n);
    PairwisePrefix(TargetsApart(items), values, n);
  }

  ghost function TargetCodes(items: seq<Item>, values: seq<Value>): set<Text> {
    set item, v | item in items && v in values && Names(item, v.column) :: item.code
  }

  /** What the alias table and the set of taken targets say of one more value. */
  lemma TargetTaken(c: Checks, items: seq<Item>, aliases: map<Text, Item>, values: seq<Value>, v: Value)
    requires CatalogueOk(c, items) && AliasesOf(aliases, items)
    ensures v.column in aliases <==> Named(items, v)
    ensures ValueOk(c, items, v) <==>
      && c.text(v.column, 64, false) && c.hash(v.sourceHash) && PresenceOk(v) && ContentOk(c, v)
      && v.column in aliases && aliases[v.column].kind == v.kind
    ensures v.column in aliases ==>
      && (forall item | item in items && Names(item, v.column) :: item == aliases[v.column])
      && (aliases[v.column].code in TargetCodes(items, values) <==> exists w | w in values :: !TargetsApart(items)(w, v))
      && TargetCodes(items, values + [v]) == TargetCodes(items, values) + {aliases[v.column].code}
  {
    if v.column in aliases {
      var target := aliases[v.column];
      assert Bears(aliases, items, v.column);
      forall item | item in items && Names(item, v.column) ensures item == target {
        SameBearer(items, item, target, v.column);
      }
      forall item, w | item in items && w in values && Names(item, w.column) && item.code == target.code
        ensures !TargetsApart(items)(w, v)
      {
        SameBearer(items, item, target, target.code);
      }
      forall w | w in values && !TargetsApart(items)(w, v) ensures Names(target, w.column) {
      }
      assert forall w :: w in values + [v] <==> w in values || w == v;
    }
  }

  lemma SameBearer(items: seq<Item>, x: Item, y: Item, alias: Text)
    requires Pairwise(NoSharedAlias, items) && x in items && y in items && Names(x, alias) && Names(y, alias)
    ensures x == y
  {
    var i, j :| 0 <= i < |items| && 0 <= j < |items| && items[i] == x && items[j] == y;
  }

  method ReadRecords(c: Checks, scheme: int, ghost items: seq<Item>, aliases: map<Text, Item>, records: seq<Record>)
    returns (ok: bool, count: nat)
    requires CatalogueOk(c, items) && AliasesOf(aliases, items)
    ensures ok <==> RecordsOk(c, scheme, items, records)
    ensures ok ==> count == Total(Map(ValueCount, records))
  {
    var people: set<Text>, employees: set<Text>, rowHashes: set<Text> := {}, {}, {};
    count := 0;
    for i := 0 to |records|
      invariant RecordsOk(c, scheme, items, records[..i])
      invariant people == KeySet(PersonOf, records[..i]) && employees == KeySet(EmployeeOf, records[..i])
      invariant rowHashes == KeySet(RowHashOf, records[..i])
      invariant count == Total(Map(ValueCount, records[..i]))
    {
      var r := records[i];
      assert records[..i + 1] == records[..i] + [r];
      OneMoreRecord(c, scheme, items, records[..i], r);
      RecordsPrefix(c, scheme, items, records, i + 1);
      if r.person in people || r.rowHash in rowHashes || r.employee in employees || !RecordFieldsOk(c, scheme, r) {
        return false, count;
      }
      people, employees, rowHashes := people + {r.person}, employees + {r.employee}, rowHashes + {r.rowHash};
      count := count + |r.values|;
      TotalAppend(ValueCount, records[..i], r);
      var read := ReadValues(c, items, aliases, r.values);
      if !read {
        return false, count;
      }
    }
    assert records[..|records|] == records;
    return true, count;
  }

  lemma OneMoreRecord(c: Checks, scheme: int, items: seq<Item>, records: seq<Record>, r: Record)
    ensures RecordsOk(c, scheme, items, records + [r]) <==>
      && RecordsOk(c, scheme, items, records) && RecordOk(c, scheme, items, r)
      && r.person !in KeySet(PersonOf, records) && r.rowHash !in KeySet(RowHashOf, records)
      && r.employee !in KeySet(EmployeeOf, records)
    ensures KeySet(PersonOf, records + [r]) == KeySet(PersonOf, records) + {r.person}
    ensures KeySet(RowHashOf, records + [r]) == KeySet(RowHashOf, records) + {r.rowHash}
    ensures KeySet(EmployeeOf, records + [r]) == KeySet(EmployeeOf, records) + {r.employee}
  {
    DistinctOnAppend(PersonOf, records, r);
    DistinctOnAppend(RowHashOf, records, r);
    DistinctOnAppend(EmployeeOf, records, r);
    assert forall s :: s in records + [r] <==> s in records || s == r;
  }

  lemma RecordsPrefix(c: Checks, scheme: int, items: seq<Item>, records: seq<Record>, n: nat)
    requires n <= |records|
    ensures RecordsOk(c, scheme, items, records) ==> RecordsOk(c, scheme, items, records[..n])
  {
    PairwisePrefix(Differ(PersonOf), records, n);
    PairwisePrefix(Differ(RowHashOf), records, n);
    PairwisePrefix(Differ(EmployeeOf), records, n);
  }

  method ReadBook(c: Checks, b: Book, taken: set<int>) returns (ok: bool, ids: set<int>, count: nat)
    ensures ok <==> BookOk(c, b) && KeySet(IdOf, b.formulas) !! taken
    ensures ok ==> ids == taken + KeySet(IdOf, b.formulas) && count == ValueTotal(b)
  {
    ids, count := taken, 0;
    if !BookFieldsOk(c, b) {
      return false, ids, count;
    }
    var aliases;
    ok, aliases := ReadItems(c, b.items);
    if !ok {
      return;
    }
    ok, ids := ReadFormulas(c, b.formulas, taken);
    if !ok {
      return;
    }
    ok, count := ReadRecords(c, b.scheme, b.items, aliases, b.records);
  }

  /** All formula ids of the books. */
  ghost function FormulaIds(books: seq<Book>): set<int> {
    set b, f | b in books && f in b.formulas :: f.id
  }

  lemma OneMoreBook(c: Checks, books: seq<Book>, b: Book)
    ensures BooksOk(c, books + [b]) <==>
      && BooksOk(c, books) && BookOk(c, b) && b.scheme !in KeySet(SchemeOf, books)
      && KeySet(IdOf, b.formulas) !! FormulaIds(books)
    ensures KeySet(SchemeOf, books + [b]) == KeySet(SchemeOf, books) + {b.scheme}
    ensures FormulaIds(books + [b]) == FormulaIds(books) + KeySet(IdOf, b.formulas)
  {
    DistinctOnAppend(SchemeOf, books, b);
    PairwiseAppend(FormulasApart, books, b);
    assert forall d :: d in books + [b] <==> d in books || d == b;
    ApartFromAll(books, b);
  }

  lemma ApartFromAll(books: seq<Book>, b: Book)
    ensures KeySet(IdOf, b.formulas) !! FormulaIds(books) <==> forall d | d in books :: FormulasApart(d, b)
  {
    if d :| d in books && !FormulasApart(d, b) {
      var f, g :| f in d.formulas && g in b.formulas && f.id == g.id;
      assert f.id in KeySet(IdOf, b.formulas) && f.id in FormulaIds(books);
    } else {
      forall id | id in KeySet(IdOf, b.formulas) ensures id !in FormulaIds(books) {
        var g :| g in b.formulas && IdOf(g) == id;
        forall d, f | d in books && f in d.formulas ensures f.id != id {
          assert FormulasApart(d, b);
        }
      }
    }
  }

  lemma BooksPrefix(c: Checks, books: seq<Book>, n: nat)
    requires n <= |books|
    ensures BooksOk(c, books) ==> BooksOk(c, books[..n])
  {
    PairwisePrefix(Differ(SchemeOf), books, n);
    PairwisePrefix(FormulasApart, books, n);
  }

  lemma OneMoreTotal(books: seq<Book>, b: Book)
    ensures Total(Map(RecordTotal, books + [b])) == Total(Map(RecordTotal, books)) + |b.records|
    ensures Total(Map(ItemTotal, books + [b])) == Total(Map(ItemTotal, books)) + |b.items|
    ensures Total(Map(FormulaTotal, books + [b])) == Total(Map(FormulaTotal, books)) + |b.formulas|
    ensures Total(Map(ValueTotal, books + [b])) == Total(Map(ValueTotal, books)) + ValueTotal(b)
  {
    TotalAppend(RecordTotal, books, b);
    TotalAppend(ItemTotal, books, b);
    TotalAppend(FormulaTotal, books, b);
    TotalAppend(ValueTotal, books, b);
  }

  method ReadBooks(c: Checks, books: seq<Book>)
    returns (ok: bool, records: nat, values: nat, items: nat, formulas: nat)
    ensures ok <==> BooksOk(c, books)
    ensures ok ==> records == Total(Map(RecordTotal, books)) && values == Total(Map(ValueTotal, books))
    ensures ok ==> items == Total(Map(ItemTotal, books)) && formulas == Total(Map(FormulaTotal, books))
  {
    hide BookOk;
    records, values, items, formulas := 0, 0, 0, 0;
    var schemes: set<int>, formulaIds: set<int> := {}, {};
    for i := 0 to |books|
      invariant BooksOk(c, books[..i])
      invariant schemes == KeySet(SchemeOf, books[..i]) && formulaIds == FormulaIds(books[..i])
      invariant records == Total(Map(RecordTotal, books[..i])) && values == Total(Map(ValueTotal, books[..i]))
      invariant items == Total(Map(ItemTotal, books[..i])) && formulas == Total(Map(FormulaTotal, books[..i]))
    {
      var book := books[i];
      assert books[..i + 1] == books[..i] + [book];
      OneMoreBook(c, books[..i], book);
      BooksPrefix(c, books, i + 1);
      OneMoreTotal(books[..i], book);
      if book.scheme in schemes {
        ok := false;
        return;
      }
      schemes := schemes + {book.scheme};
      items, formulas, records := items + |book.items|, formulas + |book.formulas|, records + |book.records|;
      var count;
      ok, formulaIds, count := ReadBook(c, book, formulaIds);
      if !ok {
        return;
      }
      values := values + count;
    }
    assert books[..|books|] == books;
    ok := true;
  }

  /** Whether the package is accepted. */
  method Validate(c: Checks, p: Package) returns (ok: bool)
    ensures ok <==> Valid(c, p)
  {
    if !HeaderOk(c, p.header) || |p.books| == 0 || |p.books| > MAX_BOOKS {
      return false;
    }
    var records, values, items, formulas;
    ok, records, values, items, formulas := ReadBooks(c, p.books);
    ok := ok && records != 0 && values != 0 && records <= MAX_RECORDS && values <= MAX_VALUES
      && items <= MAX_ITEMS && formulas <= MAX_FORMULAS && c.size(Canonical(p)) <= MAX_BYTES;
  }
}
