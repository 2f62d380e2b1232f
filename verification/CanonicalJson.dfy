/** Canonical JSON text: what a reader of JSON gets from it, and the structural comparison
    it must agree with (packages/shared/src/hr-yuzhou-payroll-source.ts, canonicalJson;
    packages/shared/src/hr-performance-source-drafts.ts, sameSourceJson). */
module CanonicalJson {
  import opened JsonReader
  import opened JsonText
  import opened JsonValues
  import opened Options
  import opened Sorting
  import opened Texts

  predicate KeyLe(a: Field, b: Field) {
    LexLe(a.key, b.key)
  }

  function Sorted(fields: seq<Field>): (r: seq<Field>)
    ensures |r| == |fields| && forall f :: f in r <==> f in fields
  {
    MultisetMember(SortBy(KeyLe, fields), fields);
    SortBy(KeyLe, fields)
  }

  const TRUE: Text := Ascii("true")
  const FALSE: Text := Ascii("false")
  const NULL: Text := Ascii("null")

  function Print(j: Json): Text
    decreases j, 1, 0
  {
    match j
    case Null => NULL
    case Bool(b) => if b then TRUE else FALSE
    case Number(n) => PrintInteger(n)
    case String(s) => PrintString(s)
    case Array(elements) => [OPEN_ARRAY] + PrintElements(j, elements) + [CLOSE_ARRAY]
    case Object(fields) =>
      assert forall i | 0 <= i < |Sorted(fields)| :: Sorted(fields)[i] in fields;
      [OPEN_OBJECT] + PrintFields(j, Sorted(fields)) + [CLOSE_OBJECT]
  }

  /** The elements separated by commas. */
  function PrintElements(parent: Json, elements: seq<Json>): Text
    requires forall i | 0 <= i < |elements| :: elements[i] < parent
    decreases parent, 0, |elements|
  {
    if elements == [] then []
    else if |elements| == 1 then Print(elements[0])
    else Print(elements[0]) + [COMMA] + PrintElements(parent, elements[1..])
  }

  function PrintFields(parent: Json, fields: seq<Field>): Text
    requires forall i | 0 <= i < |fields| :: fields[i].value < parent
    decreases parent, 0, |fields|
  {
    if fields == [] then []
    else if |fields| == 1 then PrintField(parent, fields[0])
    else PrintField(parent, fields[0]) + [COMMA] + PrintFields(parent, fields[1..])
  }

  function PrintField(parent: Json, f: Field): Text
    requires f.value < parent
    decreases parent, 0, 0
  {
    PrintString(f.key) + [COLON] + Print(f.value)
  }

  // ---------- what a printed text means ----------

  /** The value with the keys of every object in ascending order. */
  function Ordered(j: Json): Json
    decreases j, 1, 0
  {
    match j
    case Array(elements) => Array(OrderedElements(j, elements))
    case Object(fields) =>
      assert forall i | 0 <= i < |Sorted(fields)| :: Sorted(fields)[i] in fields;
      Object(OrderedFields(j, Sorted(fields)))
    case _ => j
  }

  function OrderedElements(parent: Json, elements: seq<Json>): (r: seq<Json>)
    requires forall i | 0 <= i < |elements| :: elements[i] < parent
    ensures |r| == |elements| && forall i | 0 <= i < |r| :: r[i] == Ordered(elements[i])
    decreases parent, 0, |elements|
  {
    if elements == [] then [] else [Ordered(elements[0])] + OrderedElements(parent, elements[1..])
  }

  function OrderedFields(parent: Json, fields: seq<Field>): (r: seq<Field>)
    requires forall i | 0 <= i < |fields| :: fields[i].value < parent
    ensures |r| == |fields|
    ensures forall i | 0 <= i < |r| :: r[i].key == fields[i].key && r[i].value == Ordered(fields[i].value)
    decreases parent, 0, |fields|
  {
    if fields == [] then []
    else [Field(fields[0].key, Ordered(fields[0].value))] + OrderedFields(parent, fields[1..])
  }

  /** What may follow a value: nothing, a comma, or a closing bracket. */
  predicate Ends(x: Text) {
    x == [] || x[0] == COMMA || x[0] == CLOSE_ARRAY || x[0] == CLOSE_OBJECT
  }

  /** A value does not begin like the end of one. */
  lemma FirstCharacter(j: Json)
    ensures Print(j) != [] && Print(j)[0] != CLOSE_ARRAY && Print(j)[0] != CLOSE_OBJECT
  {
    match j
    case Null => assert NULL[0] == 'n' as nat;
    case Bool(b) => assert TRUE[0] == 't' as nat && FALSE[0] == 'f' as nat;
    case Number(n) => assert PrintInteger(n)[0] == if n < 0 then MINUS else Digits(n)[0];
    case String(s) => assert PrintString(s)[0] == QUOTE;
    case Array(elements) => assert Print(j)[0] == OPEN_ARRAY;
    case Object(fields) => assert Print(j)[0] == OPEN_OBJECT;
  }

  lemma ReadsWords(j: Json, x: Text)
    requires j.Null? || j.Bool?
    ensures ReadValue(Print(j) + x) == Some(Part(j, x))
  {
    hide ReadArray, ReadObject, ReadString, ReadInteger;
    var word := if j.Null? then "null" else if j.b then "true" else "false";
    var t := Print(j) + x;
    assert forall i | 0 <= i < |word| :: t[i] == word[i] as nat;
    assert t[0] == word[0] as nat && t[|word|..] == x;
  }

  lemma ReadsNumber(n: Safe, x: Text)
    requires Ends(x)
    ensures ReadValue(PrintInteger(n) + x) == Some(Part(Number(n), x))
  {
    hide ReadArray, ReadObject, ReadString, ReadInteger;
    var t := PrintInteger(n) + x;
    ReadsInteger(n, x);
    assert t[0] == if n < 0 then MINUS else Digits(n)[0];
    assert t[0] == MINUS || IsDigit(t[0]);
  }

  lemma ReadsText(s: Units, x: Text)
    ensures ReadValue(PrintString(s) + x) == Some(Part(String(s), x))
  {
    hide ReadArray, ReadObject, ReadString, ReadInteger;
    ReadsString(s, x);
    assert (PrintString(s) + x)[0] == QUOTE;
  }

  /** A reader of JSON gets the value back from its printed text, with the keys of every
      object in order, and knows where it ends. */
  lemma {:induction false} ReadsPrinted(j: Json, x: Text)
    requires Ends(x)
    ensures ReadValue(Print(j) + x) == Some(Part(Ordered(j), x))
    decreases j, 1, 0
  {
    match j
    case Array(elements) => ReadsArray(j, x);
    case Object(fields) => ReadsObject(j, x);
    case Number(n) => ReadsNumber(n, x);
    case String(s) => ReadsText(s, x);
    case _ => ReadsWords(j, x);
  }

  lemma {:induction false} ReadsArray(j: Json, x: Text)
    requires j.Array?
    ensures ReadValue(Print(j) + x) == Some(Part(Ordered(j), x))
    decreases j, 0, |j.elements| + 1
  {
    hide ReadElements, ReadObject, ReadString, ReadInteger, PrintElements;
    var t, rest := Print(j) + x, PrintElements(j, j.elements) + [CLOSE_ARRAY] + x;
    assert t[0] == OPEN_ARRAY && t[1..] == rest;
    ElementsBegin(j, j.elements, x);
    if j.elements != [] {
      ReadsElements(j, j.elements, x);
    }
  }

  lemma ElementsBegin(parent: Json, elements: seq<Json>, x: Text)
    requires forall i | 0 <= i < |elements| :: elements[i] < parent
    ensures var t := PrintElements(parent, elements) + [CLOSE_ARRAY] + x;
      (Begins(t, ']') <==> elements == []) && (elements == [] ==> t[1..] == x)
  {
    if elements == [] {
      assert PrintElements(parent, elements) + [CLOSE_ARRAY] + x == [CLOSE_ARRAY] + x;
    } else {
      FirstCharacter(elements[0]);
    }
  }

  /** What follows the first of several printed elements. */
  function AfterElement(parent: Json, elements: seq<Json>, x: Text): Text
    requires elements != [] && forall i | 0 <= i < |elements| :: elements[i] < parent
  {
    if |elements| == 1 then [CLOSE_ARRAY] + x else [COMMA] + (PrintElements(parent, elements[1..]) + [CLOSE_ARRAY] + x)
  }

  lemma AfterElementShape(parent: Json, elements: seq<Json>, x: Text)
    requires elements != [] && forall i | 0 <= i < |elements| :: elements[i] < parent
    ensures var t := AfterElement(parent, elements, x);
      if |elements| == 1 then Begins(t, ']') && t[1..] == x
      else !Begins(t, ']') && Begins(t, ',') && t[1..] == PrintElements(parent, elements[1..]) + [CLOSE_ARRAY] + x
    ensures Ends(AfterElement(parent, elements, x))
  {
    hide Print, PrintElements;
  }

  lemma ElementsUnfold(parent: Json, elements: seq<Json>, x: Text)
    requires elements != [] && forall i | 0 <= i < |elements| :: elements[i] < parent
    ensures PrintElements(parent, elements) + [CLOSE_ARRAY] + x == Print(elements[0]) + AfterElement(parent, elements, x)
  {
  }

  lemma {:induction false} ReadsElements(parent: Json, elements: seq<Json>, x: Text)
    requires elements != [] && forall i | 0 <= i < |elements| :: elements[i] < parent
    ensures ReadElements(PrintElements(parent, elements) + [CLOSE_ARRAY] + x)
      == Some(Part(OrderedElements(parent, elements), x))
    decreases parent, 0, |elements|
  {
    hide Print, PrintElements, ReadValue, AfterElement;
    var after := AfterElement(parent, elements, x);
    ElementsUnfold(parent, elements, x);
    AfterElementShape(parent, elements, x);
    ReadsPrinted(elements[0], after);
    if |elements| == 1 {
      assert OrderedElements(parent, elements) == [Ordered(elements[0])];
    } else {
      ReadsElements(parent, elements[1..], x);
    }
  }

  lemma SortedSmaller(j: Json)
    requires j.Object?
    ensures forall i | 0 <= i < |Sorted(j.fields)| :: Sorted(j.fields)[i].value < j
  {
    forall i | 0 <= i < |Sorted(j.fields)| ensures Sorted(j.fields)[i].value < j {
      assert Sorted(j.fields)[i] in j.fields;
    }
  }

  lemma {:induction false} ReadsObject(j: Json, x: Text)
    requires j.Object?
    ensures ReadValue(Print(j) + x) == Some(Part(Ordered(j), x))
    decreases j, 0, |j.fields| + 1
  {
    hide ReadFields, ReadArray, ReadString, ReadInteger, PrintFields, Sorted;
    SortedSmaller(j);
    var fields, t := Sorted(j.fields), Print(j) + x;
    var rest := PrintFields(j, fields) + [CLOSE_OBJECT] + x;
    assert t[0] == OPEN_OBJECT && t[1..] == rest;
    FieldsBegin(j, fields, x);
    if fields != [] {
      ReadsFields(j, fields, x);
    }
  }

  lemma FieldsBegin(parent: Json, fields: seq<Field>, x: Text)
    requires forall i | 0 <= i < |fields| :: fields[i].value < parent
    ensures var t := PrintFields(parent, fields) + [CLOSE_OBJECT] + x;
      (Begins(t, '}') <==> fields == []) && (fields == [] ==> t[1..] == x)
  {
    if fields == [] {
      assert PrintFields(parent, fields) + [CLOSE_OBJECT] + x == [CLOSE_OBJECT] + x;
    } else {
      FieldsUnfold(parent, fields, x);
      assert PrintString(fields[0].key)[0] == QUOTE;
    }
  }

  function AfterField(parent: Json, fields: seq<Field>, x: Text): Text
    requires fields != [] && forall i | 0 <= i < |fields| :: fields[i].value < parent
  {
    if |fields| == 1 then [CLOSE_OBJECT] + x else [COMMA] + (PrintFields(parent, fields[1..]) + [CLOSE_OBJECT] + x)
  }

  lemma AfterFieldShape(parent: Json, fields: seq<Field>, x: Text)
    requires fields != [] && forall i | 0 <= i < |fields| :: fields[i].value < parent
    ensures var t := AfterField(parent, fields, x);
      if |fields| == 1 then Begins(t, '}') && t[1..] == x
      else !Begins(t, '}') && Begins(t, ',') && t[1..] == PrintFields(parent, fields[1..]) + [CLOSE_OBJECT] + x
    ensures Ends(AfterField(parent, fields, x))
  {
    hide Print, PrintFields;
  }

  lemma FieldsUnfold(parent: Json, fields: seq<Field>, x: Text)
    requires fields != [] && forall i | 0 <= i < |fields| :: fields[i].value < parent
    ensures PrintFields(parent, fields) + [CLOSE_OBJECT] + x
      == PrintString(fields[0].key) + ([COLON] + (Print(fields[0].value) + AfterField(parent, fields, x)))
  {
    hide Print, PrintString;
    var key, value := PrintString(fields[0].key), Print(fields[0].value);
    if |fields| == 1 {
      Regroup(key, [COLON], value, [], [], [CLOSE_OBJECT], x);
      assert key + [COLON] + value + [] + [] == key + [COLON] + value;
      assert [] + ([] + [CLOSE_OBJECT] + x) == [CLOSE_OBJECT] + x;
    } else {
      Regroup(key, [COLON], value, [COMMA], PrintFields(parent, fields[1..]), [CLOSE_OBJECT], x);
    }
  }

  lemma Regroup(a: Text, b: Text, c: Text, d: Text, e: Text, f: Text, x: Text)
    ensures a + b + c + d + e + f + x == a + (b + (c + (d + (e + f + x))))
  {
    assert a + b + c + d + e + f + x == a + (b + c + d + e + f + x);
    assert b + c + d + e + f + x == b + (c + d + e + f + x);
    assert c + d + e + f + x == c + (d + e + f + x);
    assert d + e + f + x == d + (e + f + x);
  }

  lemma {:induction false} ReadsField(parent: Json, f: Field, after: Text)
    requires f.value < parent && Ends(after)
    ensures ReadField(PrintString(f.key) + ([COLON] + (Print(f.value) + after)))
      == Some(Part(Field(f.key, Ordered(f.value)), after))
    decreases parent, 0, 0
  {
    var value := Print(f.value) + after;
    ReadsString(f.key, [COLON] + value);
    assert ([COLON] + value)[1..] == value;
    ReadsPrinted(f.value, after);
  }

  lemma {:induction false} ReadsFields(parent: Json, fields: seq<Field>, x: Text)
    requires fields != [] && forall i | 0 <= i < |fields| :: fields[i].value < parent
    ensures ReadFields(PrintFields(parent, fields) + [CLOSE_OBJECT] + x) == Some(Part(OrderedFields(parent, fields), x))
    decreases parent, 0, |fields|
  {
    hide Print, PrintFields, PrintString, ReadField, AfterField;
    var after := AfterField(parent, fields, x);
    FieldsUnfold(parent, fields, x);
    AfterFieldShape(parent, fields, x);
    ReadsField(parent, fields[0], after);
    if |fields| == 1 {
      assert OrderedFields(parent, fields) == [Field(fields[0].key, Ordered(fields[0].value))];
    } else {
      ReadsFields(parent, fields[1..], x);
    }
  }

  // ---------- which value that is ----------

  /** It is the printed one up to the order of object properties, and its keys ascend by
      code unit. */
  lemma {:induction false} OrderedSame(j: Json)
    requires WellFormed(j)
    ensures Same(Ordered(j), j) && KeysAscend(Ordered(j))
    decreases j
  {
    match j
    case Array(elements) =>
      forall i | 0 <= i < |elements| ensures Same(Ordered(elements[i]), elements[i]) && KeysAscend(Ordered(elements[i])) {
        OrderedSame(elements[i]);
      }
    case Object(fields) =>
      forall f | f in fields ensures Same(Ordered(f.value), f.value) && KeysAscend(Ordered(f.value)) {
        OrderedSame(f.value);
      }
      OrderedObject(j);
    case _ =>
  }

  lemma OrderedObject(j: Json)
    requires WellFormed(j) && j.Object?
    requires forall f | f in j.fields :: Same(Ordered(f.value), f.value) && KeysAscend(Ordered(f.value))
    ensures Same(Ordered(j), j) && KeysAscend(Ordered(j))
  {
    hide Sorted, LexLe, Before, UniqueKeys, WellFormed;
    SortedSmaller(j);
    var sorted, ordered := Sorted(j.fields), OrderedFields(j, Sorted(j.fields));
    forall e | e in ordered
      ensures (exists f | f in j.fields :: f.key == e.key && Same(e.value, f.value)) && KeysAscend(e.value)
    {
      var i :| 0 <= i < |ordered| && ordered[i] == e;
      assert sorted[i] in j.fields;
    }
    OrderedAscend(j, ordered);
  }

  lemma OrderedAscend(j: Json, ordered: seq<Field>)
    requires WellFormed(j) && j.Object? && |ordered| == |j.fields|
    requires forall i | 0 <= i < |ordered| :: ordered[i].key == Sorted(j.fields)[i].key
    ensures forall i, k | 0 <= i < k < |ordered| :: Before(ordered[i].key, ordered[k].key)
  {
    hide Sorted, LexLe, Before;
    SortedKeys(j.fields);
    var keys := Keys(Sorted(j.fields));
    forall i, k | 0 <= i < k < |ordered| ensures Before(ordered[i].key, ordered[k].key) {
      assert keys[i] == ordered[i].key && keys[k] == ordered[k].key;
      LexIsBefore(ordered[i].key, ordered[k].key);
    }
  }

  /** Reading a canonical text yields the value that was printed, with the keys of every
      object in ascending order. */
  lemma ReadsBack(j: Json)
    requires WellFormed(j)
    ensures var r := Read(Print(j)); r.Some? && Same(r.value, j) && KeysAscend(r.value)
  {
    assert Print(j) + [] == Print(j);
    ReadsPrinted(j, []);
    OrderedSame(j);
  }

  // ---------- a printed value can be told from any other ----------

  /** Values that are the same once ordered are the same. */
  lemma {:induction false} SameOrdered(a: Json, b: Json)
    requires Ordered(a) == Ordered(b)
    ensures Same(a, b)
    decreases a
  {
    match a
    case Array(es) =>
      var r := Ordered(a).elements;
      forall i | 0 <= i < |es| ensures Same(es[i], b.elements[i]) {
        assert r[i] == Ordered(es[i]) == Ordered(b.elements[i]);
        SameOrdered(es[i], b.elements[i]);
      }
    case Object(es) =>
      SortedSmaller(a);
      SortedSmaller(b);
      var r, sa, sb := Ordered(a).fields, Sorted(es), Sorted(b.fields);
      forall i | 0 <= i < |es| ensures sa[i].key == sb[i].key && Same(sa[i].value, sb[i].value) {
        assert r[i].key == sa[i].key == sb[i].key && r[i].value == Ordered(sa[i].value) == Ordered(sb[i].value);
        SameOrdered(sa[i].value, sb[i].value);
      }
      SortedSame(es, b.fields);
    case _ =>
  }

  /** Sorted objects that agree pairwise are the same object. */
  lemma SortedSame(es: seq<Field>, fs: seq<Field>)
    requires |es| == |fs|
    requires forall i | 0 <= i < |es| ::
      Sorted(es)[i].key == Sorted(fs)[i].key && Same(Sorted(es)[i].value, Sorted(fs)[i].value)
    ensures forall e | e in es :: exists f | f in fs :: f.key == e.key && Same(e.value, f.value)
  {
    forall e | e in es ensures exists f | f in fs :: f.key == e.key && Same(e.value, f.value) {
      assert e in Sorted(es);
      var i :| 0 <= i < |es| && Sorted(es)[i] == e;
      assert Sorted(fs)[i] in fs;
    }
  }

  lemma PrefixFree(a: Json, b: Json, x: Text, y: Text)
    requires Print(a) + x == Print(b) + y && Ends(x) && Ends(y)
    ensures x == y && Same(a, b)
  {
    ReadsPrinted(a, x);
    ReadsPrinted(b, y);
    SameOrdered(a, b);
  }

  // ---------- the same value prints the same ----------

  function Keys(fields: seq<Field>): (keys: seq<Text>)
    ensures |keys| == |fields| && forall i | 0 <= i < |fields| :: keys[i] == fields[i].key
  {
    seq(|fields|, i requires 0 <= i < |fields| => fields[i].key)
  }

  lemma SortedKeys(fields: seq<Field>)
    requires UniqueKeys(fields)
    ensures SortedBy(LexLe, Keys(Sorted(fields))) && Distinct(Keys(Sorted(fields)))
    ensures UniqueKeys(Sorted(fields))
  {
    LexTotalPreorder();
    SortBySorted(KeyLe, fields);
    var sorted := Sorted(fields);
    assert SortedBy(KeyLe, sorted);
    assert Distinct(fields);
    DistinctPermutation(fields, sorted);
    forall i, j | 0 <= i < j < |sorted| ensures sorted[i].key != sorted[j].key {
      assert sorted[i] in fields && sorted[j] in fields && sorted[i] != sorted[j];
    }
  }

  /** Objects with the same keys have them in the same places once sorted. */
  lemma SameSortedKeys(es: seq<Field>, fs: seq<Field>)
    requires UniqueKeys(es) && UniqueKeys(fs) && |es| == |fs|
    requires forall e | e in es :: exists f | f in fs :: f.key == e.key
    ensures Keys(Sorted(es)) == Keys(Sorted(fs))
  {
    SortedKeys(es);
    SortedKeys(fs);
    var a, b := Keys(Sorted(es)), Keys(Sorted(fs));
    forall k | k in a ensures k in b {
      var i :| 0 <= i < |a| && a[i] == k;
      assert Sorted(es)[i] in es;
      var f :| f in fs && f.key == k;
      assert f in Sorted(fs);
      var m :| 0 <= m < |fs| && Sorted(fs)[m] == f;
      assert b[m] == k;
    }
    DistinctInclusion(a, b);
    LexNoTies(a);
    SortedUnique(LexLe, a, b);
  }

  lemma LexNoTies(keys: seq<Text>)
    ensures NoTies(LexLe, keys) && forall k | k in keys :: LexLe(k, k)
  {
    forall x, y | x in keys && y in keys && LexLe(x, y) && LexLe(y, x) ensures x == y {
      LexAntisymmetric(x, y);
    }
    forall k | k in keys ensures LexLe(k, k) { LexTotal(k, k); }
  }

  lemma SortedValuesSame(es: seq<Field>, fs: seq<Field>)
    requires UniqueKeys(es) && UniqueKeys(fs) && |es| == |fs|
    requires forall e | e in es :: exists f | f in fs :: f.key == e.key && Same(e.value, f.value)
    ensures forall i | 0 <= i < |es| ::
      Sorted(es)[i].key == Sorted(fs)[i].key && Same(Sorted(es)[i].value, Sorted(fs)[i].value)
  {
    SameSortedKeys(es, fs);
    forall i | 0 <= i < |es|
      ensures Sorted(es)[i].key == Sorted(fs)[i].key && Same(Sorted(es)[i].value, Sorted(fs)[i].value)
    {
      var e, g := Sorted(es)[i], Sorted(fs)[i];
      assert Keys(Sorted(es))[i] == e.key && Keys(Sorted(fs))[i] == g.key;
      assert e in es && g in fs;
      var f :| f in fs && f.key == e.key && Same(e.value, f.value);
      assert f == g;
    }
  }

  lemma {:induction false} SamePrints(a: Json, b: Json)
    requires WellFormed(a) && WellFormed(b) && Same(a, b)
    ensures Print(a) == Print(b)
    decreases a, 1, 0
  {
    match a
    case Array(es) => SameElementsPrint(a, es, b, b.elements);
    case Object(es) => SameObjectsPrint(a, b);
    case _ =>
  }

  lemma {:induction false} SameObjectsPrint(a: Json, b: Json)
    requires a.Object? && b.Object? && WellFormed(a) && WellFormed(b) && Same(a, b)
    ensures Print(a) == Print(b)
    decreases a, 0, |a.fields| + 1
  {
    SortedSmaller(a);
    SortedSmaller(b);
    SortedValuesSame(a.fields, b.fields);
    SortedWellFormed(a);
    SortedWellFormed(b);
    SameFieldsPrint(a, Sorted(a.fields), b, Sorted(b.fields));
  }

  lemma SortedWellFormed(j: Json)
    requires j.Object? && WellFormed(j)
    ensures forall i | 0 <= i < |Sorted(j.fields)| :: WellFormed(Sorted(j.fields)[i].value)
  {
    forall i | 0 <= i < |Sorted(j.fields)| ensures WellFormed(Sorted(j.fields)[i].value) {
      assert Sorted(j.fields)[i] in j.fields;
    }
  }

  lemma {:induction false} SameElementsPrint(pa: Json, es: seq<Json>, pb: Json, fs: seq<Json>)
    requires forall i | 0 <= i < |es| :: es[i] < pa && WellFormed(es[i])
    requires forall i | 0 <= i < |fs| :: fs[i] < pb && WellFormed(fs[i])
    requires |es| == |fs| && forall i | 0 <= i < |es| :: Same(es[i], fs[i])
    ensures PrintElements(pa, es) == PrintElements(pb, fs)
    decreases pa, 0, |es|
  {
    if es != [] {
      SamePrints(es[0], fs[0]);
      SameElementsPrint(pa, es[1..], pb, fs[1..]);
    }
  }

  lemma {:induction false} SameFieldsPrint(pa: Json, es: seq<Field>, pb: Json, fs: seq<Field>)
    requires forall i | 0 <= i < |es| :: es[i].value < pa && WellFormed(es[i].value)
    requires forall i | 0 <= i < |fs| :: fs[i].value < pb && WellFormed(fs[i].value)
    requires |es| == |fs| && forall i | 0 <= i < |es| :: es[i].key == fs[i].key && Same(es[i].value, fs[i].value)
    ensures PrintFields(pa, es) == PrintFields(pb, fs)
    decreases pa, 0, |es|
  {
    if es != [] {
      SamePrints(es[0].value, fs[0].value);
      SameFieldsPrint(pa, es[1..], pb, fs[1..]);
    }
  }

  /** Canonical JSON is a faithful key: two values print the same text exactly when
      they are the same up to the order of object properties. */
  lemma CanonicalIsFaithful(a: Json, b: Json)
    requires WellFormed(a) && WellFormed(b)
    ensures Print(a) == Print(b) <==> Same(a, b)
  {
    if Same(a, b) {
      SamePrints(a, b);
    }
    if Print(a) == Print(b) {
      assert Print(a) + [] == Print(b) + [];
      PrefixFree(a, b, [], []);
    }
  }
}
