/** JSON values, strings being sequences of UTF-16 code units, and the structural
    comparison of them (packages/shared/src/hr-performance-source-drafts.ts,
    sameSourceJson). */
module JsonValues {
  import opened Texts

  type Unit = u: nat | u < 0x10000
  type Units = seq<Unit>

  /** Integers that JavaScript holds exactly and prints in full. */
  type Safe = n: int | IsSafe(n)

  predicate IsSafe(n: int) {
    -0x20_0000_0000_0000 < n < 0x20_0000_0000_0000
  }

  /** JSON trees with integer numbers. An object lists its properties in the order
      in which they were set. */
  datatype Json =
    | Null
    | Bool(b: bool)
    | Number(n: Safe)
    | String(s: Units)
    | Array(elements: seq<Json>)
    | Object(fields: seq<Field>)

  datatype Field = Field(key: Units, value: Json)

  predicate UniqueKeys(fields: seq<Field>) {
    forall i, j | 0 <= i < j < |fields| :: fields[i].key != fields[j].key
  }

  /** No object has the same key twice. */
  predicate WellFormed(j: Json) {
    match j
    case Array(elements) => forall e | e in elements :: WellFormed(e)
    case Object(fields) => UniqueKeys(fields) && forall f | f in fields :: WellFormed(f.value)
    case _ => true
  }

  /** Equal up to the order of object properties. */
  predicate Same(a: Json, b: Json) {
    match (a, b)
    case (Array(es), Array(fs)) => |es| == |fs| && forall i | 0 <= i < |es| :: Same(es[i], fs[i])
    case (Object(es), Object(fs)) =>
      |es| == |fs| && forall e | e in es :: exists f | f in fs :: f.key == e.key && Same(e.value, f.value)
    case (_, _) => a == b
  }

  /** The keys of every object ascend. */
  ghost predicate KeysAscend(j: Json) {
    match j
    case Array(elements) => forall e | e in elements :: KeysAscend(e)
    case Object(fields) =>
      && (forall i, k | 0 <= i < k < |fields| :: Before(fields[i].key, fields[k].key))
      && forall f | f in fields :: KeysAscend(f.value)
    case _ => true
  }
}
