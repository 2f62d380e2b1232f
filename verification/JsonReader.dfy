/** What a JSON text means: a reader for the grammar of RFC 8259 without insignificant
    whitespace, and with integers as the only numbers. It knows nothing of how texts are
    printed. */
module JsonReader {
  import opened JsonValues
  import NumericText
  import opened Options
  import opened Texts

  /** What has been read off the front of a text, and the text after it. */
  datatype Part<T> = Part(value: T, rest: Text)

  // ---------- strings (section 7) ----------

  function HexDigit(c: nat): (d: Option<nat>)
    ensures d.Some? ==> d.value < 16
  {
    if '0' as nat <= c <= '9' as nat then Some(c - '0' as nat)
    else if 'a' as nat <= c <= 'f' as nat then Some(c - 'a' as nat + 10)
    else if 'A' as nat <= c <= 'F' as nat then Some(c - 'A' as nat + 10)
    else None
  }

  function ReadHex(t: Text): Option<Part<Unit>> {
    if |t| < 4 then None
    else match (HexDigit(t[0]), HexDigit(t[1]), HexDigit(t[2]), HexDigit(t[3]))
      case (Some(a), Some(b), Some(c), Some(d)) => Some(Part(0x1000 * a + 0x100 * b + 0x10 * c + d, t[4..]))
      case _ => None
  }

  /** The rest of an escape, after the backslash. */
  function ReadEscape(t: Text): (r: Option<Part<Unit>>)
    ensures r.Some? ==> |r.value.rest| < |t|
  {
    if t == [] then None
    else if t[0] == '"' as nat || t[0] == '\\' as nat || t[0] == '/' as nat then Some(Part(t[0], t[1..]))
    else if t[0] == 'b' as nat then Some(Part(0x8, t[1..]))
    else if t[0] == 'f' as nat then Some(Part(0xC, t[1..]))
    else if t[0] == 'n' as nat then Some(Part(0xA, t[1..]))
    else if t[0] == 'r' as nat then Some(Part(0xD, t[1..]))
    else if t[0] == 't' as nat then Some(Part(0x9, t[1..]))
    else if t[0] == 'u' as nat then ReadHex(t[1..])
    else None
  }

  function ReadUnit(t: Text): (r: Option<Part<Unit>>)
    requires t != []
    ensures r.Some? ==> |r.value.rest| < |t|
  {
    if t[0] == '\\' as nat then ReadEscape(t[1..])
    else if ' ' as nat <= t[0] < 0x10000 then Some(Part(t[0], t[1..]))
    else None
  }

  /** The rest of a string, after the opening quote. */
  function ReadUnits(t: Text): (r: Option<Part<Units>>)
    ensures r.Some? ==> |r.value.rest| < |t|
    decreases |t|
  {
    if t == [] then None
    else if t[0] == '"' as nat then Some(Part([], t[1..]))
    else match ReadUnit(t)
      case None => None
      case Some(unit) =>
        match ReadUnits(unit.rest)
        case None => None
        case Some(more) => Some(Part([unit.value] + more.value, more.rest))
  }

  function ReadString(t: Text): (r: Option<Part<Units>>)
    ensures r.Some? ==> |r.value.rest| < |t|
  {
    if t != [] && t[0] == '"' as nat then ReadUnits(t[1..]) else None
  }

  // ---------- integers (section 6) ----------

  predicate IsDigit(c: nat) {
    '0' as nat <= c <= '9' as nat
  }

  /** How many digits a text begins with. */
  function DigitCount(t: Text): (n: nat)
    ensures n <= |t| && NumericText.AllDigits(t[..n])
  {
    if t != [] && IsDigit(t[0]) then
      var n := 1 + DigitCount(t[1..]);
      assert forall i | 1 <= i < n :: t[i] == t[1..][..n - 1][i - 1];
      n
    else 0
  }

  /** No zero before other digits, no fraction and no exponent. */
  function ReadNat(t: Text): (r: Option<Part<int>>)
    ensures r.Some? ==> |r.value.rest| < |t|
  {
    var n := DigitCount(t);
    var rest := t[n..];
    if n == 0 || (n > 1 && t[0] == '0' as nat) then None
    else if rest != [] && (rest[0] == '.' as nat || rest[0] == 'e' as nat || rest[0] == 'E' as nat) then None
    else
      var value: int := NumericText.NatOf(t[..n]);
      Some(Part(value, rest))
  }

  function ReadInteger(t: Text): (r: Option<Part<int>>)
    ensures r.Some? ==> |r.value.rest| < |t|
  {
    if t != [] && t[0] == '-' as nat then
      match ReadNat(t[1..])
      case None => None
      case Some(n) => Some(Part(-n.value, n.rest))
    else ReadNat(t)
  }

  // ---------- values (sections 3 to 5) ----------

  predicate Begins(t: Text, c: char) {
    t != [] && t[0] == c as nat
  }

  function ReadWord(t: Text, word: string, value: Json): (r: Option<Part<Json>>)
    requires word != ""
    ensures r.Some? ==> |r.value.rest| < |t|
  {
    if |word| <= |t| && forall i | 0 <= i < |word| :: t[i] == word[i] as nat then Some(Part(value, t[|word|..]))
    else None
  }

  function ReadValue(t: Text): (r: Option<Part<Json>>)
    ensures r.Some? ==> |r.value.rest| < |t|
    decreases |t|, 0
  {
    if Begins(t, 'n') then ReadWord(t, "null", Null)
    else if Begins(t, 't') then ReadWord(t, "true", Bool(true))
    else if Begins(t, 'f') then ReadWord(t, "false", Bool(false))
    else if Begins(t, '[') then ReadArray(t[1..])
    else if Begins(t, '{') then ReadObject(t[1..])
    else if Begins(t, '"') then
      match ReadString(t)
      case None => None
      case Some(s) => Some(Part(String(s.value), s.rest))
    else
      match ReadInteger(t)
      case None => None
      case Some(n) => if IsSafe(n.value) then Some(Part(Number(n.value), n.rest)) else None
  }

  function ReadArray(t: Text): (r: Option<Part<Json>>)
    ensures r.Some? ==> |r.value.rest| < |t|
    decreases |t|, 2
  {
    if Begins(t, ']') then Some(Part(Array([]), t[1..]))
    else
      match ReadElements(t)
      case None => None
      case Some(es) => Some(Part(Array(es.value), es.rest))
  }

  function ReadElements(t: Text): (r: Option<Part<seq<Json>>>)
    ensures r.Some? ==> |r.value.rest| < |t|
    decreases |t|, 1
  {
    match ReadValue(t)
    case None => None
    case Some(e) =>
      if Begins(e.rest, ']') then Some(Part([e.value], e.rest[1..]))
      else if Begins(e.rest, ',') then
        match ReadElements(e.rest[1..])
        case None => None
        case Some(more) => Some(Part([e.value] + more.value, more.rest))
      else None
  }

  function ReadObject(t: Text): (r: Option<Part<Json>>)
    ensures r.Some? ==> |r.value.rest| < |t|
    decreases |t|, 2
  {
    if Begins(t, '}') then Some(Part(Object([]), t[1..]))
    else
      match ReadFields(t)
      case None => None
      case Some(fs) => Some(Part(Object(fs.value), fs.rest))
  }

  function ReadField(t: Text): (r: Option<Part<Field>>)
    ensures r.Some? ==> |r.value.rest| < |t|
    decreases |t|, 0
  {
    match ReadString(t)
    case None => None
    case Some(key) =>
      if !Begins(key.rest, ':') then None
      else
        match ReadValue(key.rest[1..])
        case None => None
        case Some(v) => Some(Part(Field(key.value, v.value), v.rest))
  }

  function ReadFields(t: Text): (r: Option<Part<seq<Field>>>)
    ensures r.Some? ==> |r.value.rest| < |t|
    decreases |t|, 1
  {
    match ReadField(t)
    case None => None
    case Some(f) =>
      if Begins(f.rest, '}') then Some(Part([f.value], f.rest[1..]))
      else if Begins(f.rest, ',') then
        match ReadFields(f.rest[1..])
        case None => None
        case Some(more) => Some(Part([f.value] + more.value, more.rest))
      else None
  }

  /** The value of a whole text. */
  function Read(t: Text): Option<Json> {
    match ReadValue(t)
    case None => None
    case Some(part) => if part.rest == [] then Some(part.value) else None
  }
}
