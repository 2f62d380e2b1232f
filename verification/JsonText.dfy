/** How JSON.stringify prints strings and integers: what is printed can be read back from
    the front of a longer text, and it holds no control character and no lone surrogate
    (section 7 of RFC 8259). */
module JsonText {
  import opened JsonReader
  import opened JsonValues
  import NumericText
  import opened Options
  import opened Texts

  const QUOTE: nat := 34
  const COMMA: nat := 44
  const MINUS: nat := 45
  const COLON: nat := 58
  const OPEN_ARRAY: nat := 91
  const BACKSLASH: nat := 92
  const CLOSE_ARRAY: nat := 93
  const OPEN_OBJECT: nat := 123
  const CLOSE_OBJECT: nat := 125

  // ---------- strings ----------

  predicate High(u: nat) {
    0xD800 <= u < 0xDC00
  }

  predicate Low(u: nat) {
    0xDC00 <= u < 0xE000
  }

  function Hex(d: nat): nat
    requires d < 16
  {
    if d < 10 then 48 + d else 87 + d
  }

  function UnicodeEscape(u: Unit): (t: Text)
    ensures |t| == 6
  {
    [BACKSLASH, 117, Hex(u / 16 / 16 / 16), Hex(u / 16 / 16 % 16), Hex(u / 16 % 16), Hex(u % 16)]
  }

  /** One code unit; paired says that it is half of a surrogate pair. */
  function Quoted(u: Unit, paired: bool): (t: Text)
    ensures t != [] && t[0] != QUOTE
  {
    if u == QUOTE then [BACKSLASH, QUOTE]
    else if u == BACKSLASH then [BACKSLASH, BACKSLASH]
    else if u == 8 then [BACKSLASH, 98]
    else if u == 12 then [BACKSLASH, 102]
    else if u == 10 then [BACKSLASH, 110]
    else if u == 13 then [BACKSLASH, 114]
    else if u == 9 then [BACKSLASH, 116]
    else if u < 32 || ((High(u) || Low(u)) && !paired) then UnicodeEscape(u)
    else [u]
  }

  /** The rest of a string after a unit that is a high surrogate or not. A high
      surrogate is paired with a low one after it, a low one with a high one before. */
  function Body(s: Units, afterHigh: bool): Text {
    if s == [] then []
    else Quoted(s[0], Paired(s, afterHigh)) + Body(s[1..], High(s[0]))
  }

  predicate Paired(s: Units, afterHigh: bool)
    requires s != []
  {
    (High(s[0]) && |s| > 1 && Low(s[1])) || (Low(s[0]) && afterHigh)
  }

  function PrintString(s: Units): Text {
    [QUOTE] + Body(s, false) + [QUOTE]
  }

  lemma ReadsHex(u: Unit, x: Text)
    ensures ReadHex(UnicodeEscape(u)[2..] + x) == Some(Part(u, x))
  {
    var t := UnicodeEscape(u)[2..] + x;
    assert t[..4] == UnicodeEscape(u)[2..] && t[4..] == x;
    assert HexDigit(t[0]) == Some(u / 16 / 16 / 16) && HexDigit(t[1]) == Some(u / 16 / 16 % 16);
    assert HexDigit(t[2]) == Some(u / 16 % 16) && HexDigit(t[3]) == Some(u % 16);
  }

  /** However a unit is printed, that unit is read back. */
  lemma ReadsQuoted(u: Unit, paired: bool, x: Text)
    ensures ReadUnit(Quoted(u, paired) + x) == Some(Part(u, x))
  {
    var q := Quoted(u, paired);
    var t := q + x;
    assert t[0] == q[0] && t[|q|..] == x;
    if |q| == 2 {
      assert t[1..][0] == q[1] && t[1..][1..] == x;
    } else if |q| == 6 {
      assert t[1..][0] == q[1] && t[1..][1..] == UnicodeEscape(u)[2..] + x;
      ReadsHex(u, x);
    }
  }

  lemma BodyUnfold(s: Units, afterHigh: bool, x: Text)
    requires s != []
    ensures Body(s, afterHigh) + [QUOTE] + x == Quoted(s[0], Paired(s, afterHigh)) + (Body(s[1..], High(s[0])) + [QUOTE] + x)
  {
  }

  lemma {:induction false} ReadsBody(s: Units, afterHigh: bool, x: Text)
    ensures ReadUnits(Body(s, afterHigh) + [QUOTE] + x) == Some(Part(s, x))
  {
    var t := Body(s, afterHigh) + [QUOTE] + x;
    if s == [] {
      assert t[0] == QUOTE && t[1..] == x;
    } else {
      BodyUnfold(s, afterHigh, x);
      ReadsQuoted(s[0], Paired(s, afterHigh), Body(s[1..], High(s[0])) + [QUOTE] + x);
      assert t[0] == Quoted(s[0], Paired(s, afterHigh))[0];
      ReadsBody(s[1..], High(s[0]), x);
      assert s == [s[0]] + s[1..];
    }
  }

  /** A reader of JSON gets every string back, lone surrogates included, and knows where
      it ends. */
  lemma ReadsString(s: Units, x: Text)
    ensures ReadString(PrintString(s) + x) == Some(Part(s, x))
  {
    hide Body, ReadUnits;
    ReadsBody(s, false, x);
    var rest := Body(s, false) + [QUOTE] + x;
    assert PrintString(s) + x == [QUOTE] + rest;
    assert ([QUOTE] + rest)[1..] == rest;
  }

  /** A printed string can be read off the front of any text. */
  lemma StringPrefix(s: Units, t: Units, x: Text, y: Text)
    requires PrintString(s) + x == PrintString(t) + y
    ensures s == t && x == y
  {
    ReadsString(s, x);
    ReadsString(t, y);
  }

  // ---------- what is left unescaped ----------

  /** Surrogates come in pairs, the first unit being the second half of one or not. */
  predicate WellPaired(t: Text, afterHigh: bool) {
    if t == [] then !afterHigh
    else if afterHigh then Low(t[0]) && WellPaired(t[1..], false)
    else !Low(t[0]) && WellPaired(t[1..], High(t[0]))
  }

  predicate IsPlain(u: nat) {
    32 <= u && u != QUOTE && u != BACKSLASH
  }

  lemma {:induction false} EscapedBeforePaired(e: Text, t: Text)
    requires WellPaired(t, false) && forall i | 0 <= i < |e| :: !High(e[i]) && !Low(e[i])
    ensures WellPaired(e + t, false)
  {
    if e == [] {
      assert e + t == t;
    } else {
      EscapedBeforePaired(e[1..], t);
      assert (e + t)[1..] == e[1..] + t;
    }
  }

  lemma {:induction false} BodyIsWellPaired(s: Units, afterHigh: bool)
    ensures WellPaired(Body(s, afterHigh) + [QUOTE], afterHigh && s != [] && Low(s[0]))
  {
    if s == [] {
      var last: Text := [QUOTE];
      assert Body(s, afterHigh) + [QUOTE] == last && last[1..] == [];
    } else {
      BodyIsWellPaired(s[1..], High(s[0]));
      var q, rest := Quoted(s[0], Paired(s, afterHigh)), Body(s[1..], High(s[0])) + [QUOTE];
      assert Body(s, afterHigh) + [QUOTE] == q + rest;
      if |q| == 1 {
        assert (q + rest)[1..] == rest;
      } else {
        EscapedBeforePaired(q, rest);
      }
    }
  }

  /** Every printed string is well-formed UTF-16, whatever the string was. */
  lemma PrintedIsWellPaired(s: Units)
    ensures WellPaired(PrintString(s), false)
  {
    BodyIsWellPaired(s, false);
    assert PrintString(s)[1..] == Body(s, false) + [QUOTE];
  }

  lemma {:induction false} PlainBody(s: Units, afterHigh: bool)
    requires WellPaired(s, afterHigh) && forall i | 0 <= i < |s| :: IsPlain(s[i])
    ensures Body(s, afterHigh) == s
  {
    if s != [] {
      assert High(s[0]) ==> |s| > 1 && Low(s[1]);
      PlainBody(s[1..], High(s[0]));
      assert s == [s[0]] + s[1..];
    }
  }

  /** Nothing is escaped that need not be. */
  lemma PlainStringsStandForThemselves(s: Units)
    requires WellPaired(s, false) && forall i | 0 <= i < |s| :: IsPlain(s[i])
    ensures PrintString(s) == [QUOTE] + s + [QUOTE]
  {
    PlainBody(s, false);
  }

  // ---------- integers ----------

  function Digits(n: nat): (t: Text)
    ensures t != [] && forall i | 0 <= i < |t| :: IsDigit(t[i])
  {
    if n < 10 then [48 + n] else Digits(n / 10) + [48 + n % 10]
  }

  function Sign(n: int): Text {
    if n < 0 then [MINUS] else []
  }

  function PrintInteger(n: int): Text {
    Sign(n) + Digits(if n < 0 then -n else n)
  }

  predicate EndsNumber(x: Text) {
    x == [] || !IsDigit(x[0])
  }

  /** Neither a digit nor what would make a fraction or an exponent of what precedes. */
  predicate EndsInteger(x: Text) {
    EndsNumber(x) && (x == [] || (x[0] != '.' as nat && x[0] != 'e' as nat && x[0] != 'E' as nat))
  }

  lemma {:induction false} DigitsMean(n: nat)
    ensures NumericText.AllDigits(Digits(n)) && NumericText.NatOf(Digits(n)) == n
    ensures |Digits(n)| > 1 ==> Digits(n)[0] != '0' as nat
  {
    var d := Digits(n);
    if n < 10 {
      assert d[..0] == [];
    } else {
      DigitsMean(n / 10);
      assert d[..|d| - 1] == Digits(n / 10);
      assert d[0] == Digits(n / 10)[0];
    }
  }

  lemma {:induction false} CountsDigits(d: Text, x: Text)
    requires EndsNumber(x) && forall i | 0 <= i < |d| :: IsDigit(d[i])
    ensures DigitCount(d + x) == |d|
  {
    if d == [] {
      assert d + x == x;
    } else {
      CountsDigits(d[1..], x);
      assert (d + x)[1..] == d[1..] + x;
    }
  }

  lemma ReadsDigits(n: int, x: Text)
    requires n >= 0 && EndsInteger(x)
    ensures ReadNat(Digits(n) + x) == Some(Part(n, x))
  {
    var d := Digits(n);
    DigitsMean(n);
    CountsDigits(d, x);
    assert (d + x)[..|d|] == d && (d + x)[|d|..] == x && (d + x)[0] == d[0];
  }

  /** A reader of JSON gets every integer back, when nothing that could belong to a number
      follows it. */
  lemma ReadsInteger(n: int, x: Text)
    requires EndsInteger(x)
    ensures ReadInteger(PrintInteger(n) + x) == Some(Part(n, x))
  {
    var d := Digits(if n < 0 then -n else n);
    var t := PrintInteger(n) + x;
    if n < 0 {
      assert t[0] == MINUS && t[1..] == d + x;
      ReadsDigits(-n, x);
    } else {
      assert t == d + x && t[0] == d[0] && IsDigit(d[0]);
      ReadsDigits(n, x);
    }
  }

  lemma DigitsPrefix(n: nat, m: nat, x: Text, y: Text)
    requires Digits(n) + x == Digits(m) + y && EndsNumber(x) && EndsNumber(y)
    ensures n == m && x == y
  {
    var a, b := Digits(n), Digits(m);
    CountsDigits(a, x);
    CountsDigits(b, y);
    assert a == (a + x)[..|a|] && b == (b + y)[..|b|] && x == (a + x)[|a|..] && y == (b + y)[|b|..];
    DigitsMean(n);
    DigitsMean(m);
  }

  lemma SignPrefix(n: int, m: int, d: Text, e: Text)
    requires Sign(n) + d == Sign(m) + e && d != [] && e != [] && IsDigit(d[0]) && IsDigit(e[0])
    ensures (n < 0 <==> m < 0) && d == e
  {
    var a, b := Sign(n) + d, Sign(m) + e;
    assert a[0] == if n < 0 then MINUS else d[0];
    assert b[0] == if m < 0 then MINUS else e[0];
    assert d == a[|Sign(n)|..] && e == b[|Sign(m)|..];
  }

  /** A printed integer can be read off the front when no digit follows it. */
  lemma IntegerPrefix(n: int, m: int, x: Text, y: Text)
    requires PrintInteger(n) + x == PrintInteger(m) + y && EndsNumber(x) && EndsNumber(y)
    ensures n == m && x == y
  {
    var d, e: nat := if n < 0 then -n else n, if m < 0 then -m else m;
    assert PrintInteger(n) + x == Sign(n) + (Digits(d) + x);
    assert PrintInteger(m) + y == Sign(m) + (Digits(e) + y);
    SignPrefix(n, m, Digits(d) + x, Digits(e) + y);
    DigitsPrefix(d, e, x, y);
  }
}
