/** The JSON request body as both services read it: `data.get(key, default)`,
    `.strip()` on the value, `int(value)` and `min(value, cap)`. A Python
    exception raised by any of these becomes `None` here. */
module JsonBody {
  import opened Basics
  import opened Text

  /** A JSON value; a number with a fraction or an exponent is a float,
      held exactly, and arrays and objects are not looked into. */
  datatype Json = JNull | JBool(b: bool) | JInt(i: int) | JFloat(x: real) | JString(s: string) | JCompound

  type Body = map<string, Json>

  /** A refused request: a 400 answer with its message, or a 500 answer
      from an exception raised while handling it. */
  datatype Rejection = BadRequest(message: string) | ServerError

  /** `data.get(key, default)`. */
  function Get(data: Body, key: string, default: Json): Json {
    if key in data then data[key] else default
  }

  /** `value.strip()`: only a string has it, anything else raises. */
  function StrippedText(v: Json): (r: Option<string>)
    ensures r.Some? <==> v.JString?
    ensures r.Some? ==> r.value == Strip(v.s)
  {
    match v
    case JString(s) => Some(Strip(s))
    case _ => None
  }

  /** Decimal digits as `int` accepts them: at least one, and single
      underscores allowed between two digits. */
  predicate Numeral(s: string) {
    && s != []
    && IsDigit(s[0]) && IsDigit(s[|s| - 1])
    && (forall k :: 0 <= k < |s| ==> IsDigit(s[k]) || s[k] == '_')
    && (forall k :: 0 < k < |s| ==> s[k - 1] != '_' || s[k] != '_')
  }

  /** The digits of a numeral, its underscores dropped. */
  function NumeralDigits(s: string): (r: string)
    requires Numeral(s)
    ensures r != [] && AllDigits(r)
  {
    var r := Without(s, '_');
    assert s[0] in r;
    assert forall k :: 0 <= k < |r| ==> r[k] in s && r[k] != '_';
    r
  }

  /** A signed decimal integer as `int(text)` accepts it, after the text's
      surrounding whitespace is stripped: an optional sign, then a numeral. */
  function IntOfText(text: string): (r: Option<int>)
    ensures var t := Strip(text);
      && (Numeral(t) ==> r == Some(NatOf(NumeralDigits(t))))
      && (t != [] && t[0] == '-' && Numeral(t[1..]) ==> r.Some? && r.value == -(NatOf(NumeralDigits(t[1..])) as int))
      && (t != [] && t[0] == '+' && Numeral(t[1..]) ==> r == Some(NatOf(NumeralDigits(t[1..]))))
      && (r.Some? ==> t != [] && (Numeral(t) || (t[0] in "+-" && Numeral(t[1..]))))
  {
    var t := Strip(text);
    if t == [] then None
    else
      var negative := t[0] == '-';
      var digits := if t[0] == '+' || t[0] == '-' then t[1..] else t;
      if !Numeral(digits) then None
      else if negative then Some(-(NatOf(NumeralDigits(digits)) as int))
      else Some(NatOf(NumeralDigits(digits)))
  }

  /** The decimal digits of `n`, most significant first, without leading zeros. */
  function DigitsOf(n: nat): (ds: string)
    ensures ds != [] && AllDigits(ds)
  {
    var d := ((n % 10) + '0' as int) as char;
    if n < 10 then [d] else DigitsOf(n / 10) + [d]
  }

  lemma {:induction false} DigitsOfValue(n: nat)
    ensures NatOf(DigitsOf(n)) == n
  {
    var ds := DigitsOf(n);
    if n >= 10 {
      DigitsOfValue(n / 10);
      assert ds[..|ds| - 1] == DigitsOf(n / 10);
    }
  }

  /** Plain digits are a numeral that reads as themselves. */
  lemma DigitsNumeral(ds: string)
    requires ds != [] && AllDigits(ds)
    ensures Numeral(ds) && NumeralDigits(ds) == ds
  {
    assert '_' !in ds;
    WithoutAbsent(ds, '_');
  }

  /** `int(str(n))` gives `n` back for a natural number. */
  lemma IntOfTextRoundTrip(n: nat)
    ensures IntOfText(DigitsOf(n)) == Some(n)
  {
    var ds := DigitsOf(n);
    DigitsOfValue(n);
    DigitsNumeral(ds);
    StripOfStripped(ds);
    assert ds[0] != '+' && ds[0] != '-';
  }

  /** ... and for a negative one written with its minus sign. */
  lemma IntOfTextRoundTripNegative(n: nat)
    requires n > 0
    ensures IntOfText("-" + DigitsOf(n)).Some? && IntOfText("-" + DigitsOf(n)).value == -(n as int)
  {
    var ds := DigitsOf(n);
    DigitsOfValue(n);
    var t := "-" + ds;
    assert t[0] == '-' && t[|t| - 1] == ds[|ds| - 1];
    assert !IsSpace(t[0]) && !IsSpace(t[|t| - 1]);
    StripOfStripped(t);
    assert t[1..] == ds;
    DigitsNumeral(ds);
  }

  /** An underscore between two groups of digits is ignored:
      `int("1_000") == 1000`. */
  lemma IntOfTextUnderscore(a: string, b: string)
    requires a != [] && AllDigits(a) && b != [] && AllDigits(b)
    ensures IntOfText(a + "_" + b) == Some(NatOf(a + b))
  {
    var t := a + "_" + b;
    JoinedNumeral(a, b);
    assert !IsSpace(t[0]) && !IsSpace(t[|t| - 1]);
    StripOfStripped(t);
    assert t[0] != '+' && t[0] != '-';
  }

  lemma JoinedNumeral(a: string, b: string)
    requires a != [] && AllDigits(a) && b != [] && AllDigits(b)
    ensures Numeral(a + "_" + b) && NumeralDigits(a + "_" + b) == a + b
  {
    JoinedIsNumeral(a, b);
    assert '_' !in a && '_' !in b;
    WithoutAbsent(a, '_');
    WithoutAbsent(b, '_');
    WithoutAround(a, b, '_');
  }

  lemma WithoutAround(a: string, b: string, c: char)
    ensures Without(a + [c] + b, c) == Without(a, c) + Without(b, c)
  {
    WithoutAppend(a + [c], b, c);
    WithoutAppend(a, [c], c);
  }

  lemma JoinedIsNumeral(a: string, b: string)
    requires a != [] && AllDigits(a) && b != [] && AllDigits(b)
    ensures Numeral(a + "_" + b)
  {
    var t := a + "_" + b;
    forall k | 0 <= k < |t|
      ensures IsDigit(t[k]) || t[k] == '_'
      ensures k < |a| || k > |a| ==> IsDigit(t[k])
    {
      if k < |a| {
        assert t[k] == a[k];
      } else if k > |a| {
        assert t[k] == b[k - |a| - 1];
      }
    }
  }

  /** A repeated, leading or trailing underscore is refused. */
  lemma IntOfTextRefusesLoneUnderscores(a: string)
    requires a != [] && AllDigits(a)
    ensures IntOfText(a + "__" + a).None?
    ensures IntOfText("_" + a).None?
    ensures IntOfText(a + "_").None?
  {
    var t := a + "__" + a;
    assert t[|a|] == '_' && t[|a| + 1] == '_';
    assert !Numeral(t);
    assert !IsSpace(t[0]) && !IsSpace(t[|t| - 1]);
    StripOfStripped(t);
    var u := "_" + a;
    assert !IsSpace(u[0]) && !IsSpace(u[|u| - 1]);
    StripOfStripped(u);
    var v := a + "_";
    assert !IsSpace(v[0]) && !IsSpace(v[|v| - 1]);
    StripOfStripped(v);
    assert !Numeral(v) && !Numeral(v[1..]);
  }

  /** `int(x)` for a float: toward zero. */
  function Trunc(x: real): (r: int)
    ensures x >= 0.0 ==> 0 <= r && r as real <= x < r as real + 1.0
    ensures x < 0.0 ==> r <= 0 && r as real - 1.0 < x <= r as real
  {
    if x >= 0.0 then x.Floor else -((-x).Floor)
  }

  /** `int(value)`: an integer as it is, a boolean as 0 or 1, a float
      truncated, a string as `IntOfText` reads it; `None` and containers
      raise. */
  function IntOf(v: Json): (r: Option<int>)
    ensures v.JInt? ==> r == Some(v.i)
    ensures v.JBool? ==> r == Some(if v.b then 1 else 0)
    ensures v.JFloat? ==> r == Some(Trunc(v.x))
    ensures v.JString? ==> r == IntOfText(v.s)
    ensures v.JNull? || v.JCompound? ==> r.None?
  {
    match v
    case JInt(i) => Some(i)
    case JBool(b) => Some(if b then 1 else 0)
    case JFloat(x) => Some(Trunc(x))
    case JString(s) => IntOfText(s)
    case _ => None
  }

  /** A Python number: an integer (a boolean compares as 0 or 1) or a float. */
  datatype Number = IntNumber(i: int) | FloatNumber(x: real)

  /** `n <= cap` as Python compares a number with an integer. */
  predicate AtMost(n: Number, cap: int) {
    match n
    case IntNumber(i) => i <= cap
    case FloatNumber(x) => x <= cap as real
  }

  /** The number a JSON value is to `min`; strings, `None` and containers
      do not compare with an integer. */
  function NumberOf(v: Json): Option<Number> {
    match v
    case JInt(i) => Some(IntNumber(i))
    case JBool(b) => Some(IntNumber(if b then 1 else 0))
    case JFloat(x) => Some(FloatNumber(x))
    case _ => None
  }

  /** `min(value, cap)` with an integer cap: the value itself unless the
      cap is strictly smaller, then the cap; a value that does not compare
      with an integer raises. */
  function MinWith(v: Json, cap: int): (r: Option<Number>)
    ensures r.Some? <==> NumberOf(v).Some?
    ensures r.Some? ==> AtMost(r.value, cap)
    ensures r.Some? ==> (r.value == NumberOf(v).value <==> AtMost(NumberOf(v).value, cap))
    ensures r.Some? && r.value != NumberOf(v).value ==> r.value == IntNumber(cap)
  {
    match v
    case JInt(i) => Some(IntNumber(Min(i, cap)))
    case JBool(b) => Some(IntNumber(Min(if b then 1 else 0, cap)))
    case JFloat(x) => if (cap as real) < x then Some(IntNumber(cap)) else Some(FloatNumber(x))
    case _ => None
  }
}
