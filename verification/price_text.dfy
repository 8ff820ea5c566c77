/** `clean_price` from the live-search service: the number in a scraped
    price label, as an exact decimal (the Python service converts it to a float). */
module PriceText {
  import opened Basics
  import opened Text

  /** The value of the digits after a decimal point: `0.frac`. */
  function FractionValue(frac: string): (r: real)
    requires AllDigits(frac)
    ensures 0.0 <= r < 1.0
  {
    if frac == [] then 0.0
    else (DigitValue(frac[0]) as real + FractionValue(frac[1..])) / 10.0
  }

  /** `x * 10^places`: `x` with its point moved `places` digits right. */
  function Shifted(x: real, places: nat): real {
    if places == 0 then x else 10.0 * Shifted(x, places - 1)
  }

  /** The value of the decimal `whole.frac`: the number all its digits
      spell, with the point moved back one place per digit after it. */
  function DecimalValue(whole: string, frac: string): (r: real)
    requires AllDigits(whole) && AllDigits(frac)
    ensures NatOf(whole) as real <= r < NatOf(whole) as real + 1.0
    ensures AllDigits(whole + frac) && Shifted(r, |frac|) == NatOf(whole + frac) as real
  {
    DecimalScaled(whole, frac);
    NatOf(whole) as real + FractionValue(frac)
  }

  lemma DecimalScaled(whole: string, frac: string)
    requires AllDigits(whole) && AllDigits(frac)
    ensures AllDigits(whole + frac)
    ensures Shifted(NatOf(whole) as real + FractionValue(frac), |frac|) == NatOf(whole + frac) as real
  {
    FractionScaled(frac);
    NatOfAppend(whole, frac);
    ShiftedAdd(NatOf(whole) as real, FractionValue(frac), |frac|);
  }

  /** Moving the point past all the fraction's digits gives their number. */
  lemma {:induction false} FractionScaled(frac: string)
    requires AllDigits(frac)
    ensures Shifted(FractionValue(frac), |frac|) == NatOf(frac) as real
  {
    if frac != [] {
      var rest := frac[1..];
      var d := DigitValue(frac[0]) as real;
      var v := FractionValue(rest);
      FractionScaled(rest);
      NatOfCons(frac);
      ShiftedStep((d + v) / 10.0, |rest|);
      ShiftedAdd(d, v, |rest|);
    }
  }

  lemma {:induction false} ShiftedAdd(x: real, y: real, places: nat)
    ensures Shifted(x + y, places) == Shifted(x, places) + Shifted(y, places)
  {
    if places > 0 {
      ShiftedAdd(x, y, places - 1);
    }
  }

  lemma {:induction false} ShiftedStep(x: real, places: nat)
    ensures Shifted(x, places + 1) == Shifted(10.0 * x, places)
  {
    if places > 0 {
      ShiftedStep(x, places - 1);
    }
  }

  /** The leading digit of a numeral counts one place per digit after it. */
  lemma {:induction false} NatOfCons(ds: string)
    requires ds != [] && AllDigits(ds)
    ensures NatOf(ds) as real == Shifted(DigitValue(ds[0]) as real, |ds| - 1) + NatOf(ds[1..]) as real
    decreases |ds|
  {
    if |ds| > 1 {
      var init := ds[..|ds| - 1];
      NatOfCons(init);
      assert init[1..] == ds[1..][..|ds| - 2];
      assert ds[1..][|ds| - 2] == ds[|ds| - 1];
    } else {
      assert ds[1..] == [];
    }
  }

  /** Writing `b` after `a` moves `a` one place left per digit of `b`. */
  lemma {:induction false} NatOfAppend(a: string, b: string)
    requires AllDigits(a) && AllDigits(b)
    ensures AllDigits(a + b) && NatOf(a + b) as real == Shifted(NatOf(a) as real, |b|) + NatOf(b) as real
    decreases |b|
  {
    if b == [] {
      assert a + b == a;
    } else {
      var init := b[..|b| - 1];
      NatOfAppend(a, init);
      assert (a + b)[..|a + b| - 1] == a + init;
    }
  }

  /** Where the pattern `£?(\d+\.?\d*)` can match at position `i`, the start
      of its captured group; a `£` not followed by a digit matches nothing. */
  function GroupStartAt(t: string, i: nat): Option<nat>
    requires i < |t|
  {
    if t[i] == '£' && i + 1 < |t| && IsDigit(t[i + 1]) then Some(i + 1)
    else if IsDigit(t[i]) then Some(i)
    else None
  }

  /** `re.search`: tries the positions left to right and keeps the first
      match, returning where its captured group begins. */
  function SearchGroupStart(t: string, i: nat): (r: Option<nat>)
    requires i <= |t|
    ensures r.Some? ==> i <= r.value < |t| && IsDigit(t[r.value])
    decreases |t| - i
  {
    if i == |t| then None
    else match GroupStartAt(t, i)
      case Some(g) => Some(g)
      case None => SearchGroupStart(t, i + 1)
  }

  /** The first digit at or after position `i`. */
  function FirstDigitFrom(t: string, i: nat): (r: Option<nat>)
    requires i <= |t|
    ensures r.Some? ==> i <= r.value < |t| && IsDigit(t[r.value])
                        && forall k :: i <= k < r.value ==> !IsDigit(t[k])
    ensures r.None? ==> forall k :: i <= k < |t| ==> !IsDigit(t[k])
  {
    FirstFrom(t, IsDigit, i)
  }

  /** The leftmost match of the regular expression captures from the first
      digit of the text: an optional `£` in front changes nothing. */
  lemma {:induction false} SearchFindsFirstDigit(t: string, i: nat)
    requires i <= |t|
    ensures SearchGroupStart(t, i) == FirstDigitFrom(t, i)
    decreases |t| - i
  {
    if i < |t| {
      if GroupStartAt(t, i).None? {
        SearchFindsFirstDigit(t, i + 1);
      } else if !IsDigit(t[i]) {
        assert t[i] == '£' && IsDigit(t[i + 1]);
        assert FirstDigitFrom(t, i + 1) == Some(i + 1);
      }
    }
  }

  /** The captured group starting at digit `g`, as its digits before and
      after the point: a maximal digit run, then, if a '.' follows, the
      digit run after it (empty when there is no point). */
  function GroupDigits(t: string, g: nat): (r: (string, string))
    requires g < |t| && IsDigit(t[g])
    ensures r.0 != [] && AllDigits(r.0) && AllDigits(r.1)
  {
    var e := SpanEnd(t, g, IsDigit);
    if e < |t| && t[e] == '.' then (t[g..e], t[e + 1..SpanEnd(t, e + 1, IsDigit)])
    else (t[g..e], "")
  }

  /** `float(group)`: the value of the captured group. */
  function NumberAt(t: string, g: nat): real
    requires g < |t| && IsDigit(t[g])
  {
    var (whole, frac) := GroupDigits(t, g);
    DecimalValue(whole, frac)
  }

  /** `clean_price(price_text)`: nothing for an empty text; otherwise the
      commas are removed and the first match of `£?(\d+\.?\d*)` is read. */
  function CleanPrice(text: string): (r: Option<real>)
    ensures r.Some? ==> r.value >= 0.0
  {
    if text == [] then None
    else
      var t := Without(text, ',');
      match SearchGroupStart(t, 0)
      case Some(g) => Some(NumberAt(t, g))
      case None => None
  }

  lemma NoDigitWithout(s: string, c: char)
    requires !IsDigit(c)
    ensures HasDigit(Without(s, c)) <==> HasDigit(s)
  {
    var t := Without(s, c);
    if HasDigit(s) {
      var k :| 0 <= k < |s| && IsDigit(s[k]);
      assert s[k] in s;
      assert s[k] in t;
      var j :| 0 <= j < |t| && t[j] == s[k];
    }
    if HasDigit(t) {
      var k :| 0 <= k < |t| && IsDigit(t[k]);
      assert t[k] in t;
      var j :| 0 <= j < |s| && s[j] == t[k];
    }
  }

  /** `clean_price` finds nothing exactly when the text holds no digit
      (the empty text and a text of commas included). */
  lemma CleanPriceNoneIff(text: string)
    ensures CleanPrice(text).None? <==> !HasDigit(Without(text, ','))
    ensures CleanPrice(text).None? <==> !HasDigit(text)
  {
    var t := Without(text, ',');
    SearchFindsFirstDigit(t, 0);
    NoDigitWithout(text, ',');
  }

  /** Commas never matter: the text and the text with its commas removed
      give the same result. */
  lemma CleanPriceIgnoresCommas(text: string)
    ensures CleanPrice(text) == CleanPrice(Without(text, ','))
  {
    WithoutTwice(text, ',');
    if text != [] && Without(text, ',') == [] {
      CleanPriceNoneIff(text);
    }
  }

  /** On a comma-free text whose first digit is at `g`, the number is read
      from `g`. */
  lemma CleanPriceFromFirstDigit(t: string, g: nat)
    requires ',' !in t && g < |t|
    requires FirstDigitFrom(t, 0) == Some(g)
    ensures CleanPrice(t) == Some(NumberAt(t, g))
  {
    WithoutAbsent(t, ',');
    SearchFindsFirstDigit(t, 0);
  }

  lemma FirstDigitAfterLead(t: string, lead: string, whole: string)
    requires |lead| + |whole| <= |t| && whole != [] && AllDigits(whole)
    requires t[..|lead|] == lead && t[|lead|..|lead| + |whole|] == whole
    requires !HasDigit(lead)
    ensures FirstDigitFrom(t, 0) == Some(|lead|)
  {
    var g := |lead|;
    assert t[g] == whole[0];
    forall k | 0 <= k < g
      ensures !IsDigit(t[k])
    {
      assert t[k] == lead[k];
    }
  }

  /** The group read at `g` when a digit run `whole`, '.', and a digit
      run `frac` start there and no digit follows. */
  lemma GroupDigitsDecimal(t: string, g: nat, whole: string, frac: string)
    requires whole != [] && AllDigits(whole) && AllDigits(frac)
    requires g + |whole| + 1 + |frac| <= |t|
    requires t[g..g + |whole|] == whole && t[g + |whole|] == '.'
    requires t[g + |whole| + 1..g + |whole| + 1 + |frac|] == frac
    requires g + |whole| + 1 + |frac| == |t| || !IsDigit(t[g + |whole| + 1 + |frac|])
    ensures IsDigit(t[g]) && GroupDigits(t, g) == (whole, frac)
  {
    var e := g + |whole|;
    assert t[g] == whole[0];
    assert SpanEnd(t, g, IsDigit) == e by {
      SpanOver(t, g, whole, IsDigit);
    }
    assert SpanEnd(t, e + 1, IsDigit) == e + 1 + |frac| by {
      SpanOver(t, e + 1, frac, IsDigit);
    }
  }

  /** The group read at `g` when a digit run `whole` starts there and
      neither a digit nor '.' follows. */
  lemma GroupDigitsWhole(t: string, g: nat, whole: string)
    requires whole != [] && AllDigits(whole) && g + |whole| <= |t|
    requires t[g..g + |whole|] == whole
    requires g + |whole| == |t| || (!IsDigit(t[g + |whole|]) && t[g + |whole|] != '.')
    ensures IsDigit(t[g]) && GroupDigits(t, g) == (whole, "")
  {
    var e := g + |whole|;
    assert t[g] == whole[0];
    assert SpanEnd(t, g, IsDigit) == e by {
      SpanOver(t, g, whole, IsDigit);
    }
  }

  /** Reading a price label built from parts: text without digits, a digit
      run `whole`, '.', a digit run `frac` and a tail that does not start
      with a digit gives exactly `whole.frac`. */
  lemma CleanPriceReadsDecimal(lead: string, whole: string, frac: string, tail: string)
    requires !HasDigit(lead) && ',' !in lead
    requires whole != [] && AllDigits(whole) && AllDigits(frac)
    requires ',' !in tail && (tail == [] || !IsDigit(tail[0]))
    requires ',' !in whole && ',' !in frac
    ensures CleanPrice(lead + whole + "." + frac + tail) == Some(DecimalValue(whole, frac))
  {
    var t := lead + whole + "." + frac + tail;
    assert t == lead + (whole + ("." + frac + tail));
    LabelFromLead(lead, whole, "." + frac + tail);
    DecimalGroup(lead, whole, frac, tail);
  }

  /** The same without a decimal point: the tail starts with neither a digit
      nor '.', and the value is the whole number. */
  lemma CleanPriceReadsWhole(lead: string, whole: string, tail: string)
    requires !HasDigit(lead) && ',' !in lead
    requires whole != [] && AllDigits(whole) && ',' !in whole
    requires ',' !in tail && (tail == [] || (!IsDigit(tail[0]) && tail[0] != '.'))
    ensures CleanPrice(lead + whole + tail) == Some(NatOf(whole) as real)
  {
    var t := lead + whole + tail;
    assert t == lead + (whole + tail);
    LabelFromLead(lead, whole, tail);
    WholeGroup(lead, whole, tail);
  }

  /** A comma-free label whose digits start right after a digit-free lead
      is read from there. */
  lemma LabelFromLead(lead: string, whole: string, rest: string)
    requires !HasDigit(lead) && ',' !in lead && ',' !in whole && ',' !in rest
    requires whole != [] && AllDigits(whole)
    ensures var t := lead + (whole + rest);
            |lead| < |t| && IsDigit(t[|lead|]) && CleanPrice(t) == Some(NumberAt(t, |lead|))
  {
    var t := lead + (whole + rest);
    var g := |lead|;
    assert ',' !in t;
    assert t[..g] == lead && t[g..g + |whole|] == whole;
    FirstDigitAfterLead(t, lead, whole);
    CleanPriceFromFirstDigit(t, g);
  }

  lemma DecimalGroup(lead: string, whole: string, frac: string, tail: string)
    requires whole != [] && AllDigits(whole) && AllDigits(frac)
    requires tail == [] || !IsDigit(tail[0])
    ensures var t := lead + (whole + ("." + frac + tail));
            |lead| < |t| && IsDigit(t[|lead|]) && GroupDigits(t, |lead|) == (whole, frac)
  {
    var t := lead + (whole + ("." + frac + tail));
    var g := |lead|;
    var f := g + |whole| + 1 + |frac|;
    assert t[g..g + |whole|] == whole && t[g + |whole|] == '.';
    assert t[g + |whole| + 1..f] == frac;
    if f < |t| {
      assert t[f] == tail[0];
    }
    GroupDigitsDecimal(t, g, whole, frac);
  }

  lemma WholeGroup(lead: string, whole: string, tail: string)
    requires whole != [] && AllDigits(whole)
    requires tail == [] || (!IsDigit(tail[0]) && tail[0] != '.')
    ensures var t := lead + (whole + tail);
            |lead| < |t| && IsDigit(t[|lead|]) && GroupDigits(t, |lead|) == (whole, "")
  {
    var t := lead + (whole + tail);
    var g := |lead|;
    assert t[g..g + |whole|] == whole;
    if g + |whole| < |t| {
      assert t[g + |whole|] == tail[0];
    }
    GroupDigitsWhole(t, g, whole);
  }

  /** The label "£1,234.50" reads as 1234.50. */
  lemma CleanPriceExample()
    ensures CleanPrice("£1,234.50") == Some(1234.5)
  {
    CleanPriceIgnoresCommas("£1,234.50");
    ExampleWithoutCommas();
    ExamplePlain();
  }

  lemma ExamplePlain()
    ensures CleanPrice("£1234.50") == Some(1234.5)
  {
    assert "£1234.50" == "£" + "1234" + "." + "50" + "";
    ExampleParts();
    CleanPriceReadsDecimal("£", "1234", "50", "");
    ExampleValue();
  }

  lemma ExampleParts()
    ensures !HasDigit("£") && AllDigits("1234") && AllDigits("50")
    ensures ',' !in "1234" && ',' !in "50" && ',' !in "£"
  {
  }

  lemma ExampleWithoutCommas()
    ensures Without("£1,234.50", ',') == "£1234.50"
  {
    ExampleAroundComma();
    WithoutAppend("£1", [','] + "234.50", ',');
    ExamplePiecesKept();
  }

  lemma ExampleAroundComma()
    ensures "£1,234.50" == "£1" + ([','] + "234.50")
    ensures "£1" + "234.50" == "£1234.50"
  {
  }

  lemma ExamplePiecesKept()
    ensures Without("£1", ',') == "£1"
    ensures Without([','] + "234.50", ',') == "234.50"
  {
    WithoutAbsent("£1", ',');
    WithoutAbsent("234.50", ',');
    assert ([','] + "234.50")[1..] == "234.50";
  }

  lemma ExampleValue()
    ensures DecimalValue("1234", "50") == 1234.5
  {
    assert NatOf("1") == 1 by {
      assert "1"[..0] == [];
    }
    assert NatOf("12") == 12 by {
      assert "12"[..1] == "1";
    }
    assert NatOf("123") == 123 by {
      assert "123"[..2] == "12";
    }
    assert NatOf("1234") == 1234 by {
      assert "1234"[..3] == "123";
    }
    assert FractionValue("50") == 0.5 by {
      assert "50"[1..] == "0" && "0"[1..] == [];
    }
  }
}
