/** `parse_ai_response` of the AI search service: the answer text of the
    chat completion is read line by line into product records, then padded
    with default fields and cut to the first five.

    The Python parser is a loop over the stripped lines that keeps one record open
    (`Run`, `Step`, `Absorb` below). Beside it stands a reference reading of
    the same rules block by block (`Blocks`, `BlockRecord`), and
    `CollectIsBlockwise` proves that the two agree. */
module AiParse {
  import opened Basics
  import opened Text

  /** The supplier aliases the parser knows, tried in this order. */
  const Aliases: seq<string> :=
    ["buildbase", "wickes", "screwfix", "jewson", "travis perkins", "selco", "homebase"]

  const PriceKeywords: seq<string> := ["£", "price", "cost"]

  // Defaults written by `setdefault` for a record that lacks the field.
  const DefaultName := "Building Material"
  const DefaultPrice := "Contact for price"
  const DefaultSupplier := "UK Supplier"
  const DefaultAvailability := "Contact supplier"
  const DefaultLocation := "UK"
  const DefaultDelivery := "Contact for delivery options"
  const DefaultUrl := "#"

  // The record returned when no line yielded anything.
  const PlaceholderName := "Search Results Available"
  const PlaceholderPrice := "See details below"
  const PlaceholderSupplier := "Multiple UK Suppliers"

  /** The most records returned; `total_results` still counts all of them. */
  const MaxShown := 5

  /** A record while it is being read: a dictionary holding some of the keys
      `product_name`, `price`, `raw_text`, `supplier`, `supplier_url`. */
  datatype Draft = Draft(
    name: Option<string>,
    price: Option<string>,
    rawText: Option<string>,
    supplier: Option<string>,
    supplierUrl: Option<string>)
  {
    /** A Python dictionary is truthy when it holds at least one key. */
    predicate HasFields() {
      name.Some? || price.Some? || rawText.Some? || supplier.Some? || supplierUrl.Some?
    }
  }

  const Blank := Draft(None, None, None, None, None)

  /** A returned record: every default key present; `raw_text` only when a
      price line or the placeholder supplied it. */
  datatype Product = Product(
    productName: string,
    price: string,
    supplier: string,
    availability: string,
    location: string,
    deliveryInfo: string,
    supplierUrl: string,
    rawText: Option<string>)

  /** The chat completion as far as the parser looks into it:
      `choices[0].message.content` and the optional `citations`. */
  datatype Message = Message(content: Option<string>)
  datatype Choice = Choice(message: Option<Message>)
  datatype AiResponse = AiResponse(choices: Option<seq<Choice>>, citations: Option<seq<string>>)

  /** Why the answer text could not be reached ("Failed to parse AI response"). */
  datatype ParseError = MissingChoices | NoChoice | MissingMessage | MissingContent

  datatype Parsed = Parsed(
    results: seq<Product>,
    aiSummary: string,
    citations: seq<string>,
    totalResults: nat,
    sourcesChecked: string,
    searchTime: string)

  // ---------------------------------------------------------------- price

  predicate IsAmountChar(c: char) { IsDigit(c) || c == ',' }

  /** The pattern `£[\d,]+` can start at `i`. */
  predicate PriceStartAt(line: string, i: int) {
    0 <= i && i + 1 < |line| && line[i] == '£' && IsAmountChar(line[i + 1])
  }

  /** `PriceStartAt` as a test on positions of `line`. */
  function PriceStartIn(line: string): int -> bool {
    k => PriceStartAt(line, k)
  }

  function FirstPriceStart(line: string, from: nat): (r: Option<nat>)
    requires from <= |line|
    ensures r.Some? ==> from <= r.value && PriceStartAt(line, r.value)
                        && forall k :: from <= k < r.value ==> !PriceStartAt(line, k)
    ensures r.None? ==> forall k :: from <= k < |line| ==> !PriceStartAt(line, k)
  {
    FirstPositionFound(line, from);
    FirstFrom(Positions(|line|), PriceStartIn(line), from)
  }

  /** The positions `0, 1, …, n - 1` of a text of length `n`. */
  function Positions(n: nat): (r: seq<int>)
    ensures |r| == n && forall k :: 0 <= k < n ==> r[k] == k
  {
    seq(n, k => k)
  }

  /** The first hit of `FirstFrom` over the positions of `line` is the
      first position from `from` where the pattern can start. */
  lemma FirstPositionFound(line: string, from: nat)
    requires from <= |line|
    ensures var r := FirstFrom(Positions(|line|), PriceStartIn(line), from);
      && (r.Some? ==> from <= r.value && PriceStartAt(line, r.value)
                      && forall k :: from <= k < r.value ==> !PriceStartAt(line, k))
      && (r.None? ==> forall k :: from <= k < |line| ==> !PriceStartAt(line, k))
  {
    var xs, p := Positions(|line|), PriceStartIn(line);
    var r := FirstFrom(xs, p, from);
    if r.Some? {
      assert p(xs[r.value]);
      forall k | from <= k < r.value
        ensures !PriceStartAt(line, k)
      {
        assert !p(xs[k]);
      }
    } else {
      forall k | from <= k < |line|
        ensures !PriceStartAt(line, k)
      {
        assert !p(xs[k]);
      }
    }
  }

  /** `re.search(r'£[\d,]+\.?\d*', line)`: the leftmost match, which takes
      the whole run of digits and commas after the '£' and, when a '.'
      follows, the '.' and the digits after it. */
  function PriceToken(line: string): (r: Option<string>)
    ensures r.Some? <==> FirstPriceStart(line, 0).Some?
    ensures r.Some? ==> |r.value| >= 2 && r.value[0] == '£'
                        && forall k :: 1 <= k < |r.value| ==> IsDigit(r.value[k]) || r.value[k] in ",."
  {
    match FirstPriceStart(line, 0)
    case None => None
    case Some(i) =>
      var j := SpanEnd(line, i + 1, IsAmountChar);
      var k := if j < |line| && line[j] == '.' then SpanEnd(line, j + 1, IsDigit) else j;
      Some(line[i..k])
  }

  /** A price token is found exactly when the pattern can start somewhere,
      and it is the text at the leftmost such place. */
  lemma PriceTokenLeftmost(line: string)
    ensures PriceToken(line).Some? <==> exists i :: PriceStartAt(line, i)
    ensures PriceToken(line).Some? ==>
      exists i :: PriceStartAt(line, i) && OccursAt(line, PriceToken(line).value, i)
                  && forall k :: 0 <= k < i ==> !PriceStartAt(line, k)
  {
    match FirstPriceStart(line, 0)
    case None =>
    case Some(i) =>
      var j := SpanEnd(line, i + 1, IsAmountChar);
      var k := if j < |line| && line[j] == '.' then SpanEnd(line, j + 1, IsDigit) else j;
      assert OccursAt(line, line[i..k], i);
  }

  /** The extent of the token when a point follows the amount. The
      pattern first starts at `i`, the run of digits and commas after the
      '£' ends at `j`, a '.' stands there, and digits follow up to `e`,
      which ends the line or holds no digit. The token is the whole of
      `line[i..e]`: the amount, the point and every digit after it. */
  lemma PriceTokenReadsDecimal(line: string, i: nat, j: nat, e: nat)
    requires i + 1 < j < e <= |line|
    requires forall k :: 0 <= k < i ==> !PriceStartAt(line, k)
    requires line[i] == '£' && forall k :: i < k < j ==> IsAmountChar(line[k])
    requires line[j] == '.' && forall k :: j < k < e ==> IsDigit(line[k])
    requires e == |line| || !IsDigit(line[e])
    ensures PriceToken(line) == Some(line[i..e])
  {
    PriceStartFirst(line, i);
    SpanEndAt(line, i + 1, j, IsAmountChar);
    SpanEndAt(line, j + 1, e, IsDigit);
  }

  /** The extent without a point: the run of digits and commas from `i`
      ends at `j`, which ends the line or holds neither a digit, a comma
      nor '.'. The token is `line[i..j]`. */
  lemma PriceTokenReadsWhole(line: string, i: nat, j: nat)
    requires i + 1 < j <= |line|
    requires forall k :: 0 <= k < i ==> !PriceStartAt(line, k)
    requires line[i] == '£' && forall k :: i < k < j ==> IsAmountChar(line[k])
    requires j == |line| || (!IsAmountChar(line[j]) && line[j] != '.')
    ensures PriceToken(line) == Some(line[i..j])
  {
    PriceStartFirst(line, i);
    SpanEndAt(line, i + 1, j, IsAmountChar);
  }

  lemma PriceStartFirst(line: string, i: nat)
    requires i + 1 < |line| && line[i] == '£' && IsAmountChar(line[i + 1])
    requires forall k :: 0 <= k < i ==> !PriceStartAt(line, k)
    ensures FirstPriceStart(line, 0) == Some(i)
  {
    assert PriceStartAt(line, i);
  }

  /** `any(keyword in line.lower() for keyword in ['£', 'price', 'cost'])`. */
  predicate HasPriceKeyword(lowered: string) {
    exists w | w in PriceKeywords :: Contains(lowered, w)
  }

  /** The keyword test never blocks a price: a line with a price token
      contains '£', and lower-casing keeps it. */
  lemma PriceTokenHasKeyword(line: string)
    requires PriceToken(line).Some?
    ensures HasPriceKeyword(Lower(line))
  {
    var i := FirstPriceStart(line, 0).value;
    var low := Lower(line);
    assert low[i] == '£';
    assert OccursAt(low, "£", i);
    assert "£" in PriceKeywords;
  }

  // ---------------------------------------------------------------- supplier

  /** The first alias, in list order, that occurs in the lower-cased line. */
  function MatchAlias(lowered: string): (r: Option<string>)
    ensures r.Some? ==> r.value in Aliases
  {
    match FirstFrom(Aliases, alias => Contains(lowered, alias), 0)
    case Some(k) => Some(Aliases[k])
    case None => None
  }

  /** No alias is found exactly when none occurs, and the one found is the
      first in list order that does. */
  lemma MatchAliasFirst(lowered: string)
    ensures MatchAlias(lowered).None? <==> forall k :: 0 <= k < |Aliases| ==> !Contains(lowered, Aliases[k])
    ensures MatchAlias(lowered).Some? ==>
      exists k :: 0 <= k < |Aliases| && MatchAlias(lowered).value == Aliases[k]
                  && Contains(lowered, Aliases[k])
                  && forall j :: 0 <= j < k ==> !Contains(lowered, Aliases[j])
  {
  }

  /** The supplier name stored for an alias: the alias title-cased, so
      each word starts with a capital and goes on in small letters. */
  function SupplierName(alias: string): (r: string)
    ensures TitleCased(alias, r) && Lower(r) == Lower(alias)
  {
    TitleThenLower(alias);
    TitleCase(alias);
    Title(alias)
  }

  /** The supplier link stored for an alias: `https://`, the alias without
      its spaces, `.co.uk`. */
  function SupplierUrl(alias: string): (r: string)
    ensures |r| == 14 + |Without(alias, ' ')|
    ensures r[..8] == "https://" && r[|r| - 6..] == ".co.uk"
    ensures r[8..|r| - 6] == Without(alias, ' ') && ' ' !in r
  {
    "https://" + Without(alias, ' ') + ".co.uk"
  }

  lemma AliasesLowerNonEmpty()
    ensures forall k :: 0 <= k < |Aliases| ==> Aliases[k] != [] && Lower(Aliases[k]) == Aliases[k]
  {
  }

  // ---------------------------------------------------------------- the loop

  /** One non-blank stripped line read into the open record, in the order of
      the parser's loop: the price (only once the record has a name), then the
      supplier (overwriting an earlier one), then the name (only if none). */
  function Absorb(d: Draft, line: string): Draft {
    var priced :=
      if HasPriceKeyword(Lower(line)) && PriceToken(line).Some? && d.name.Some?
      then d.(price := PriceToken(line), rawText := Some(line))
      else d;
    var supplied :=
      match MatchAlias(Lower(line))
      case Some(a) => priced.(supplier := Some(SupplierName(a)), supplierUrl := Some(SupplierUrl(a)))
      case None => priced;
    if (supplied.name.None? || supplied.name.value == []) && |line| > 10
    then supplied.(name := Some(line))
    else supplied
  }

  /** The records closed so far and the one still open. */
  datatype Scan = Scan(done: seq<Draft>, current: Draft)

  /** One stripped line: a blank line closes the open record, keeping it
      only if it holds a field. */
  function Step(st: Scan, line: string): Scan {
    if line == [] then
      if st.current.HasFields() then Scan(st.done + [st.current], Blank) else st
    else Scan(st.done, Absorb(st.current, line))
  }

  /** The `for line in lines` loop. */
  function Run(lines: seq<string>): Scan {
    if lines == [] then Scan([], Blank)
    else Step(Run(lines[..|lines| - 1]), lines[|lines| - 1])
  }

  /** The loop followed by "add final product". */
  function Collect(lines: seq<string>): seq<Draft> {
    var st := Run(lines);
    if st.current.HasFields() then st.done + [st.current] else st.done
  }

  /** `content.split('\n')`, each line stripped. */
  function Lines(content: string): (ls: seq<string>)
    ensures |ls| == |Split(content, '\n')|
    ensures forall k :: 0 <= k < |ls| ==> ls[k] == Strip(Split(content, '\n')[k])
  {
    var parts := Split(content, '\n');
    seq(|parts|, k requires 0 <= k < |parts| => Strip(parts[k]))
  }

  // ---------------------------------------------------------------- reference

  /** The stripped lines cut at the blank ones; the pieces may be empty. */
  function Blocks(lines: seq<string>): (bs: seq<seq<string>>)
    ensures |bs| >= 1
    ensures forall k, j :: 0 <= k < |bs| && 0 <= j < |bs[k]| ==> bs[k][j] != []
  {
    if lines == [] then [[]]
    else
      var bs := Blocks(lines[..|lines| - 1]);
      var l := lines[|lines| - 1];
      if l == [] then bs + [[]]
      else bs[..|bs| - 1] + [bs[|bs| - 1] + [l]]
  }

  /** The blocks put back together with one blank line between neighbours. */
  function JoinBlocks(bs: seq<seq<string>>): seq<string>
    requires |bs| >= 1
  {
    if |bs| == 1 then bs[0] else JoinBlocks(bs[..|bs| - 1]) + [[]] + bs[|bs| - 1]
  }

  /** Cutting at blank lines loses nothing. */
  lemma {:induction false} BlocksRoundTrip(lines: seq<string>)
    ensures JoinBlocks(Blocks(lines)) == lines
  {
    if lines != [] {
      var init := lines[..|lines| - 1];
      var l := lines[|lines| - 1];
      var bs := Blocks(init);
      BlocksRoundTrip(init);
      assert lines == init + [l];
      if l != [] {
        JoinExtendLast(bs, l);
      } else {
        JoinNewBlock(bs);
      }
    }
  }

  lemma JoinExtendLast(bs: seq<seq<string>>, l: string)
    requires |bs| >= 1
    ensures JoinBlocks(bs[..|bs| - 1] + [bs[|bs| - 1] + [l]]) == JoinBlocks(bs) + [l]
  {
    var bs' := bs[..|bs| - 1] + [bs[|bs| - 1] + [l]];
    if |bs| > 1 {
      assert bs'[..|bs'| - 1] == bs[..|bs| - 1];
    }
  }

  lemma JoinNewBlock(bs: seq<seq<string>>)
    requires |bs| >= 1
    ensures JoinBlocks(bs + [[]]) == JoinBlocks(bs) + [[]]
  {
    assert (bs + [[]])[..|bs|] == bs;
  }

  predicate IsLong(line: string) { |line| > 10 }

  predicate Priced(line: string) { PriceToken(line).Some? }

  predicate NamesSupplier(line: string) { MatchAlias(Lower(line)).Some? }

  /** The first line of the block longer than ten characters. */
  function FirstLongLine(b: seq<string>): (r: Option<nat>)
    ensures r.Some? ==> r.value < |b| && |b[r.value]| > 10
                        && forall k :: 0 <= k < r.value ==> |b[k]| <= 10
    ensures r.None? ==> forall k :: 0 <= k < |b| ==> |b[k]| <= 10
  {
    FirstFrom(b, IsLong, 0)
  }

  /** The last line of the block after position `after` that holds a price token. */
  function LastPricedLine(b: seq<string>, after: nat): (r: Option<nat>)
    ensures r.Some? ==> after < r.value < |b| && PriceToken(b[r.value]).Some?
                        && forall k :: r.value < k < |b| ==> PriceToken(b[k]).None?
    ensures r.None? ==> forall k :: after < k < |b| ==> PriceToken(b[k]).None?
  {
    match LastOf(b, Priced)
    case Some(k) => if k > after then Some(k) else None
    case None => None
  }

  /** The last line of the block that mentions a known supplier. */
  function LastSupplierLine(b: seq<string>): (r: Option<nat>)
    ensures r.Some? ==> r.value < |b| && MatchAlias(Lower(b[r.value])).Some?
                        && forall k :: r.value < k < |b| ==> MatchAlias(Lower(b[k])).None?
    ensures r.None? ==> forall k :: 0 <= k < |b| ==> MatchAlias(Lower(b[k])).None?
  {
    LastOf(b, NamesSupplier)
  }

  /** The record of one block, read off the block as a whole: the name is
      the first long line; the price and `raw_text` come from the last
      line with a price token strictly after the name line; the supplier
      comes from the last line that mentions one. */
  function BlockRecord(b: seq<string>): Draft {
    var n := FirstLongLine(b);
    var p := if n.Some? then LastPricedLine(b, n.value) else None;
    var s := LastSupplierLine(b);
    Draft(
      name := if n.Some? then Some(b[n.value]) else None,
      price := if p.Some? then PriceToken(b[p.value]) else None,
      rawText := if p.Some? then Some(b[p.value]) else None,
      supplier := if s.Some? then Some(SupplierName(MatchAlias(Lower(b[s.value])).value)) else None,
      supplierUrl := if s.Some? then Some(SupplierUrl(MatchAlias(Lower(b[s.value])).value)) else None)
  }

  /** The kept records of a list of blocks, in block order. */
  function FilledRecords(bs: seq<seq<string>>): (ds: seq<Draft>)
    ensures forall k :: 0 <= k < |ds| ==> ds[k].HasFields()
  {
    if bs == [] then []
    else
      var d := BlockRecord(bs[|bs| - 1]);
      FilledRecords(bs[..|bs| - 1]) + (if d.HasFields() then [d] else [])
  }

  lemma FirstLongLineExtend(b: seq<string>, l: string)
    ensures FirstLongLine(b + [l]) ==
      if FirstLongLine(b).Some? then FirstLongLine(b)
      else if |l| > 10 then Some(|b|) else None
  {
    FirstFromAppend(b, l, IsLong, 0);
  }

  lemma LastPricedLineExtend(b: seq<string>, l: string, after: nat)
    ensures after < |b| ==>
      LastPricedLine(b + [l], after) == if PriceToken(l).Some? then Some(|b|) else LastPricedLine(b, after)
    ensures after >= |b| ==> LastPricedLine(b + [l], after) == None
  {
    LastOfAppend(b, l, Priced);
  }

  lemma LastSupplierLineExtend(b: seq<string>, l: string)
    ensures LastSupplierLine(b + [l]) ==
      if MatchAlias(Lower(l)).Some? then Some(|b|) else LastSupplierLine(b)
  {
    LastOfAppend(b, l, NamesSupplier);
  }

  /** Reading one more line into the open record is the same as reading the
      longer block as a whole. */
  lemma AbsorbExtendsBlock(b: seq<string>, l: string)
    ensures BlockRecord(b + [l]) == Absorb(BlockRecord(b), l)
  {
    NamePriceExtend(b, l);
    SupplierExtend(b, l);
  }

  /** The name, price and `raw_text` of the longer block. */
  lemma NamePriceExtend(b: seq<string>, l: string)
    ensures var d', a := BlockRecord(b + [l]), Absorb(BlockRecord(b), l);
            d'.name == a.name && d'.price == a.price && d'.rawText == a.rawText
  {
    NameExtend(b, l);
    PriceExtend(b, l);
  }

  lemma NameExtend(b: seq<string>, l: string)
    ensures BlockRecord(b + [l]).name == Absorb(BlockRecord(b), l).name
  {
    var b' := b + [l];
    FirstLongLineExtend(b, l);
    var n := FirstLongLine(b);
    if n.Some? {
      assert b'[n.value] == b[n.value];
    } else {
      assert b'[|b|] == l;
    }
  }

  lemma PriceExtend(b: seq<string>, l: string)
    ensures var d', a := BlockRecord(b + [l]), Absorb(BlockRecord(b), l);
            d'.price == a.price && d'.rawText == a.rawText
  {
    var b' := b + [l];
    var n := FirstLongLine(b);
    AbsorbPrice(BlockRecord(b), l);
    assert FirstLongLine(b').Some? && n.Some? ==> FirstLongLine(b') == n by {
      FirstLongLineExtend(b, l);
    }
    assert n.None? ==> BlockRecord(b').price.None? && BlockRecord(b').rawText.None? by {
      FirstLongLineExtend(b, l);
      LastPricedLineExtend(b, l, |b|);
    }
    if n.Some? {
      LastPricedLineExtend(b, l, n.value);
      assert b'[|b|] == l;
      var p := LastPricedLine(b, n.value);
      if p.Some? {
        assert b'[p.value] == b[p.value];
      }
    }
  }

  /** The price step of `Absorb`: a line with a price token sets the price
      and `raw_text` once the record has a name. */
  lemma AbsorbPrice(d: Draft, l: string)
    ensures Absorb(d, l).price == if PriceToken(l).Some? && d.name.Some? then PriceToken(l) else d.price
    ensures Absorb(d, l).rawText == if PriceToken(l).Some? && d.name.Some? then Some(l) else d.rawText
  {
    if PriceToken(l).Some? {
      PriceTokenHasKeyword(l);
    }
  }

  /** The supplier fields of the longer block. */
  lemma SupplierExtend(b: seq<string>, l: string)
    ensures var d', a := BlockRecord(b + [l]), Absorb(BlockRecord(b), l);
            d'.supplier == a.supplier && d'.supplierUrl == a.supplierUrl
  {
    var b' := b + [l];
    assert b'[|b|] == l;
    LastSupplierLineExtend(b, l);
    var s := LastSupplierLine(b);
    if s.Some? {
      assert b'[s.value] == b[s.value];
    }
  }

  /** The loop keeps, after every line, the records of the closed blocks
      and the record of the open one. */
  lemma {:induction false} RunTracksBlocks(lines: seq<string>)
    ensures var bs := Blocks(lines);
            && Run(lines).done == FilledRecords(bs[..|bs| - 1])
            && Run(lines).current == BlockRecord(bs[|bs| - 1])
  {
    if lines == [] {
      assert BlockRecord([]) == Blank;
    } else {
      var init := lines[..|lines| - 1];
      var l := lines[|lines| - 1];
      RunTracksBlocks(init);
      var bs := Blocks(init);
      var bs' := Blocks(lines);
      if l == [] {
        assert bs' == bs + [[]];
        assert bs'[..|bs'| - 1] == bs;
        assert bs[..|bs| - 1] + [bs[|bs| - 1]] == bs;
        assert BlockRecord([]) == Blank;
        if !Run(init).current.HasFields() {
          assert Run(init).current == Blank;
        }
      } else {
        assert bs'[..|bs'| - 1] == bs[..|bs| - 1];
        AbsorbExtendsBlock(bs[|bs| - 1], l);
      }
    }
  }

  /** The records the parser collects are exactly the records of the
      blocks between blank lines, in order, leaving out the blocks that
      yielded no field. */
  lemma CollectIsBlockwise(lines: seq<string>)
    ensures Collect(lines) == FilledRecords(Blocks(lines))
  {
    RunTracksBlocks(lines);
    var bs := Blocks(lines);
    assert bs[..|bs| - 1] + [bs[|bs| - 1]] == bs;
  }

  // ---------------------------------------------------------------- shape

  /** What every record the loop builds satisfies: a name is a line longer
      than ten characters, a supplier is not empty, a price comes only with
      a name and together with its line. */
  predicate WellFormed(d: Draft) {
    && (d.name.Some? ==> |d.name.value| > 10)
    && (d.supplier.Some? ==> d.supplier.value != [] && d.supplierUrl.Some?)
    && (d.price.Some? ==> d.name.Some? && d.rawText.Some? && d.price.value != [] && d.price.value[0] == '£')
    && (d.rawText.Some? ==> d.price.Some?)
    && (d.supplierUrl.Some? ==> d.supplier.Some?)
  }

  lemma AbsorbWellFormed(d: Draft, l: string)
    requires WellFormed(d)
    ensures WellFormed(Absorb(d, l))
  {
    match MatchAlias(Lower(l))
    case Some(a) =>
      AliasesLowerNonEmpty();
    case None =>
  }

  lemma {:induction false} RunWellFormed(lines: seq<string>)
    ensures forall k :: 0 <= k < |Run(lines).done| ==> WellFormed(Run(lines).done[k])
    ensures WellFormed(Run(lines).current)
  {
    if lines != [] {
      RunWellFormed(lines[..|lines| - 1]);
      AbsorbWellFormed(Run(lines[..|lines| - 1]).current, lines[|lines| - 1]);
    }
  }

  /** No record is ever empty: each has a name or a supplier, and a price
      only next to a name. Blank lines in a row add nothing. */
  lemma CollectedWellFormed(lines: seq<string>)
    ensures forall k :: 0 <= k < |Collect(lines)| ==>
      WellFormed(Collect(lines)[k]) && (Collect(lines)[k].name.Some? || Collect(lines)[k].supplier.Some?)
  {
    RunWellFormed(lines);
    CollectIsBlockwise(lines);
  }

  // ---------------------------------------------------------------- placeholder

  /** A line that gives the parser something: long enough to be a name, or
      naming a known supplier. */
  predicate Informative(line: string) {
    |line| > 10 || MatchAlias(Lower(line)).Some?
  }

  lemma AbsorbHasFields(d: Draft, l: string)
    ensures Absorb(d, l).HasFields() <==> d.HasFields() || Informative(l)
  {
  }

  lemma BlankNamesNoSupplier()
    ensures !Informative([])
  {
    AliasesLowerNonEmpty();
    assert Lower([]) == [];
    forall k | 0 <= k < |Aliases|
      ensures !Contains([], Aliases[k])
    {
    }
  }

  lemma {:induction false} RunEmptyIff(lines: seq<string>)
    ensures (Run(lines).done == [] && !Run(lines).current.HasFields())
            <==> forall k :: 0 <= k < |lines| ==> !Informative(lines[k])
  {
    if lines != [] {
      var init := lines[..|lines| - 1];
      var l := lines[|lines| - 1];
      RunEmptyIff(init);
      assert forall k :: 0 <= k < |init| ==> init[k] == lines[k];
      if l == [] {
        BlankNamesNoSupplier();
      } else {
        AbsorbHasFields(Run(init).current, l);
      }
    }
  }

  /** The parser finds no record exactly when no line is longer than ten
      characters and no line names a known supplier. */
  lemma CollectEmptyIff(lines: seq<string>)
    ensures Collect(lines) == [] <==> forall k :: 0 <= k < |lines| ==> !Informative(lines[k])
  {
    RunEmptyIff(lines);
  }

  /** A record for the first line of a block never carries a price, even
      when that line holds one: the price test runs before the name is set. */
  lemma FirstLineGivesNoPrice(l: string)
    ensures Absorb(Blank, l).price.None? && BlockRecord([l]).price.None?
  {
  }

  // ---------------------------------------------------------------- response

  /** `setdefault` for the seven keys. */
  function Fill(d: Draft): (p: Product)
    ensures d.name.Some? ==> p.productName == d.name.value
    ensures d.price.Some? ==> p.price == d.price.value
    ensures d.supplier.Some? ==> p.supplier == d.supplier.value
    ensures d.supplierUrl.Some? ==> p.supplierUrl == d.supplierUrl.value
    ensures p.rawText == d.rawText
    ensures d.name.None? ==> p.productName == DefaultName
    ensures d.price.None? ==> p.price == DefaultPrice
    ensures d.supplier.None? ==> p.supplier == DefaultSupplier
    ensures d.supplierUrl.None? ==> p.supplierUrl == DefaultUrl
    ensures p.availability == DefaultAvailability && p.location == DefaultLocation
    ensures p.deliveryInfo == DefaultDelivery
  {
    Product(
      productName := d.name.GetOr(DefaultName),
      price := d.price.GetOr(DefaultPrice),
      supplier := d.supplier.GetOr(DefaultSupplier),
      availability := DefaultAvailability,
      location := DefaultLocation,
      deliveryInfo := DefaultDelivery,
      supplierUrl := d.supplierUrl.GetOr(DefaultUrl),
      rawText := d.rawText)
  }

  function Placeholder(content: string): Draft {
    Draft(Some(PlaceholderName), Some(PlaceholderPrice), Some(content),
          Some(PlaceholderSupplier), Some(DefaultUrl))
  }

  /** `ai_response['choices'][0]['message']['content']`. */
  function ContentOf(resp: AiResponse): Result<string, ParseError> {
    if resp.choices.None? then Failure(MissingChoices)
    else if resp.choices.value == [] then Failure(NoChoice)
    else if resp.choices.value[0].message.None? then Failure(MissingMessage)
    else if resp.choices.value[0].message.value.content.None? then Failure(MissingContent)
    else Success(resp.choices.value[0].message.value.content.value)
  }

  /** The records of the answer, or the single placeholder when there are none. */
  function Records(content: string): (ds: seq<Draft>)
    ensures |ds| >= 1
    ensures forall k :: 0 <= k < |ds| ==>
      (ds[k].name.Some? ==> |ds[k].name.value| > 10)
      && (ds[k].supplier.Some? ==> ds[k].supplier.value != [])
  {
    var drafts := Collect(Lines(content));
    CollectedWellFormed(Lines(content));
    if drafts == [] then [Placeholder(content)] else drafts
  }

  /** `setdefault` applied to every record, in order. */
  function FillAll(ds: seq<Draft>): (ps: seq<Product>)
    ensures |ps| == |ds| && forall k :: 0 <= k < |ds| ==> ps[k] == Fill(ds[k])
  {
    seq(|ds|, k requires 0 <= k < |ds| => Fill(ds[k]))
  }

  /** The response built from the records of an answer: at most five
      products shown, the count of all of them, the text itself and the
      citations. */
  function Summarize(ds: seq<Draft>, content: string, citations: seq<string>): (p: Parsed)
    requires |ds| >= 1
    ensures && p.aiSummary == content && p.citations == citations
            && p.totalResults == |ds|
            && 1 <= |p.results| <= MaxShown
            && |p.results| == Min(MaxShown, |ds|)
            && (forall k :: 0 <= k < |p.results| ==> p.results[k] == Fill(ds[k]))
  {
    var products := FillAll(ds);
    Parsed(
      results := products[..Min(MaxShown, |products|)],
      aiSummary := content,
      citations := citations,
      totalResults := |products|,
      sourcesChecked := "Multiple UK suppliers",
      searchTime := "Real-time")
  }

  /** `parse_ai_response`. */
  function ParseAiResponse(resp: AiResponse): (r: Result<Parsed, ParseError>)
    ensures ContentOf(resp).Failure? ==> r == Failure(ContentOf(resp).error)
    ensures ContentOf(resp).Success? ==> r.Success?
    ensures r.Success? ==>
      var content := ContentOf(resp).value;
      var ds := Records(content);
      && r.value.aiSummary == content
      && r.value.citations == resp.citations.GetOr([])
      && r.value.totalResults == |ds|
      && 1 <= |r.value.results| <= MaxShown
      && |r.value.results| == Min(MaxShown, |ds|)
      && (forall k :: 0 <= k < |r.value.results| ==> r.value.results[k] == Fill(ds[k]))
  {
    match ContentOf(resp)
    case Failure(e) => Failure(e)
    case Success(content) => Success(Summarize(Records(content), content, resp.citations.GetOr([])))
  }

  /** Every product shown has a name longer than ten characters (a parsed
      one, the placeholder's or the default) and a non-empty supplier. */
  lemma ShownProductsNamed(resp: AiResponse)
    requires ParseAiResponse(resp).Success?
    ensures var shown := ParseAiResponse(resp).value.results;
            forall k :: 0 <= k < |shown| ==> |shown[k].productName| > 10 && shown[k].supplier != []
  {
    var ds := Records(ContentOf(resp).value);
    var shown := ParseAiResponse(resp).value.results;
    forall k | 0 <= k < |shown|
      ensures |shown[k].productName| > 10 && shown[k].supplier != []
    {
      assert shown[k] == Fill(ds[k]);
      FillNamed(ds[k]);
    }
  }

  lemma FillNamed(d: Draft)
    requires d.name.Some? ==> |d.name.value| > 10
    requires d.supplier.Some? ==> d.supplier.value != []
    ensures |Fill(d).productName| > 10 && Fill(d).supplier != []
  {
    assert |DefaultName| > 10 && DefaultSupplier != [];
  }

  /** The answer text yields the placeholder exactly when none of its
      stripped lines is longer than ten characters or names a known
      supplier; the placeholder carries the whole answer as `raw_text`. */
  lemma PlaceholderIff(content: string)
    ensures Records(content) == [Placeholder(content)]
            <==> forall k :: 0 <= k < |Lines(content)| ==> !Informative(Lines(content)[k])
  {
    var lines := Lines(content);
    CollectEmptyIff(lines);
    var ds := Collect(lines);
    if ds != [] {
      CollectedWellFormed(lines);
      NotPlaceholder(ds[0], content);
      assert Records(content)[0] == ds[0];
    }
  }

  /** A parsed record is never mistaken for the placeholder: its price, if
      any, starts with '£'. */
  lemma NotPlaceholder(d: Draft, content: string)
    requires WellFormed(d)
    ensures d != Placeholder(content)
  {
    assert PlaceholderPrice[0] != '£';
  }
}
