/** The live supplier search service: product cards scraped from each
    supplier's search page are kept only when they carry a name and a
    non-zero price, each supplier contributes at most three, and the
    combined list is sorted by price and cut to the requested length.
    Fetching, HTML parsing and the thread pool are outside the model: a
    page arrives as the cards its selectors matched, and the suppliers'
    answers arrive in the order they completed. */
module LiveSearch {
  import opened Basics
  import opened Text
  import opened JsonBody
  import opened PriceText

  datatype Supplier = Supplier(name: string, website: string, delivery: string)

  /** The suppliers searched, with their sites and delivery area. */
  const Suppliers: seq<Supplier> := [
    Supplier("insulation4less", "https://insulation4less.co.uk/", "All UK"),
    Supplier("cutpriceinsulation", "https://www.cutpriceinsulation.co.uk/", "All UK"),
    Supplier("nationalinsulationsupplies", "https://www.nationalinsulationsupplies.com/", "All UK"),
    Supplier("buildersinsulation", "https://buildersinsulation.co.uk/", "All UK"),
    Supplier("insulationuk", "https://www.insulationuk.co.uk/", "All UK"),
    Supplier("buyinsulation", "https://buyinsulation.co.uk/", "All UK"),
    Supplier("constructionmegastore", "https://constructionmegastore.co.uk/", "All UK"),
    Supplier("insulationsuperstore", "https://www.insulationsuperstore.co.uk/", "All UK"),
    Supplier("tradeinsulations", "https://www.tradeinsulations.co.uk/", "All UK"),
    Supplier("wickes", "https://www.wickes.co.uk/", "All UK"),
    Supplier("diy.com", "https://www.diy.com/", "All UK")
  ]

  /** How many listings `search` asks of each supplier. */
  const PerSupplierMax := 3
  const DefaultMaxResults := 10
  const ResultsCap := 20
  const QueryRequiredMessage := "Query parameter is required"

  /** A product card as the selectors see it: the text of the first element
      a name selector matched (none when no selector matched), the texts of
      the elements the price selectors matched, in selector order, and the
      product link and image already resolved against the site. */
  datatype Card = Card(name: Option<string>, priceTexts: seq<string>, link: Option<string>, image: Option<string>)

  /** A results page: the cards each product selector matched, in selector
      order, and the cards of the generic fallback (containers showing '£'). */
  datatype Page = Page(bySelector: seq<seq<Card>>, generic: seq<Card>)

  /** A scraped product; the display price `£x.xx` is left out. */
  datatype Listing = Listing(
    supplier: string,
    priceNumeric: real,
    productName: string,
    supplierWebsite: string,
    productUrl: string,
    productImage: string,
    delivery: string)

  /** The results of one supplier's search: the page each search URL pattern
      returned, in pattern order (`None` for a failed request or a status
      other than 200). */
  datatype SupplierFetch = SupplierFetch(supplier: Supplier, pages: seq<Option<Page>>)

  // ---------------------------------------------------------------- one card

  /** A price as Python's `if price:` sees it: present and not zero. */
  predicate Truthy(p: Option<real>) { p.Some? && p.value != 0.0 }

  /** A price text that reads as a non-zero number. */
  predicate ReadsTruthy(text: string) { Truthy(CleanPrice(text)) }

  /** The loop over the price selectors from position `i` on: each matched
      element is read with `clean_price`; the first truthy value ends the
      loop, otherwise the last value read is what remains. */
  function ScanPrices(texts: seq<string>, i: nat, last: Option<real>): (r: Option<real>)
    requires i <= |texts| && !Truthy(last)
    ensures Truthy(r) <==> FirstFrom(texts, ReadsTruthy, i).Some?
    ensures Truthy(r) ==> r == CleanPrice(texts[FirstFrom(texts, ReadsTruthy, i).value])
    decreases |texts| - i
  {
    if i == |texts| then last
    else
      var p := CleanPrice(texts[i]);
      if Truthy(p) then p else ScanPrices(texts, i + 1, p)
  }

  /** The price of a card: the first price element whose text reads as a
      non-zero number. */
  function CardPrice(c: Card): Option<real> {
    ScanPrices(c.priceTexts, 0, None)
  }

  /** The gate of the card loop: a card without a name (or with an empty
      one) is skipped, and one whose price is missing or zero is dropped. */
  function ToListing(s: Supplier, c: Card): (r: Option<Listing>)
    ensures r.Some? <==> c.name.Some? && c.name.value != [] && FirstFrom(c.priceTexts, ReadsTruthy, 0).Some?
    ensures r.Some? ==>
      && r.value.productName == c.name.value
      && r.value.supplier == s.name
      && r.value.priceNumeric > 0.0
      && Some(r.value.priceNumeric) == CleanPrice(c.priceTexts[FirstFrom(c.priceTexts, ReadsTruthy, 0).value])
      && r.value.productUrl == c.link.GetOr(s.website)
      && r.value.supplierWebsite == s.website
      && r.value.productImage == c.image.GetOr("")
      && r.value.delivery == s.delivery
  {
    if c.name.None? || c.name.value == [] then None
    else
      var price := CardPrice(c);
      if Truthy(price) then
        Some(Listing(s.name, price.value, c.name.value, s.website,
                     c.link.GetOr(s.website), c.image.GetOr(""), s.delivery))
      else None
  }

  // ---------------------------------------------------------------- one page

  function Flatten(ss: seq<seq<Card>>): seq<Card> {
    if ss == [] then [] else ss[0] + Flatten(ss[1..])
  }

  /** The selector loop: the matches of each selector are appended in turn,
      stopping once at least `max` cards are collected. */
  function Gather(ss: seq<seq<Card>>, acc: seq<Card>, max: int): (r: seq<Card>)
    ensures |r| <= |acc + Flatten(ss)| && r == (acc + Flatten(ss))[..|r|]
    ensures max >= 1 ==> |r| >= Min(max, |acc + Flatten(ss)|)
  {
    if ss == [] then acc
    else
      var acc' := acc + ss[0];
      assert acc + Flatten(ss) == acc' + Flatten(ss[1..]);
      if |acc'| >= max then acc'
      else Gather(ss[1..], acc', max)
  }

  /** The cards a page offers: the selector matches, or the generic
      fallback when no selector matched anything. */
  function Candidates(page: Page, max: int): seq<Card> {
    var found := Gather(page.bySelector, [], max);
    if found == [] then page.generic else found
  }

  /** With a positive limit the cards examined on a page are the first
      `max` selector matches in selector order, or, when no selector
      matched, the first `max` generic ones. */
  lemma CandidatesExamined(page: Page, max: int)
    requires max >= 1
    ensures Flatten(page.bySelector) != [] ==>
      PrefixSlice(Candidates(page, max), max) == Flatten(page.bySelector)[..Min(max, |Flatten(page.bySelector)|)]
    ensures Flatten(page.bySelector) == [] ==>
      PrefixSlice(Candidates(page, max), max) == page.generic[..Min(max, |page.generic|)]
  {
    var all := Flatten(page.bySelector);
    var found := Gather(page.bySelector, [], max);
    assert [] + all == all;
    if all != [] {
      assert |found| >= 1;
      assert PrefixSlice(found, max) == found[..Min(max, |found|)];
      assert found[..Min(max, |found|)] == all[..Min(max, |all|)];
    } else {
      assert found == [];
    }
  }

  /** The listings of a list of cards, in card order. */
  function KeepListings(s: Supplier, cards: seq<Card>): (r: seq<Listing>)
    ensures |r| <= |cards|
    ensures forall k :: 0 <= k < |r| ==>
      r[k].supplier == s.name && r[k].priceNumeric > 0.0 && r[k].productName != []
  {
    if cards == [] then []
    else
      var rest := KeepListings(s, cards[1..]);
      match ToListing(s, cards[0])
      case Some(l) => [l] + rest
      case None => rest
  }

  /** A page yields nothing exactly when every card fails the gate. */
  lemma {:induction false} KeepListingsEmptyIff(s: Supplier, cards: seq<Card>)
    ensures KeepListings(s, cards) == [] <==> forall k :: 0 <= k < |cards| ==> ToListing(s, cards[k]).None?
  {
    if cards != [] {
      KeepListingsEmptyIff(s, cards[1..]);
      assert forall k :: 1 <= k < |cards| ==> cards[k] == cards[1..][k - 1];
    }
  }

  /** Every listing kept is the listing of one of the cards. */
  lemma {:induction false} KeepListingsSound(s: Supplier, cards: seq<Card>, k: nat)
    requires k < |KeepListings(s, cards)|
    ensures exists j :: 0 <= j < |cards| && ToListing(s, cards[j]) == Some(KeepListings(s, cards)[k])
  {
    var rest := KeepListings(s, cards[1..]);
    if ToListing(s, cards[0]).Some? && k == 0 {
      assert ToListing(s, cards[0]) == Some(KeepListings(s, cards)[0]);
    } else {
      var k' := if ToListing(s, cards[0]).Some? then k - 1 else k;
      assert KeepListings(s, cards)[k] == rest[k'];
      KeepListingsSound(s, cards[1..], k');
      var j :| 0 <= j < |cards[1..]| && ToListing(s, cards[1..][j]) == Some(rest[k']);
      assert cards[1..][j] == cards[j + 1];
    }
  }

  /** Every card that passes the gate contributes its listing. */
  lemma KeepListingsComplete(s: Supplier, cards: seq<Card>, j: nat)
    requires j < |cards| && ToListing(s, cards[j]).Some?
    ensures ToListing(s, cards[j]).value in KeepListings(s, cards)
  {
    var a, b := cards[..j], cards[j + 1..];
    assert cards == a + ([cards[j]] + b);
    KeepListingsAppend(s, a, [cards[j]] + b);
    KeepListingsAppend(s, [cards[j]], b);
    KeepListingsOne(s, cards[j]);
    var before := KeepListings(s, a);
    assert KeepListings(s, cards) == before + ([ToListing(s, cards[j]).value] + KeepListings(s, b));
    assert KeepListings(s, cards)[|before|] == ToListing(s, cards[j]).value;
  }

  /** The cards are read in order: the listings of two runs of cards are
      the listings of the first run followed by those of the second. */
  lemma {:induction false} KeepListingsAppend(s: Supplier, a: seq<Card>, b: seq<Card>)
    ensures KeepListings(s, a + b) == KeepListings(s, a) + KeepListings(s, b)
  {
    if a == [] {
      assert a + b == b;
    } else {
      assert (a + b)[0] == a[0];
      assert (a + b)[1..] == a[1..] + b;
      KeepListingsAppend(s, a[1..], b);
    }
  }

  /** One card gives its listing when it passes the gate and nothing
      otherwise; with `KeepListingsAppend` this fixes the listings of any
      run of cards. */
  lemma KeepListingsOne(s: Supplier, c: Card)
    ensures KeepListings(s, [c]) == if ToListing(s, c).Some? then [ToListing(s, c).value] else []
  {
    assert [c][1..] == [];
  }

  /** The card loop of one page: the first `max` candidates (`[:max]`),
      each through the gate. */
  function PageListings(s: Supplier, page: Page, max: int): (r: seq<Listing>)
    ensures max >= 0 ==> |r| <= max
  {
    KeepListings(s, PrefixSlice(Candidates(page, max), max))
  }

  // ---------------------------------------------------------------- one supplier

  /** The page a search pattern returned exists and yields a listing. */
  predicate Yields(s: Supplier, page: Option<Page>, max: int) {
    page.Some? && PageListings(s, page.value, max) != []
  }

  /** The first search pattern, from position `i` on, whose page yields a listing. */
  function FirstProductive(s: Supplier, pages: seq<Option<Page>>, i: nat, max: int): (r: Option<nat>)
    requires i <= |pages|
    ensures r.Some? ==> i <= r.value < |pages| && Yields(s, pages[r.value], max)
                        && forall j :: i <= j < r.value ==> !Yields(s, pages[j], max)
    ensures r.None? ==> forall j :: i <= j < |pages| ==> !Yields(s, pages[j], max)
  {
    FirstFrom(pages, page => Yields(s, page, max), i)
  }

  /** `search_supplier_website` from the `i`-th search URL pattern on: the
      patterns are tried in order and the first page that yields any
      listing is the answer; later patterns are not tried. No page with a
      listing gives none. */
  function SupplierResults(s: Supplier, pages: seq<Option<Page>>, i: nat, max: int): (r: seq<Listing>)
    requires i <= |pages|
    ensures max >= 0 ==> |r| <= max
    ensures forall k :: 0 <= k < |r| ==> r[k].supplier == s.name && r[k].priceNumeric > 0.0
    ensures FirstProductive(s, pages, i, max).None? ==> r == []
    ensures FirstProductive(s, pages, i, max).Some? ==>
      r == PageListings(s, pages[FirstProductive(s, pages, i, max).value].value, max)
    decreases |pages| - i
  {
    if i == |pages| then []
    else if Yields(s, pages[i], max) then PageListings(s, pages[i].value, max)
    else SupplierResults(s, pages, i + 1, max)
  }

  // ---------------------------------------------------------------- ranking

  predicate SortedByPrice(xs: seq<Listing>) {
    forall i, j :: 0 <= i < j < |xs| ==> xs[i].priceNumeric <= xs[j].priceNumeric
  }

  /** No listing of `xs` is cheaper than `b`. */
  predicate AtLeast(xs: seq<Listing>, b: real) {
    forall k :: 0 <= k < |xs| ==> b <= xs[k].priceNumeric
  }

  /** The listings of `xs` with price `v`, in their order in `xs`. */
  function WithPrice(xs: seq<Listing>, v: real): seq<Listing> {
    if xs == [] then []
    else (if xs[0].priceNumeric == v then [xs[0]] else []) + WithPrice(xs[1..], v)
  }

  /** Puts `x` after every listing that is not dearer than it. */
  function Insert(xs: seq<Listing>, x: Listing): (r: seq<Listing>)
    requires SortedByPrice(xs)
    ensures SortedByPrice(r)
    ensures |r| == |xs| + 1
    ensures forall b: real :: AtLeast(xs, b) && b <= x.priceNumeric ==> AtLeast(r, b)
  {
    if xs == [] then [x]
    else if x.priceNumeric < xs[0].priceNumeric then [x] + xs
    else
      var rest := Insert(xs[1..], x);
      assert AtLeast(xs[1..], xs[0].priceNumeric);
      [xs[0]] + rest
  }

  lemma {:induction false} InsertPermutes(xs: seq<Listing>, x: Listing)
    requires SortedByPrice(xs)
    ensures multiset(Insert(xs, x)) == multiset(xs) + multiset{x}
  {
    if xs != [] && x.priceNumeric >= xs[0].priceNumeric {
      InsertPermutes(xs[1..], x);
      assert xs == [xs[0]] + xs[1..];
    }
  }

  lemma {:induction false} CheaperHasNone(xs: seq<Listing>, v: real)
    requires SortedByPrice(xs) && (xs == [] || v < xs[0].priceNumeric)
    ensures WithPrice(xs, v) == []
  {
    if xs != [] {
      CheaperHasNone(xs[1..], v);
    }
  }

  lemma WithPriceCons(x: Listing, xs: seq<Listing>, v: real)
    ensures WithPrice([x] + xs, v) == (if x.priceNumeric == v then [x] else []) + WithPrice(xs, v)
  {
    assert ([x] + xs)[1..] == xs;
  }

  /** Inserting keeps every price group in order and puts `x` at the end of its own. */
  lemma {:induction false} InsertStable(xs: seq<Listing>, x: Listing, v: real)
    requires SortedByPrice(xs)
    decreases |xs|, 1
    ensures WithPrice(Insert(xs, x), v) == WithPrice(xs, v) + (if x.priceNumeric == v then [x] else [])
  {
    if xs == [] {
      WithPriceCons(x, [], v);
    } else if x.priceNumeric < xs[0].priceNumeric {
      CheaperHasNone(xs, x.priceNumeric);
      WithPriceCons(x, xs, v);
    } else {
      InsertStableAfterHead(xs, x, v);
    }
  }

  lemma {:induction false} InsertStableAfterHead(xs: seq<Listing>, x: Listing, v: real)
    requires SortedByPrice(xs) && xs != [] && xs[0].priceNumeric <= x.priceNumeric
    ensures WithPrice(Insert(xs, x), v) == WithPrice(xs, v) + (if x.priceNumeric == v then [x] else [])
    decreases |xs|, 0
  {
    var rest := Insert(xs[1..], x);
    assert Insert(xs, x) == [xs[0]] + rest;
    InsertStable(xs[1..], x, v);
    WithPriceCons(xs[0], rest, v);
    WithPriceCons(xs[0], xs[1..], v);
    assert [xs[0]] + xs[1..] == xs;
  }

  lemma {:induction false} WithPriceAppend(xs: seq<Listing>, ys: seq<Listing>, v: real)
    ensures WithPrice(xs + ys, v) == WithPrice(xs, v) + WithPrice(ys, v)
  {
    if xs != [] {
      WithPriceAppend(xs[1..], ys, v);
      assert (xs + ys)[1..] == xs[1..] + ys;
    } else {
      assert xs + ys == ys;
    }
  }

  /** `all_results.sort(key=price_numeric)`: ascending price; Python's
      sort is stable. */
  function SortByPrice(xs: seq<Listing>): (r: seq<Listing>)
    ensures SortedByPrice(r) && |r| == |xs|
  {
    if xs == [] then [] else Insert(SortByPrice(xs[..|xs| - 1]), xs[|xs| - 1])
  }

  /** The sort only reorders: the result is a permutation of the input. */
  lemma {:induction false} SortByPricePermutes(xs: seq<Listing>)
    ensures multiset(SortByPrice(xs)) == multiset(xs)
  {
    if xs != [] {
      var init := xs[..|xs| - 1];
      var x := xs[|xs| - 1];
      assert multiset(SortByPrice(init)) == multiset(init) by {
        SortByPricePermutes(init);
      }
      assert multiset(SortByPrice(xs)) == multiset(SortByPrice(init)) + multiset{x} by {
        InsertPermutes(SortByPrice(init), x);
      }
      assert multiset(xs) == multiset(init) + multiset{x} by {
        assert xs == init + [x];
      }
    }
  }

  /** The sort is stable: listings of equal price keep their arrival order. */
  lemma {:induction false} SortByPriceStable(xs: seq<Listing>, v: real)
    ensures WithPrice(SortByPrice(xs), v) == WithPrice(xs, v)
  {
    if xs != [] {
      var init := xs[..|xs| - 1];
      var x := xs[|xs| - 1];
      assert SortByPrice(xs) == Insert(SortByPrice(init), x);
      SortByPriceStable(init, v);
      InsertStable(SortByPrice(init), x, v);
      assert xs == init + [x];
      WithPriceAppend(init, [x], v);
      WithPriceCons(x, [], v);
      assert [x] + [] == [x];
    }
  }

  // ---------------------------------------------------------------- all suppliers

  /** The suppliers' listings, in the order their searches completed. */
  function Concat(fetches: seq<SupplierFetch>): (r: seq<Listing>)
    ensures |r| <= PerSupplierMax * |fetches|
    ensures forall k :: 0 <= k < |r| ==> r[k].priceNumeric > 0.0
  {
    if fetches == [] then []
    else
      var f := fetches[|fetches| - 1];
      Concat(fetches[..|fetches| - 1]) + SupplierResults(f.supplier, f.pages, 0, PerSupplierMax)
  }

  /** The answers `search_all_suppliers` collects without a timeout: one
      per supplier of the list, in the order the searches completed. */
  predicate FromSuppliers(fetches: seq<SupplierFetch>) {
    && |fetches| == |Suppliers|
    && (forall k :: 0 <= k < |fetches| ==> fetches[k].supplier in Suppliers)
    && (forall j, k :: 0 <= j < k < |fetches| ==> fetches[j].supplier != fetches[k].supplier)
  }

  /** Eleven suppliers with three listings each: at most 33 listings. */
  lemma ConcatAtMost(fetches: seq<SupplierFetch>)
    requires FromSuppliers(fetches)
    ensures |Concat(fetches)| <= PerSupplierMax * |Suppliers| == 33
  {
    assert |Suppliers| == 11;
  }

  /** `search_all_suppliers` with three listings asked of each supplier:
      the completed answers combined and sorted by price. Waiting longer
      than the pool's timeout raises. */
  function AllResults(fetches: seq<SupplierFetch>, timedOut: bool): (r: Option<seq<Listing>>)
    ensures r.Some? <==> !timedOut
    ensures r.Some? ==> SortedByPrice(r.value) && |r.value| == |Concat(fetches)|
  {
    if timedOut then None else Some(SortByPrice(Concat(fetches)))
  }

  /** Every listing a supplier returned is kept, none is added, and those
      of equal price stay in arrival order. */
  lemma AllResultsKeepsListings(fetches: seq<SupplierFetch>, v: real)
    requires AllResults(fetches, false).Some?
    ensures multiset(AllResults(fetches, false).value) == multiset(Concat(fetches))
    ensures WithPrice(AllResults(fetches, false).value, v) == WithPrice(Concat(fetches), v)
  {
    SortByPricePermutes(Concat(fetches));
    SortByPriceStable(Concat(fetches), v);
  }

  /** The first `n` of a sorted list are sorted and none is dearer than
      any listing left out. */
  lemma SortedPrefix(all: seq<Listing>, n: nat)
    requires SortedByPrice(all) && n <= |all|
    ensures SortedByPrice(all[..n])
    ensures forall i, j :: 0 <= i < n <= j < |all| ==> all[..n][i].priceNumeric <= all[j].priceNumeric
  {
  }

  /** `min(data.get('max_results', 10), 20)`: an integer or a float no
      larger than 20. */
  function LimitField(body: Body): Option<Number> {
    MinWith(Get(body, "max_results", JInt(DefaultMaxResults)), ResultsCap)
  }

  /** The request checks of `search`: a missing body, a query that is not
      a string or a limit that is not a number raises (500), an empty query
      is refused (400); otherwise the limit `min(max_results, 20)`. */
  function ReadRequest(data: Option<Body>): (r: Result<Number, Rejection>)
    ensures data.None? ==> r == Failure(ServerError)
    ensures r.Success? ==> data.Some? && LimitField(data.value) == Some(r.value)
    ensures r.Success? ==> AtMost(r.value, ResultsCap)
  {
    if data.None? then Failure(ServerError)
    else
      var body := data.value;
      var query := StrippedText(Get(body, "query", JString("")));
      var max := LimitField(body);
      if query.None? || max.None? then Failure(ServerError)
      else if query.value == [] then Failure(BadRequest(QueryRequiredMessage))
      else Success(max.value)
  }

  /** The request is accepted exactly when the query is a string that is
      not blank and `max_results`, if given, is a number; a blank string
      query with a usable limit is the only 400 answer. */
  lemma ReadRequestDecides(body: Body)
    ensures var q := Get(body, "query", JString(""));
            var m := Get(body, "max_results", JInt(DefaultMaxResults));
            && (ReadRequest(Some(body)).Success? <==> q.JString? && Strip(q.s) != [] && NumberOf(m).Some?)
            && ((ReadRequest(Some(body)) == Failure(BadRequest(QueryRequiredMessage)))
                <==> (q.JString? && Strip(q.s) == [] && NumberOf(m).Some?))
  {
  }

  /** A body with a non-blank string query and a numeric limit is read as
      that limit. */
  lemma ReadRequestAccepts(body: Body, q: string)
    requires Get(body, "query", JString("")) == JString(q) && Strip(q) != []
    requires LimitField(body).Some?
    ensures ReadRequest(Some(body)) == Success(LimitField(body).value)
  {
  }

  /** A body with a non-blank query and no `max_results`: the limit is the
      default of ten. */
  lemma ReadRequestDefault(body: Body, q: string)
    requires Get(body, "query", JString("")) == JString(q) && Strip(q) != []
    requires "max_results" !in body
    ensures ReadRequest(Some(body)) == Success(IntNumber(DefaultMaxResults))
  {
    assert Get(body, "max_results", JInt(DefaultMaxResults)) == JInt(DefaultMaxResults);
    ReadRequestLimit(body, q, DefaultMaxResults);
  }

  /** A body with a non-blank query and an integer `max_results` n: the
      limit read is `min(n, 20)`. */
  lemma ReadRequestLimit(body: Body, q: string, n: int)
    requires Get(body, "query", JString("")) == JString(q) && Strip(q) != []
    requires Get(body, "max_results", JInt(DefaultMaxResults)) == JInt(n)
    ensures ReadRequest(Some(body)) == Success(IntNumber(Min(n, ResultsCap)))
  {
    assert LimitField(body) == Some(IntNumber(Min(n, ResultsCap)));
    ReadRequestAccepts(body, q);
  }

  /** `results[:max_results]`: a Python slice, so a negative limit drops
      listings from the end instead of keeping none. */
  function Limit(all: seq<Listing>, max: int): (r: seq<Listing>)
    ensures |r| <= |all| && r == all[..|r|]
    ensures max >= 0 ==> |r| == Min(max, |all|)
    ensures max < 0 ==> |r| == Max(|all| + max, 0)
  {
    PrefixSlice(all, max)
  }

  /** The cut that `min(max_results, 20)` aims at: at most `max` listings, none for a
      limit below one; from a sorted list, the cheapest ones. */
  function CappedLimit(all: seq<Listing>, max: int): (r: seq<Listing>)
    requires SortedByPrice(all)
    ensures |r| == Min(Max(max, 0), |all|) && r == all[..|r|]
    ensures max <= ResultsCap ==> |r| <= ResultsCap
    ensures SortedByPrice(r)
    ensures forall i, j :: 0 <= i < |r| <= j < |all| ==> r[i].priceNumeric <= all[j].priceNumeric
  {
    var n := Min(Max(max, 0), |all|);
    SortedPrefix(all, n);
    all[..n]
  }

  /** `search`, as written: the combined sorted list cut with the Python
      slice `results[:max_results]`; a float limit passes the checks and
      then makes the slice raise. */
  function Search(data: Option<Body>, fetches: seq<SupplierFetch>, timedOut: bool): (r: Result<seq<Listing>, Rejection>)
    ensures ReadRequest(data).Failure? ==> r == Failure(ReadRequest(data).error)
    ensures ReadRequest(data).Success? && (timedOut || ReadRequest(data).value.FloatNumber?) ==> r == Failure(ServerError)
    ensures ReadRequest(data).Success? && ReadRequest(data).value.IntNumber? && !timedOut ==>
      r == Success(Limit(SortByPrice(Concat(fetches)), ReadRequest(data).value.i))
  {
    match ReadRequest(data)
    case Failure(e) => Failure(e)
    case Success(limit) =>
      match AllResults(fetches, timedOut)
      case None => Failure(ServerError)
      case Some(all) =>
        match limit
        case IntNumber(max) => Success(Limit(all, max))
        case FloatNumber(_) => Failure(ServerError)
  }

  /** A negative `max_results` is not a limit: `results[:-1]` keeps all but
      the dearest listing, so with 22 listings or more (the eleven
      suppliers can give 33) the answer holds more than 20. */
  lemma SearchNegativeLimit(body: Body, query: string, fetches: seq<SupplierFetch>)
    requires Get(body, "query", JString("")) == JString(query) && Strip(query) != []
    requires Get(body, "max_results", JInt(DefaultMaxResults)) == JInt(-1)
    requires |Concat(fetches)| >= ResultsCap + 2
    ensures Search(Some(body), fetches, false).Success?
    ensures |Search(Some(body), fetches, false).value| > ResultsCap
  {
    ReadRequestLimit(body, query, -1);
    var all := SortByPrice(Concat(fetches));
    assert |all| == |Concat(fetches)|;
    assert Search(Some(body), fetches, false) == Success(Limit(all, -1));
  }

  /** `search` with the cap that `min(max_results, 20)` aims at: the same
      checks, then at most `max_results` listings, never more than 20, and
      those the cheapest. */
  function SearchCapped(data: Option<Body>, fetches: seq<SupplierFetch>, timedOut: bool): (r: Result<seq<Listing>, Rejection>)
    ensures ReadRequest(data).Failure? ==> r == Failure(ReadRequest(data).error)
    ensures ReadRequest(data).Success? && (timedOut || ReadRequest(data).value.FloatNumber?) ==> r == Failure(ServerError)
    ensures ReadRequest(data).Success? && ReadRequest(data).value.IntNumber? && !timedOut ==>
      r == Success(CappedLimit(SortByPrice(Concat(fetches)), ReadRequest(data).value.i))
    ensures r.Success? ==> |r.value| <= ResultsCap
  {
    match ReadRequest(data)
    case Failure(e) => Failure(e)
    case Success(limit) =>
      match AllResults(fetches, timedOut)
      case None => Failure(ServerError)
      case Some(all) =>
        match limit
        case IntNumber(max) => Success(CappedLimit(all, max))
        case FloatNumber(_) => Failure(ServerError)
  }
}
