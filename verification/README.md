# UK building-materials price search, modelled in Dafny

Two small Flask services answer price searches for building materials.

- The **AI search service** (`app.py`) wraps the user's query in a fixed
  instruction for a chat-completion API (`enhance_query`). It checks the
  request body (`search_products`) and reads the model's answer text line
  by line into product records (`parse_ai_response`).
- The **live supplier search service** (`live_search_app.py`) queries the
  search pages of eleven suppliers and reads product cards off each page
  (`search_supplier_website`). It turns price labels into numbers
  (`clean_price`), sorts the combined listings by price
  (`search_all_suppliers`) and cuts the list to the requested length
  (`search`).

The model keeps the decisions these functions make and leaves the I/O
outside. The answer of the chat API, the cards the CSS selectors matched,
the pages the suppliers returned and whether the thread pool timed out
are all parameters.

Modules, one per file:

- `Basics` (`basics.dfy`): `Option`, `Result`, `Min`/`Max` and the
  first/last-match searches `FirstFrom` and `LastOf`.
- `Text` (`text.dfy`): the Python string built-ins the services call.
  These are `strip`, `lower`, `title`, `split`, `replace` with the empty
  string, `in` on strings, the slice `s[:k]` and decimal digits.
- `JsonBody` (`json_body.dfy`): JSON request bodies, `dict.get`, `int()`
  and `min()` as Python evaluates them.
- `PriceText` (`price_text.dfy`): `clean_price`.
- `SearchApi` (`search_api.dfy`): `enhance_query` and the request checks
  of `search_products`.
- `AiParse` (`ai_parse.dfy`): `parse_ai_response`. The line loop is
  modelled as written. A reference reading, block by block between blank
  lines, is proved to agree with it.
- `LiveSearch` (`live_search.dfy`): card reading, per-supplier search,
  the merge and sort, and the `search` endpoint. It covers both the code
  as written and the corrected cut described under Findings.

## Model

| member | source | states |
|---|---|---|
| Text.SplitJoin | app.py:67 | splitting the answer at newlines and joining the pieces back gives the answer text again |
| JsonBody.StrippedText | app.py:154 | `.strip()` on a field succeeds exactly for a string value, and gives that string with surrounding whitespace removed |
| JsonBody.IntOfText | app.py:156 | `int()` of a string accepts exactly a stripped optional sign followed by a numeral. A numeral is digits with single underscores between digits. Its value is the number the digits spell, negated after a minus |
| JsonBody.IntOfTextRoundTrip | app.py:156 | `int(str(n)) == n` for every natural number |
| JsonBody.IntOfTextRoundTripNegative | app.py:156 | `int("-" + str(n)) == -n` for every positive number |
| JsonBody.IntOfTextUnderscore | app.py:156 | an underscore between two groups of digits is ignored, so "1_000" reads as 1000 |
| JsonBody.IntOfTextRefusesLoneUnderscores | app.py:156 | a doubled, leading or trailing underscore makes `int()` raise |
| JsonBody.Trunc | app.py:156 | `int()` of a float goes toward zero, to an integer less than one away from it |
| JsonBody.IntOf | app.py:156 | `int()` of a JSON value keeps an integer, reads a boolean as 0 or 1, truncates a float, and reads a string as `IntOfText` does. It raises on null and on containers |
| JsonBody.MinWith | live_search_app.py:217 | `min(value, cap)` never exceeds the cap and raises on a non-number. It returns the value itself exactly when the value is not above the cap, and otherwise the integer cap |
| PriceText.DecimalValue | live_search_app.py:41 | `float("w.f")` is exactly the number the digits of `w` and `f` spell together, with the point moved back one place per digit of `f`. It lies between the whole part and the whole part plus one |
| PriceText.CleanPrice | live_search_app.py:33-42 | a price read from a label is never negative |
| PriceText.SearchFindsFirstDigit | live_search_app.py:39 | the regex search finds its group at the first digit of the label, the leftmost place the group can match |
| PriceText.CleanPriceNoneIff | live_search_app.py:33-42 | no price is read exactly when the label has no digit, whether or not its commas are dropped first |
| PriceText.CleanPriceIgnoresCommas | live_search_app.py:39 | a label reads the same as the label with all its commas removed |
| PriceText.CleanPriceReadsDecimal | live_search_app.py:39-41 | a label with a digit-free lead, then digits, a point, digits and a non-digit tail, reads as exactly that decimal |
| PriceText.CleanPriceReadsWhole | live_search_app.py:39-41 | a label whose digits are followed by neither a digit nor a point reads as that whole number |
| PriceText.CleanPriceExample | live_search_app.py:33-42 | "£1,234.50" reads as 1234.5 |
| SearchApi.EnhanceQuery | app.py:16-21 | the prompt is the fixed opening, then the query unchanged, then a closing that names the location and the supplier guidance |
| SearchApi.Between | app.py:16-21 | text found between an opening and a closing puts the prompt back together with them |
| SearchApi.QueryOf | app.py:16-21 | a query read back from a prompt rebuilds that prompt |
| SearchApi.EnhanceQueryRoundTrip | app.py:16-21 | the query can be read back from every prompt built for it |
| SearchApi.EnhanceQueryInjective | app.py:16-21 | two queries with the same prompt for one location are the same query |
| SearchApi.MaxResultsField | app.py:156 | the `max_results` read is never above 10 |
| SearchApi.MaxResultsFloat | app.py:156 | a fractional `max_results` is cut toward zero before the cap: 7.9 asks for 7 and 12.5 for 10 |
| SearchApi.ValidateSearch | app.py:150-162 | a missing or empty body gets the 400 "no data" answer. An accepted request carries a stripped query of at least three characters and a limit of at most 10 |
| SearchApi.CheckFields | app.py:154-162 | a request is accepted only with the query it was given, of at least three characters, and the limit that was read |
| SearchApi.WellTypedFields | app.py:154-156 | for correctly typed fields the query is the stripped string, a location is read and the limit is `min(int(max_results), 10)` with default 5 |
| SearchApi.ValidateWellTyped | app.py:150-162 | for correctly typed fields the outcome depends only on the stripped query: empty gives one 400, shorter than three gives another, and otherwise the request is accepted |
| SearchApi.ValidateSearchAccepts | app.py:154-162 | a correctly typed request is accepted exactly when its stripped query has at least three characters, with that query and the capped limit |
| SearchApi.ValidateSearchRejects | app.py:158-162 | an empty stripped query and a short one get their own 400 messages |
| AiParse.FirstPriceStart | app.py:81 | finds the first place, from a position on, where `£` is followed by a digit or comma, or reports that there is none |
| AiParse.PriceToken | app.py:81 | a price token is found exactly when `£` followed by a digit or comma occurs. The token starts with `£`, followed only by digits, commas and points |
| AiParse.PriceTokenLeftmost | app.py:81 | the token is taken at the leftmost place the pattern can start |
| AiParse.PriceTokenReadsDecimal | app.py:81 | from the first start, the token takes the whole run of digits and commas, the '.' after it, and every digit after the point |
| AiParse.PriceTokenReadsWhole | app.py:81 | when the run of digits and commas is followed by neither a digit, a comma nor '.', the token is `£` and that whole run |
| AiParse.PriceTokenHasKeyword | app.py:79-81 | every line with a price token passes the keyword test, so that test never hides a price |
| AiParse.MatchAlias | app.py:87-92 | a matched supplier is one of the seven listed aliases |
| AiParse.MatchAliasFirst | app.py:87-92 | no supplier matches exactly when no alias occurs in the lower-cased line, and otherwise the first listed alias that occurs is taken |
| AiParse.SupplierName | app.py:90 | the supplier name is the alias title-cased: each letter that starts a word becomes a capital, each letter inside a word is small, every other character stays, and lower-casing gives the alias back |
| AiParse.SupplierUrl | app.py:91 | the supplier link is `https://`, the alias without spaces, then `.co.uk` |
| AiParse.AliasesLowerNonEmpty | app.py:87 | every alias is non-empty and already lower case, so it can occur in a lower-cased line |
| AiParse.Lines | app.py:67-71 | the loop sees one stripped line per newline-separated piece of the answer, in order |
| AiParse.Blocks | app.py:70-76 | cutting the lines at blank lines gives at least one block, and no block holds a blank line |
| AiParse.BlocksRoundTrip | app.py:70-76 | joining the blocks with one blank line between them gives the lines back |
| AiParse.FirstLongLine | app.py:94-96 | the product name of a block is its first line longer than ten characters |
| AiParse.LastPricedLine | app.py:79-84 | the price of a block comes from its last priced line after the name line |
| AiParse.LastSupplierLine | app.py:87-92 | the supplier of a block comes from its last line that names one |
| AiParse.FilledRecords | app.py:72-75 | a kept record always holds a field |
| AiParse.AbsorbPrice | app.py:79-84 | a line changes the price only when it has a token and the record already has a name, and then it sets both price and raw text |
| AiParse.AbsorbExtendsBlock | app.py:78-96 | reading one more line into the open record gives the block reading of the block extended by that line |
| AiParse.RunTracksBlocks | app.py:70-96 | after any prefix of the lines, the closed records are the non-empty records of the finished blocks and the open record is the current block's record |
| AiParse.CollectIsBlockwise | app.py:66-100 | the products the parser collects are the records of the blocks between blank lines that hold a field, in order |
| AiParse.AbsorbWellFormed | app.py:78-96 | reading a line keeps a record well formed. A well-formed record has a name longer than ten characters if any, a price only with a name, raw text and a leading `£`, and a supplier only with its link |
| AiParse.RunWellFormed | app.py:70-96 | every record the loop builds is well formed |
| AiParse.CollectedWellFormed | app.py:66-100 | every collected product is well formed and has a name or a supplier |
| AiParse.AbsorbHasFields | app.py:78-96 | a record gains a field from a line exactly when the line is longer than ten characters or names a supplier |
| AiParse.RunEmptyIff | app.py:70-96 | the loop ends with nothing collected and an empty open record exactly when no line is informative |
| AiParse.CollectEmptyIff | app.py:66-100 | no product is collected exactly when no line is longer than ten characters or names a supplier |
| AiParse.FirstLineGivesNoPrice | app.py:82 | the first line of a record never sets its price, because the price needs a name first |
| AiParse.Records | app.py:102-110 | there is always at least one record, every name longer than ten characters and every supplier non-empty |
| AiParse.PlaceholderIff | app.py:102-110 | the single placeholder record appears exactly when no line of the answer is informative |
| AiParse.NotPlaceholder | app.py:102-110 | no record the loop builds can be mistaken for the placeholder |
| AiParse.Fill | app.py:113-120 | filling defaults keeps every field the record has and puts the documented default in each missing one |
| AiParse.FillAll | app.py:113-120 | every record is filled, one product per record, in order |
| AiParse.FillNamed | app.py:113-116 | a filled product always has a name longer than ten characters and a non-empty supplier |
| AiParse.Summarize | app.py:122-131 | the summary shows the first five filled records (at least one), counts all records, and passes on the answer text and the citations |
| AiParse.ParseAiResponse | app.py:59-134 | a response without choices, a first choice, a message or content fails with that reason. Otherwise parsing succeeds with the summary of the content and the citations, an absent list being empty |
| AiParse.ShownProductsNamed | app.py:95-123 | every product shown has a name longer than ten characters and a non-empty supplier |
| LiveSearch.ScanPrices | live_search_app.py:111-117 | the price loop yields a non-zero price exactly when some matched price text reads as one, and then it is the first such text's value |
| LiveSearch.ToListing | live_search_app.py:95-150 | a card becomes a listing exactly when it has a non-empty name and a price text that reads non-zero. The listing carries that name, the supplier and the first such price, and links to the card's link or else the supplier's site. It also carries the supplier's website and delivery note and the card's image, or an empty image |
| LiveSearch.Gather | live_search_app.py:77-81 | the selector loop collects a prefix of all matches in selector order, and at least `max` cards when there are that many |
| LiveSearch.CandidatesExamined | live_search_app.py:77-87 | the cards examined are the first `max` selector matches, or the first `max` generic containers when no selector matched |
| LiveSearch.KeepListings | live_search_app.py:87-150 | the listings of a page are no more than its cards, each from this supplier, named and with a positive price |
| LiveSearch.KeepListingsEmptyIff | live_search_app.py:87-150 | a page yields no listing exactly when none of its cards passes the gate |
| LiveSearch.KeepListingsSound | live_search_app.py:87-150 | every listing kept is the listing of one of the cards |
| LiveSearch.KeepListingsComplete | live_search_app.py:87-150 | every card that passes the gate contributes its listing |
| LiveSearch.KeepListingsAppend | live_search_app.py:87-150 | cards are read in order: two runs of cards give the first run's listings followed by the second's |
| LiveSearch.KeepListingsOne | live_search_app.py:134-150 | one card gives its listing when it passes the gate and nothing otherwise |
| LiveSearch.PageListings | live_search_app.py:77-150 | a page yields at most `max` listings |
| LiveSearch.FirstProductive | live_search_app.py:61-157 | the search URL whose page is used is the first whose page yields a listing |
| LiveSearch.SupplierResults | live_search_app.py:61-164 | a supplier's results are the listings of the first productive page, or none. There are at most `max`, all from this supplier and with a positive price |
| LiveSearch.Insert | live_search_app.py:194 | inserting into a price-sorted list keeps it sorted and adds one element. A price no higher than every listing and the new one stays a lower bound |
| LiveSearch.InsertPermutes | live_search_app.py:194 | inserting adds exactly the new listing |
| LiveSearch.InsertStable | live_search_app.py:194 | the inserted listing goes after every listing of equal price |
| LiveSearch.SortByPrice | live_search_app.py:194 | the sorted list is in ascending price order and as long as the input |
| LiveSearch.SortByPricePermutes | live_search_app.py:194 | sorting neither loses nor adds a listing |
| LiveSearch.SortByPriceStable | live_search_app.py:194 | listings of equal price keep their relative order, as Python's stable sort promises |
| LiveSearch.Concat | live_search_app.py:185-190 | the combined listings number at most three per fetched supplier answer in total, all with a positive price |
| LiveSearch.ConcatAtMost | live_search_app.py:177-190 | the eleven suppliers, three listings each, give at most 33 listings |
| LiveSearch.AllResults | live_search_app.py:170-197 | the merged results exist exactly when the pool did not time out, and are then sorted and as many as the suppliers returned |
| LiveSearch.AllResultsKeepsListings | live_search_app.py:185-194 | the merged results are a permutation of the suppliers' listings, and equal prices keep completion order |
| LiveSearch.SortedPrefix | live_search_app.py:228 | a prefix of the sorted results is sorted and no dearer than any listing left out |
| LiveSearch.ReadRequest | live_search_app.py:214-220 | a missing body gives 500. An accepted request carries the limit `min(max_results, 20)`, never above 20 |
| LiveSearch.ReadRequestDecides | live_search_app.py:214-220 | a request is accepted exactly when the query is a non-blank string and the limit is a number. The 400 answer comes exactly for a blank string query with a numeric limit |
| LiveSearch.ReadRequestAccepts | live_search_app.py:216-220 | a non-blank string query with a numeric limit is accepted with that limit |
| LiveSearch.ReadRequestDefault | live_search_app.py:216-217 | a body with a non-blank query and no `max_results` gets the limit 10 |
| LiveSearch.ReadRequestLimit | live_search_app.py:216-217 | a body with a non-blank query and an integer `max_results` n gets the limit `min(n, 20)` |
| LiveSearch.Limit | live_search_app.py:228 | the Python slice keeps a prefix: `min(n, length)` listings for n >= 0, and all but the last -n for n < 0 |
| LiveSearch.Search | live_search_app.py:211-258 | request failures pass through, a pool timeout or a float limit gives 500, and otherwise the answer is the sorted merged listings cut by the slice |
| LiveSearch.SearchNegativeLimit | live_search_app.py:217-228 | a body with a non-blank query and `max_results` -1, with at least 22 listings found, is answered with more than 20 listings |
| LiveSearch.CappedLimit | live_search_app.py:217-228 | the corrected cut keeps the `min(max(n, 0), length)` cheapest listings in sorted order, never more than 20 for a limit read by `search` |
| LiveSearch.SearchCapped | live_search_app.py:211-258 | the corrected endpoint has the same failures and never answers with more than 20 listings |

## Left out

- HTTP, Flask routing, CORS and JSON serialisation are not modelled. Neither are the health, demo and supplier-list endpoints, the calls to `print`, nor the timing fields of the answers.
- `call_perplexity_api` is not modelled, because it is a network call: its answer is the `AiResponse` parameter of `ParseAiResponse`. The model does not track which prompt produced which answer.
- Fetching supplier pages is not modelled. `requests.get` with its timeout and status check becomes one `Option<Page>` per search URL, `None` for a failure or a status other than 200.
- BeautifulSoup and `urljoin` are outside the model. A `Page` is the cards each product selector matched plus the generic `£` containers. A `Card` is the text of the first name selector that matched, the texts its price selectors matched, and the link and image already resolved.
- The thread pool is outside the model. The per-supplier answers arrive as a sequence in completion order, and exceeding the 30-second timeout is a boolean. A supplier whose search raised contributes an empty list, as `search_supplier_website` returns one.
- The display string `£{price:.2f}` and the constant fields of a listing are left out of `Listing`. The constant fields are category, availability, contact and rating.
- The text built-ins follow ASCII only. Python's `strip`, `lower`, `title` and the regex `\d` also act on non-ASCII whitespace, letters and digits.
- `CleanPrice` yields an exact decimal where Python yields a float. A float rounds, and turns a very long digit string into `inf`.
- JSON floats are exact reals. Infinity and NaN, which Python's JSON reader also accepts, are not modelled, and neither is an exponent beyond the float range.
- `int()` follows ASCII digits only. Python also accepts other Unicode decimal digits and whitespace.
- A request body that is JSON but not an object (a list, a string, a number) is not modelled. The body is either absent or a map.
- In the AI service, `citations` is either absent or a list of strings. A `citations` key present with the value `null` is not modelled; Python would pass `None` on.
- The answer text of the AI service is taken to be a string. A non-string `content` would make `split` raise.

## Findings

| source | as written | input that shows it | evidently intended | confidence | as-written member | corrected member |
|---|---|---|---|---|---|---|
| live_search_app.py:217-228 | the limit is `min(max_results, 20)`, then the list is cut with `results[:max_results]` | `{"query": "loft roll", "max_results": -1}` while the suppliers return 22 or more listings: the slice drops only the dearest one and answers with 21 or more | at most 20 listings, and none for a limit below one | medium, not executed | LiveSearch.SearchNegativeLimit | LiveSearch.SearchCapped |
