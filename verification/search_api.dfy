/** The AI search endpoint around `parse_ai_response`: the prompt sent to
    the chat model (`enhance_query`) and the checks `search_products` makes
    on the request before anything is sent. */
module SearchApi {
  import opened Basics
  import opened Text
  import opened JsonBody

  const PromptOpening := "Find the cheapest prices for "
  const PromptGuidance :=
    "Include product specifications, pricing per unit, supplier names, "
    + "contact information, and availability. Focus on UK building material "
    + "suppliers like Buildbase, Wickes, Screwfix, Jewson, Travis Perkins."

  /** The location `enhance_query` uses when none is passed. */
  const DefaultLocation := "UK"

  const DefaultMaxResults := 5
  const MaxResultsCap := 10
  const MinQueryLength := 3

  const NoDataMessage := "No JSON data provided"
  const QueryRequiredMessage := "Query parameter is required"
  const QueryTooShortMessage := "Query must be at least 3 characters long"

  /** What follows the query in the prompt. */
  function Closing(location: string): string {
    " in " + location + ". " + PromptGuidance
  }

  /** `enhance_query(query, location)`: the user's words inside a fixed
      instruction to the chat model. */
  function EnhanceQuery(query: string, location: string): (r: string)
    ensures |r| == |PromptOpening| + |query| + 6 + |location| + |PromptGuidance|
    ensures r[..|PromptOpening|] == PromptOpening
    ensures r[|PromptOpening|..|PromptOpening| + |query|] == query
    ensures r[|PromptOpening| + |query|..] == Closing(location)
  {
    Parts(PromptOpening, query, Closing(location));
    PromptOpening + query + Closing(location)
  }

  lemma Parts(a: string, q: string, c: string)
    ensures (a + q + c)[..|a|] == a && (a + q + c)[|a|..|a| + |q|] == q
    ensures (a + q + c)[|a| + |q|..] == c
  {
  }

  /** The text a prompt holds between a fixed opening and a fixed closing. */
  function Between(prompt: string, opening: string, closing: string): (r: Option<string>)
    ensures r.Some? ==> prompt == opening + r.value + closing
  {
    if |prompt| < |opening| + |closing| then None
    else
      var cut := |prompt| - |closing|;
      if prompt[..|opening|] == opening && prompt[cut..] == closing
      then
        assert prompt == prompt[..|opening|] + prompt[|opening|..cut] + prompt[cut..];
        Some(prompt[|opening|..cut])
      else None
  }

  lemma {:induction false} BetweenRoundTrip(opening: string, q: string, closing: string)
    ensures Between(opening + q + closing, opening, closing) == Some(q)
  {
    Parts(opening, q, closing);
  }

  /** The query read back out of a prompt built for `location`. */
  function QueryOf(prompt: string, location: string): (r: Option<string>)
    ensures r.Some? ==> prompt == EnhanceQuery(r.value, location)
  {
    Between(prompt, PromptOpening, Closing(location))
  }

  /** The prompt keeps the query intact: reading it back gives the query. */
  lemma EnhanceQueryRoundTrip(query: string, location: string)
    ensures QueryOf(EnhanceQuery(query, location), location) == Some(query)
  {
    BetweenRoundTrip(PromptOpening, query, Closing(location));
  }

  /** Different queries give different prompts. */
  lemma EnhanceQueryInjective(q1: string, q2: string, location: string)
    requires EnhanceQuery(q1, location) == EnhanceQuery(q2, location)
    ensures q1 == q2
  {
    EnhanceQueryRoundTrip(q1, location);
    EnhanceQueryRoundTrip(q2, location);
  }

  datatype SearchRequest = SearchRequest(query: string, location: string, maxResults: int)

  /** `data.get('query', '').strip()`. */
  function QueryField(body: Body): (r: Option<string>)
    ensures r.Some? ==> Trimmed(r.value)
  {
    StrippedText(Get(body, "query", JString("")))
  }

  /** `data.get('location', 'UK').strip()`. */
  function LocationField(body: Body): Option<string> {
    StrippedText(Get(body, "location", JString(DefaultLocation)))
  }

  /** `min(int(data.get('max_results', 5)), 10)`. */
  function MaxResultsField(body: Body): (r: Option<int>)
    ensures r.Some? ==> r.value <= MaxResultsCap
  {
    match IntOf(Get(body, "max_results", JInt(DefaultMaxResults)))
    case Some(n) => Some(Min(n, MaxResultsCap))
    case None => None
  }

  /** The checks at the top of `search_products`, in the order `search_products` makes them:
      no body, then reading the three fields (a wrongly typed field raises),
      then an empty query, then a query shorter than three characters. */
  function ValidateSearch(data: Option<Body>): (r: Result<SearchRequest, Rejection>)
    ensures data.None? || data.value == map[] ==> r == Failure(BadRequest(NoDataMessage))
    ensures r.Success? ==>
      && |r.value.query| >= MinQueryLength
      && Trimmed(r.value.query)
      && r.value.maxResults <= MaxResultsCap
  {
    if data.None? || data.value == map[] then Failure(BadRequest(NoDataMessage))
    else
      var body := data.value;
      CheckFields(QueryField(body), LocationField(body), MaxResultsField(body))
  }

  /** The checks once the three fields are read: a field that raised gives
      a 500, then the two query checks. */
  function CheckFields(query: Option<string>, location: Option<string>, maxResults: Option<int>): (r: Result<SearchRequest, Rejection>)
    ensures r.Success? ==> query.Some? && r.value.query == query.value && |query.value| >= MinQueryLength
    ensures r.Success? ==> maxResults.Some? && r.value.maxResults == maxResults.value
  {
    if query.None? || location.None? || maxResults.None? then Failure(ServerError)
    else if query.value == [] then Failure(BadRequest(QueryRequiredMessage))
    else if |query.value| < MinQueryLength then Failure(BadRequest(QueryTooShortMessage))
    else Success(SearchRequest(query.value, location.value, maxResults.value))
  }

  /** A body with a string query, a string location if any and a numeric
      `max_results` if any. */
  predicate WellTyped(body: Body, raw: string) {
    && body != map[]
    && "query" in body && body["query"] == JString(raw)
    && ("location" in body ==> body["location"].JString?)
    && ("max_results" in body ==> body["max_results"].JInt? || body["max_results"].JFloat?)
  }

  /** The `max_results` a well-typed body asks for, a float truncated
      toward zero, 5 when it is absent. */
  function RequestedMax(body: Body): int
    requires "max_results" in body ==> body["max_results"].JInt? || body["max_results"].JFloat?
  {
    if "max_results" !in body then DefaultMaxResults
    else match body["max_results"]
      case JInt(i) => i
      case JFloat(x) => Trunc(x)
  }

  lemma WellTypedFields(body: Body, raw: string)
    requires WellTyped(body, raw)
    ensures QueryField(body) == Some(Strip(raw))
    ensures LocationField(body).Some?
    ensures MaxResultsField(body) == Some(Min(RequestedMax(body), MaxResultsCap))
  {
    assert Get(body, "query", JString("")) == JString(raw);
    assert IntOf(Get(body, "max_results", JInt(DefaultMaxResults))) == Some(RequestedMax(body));
  }

  /** For a body whose fields have the right types, the outcome depends on
      the stripped query only. */
  lemma ValidateWellTyped(body: Body, raw: string)
    requires WellTyped(body, raw)
    ensures ValidateSearch(Some(body)) ==
      var q := Strip(raw);
      if q == [] then Failure(BadRequest(QueryRequiredMessage))
      else if |q| < MinQueryLength then Failure(BadRequest(QueryTooShortMessage))
      else Success(SearchRequest(q, LocationField(body).value, Min(RequestedMax(body), MaxResultsCap)))
  {
    WellTypedFields(body, raw);
    assert ValidateSearch(Some(body))
           == CheckFields(Some(Strip(raw)), LocationField(body), Some(Min(RequestedMax(body), MaxResultsCap)));
  }

  /** A fractional `max_results` is cut toward zero before the cap:
      7.9 asks for 7 and 12.5 for 10. */
  lemma MaxResultsFloat()
    ensures MaxResultsField(map["max_results" := JFloat(7.9)]) == Some(7)
    ensures MaxResultsField(map["max_results" := JFloat(12.5)]) == Some(MaxResultsCap)
  {
    assert Get(map["max_results" := JFloat(7.9)], "max_results", JInt(DefaultMaxResults)) == JFloat(7.9);
    assert Get(map["max_results" := JFloat(12.5)], "max_results", JInt(DefaultMaxResults)) == JFloat(12.5);
  }

  /** The request goes through exactly when the stripped query has at
      least three characters, carrying that query and `max_results` capped
      at 10. */
  lemma ValidateSearchAccepts(body: Body, raw: string)
    requires WellTyped(body, raw)
    ensures ValidateSearch(Some(body)).Success? <==> |Strip(raw)| >= MinQueryLength
    ensures ValidateSearch(Some(body)).Success? ==>
      && ValidateSearch(Some(body)).value.query == Strip(raw)
      && ValidateSearch(Some(body)).value.maxResults == Min(RequestedMax(body), MaxResultsCap)
  {
    ValidateWellTyped(body, raw);
  }

  /** ... and otherwise it is refused with the message for an empty query
      or the one for a short query. */
  lemma ValidateSearchRejects(body: Body, raw: string)
    requires WellTyped(body, raw)
    ensures Strip(raw) == [] ==> ValidateSearch(Some(body)) == Failure(BadRequest(QueryRequiredMessage))
    ensures 0 < |Strip(raw)| < MinQueryLength
            ==> ValidateSearch(Some(body)) == Failure(BadRequest(QueryTooShortMessage))
  {
    ValidateWellTyped(body, raw);
  }
}
