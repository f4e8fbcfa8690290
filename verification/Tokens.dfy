/** ListObjectsV2: continuation tokens carry the marker, and a token walk is the marker walk. */
module Tokens {
  import opened Types
  import opened Encoding
  import opened Listing
  import opened Grouping
  import opened Walking
  import opened Pages

  const MAX_KEYS_LIMIT := 1000

  /** The `max-keys` parameter as the handlers read it. */
  function ParsedMaxKeys(value: string): (n: int)
    ensures 0 <= n <= MAX_KEYS_LIMIT
  {
    if value == "" then 1000
    else
      match Atoi(value)
      case None => 1000
      case Some(parsed) => if parsed < 0 || parsed > 1000 then 1000 else parsed
  }

  lemma ParsedMaxKeysReadsDecimals(n: nat)
    ensures ParsedMaxKeys(Itoa(n)) == if n > 1000 then 1000 else n
  {
    ItoaIsRead(n);
    var s := Itoa(n);
    assert IsDigit(s[0]);
  }

  /** The query parameters of a ListObjectsV2 request; an absent parameter is the empty string. */
  datatype Query = Query(prefix: string, delimiter: string, startAfter: string, token: string, maxKeys: string)

  datatype Response = Response(listing: ListResult, maxKeys: int, nextToken: string, keyCount: int)

  /** The marker a request stands for: the decoded token if there is one, else `start-after`. */
  function MarkerOf(q: Query): Result<string>
  {
    if q.token == "" then Ok(q.startAfter)
    else
      match Base64UrlDecode(q.token)
      case Some(marker) => Ok(marker)
      case None => Err(InvalidRequest)
  }

  function OptionsOf(q: Query, marker: string): ListOptions
  {
    ListOptions(q.prefix, q.delimiter, marker, ParsedMaxKeys(q.maxKeys))
  }

  // ----- what a query asks for -----

  /** The token's marker if there is a token, else `start-after`. */
  ghost predicate AsksFrom(q: Query, marker: string)
  {
    && (if q.token == "" then marker == q.startAfter else Base64UrlDecode(q.token) == Some(marker))
    && (forall s :: IsByteString(s) && s != "" && Base64Url(s) == q.token ==> marker == s)
  }

  /** The decimal limit from 1 to 1000 that `max-keys` gives, else 1000. */
  ghost predicate AsksFor(q: Query, limit: int)
  {
    && 1 <= limit <= 1000
    && limit == (if Atoi(q.maxKeys).Some? && 1 <= Atoi(q.maxKeys).value <= 1000 then Atoi(q.maxKeys).value else 1000)
    && (forall n: nat :: Itoa(n) == q.maxKeys ==> limit == if 1 <= n <= 1000 then n else 1000)
  }

  /** The page is one that answers the query, in the query's own words. */
  ghost predicate AnswersQuery(all: set<ObjectMeta>, q: Query, page: ListResult)
  {
    exists marker, limit ::
      AsksFrom(q, marker) && AsksFor(q, limit) && ShowsPage(all, q.prefix, q.delimiter, marker, limit, page)
  }

  lemma QueryIsAnswered(ms: seq<ObjectMeta>, q: Query, marker: string)
    requires Listable(ms, OptionsOf(q, marker)) && MarkerOf(q) == Ok(marker)
    ensures AnswersQuery(Members(ms), q, Page(ms, OptionsOf(q, marker)))
  {
    var o := OptionsOf(q, marker);
    var limit := if o.maxKeys <= 0 then 1000 else o.maxKeys;
    PageShows(ms, o);
    AsksFromMarker(q, marker);
    AsksForLimit(q, limit);
  }

  lemma AsksFromMarker(q: Query, marker: string)
    requires MarkerOf(q) == Ok(marker)
    ensures AsksFrom(q, marker)
  {
    forall s | IsByteString(s) && s != "" && Base64Url(s) == q.token
      ensures marker == s
    {
      Base64UrlRoundTrip(s);
    }
  }

  lemma AsksForLimit(q: Query, limit: int)
    requires limit == if ParsedMaxKeys(q.maxKeys) <= 0 then 1000 else ParsedMaxKeys(q.maxKeys)
    ensures AsksFor(q, limit)
  {
    forall n: nat | Itoa(n) == q.maxKeys
      ensures limit == if 1 <= n <= 1000 then n else 1000
    {
      ParsedMaxKeysReadsDecimals(n);
    }
  }

  predicate ByteKeys(ms: seq<ObjectMeta>)
  {
    forall i :: 0 <= i < |ms| ==> IsByteString(ms[i].key)
  }

  /** The requests of a client that sends each truncated page's token back, `start-after` included. */
  function TokenWalk(ms: seq<ObjectMeta>, q: Query, marker: string): seq<Query>
    requires MarkerOf(q) == Ok(marker)
    requires Listable(ms, OptionsOf(q, marker)) && Progresses(ms, OptionsOf(q, marker)) && ByteKeys(ms)
    decreases |Beyond(ms, marker)|
  {
    var o := OptionsOf(q, marker);
    if Truncated(ms, o) then
      var next := NextMarker(ms, o);
      NextPageIsShorter(ms, o);
      TokenCarriesMarker(ms, q, marker);
      [q] + TokenWalk(ms, q.(token := Base64Url(next)), next)
    else [q]
  }

  /** A truncated page's token is non-empty, and sending it back stands for the page's next marker, whatever
      `start-after` says. */
  lemma TokenCarriesMarker(ms: seq<ObjectMeta>, q: Query, marker: string)
    requires Listable(ms, OptionsOf(q, marker)) && Progresses(ms, OptionsOf(q, marker)) && ByteKeys(ms)
    requires Truncated(ms, OptionsOf(q, marker))
    ensures var next := NextMarker(ms, OptionsOf(q, marker));
            && IsByteString(next) && Base64Url(next) != ""
            && forall startAfter: string :: MarkerOf(q.(token := Base64Url(next), startAfter := startAfter)) == Ok(next)
  {
    var o := OptionsOf(q, marker);
    NextMarkerProgresses(ms, o);
    var m :| m in ms && m.key == NextMarker(ms, o);
    Base64UrlRoundTrip(NextMarker(ms, o));
  }

  predicate StandsFor(q: Query, o: ListOptions)
  {
    MarkerOf(q).Ok? && OptionsOf(q, MarkerOf(q).value) == o
  }

  predicate StandFor(queries: seq<Query>, requests: seq<ListOptions>)
  {
    |queries| == |requests| && forall i :: 0 <= i < |queries| ==> StandsFor(queries[i], requests[i])
  }

  lemma OneMoreStands(q: Query, o: ListOptions, queries: seq<Query>, requests: seq<ListOptions>)
    requires StandsFor(q, o) && StandFor(queries, requests)
    ensures StandFor([q] + queries, [o] + requests)
  {
  }

  lemma TokenWalkUnfolds(ms: seq<ObjectMeta>, q: Query, marker: string)
    requires MarkerOf(q) == Ok(marker)
    requires Listable(ms, OptionsOf(q, marker)) && Progresses(ms, OptionsOf(q, marker)) && ByteKeys(ms)
    requires Truncated(ms, OptionsOf(q, marker))
    ensures var next := NextMarker(ms, OptionsOf(q, marker));
            && IsByteString(next) && MarkerOf(q.(token := Base64Url(next))) == Ok(next)
            && OptionsOf(q.(token := Base64Url(next)), next) == OptionsOf(q, marker).(marker := next)
            && Progresses(ms, OptionsOf(q, marker).(marker := next))
            && TokenWalk(ms, q, marker) == [q] + TokenWalk(ms, q.(token := Base64Url(next)), next)
  {
    NextPageIsShorter(ms, OptionsOf(q, marker));
    TokenCarriesMarker(ms, q, marker);
  }

  /** A token walk asks for the same pages as the marker walk, one by one. */
  lemma {:induction false} TokenWalkIsMarkerWalk(ms: seq<ObjectMeta>, q: Query, marker: string)
    requires MarkerOf(q) == Ok(marker)
    requires Listable(ms, OptionsOf(q, marker)) && Progresses(ms, OptionsOf(q, marker)) && ByteKeys(ms)
    ensures StandFor(TokenWalk(ms, q, marker), Walk(ms, OptionsOf(q, marker)))
    decreases |Beyond(ms, marker)|
  {
    var o := OptionsOf(q, marker);
    if Truncated(ms, o) {
      var next := NextMarker(ms, o);
      NextPageIsShorter(ms, o);
      TokenWalkUnfolds(ms, q, marker);
      var q' := q.(token := Base64Url(next));
      WalkUnfolds(ms, o);
      TokenWalkIsMarkerWalk(ms, q', next);
      OneMoreStands(q, o, TokenWalk(ms, q', next), Walk(ms, o.(marker := next)));
    }
  }

  /** A request is refused exactly when its token, line breaks aside, holds a character outside the base64url
      alphabet or leaves one character over. */
  lemma RefusedTokens(q: Query)
    ensures MarkerOf(q) == Err(InvalidRequest) <==>
            var clean := SkipLineBreaks(q.token);
            q.token != "" && (|clean| % 4 == 1 || exists i :: 0 <= i < |clean| && SextetValue(clean[i]).None?)
  {
    UndecodableTokens(SkipLineBreaks(q.token));
  }
}
