/**
 * The lightweight follower endpoint feeding the follower card: what the
 * card shows for each way the endpoint can answer.
 */
module EndToEnd {
  import opened Optional
  import opened JsNumber
  import opened ApiStrategies
  import Api = ApiHandler
  import Card = Mission

  /**
   * The JSON body the endpoint sends, as the card reads it: `followers`
   * is always present (a number or `null`); `error`, `note`, `cached` and
   * `debug` are present only when the endpoint sets them, and `debug` is
   * then an object.
   */
  function BodyOf(r: Api.Response): (b: Card.Body)
    ensures b.followers == Card.Null <==> r.followers.None?
    ensures Card.Truthy(b.cached) <==> r.cached
    ensures Card.Truthy(b.debug) <==> r.debug
  {
    Card.Body(
      if r.followers.Some? then Card.Num(r.followers.value) else Card.Null,
      if r.error.Some? then Card.Str(r.error.value) else Card.Missing,
      if r.note.Some? then Card.Str(r.note.value) else Card.Missing,
      if r.cached then Card.Bool(true) else Card.Missing,
      if r.debug then Card.Composite else Card.Missing)
  }

  /** The card's own request: the default account, without debug output. */
  const CardQuery: Api.Query := Api.Query(Some("boy.throb"), None, None)

  lemma NonEmptyTexts(status: nat)
    ensures "network_error" != "" && "fetch returned " + NatToString(status) != ""
  {
    assert "network_error"[0] == 'n';
    assert ("fetch returned " + NatToString(status))[0] == 'f';
  }

  /**
   * What the card shows after the endpoint answered:
   * - a cache hit shows the stored count, or the dash for a stored `null`;
   * - a network failure shows "network_error";
   * - a non-OK page shows "fetch returned <status>";
   * - a fetched page shows the extracted count; when nothing was found it
   *   shows "no follower value found", except for a debug request, whose
   *   debug object turns the error into the dash.
   */
  lemma CardAfterServe(cache: map<string, Api.CacheEntry>, q: Api.Query, now: int, fetched: Api.FetchOutcome,
                       storedAt: int, parse: Parser, locate: Locator)
    ensures
      var resp := Api.Serve(cache, q, now, fetched, storedAt, parse, locate).response;
      var key := Api.CacheKey(q);
      Card.Render(Some(BodyOf(resp)), false) ==
        if key in cache && Api.IsFresh(cache[key], now) then
          (if cache[key].value.Some? then Card.Success(Card.Num(cache[key].value.value)) else Card.NoData)
        else
          match fetched
          case NetworkError => Card.ErrorBox(Card.Str("network_error"))
          case NotOk(status) => Card.ErrorBox(Card.Str("fetch returned " + NatToString(status)))
          case Fetched(html) =>
            var f := Extract(parse, locate, html).followers;
            if f.Some? then Card.Success(Card.Num(f.value))
            else if Api.DebugRequested(q) then Card.NoData
            else Card.ErrorBox(Card.Str("no follower value found"))
  {
    if fetched.NotOk? {
      NonEmptyTexts(fetched.status);
    } else {
      NonEmptyTexts(0);
    }
    assert "no follower value found"[0] == 'n';
  }

  /** The card never asks for debug output, so a page without a count always shows as an error. */
  lemma CardQueryShowsMissingCount(cache: map<string, Api.CacheEntry>, now: int, html: string,
                                   storedAt: int, parse: Parser, locate: Locator)
    requires !(Api.CacheKey(CardQuery) in cache && Api.IsFresh(cache[Api.CacheKey(CardQuery)], now))
    requires Extract(parse, locate, html).followers.None?
    ensures Card.Render(Some(BodyOf(Api.Serve(cache, CardQuery, now, Api.Fetched(html), storedAt, parse, locate).response)), false)
      == Card.ErrorBox(Card.Str("no follower value found"))
  {
    CardAfterServe(cache, CardQuery, now, Api.Fetched(html), storedAt, parse, locate);
  }
}
