/**
 * The browser-backed handler: its cache key (the user name with ":img" or
 * ":json" appended, case kept), its 30 s cache holding either a JSON
 * payload or a base64 screenshot, and what it answers. The browser run is
 * a parameter: it fails, or it yields the page's candidate texts, HTML,
 * `og:description` content and the screenshot (absent when every way of
 * taking one failed).
 */
module BrowserHandler {
  import opened Optional
  import opened JsNumber
  import opened JsonHeap
  import opened BrowserExtractor
  import Coercion = BrowserCoercion
  import Names = ApiHandler

  /** `CACHE_TTL`, in milliseconds. */
  const CacheTtlMs: int := 30 * 1000

  datatype Query = Query(user: Option<string>, username: Option<string>, screenshot: Option<string>)

  predicate WantsScreenshot(q: Query) {
    q.screenshot == Some("1") || q.screenshot == Some("true")
  }

  /** The user name as the lightweight handler derives it, but not lower-cased, and the mode. */
  function CacheKey(q: Query): string {
    Names.UserName(Names.RawName(q.user, q.username)) + (if WantsScreenshot(q) then ":img" else ":json")
  }

  predicate IsImageKey(k: string) {
    |k| >= 4 && k[|k| - 4..] == ":img"
  }

  /** A cached JSON payload, or a cached screenshot (`null` after a failed one). */
  datatype CachedValue = Payload(followers: Option<JsNum>, source: Option<PageSource>) | Image(base64: Option<string>)

  datatype CacheEntry = CacheEntry(value: CachedValue, storedAt: int)

  /** What the browser run yields. */
  datatype Page = Page(candidates: seq<string>, html: string, ogContent: Option<string>, screenshot: Option<string>)

  datatype BrowserRun = BrowserFailed | Loaded(page: Page)

  /** `res.json(value)`, a PNG body, `{ error: 'screenshot_failed' }`, or the 500 answer. */
  datatype Response = JsonBody(value: CachedValue) | Png(base64: string) | ScreenshotFailed | InternalError

  datatype Served = Served(cache: map<string, CacheEntry>, response: Response)

  /** `followers`: coerced from `extracted.n` when it is a non-empty string. */
  function Followers(e: Extracted): Option<JsNum> {
    if e.n.Some? && e.n.value != "" then Coercion.ToNumber(Str(e.n.value)) else None
  }

  /** `followers` of the JSON text: `JSON.stringify` writes NaN as `null`. */
  function SerializedFollowers(p: CachedValue): Option<real>
    requires p.Payload?
  {
    match p.followers
    case Some(Finite(x)) => Some(x)
    case _ => None
  }

  /** A hit: the cached payload as JSON, or the cached image decoded; `Buffer.from` of anything but a string throws. */
  function HitResponse(wantsImage: bool, v: CachedValue): Response {
    if wantsImage then
      match v
      case Image(Some(b)) => Png(b)
      case _ => InternalError
    else JsonBody(v)
  }

  function Serve(cache: map<string, CacheEntry>, q: Query, now: int, run: BrowserRun, storedAt: int): Served {
    var key := CacheKey(q);
    if key in cache && now - cache[key].storedAt < CacheTtlMs then
      Served(cache, HitResponse(WantsScreenshot(q), cache[key].value))
    else
      match run
      case BrowserFailed => Served(cache, InternalError)
      case Loaded(page) =>
        var e := ExtractFromPage(page.candidates, page.html, page.ogContent);
        if WantsScreenshot(q) then
          match page.screenshot
          case None => Served(cache[key := CacheEntry(Image(None), storedAt)], ScreenshotFailed)
          case Some(b) => Served(cache[key := CacheEntry(Image(Some(b)), storedAt)], Png(b))
        else
          var payload := Payload(Followers(e), e.source);
          Served(cache[key := CacheEntry(payload, storedAt)], JsonBody(payload))
  }

  /** Image keys hold images and JSON keys hold payloads. */
  predicate ValidCache(cache: map<string, CacheEntry>) {
    forall k :: k in cache ==> (IsImageKey(k) <==> cache[k].value.Image?)
  }

  lemma KeySuffix(q: Query)
    ensures IsImageKey(CacheKey(q)) <==> WantsScreenshot(q)
  {
    var name := Names.UserName(Names.RawName(q.user, q.username));
    var k := CacheKey(q);
    if WantsScreenshot(q) {
      assert k[|k| - 4..] == ":img";
    } else {
      assert k[|k| - 4..] == "json";
    }
  }

  /** Every request keeps image keys for images and JSON keys for payloads. */
  lemma ServeKeepsValid(cache: map<string, CacheEntry>, q: Query, now: int, run: BrowserRun, storedAt: int)
    requires ValidCache(cache)
    ensures ValidCache(Serve(cache, q, now, run, storedAt).cache)
  {
    KeySuffix(q);
  }

  /** The mode is part of the key, and so is the case of the name. */
  lemma KeysSeparate(q1: Query, q2: Query)
    requires CacheKey(q1) == CacheKey(q2)
    ensures WantsScreenshot(q1) == WantsScreenshot(q2)
    ensures Names.UserName(Names.RawName(q1.user, q1.username)) == Names.UserName(Names.RawName(q2.user, q2.username))
  {
    KeySuffix(q1);
    KeySuffix(q2);
    var n1 := Names.UserName(Names.RawName(q1.user, q1.username));
    var n2 := Names.UserName(Names.RawName(q2.user, q2.username));
    var sfx := if WantsScreenshot(q1) then ":img" else ":json";
    assert n1 == CacheKey(q1)[..|CacheKey(q1)| - |sfx|];
    assert n2 == CacheKey(q2)[..|CacheKey(q2)| - |sfx|];
  }

  /** Names differing only in case are separate entries here, unlike in the lightweight handler. */
  lemma ExampleCaseKept()
    ensures CacheKey(Query(Some("Foo"), None, None)) != CacheKey(Query(Some("foo"), None, None))
  {
    var q1 := Query(Some("Foo"), None, None);
    var q2 := Query(Some("foo"), None, None);
    PlainNames();
    if CacheKey(q1) == CacheKey(q2) {
      KeysSeparate(q1, q2);
    }
  }

  lemma PlainNames()
    ensures Names.UserName(Names.RawName(Some("Foo"), None)) == "Foo"
    ensures Names.UserName(Names.RawName(Some("foo"), None)) == "foo"
  {
    JsText.TrimWithoutSpaces("Foo");
    JsText.TrimWithoutSpaces("foo");
  }

  /**
   * An entry younger than 30 s answers the request and changes nothing;
   * otherwise a completed browser run stores a new entry under the key.
   */
  lemma HitIffFresh(cache: map<string, CacheEntry>, q: Query, now: int, run: BrowserRun, storedAt: int)
    ensures var r := Serve(cache, q, now, run, storedAt);
      (CacheKey(q) in cache && now - cache[CacheKey(q)].storedAt < 30000) ==>
        r.cache == cache && r.response == HitResponse(WantsScreenshot(q), cache[CacheKey(q)].value)
    ensures var r := Serve(cache, q, now, run, storedAt);
      !(CacheKey(q) in cache && now - cache[CacheKey(q)].storedAt < 30000) && run.Loaded? ==>
        CacheKey(q) in r.cache && r.cache[CacheKey(q)].storedAt == storedAt
  {}

  /**
   * A screenshot hit answers the stored image; a stored failed screenshot
   * makes every hit within 30 s a 500, since `Buffer.from(null)` throws.
   */
  lemma ImageHit(cache: map<string, CacheEntry>, q: Query, now: int, run: BrowserRun, storedAt: int)
    requires ValidCache(cache) && WantsScreenshot(q)
    requires CacheKey(q) in cache && now - cache[CacheKey(q)].storedAt < CacheTtlMs
    ensures var r := Serve(cache, q, now, run, storedAt).response;
      && (r.InternalError? <==> cache[CacheKey(q)].value == Image(None))
      && (!r.InternalError? ==> r == Png(cache[CacheKey(q)].value.base64.value))
  {
    KeySuffix(q);
  }

  /** A JSON hit answers the stored payload. */
  lemma JsonHit(cache: map<string, CacheEntry>, q: Query, now: int, run: BrowserRun, storedAt: int)
    requires ValidCache(cache) && !WantsScreenshot(q)
    requires CacheKey(q) in cache && now - cache[CacheKey(q)].storedAt < CacheTtlMs
    ensures var r := Serve(cache, q, now, run, storedAt).response;
      r.JsonBody? && r.value.Payload? && r.value == cache[CacheKey(q)].value
  {
    KeySuffix(q);
  }

  /** On a miss: a browser failure is a 500 and writes nothing; a failed screenshot is cached as null. */
  lemma MissOutcomes(cache: map<string, CacheEntry>, q: Query, now: int, run: BrowserRun, storedAt: int)
    requires !(CacheKey(q) in cache && now - cache[CacheKey(q)].storedAt < CacheTtlMs)
    ensures var r := Serve(cache, q, now, run, storedAt);
      && (run.BrowserFailed? ==> r == Served(cache, InternalError))
      && (run.Loaded? && WantsScreenshot(q) && run.page.screenshot.None? ==>
            r == Served(cache[CacheKey(q) := CacheEntry(Image(None), storedAt)], ScreenshotFailed))
      && (run.Loaded? && WantsScreenshot(q) && run.page.screenshot.Some? ==>
            r == Served(cache[CacheKey(q) := CacheEntry(Image(run.page.screenshot), storedAt)], Png(run.page.screenshot.value)))
  {}

  /**
   * The JSON payload: `followers` is null whenever the extractor found no
   * text (or an empty one), and `source` is the extractor's tag.
   */
  lemma PayloadOfExtraction(cache: map<string, CacheEntry>, q: Query, now: int, run: BrowserRun, storedAt: int)
    requires !(CacheKey(q) in cache && now - cache[CacheKey(q)].storedAt < CacheTtlMs)
    requires run.Loaded? && !WantsScreenshot(q)
    ensures var e := ExtractFromPage(run.page.candidates, run.page.html, run.page.ogContent);
      var r := Serve(cache, q, now, run, storedAt);
      && r.response.JsonBody? && r.response.value.source == e.source
      && ((e.n.None? || e.n == Some("")) ==> r.response.value.followers.None?)
      && (e.n.Some? && e.n.value != "" ==> r.response.value.followers == Coercion.StringToNumber(e.n.value))
      && r.cache == cache[CacheKey(q) := CacheEntry(r.response.value, storedAt)]
  {}

  /**
   * A count text that coerces to NaN (a malformed numeral under a suffix)
   * is answered and cached as NaN, but the client receives `null`.
   */
  lemma NaNIsSentAsNull(cache: map<string, CacheEntry>, q: Query, now: int, run: BrowserRun, storedAt: int)
    requires !(CacheKey(q) in cache && now - cache[CacheKey(q)].storedAt < CacheTtlMs)
    requires run.Loaded? && !WantsScreenshot(q)
    requires var e := ExtractFromPage(run.page.candidates, run.page.html, run.page.ogContent);
      e.n.Some? && e.n.value != "" && Coercion.StringToNumber(e.n.value) == Some(NaN)
    ensures var r := Serve(cache, q, now, run, storedAt);
      && r.response.JsonBody? && r.response.value.Payload?
      && r.response.value.followers == Some(NaN)
      && SerializedFollowers(r.response.value) == None
      && r.cache[CacheKey(q)].value == r.response.value
  {}

  /** The handler object, holding the module-level cache `Map`. */
  class BrowserService {
    var cache: map<string, CacheEntry>

    predicate Valid()
      reads this
    {
      ValidCache(cache)
    }

    constructor()
      ensures cache == map[] && Valid()
    {
      cache := map[];
    }

    method Handle(q: Query, now: int, run: BrowserRun, storedAt: int) returns (resp: Response)
      requires Valid()
      modifies this
      ensures Valid()
      ensures Served(cache, resp) == Serve(old(cache), q, now, run, storedAt)
    {
      ServeKeepsValid(cache, q, now, run, storedAt);
      var wantScreenshot := WantsScreenshot(q);
      var key := Names.UserName(Names.RawName(q.user, q.username)) + (if wantScreenshot then ":img" else ":json");
      if key in cache && now - cache[key].storedAt < CacheTtlMs {
        var v := cache[key].value;
        if wantScreenshot {
          if v.Image? && v.base64.Some? {
            return Png(v.base64.value);
          }
          return InternalError;
        }
        return JsonBody(v);
      }
      if run.BrowserFailed? {
        return InternalError;
      }
      var page := run.page;
      var extracted := ExtractFollowersFromPage(page.candidates, page.html, page.ogContent);
      var followers: Option<JsNum> := None;
      if extracted.n.Some? && extracted.n.value != "" {
        followers := Coercion.ToNumber(Str(extracted.n.value));
      }
      if wantScreenshot {
        if page.screenshot.None? {
          cache := cache[key := CacheEntry(Image(None), storedAt)];
          return ScreenshotFailed;
        }
        var b64 := page.screenshot.value;
        cache := cache[key := CacheEntry(Image(Some(b64)), storedAt)];
        return Png(b64);
      }
      var payload := Payload(followers, extracted.source);
      cache := cache[key := CacheEntry(payload, storedAt)];
      return JsonBody(payload);
    }
  }
}
