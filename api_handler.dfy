/**
 * The lightweight handler: the cache key it derives from the query, its
 * module-level cache with a 60 s time to live, and what it answers on a
 * hit, on a network error, on a non-OK status and after extraction. The
 * clock and the outcome of `fetch` are parameters; CORS headers, the
 * OPTIONS answer, logging and the debug snippets are not modelled.
 */
module ApiHandler {
  import opened Optional
  import opened JsText
  import opened JsNumber
  import opened ApiStrategies

  /** `DEFAULT_CACHE_TTL`, in milliseconds. */
  const CacheTtlMs: int := 60 * 1000

  const DefaultUser: string := "boy.throb"

  /** The query parameters the handler reads; `None` is an absent parameter. */
  datatype Query = Query(user: Option<string>, username: Option<string>, debug: Option<string>)

  /** `(user || username) + ""`: an absent value becomes the text "undefined". */
  function RawName(user: Option<string>, username: Option<string>): string {
    if user.Some? && user.value != "" then user.value
    else if username.Some? then username.value
    else "undefined"
  }

  /** `replace(/^@/, "")`: one leading "@" is removed. */
  function StripAt(s: string): string {
    if s != [] && s[0] == '@' then s[1..] else s
  }

  /** The user name the handler works with: "@" stripped, then trimmed, then the default when empty. */
  function UserName(raw: string): string {
    var t := Trim(StripAt(raw));
    if t == "" then DefaultUser else t
  }

  /** The cache key: the user name, lower-cased. */
  function NameKey(raw: string): string {
    Lower(UserName(raw))
  }

  function CacheKey(q: Query): string {
    NameKey(RawName(q.user, q.username))
  }

  predicate DebugRequested(q: Query) {
    q.debug == Some("1") || q.debug == Some("true")
  }

  /** Neither parameter given: the key is the text "undefined", not the default user. */
  lemma AbsentUserIsUndefined(q: Query)
    requires q.username.None? && (q.user.None? || q.user == Some(""))
    ensures CacheKey(q) == "undefined"
  {
    UndefinedIsPlain();
  }

  lemma UndefinedIsPlain()
    ensures StripAt("undefined") == "undefined"
    ensures Trim("undefined") == "undefined"
    ensures Lower("undefined") == "undefined"
  {
    TrimWithoutSpaces("undefined");
  }

  /** Only a name that is empty once "@" and white space are gone falls back to the default user. */
  lemma EmptyUserIsDefault(q: Query)
    requires AllSpaces(StripAt(RawName(q.user, q.username)))
    ensures CacheKey(q) == "boy.throb"
  {
    var t := StripAt(RawName(q.user, q.username));
    TrimIgnoresPadding(t, "", "");
    assert t + "" + "" == t;
    assert Trim("") == "";
    DefaultIsLower();
  }

  lemma DefaultIsLower()
    ensures Lower(DefaultUser) == "boy.throb"
  {
    var s := DefaultUser;
    assert forall i :: 0 <= i < |s| ==> !('A' <= s[i] <= 'Z');
    assert forall i :: 0 <= i < |s| ==> Lower(s)[i] == s[i];
  }

  /** The key never depends on the case of the name. */
  lemma KeyIgnoresCase(a: string, b: string)
    requires Lower(a) == Lower(b)
    ensures NameKey(a) == NameKey(b)
  {
    LowerKey(a);
    LowerKey(b);
  }

  lemma LowerKey(a: string)
    ensures NameKey(a) == NameKey(Lower(a))
  {
    var s := StripAt(a);
    assert StripAt(Lower(a)) == Lower(s) by {
      if a != [] {
        assert Lower(a)[1..] == Lower(a[1..]);
      }
    }
    TrimLower(s);
    LowerIdempotent(Trim(s));
  }

  /** One leading "@" does not change the key. */
  lemma KeyIgnoresAt(x: string)
    requires x == [] || x[0] != '@'
    ensures NameKey("@" + x) == NameKey(x)
  {
    assert ("@" + x)[1..] == x;
  }

  /** White space around a name does not change the key. */
  lemma KeyIgnoresPadding(w1: string, x: string, w2: string)
    requires AllSpaces(w1) && AllSpaces(w2)
    requires x == [] || x[0] != '@'
    ensures NameKey(w1 + x + w2) == NameKey(x)
  {
    var s := w1 + x + w2;
    assert s == [] || s[0] != '@' by {
      if w1 != [] {
        assert s[0] == w1[0];
      } else if x != [] {
        assert s[0] == x[0];
      } else if w2 != [] {
        assert s == w2;
      }
    }
    TrimIgnoresPadding(w1, x, w2);
  }

  /**
   * The "@" is stripped before the trim, so after white space it stays:
   * " @Foo" has the key "@foo".
   */
  lemma KeyKeepsAtAfterSpace(w: string, x: string)
    requires AllSpaces(w) && w != []
    ensures NameKey(w + "@" + x) == "@" + Lower(TrimEnd(x))
  {
    var s := w + ("@" + x);
    assert s == w + "@" + x;
    assert s[0] == w[0];
    TrimStartPadding(w, "@" + x);
    assert TrimStart("@" + x) == "@" + x;
    assert ("@" + x)[1..] == x;
    assert TrimEnd("@" + x) == "@" + TrimEnd(x);
    LowerAppend("@", TrimEnd(x));
  }

  lemma ExampleCollisions()
    ensures NameKey("@Foo") == NameKey("foo")
    ensures NameKey(" Foo ") == NameKey("foo")
  {
    KeyIgnoresAt("Foo");
    KeyIgnoresPadding(" ", "Foo", " ");
    FooSpellings();
    KeyIgnoresCase("Foo", "foo");
  }

  lemma ExampleAtAfterSpace()
    ensures NameKey(" @Foo") == "@foo"
  {
    KeyKeepsAtAfterSpace(" ", "Foo");
    AtFooSpelling();
  }

  lemma AtFooSpelling()
    ensures " " + "@" + "Foo" == " @Foo"
    ensures AllSpaces(" ")
    ensures "@" + Lower(TrimEnd("Foo")) == "@foo"
  {
    TrimEndWithoutSpaces("Foo");
    assert Lower("Foo")[0] == 'f';
    assert forall i :: 1 <= i < 3 ==> Lower("Foo")[i] == "foo"[i];
  }

  lemma FooSpellings()
    ensures "@" + "Foo" == "@Foo"
    ensures " " + "Foo" + " " == " Foo "
    ensures AllSpaces(" ")
    ensures Lower("Foo") == Lower("foo")
  {
    assert Lower("Foo")[0] == Lower("foo")[0];
    assert forall i :: 1 <= i < 3 ==> "Foo"[i] == "foo"[i];
  }

  /** A cache entry: the value (null included) and when it was stored. */
  datatype CacheEntry = CacheEntry(value: Option<real>, storedAt: int)

  /** `Date.now() - cached.ts < DEFAULT_CACHE_TTL`. */
  predicate IsFresh(e: CacheEntry, now: int) {
    now - e.storedAt < CacheTtlMs
  }

  /** What `fetch` came back with. */
  datatype FetchOutcome = NetworkError | NotOk(status: nat) | Fetched(html: string)

  /**
   * The JSON body: `followers`, and whether the `cached`, `error`, `note`
   * and `debug` fields are present (with their text where they carry one).
   */
  datatype Response = Response(followers: Option<real>, cached: bool, error: Option<string>, note: Option<string>, debug: bool)

  /** The cache after a request and the answer to it. */
  datatype Served = Served(cache: map<string, CacheEntry>, response: Response)

  /**
   * One request against the cache. `now` is the time of the lookup and
   * `storedAt` the later time at which a miss writes its entry.
   */
  function Serve(cache: map<string, CacheEntry>, q: Query, now: int, fetched: FetchOutcome, storedAt: int,
                 parse: Parser, locate: Locator): Served
  {
    var key := CacheKey(q);
    if key in cache && IsFresh(cache[key], now) then
      Served(cache, Response(cache[key].value, true, None, None, false))
    else
      match fetched
      case NetworkError =>
        Served(cache[key := CacheEntry(None, storedAt)], Response(None, false, Some("network_error"), None, false))
      case NotOk(status) =>
        Served(cache[key := CacheEntry(None, storedAt)],
               Response(None, false, None, Some("fetch returned " + NatToString(status)), DebugRequested(q)))
      case Fetched(html) =>
        var followers := Extract(parse, locate, html).followers;
        Served(cache[key := CacheEntry(followers, storedAt)], Response(followers, false, None, None, DebugRequested(q)))
  }

  /** A request is answered from the cache exactly when its key holds an entry younger than 60 s. */
  lemma CachedIffFresh(cache: map<string, CacheEntry>, q: Query, now: int, fetched: FetchOutcome, storedAt: int,
                       parse: Parser, locate: Locator)
    ensures var r := Serve(cache, q, now, fetched, storedAt, parse, locate);
      r.response.cached <==> CacheKey(q) in cache && now - cache[CacheKey(q)].storedAt < 60000
  {}

  /** A hit answers the stored value, null included, and changes nothing. */
  lemma HitReturnsStored(cache: map<string, CacheEntry>, q: Query, now: int, fetched: FetchOutcome, storedAt: int,
                         parse: Parser, locate: Locator)
    requires CacheKey(q) in cache && IsFresh(cache[CacheKey(q)], now)
    ensures var r := Serve(cache, q, now, fetched, storedAt, parse, locate);
      r.cache == cache && r.response.followers == cache[CacheKey(q)].value
      && r.response.error.None? && r.response.note.None? && !r.response.debug
  {}

  /**
   * Every miss overwrites the key's entry with what it answers, at the
   * time of writing, null included, and leaves every other key alone.
   */
  lemma MissWrites(cache: map<string, CacheEntry>, q: Query, now: int, fetched: FetchOutcome, storedAt: int,
                   parse: Parser, locate: Locator)
    requires !(CacheKey(q) in cache && IsFresh(cache[CacheKey(q)], now))
    ensures var r := Serve(cache, q, now, fetched, storedAt, parse, locate);
      && r.cache == cache[CacheKey(q) := CacheEntry(r.response.followers, storedAt)]
      && r.cache.Keys == cache.Keys + {CacheKey(q)}
      && (forall k :: k in cache && k != CacheKey(q) ==> r.cache[k] == cache[k])
  {}

  /** What a miss answers, by fetch outcome. */
  lemma MissResponse(cache: map<string, CacheEntry>, q: Query, now: int, fetched: FetchOutcome, storedAt: int,
                     parse: Parser, locate: Locator)
    requires !(CacheKey(q) in cache && IsFresh(cache[CacheKey(q)], now))
    ensures var r := Serve(cache, q, now, fetched, storedAt, parse, locate).response;
      && !r.cached
      && (r.error.Some? <==> fetched.NetworkError?)
      && (r.error.Some? ==> r.error.value == "network_error")
      && (r.note.Some? <==> fetched.NotOk?)
      && (fetched.NotOk? ==> r.note == Some("fetch returned " + NatToString(fetched.status)))
      && (r.followers == if fetched.Fetched? then Extract(parse, locate, fetched.html).followers else None)
      && (r.debug <==> !fetched.NetworkError? && DebugRequested(q))
  {}

  /**
   * A second request for the same key within 60 s of the first one's
   * write is answered from the cache with the first answer's count.
   */
  lemma RepeatWithinTtl(cache: map<string, CacheEntry>, q1: Query, now1: int, fetched1: FetchOutcome, storedAt1: int,
                        q2: Query, now2: int, fetched2: FetchOutcome, storedAt2: int, parse: Parser, locate: Locator)
    requires !(CacheKey(q1) in cache && IsFresh(cache[CacheKey(q1)], now1))
    requires CacheKey(q2) == CacheKey(q1) && now2 - storedAt1 < CacheTtlMs
    ensures var first := Serve(cache, q1, now1, fetched1, storedAt1, parse, locate);
      var second := Serve(first.cache, q2, now2, fetched2, storedAt2, parse, locate);
      second.cache == first.cache && second.response == Response(first.response.followers, true, None, None, false)
  {
    MissWrites(cache, q1, now1, fetched1, storedAt1, parse, locate);
  }

  /** At exactly 60 s the entry is stale and the request is served afresh. */
  lemma StaleAtTtl(cache: map<string, CacheEntry>, q: Query, now: int, fetched: FetchOutcome, storedAt: int,
                   parse: Parser, locate: Locator)
    requires CacheKey(q) in cache && now == cache[CacheKey(q)].storedAt + CacheTtlMs
    ensures !Serve(cache, q, now, fetched, storedAt, parse, locate).response.cached
  {}

  /** The handler object, holding the module-level cache `Map`. */
  class FollowerService {
    var cache: map<string, CacheEntry>

    constructor()
      ensures cache == map[]
    {
      cache := map[];
    }

    /** `handler`, from the key derivation to the answer, with the strategies reassigning `followers` in turn. */
    method Handle(q: Query, now: int, fetched: FetchOutcome, storedAt: int, parse: Parser, locate: Locator)
      returns (resp: Response)
      modifies this
      ensures Served(cache, resp) == Serve(old(cache), q, now, fetched, storedAt, parse, locate)
    {
      var debug := DebugRequested(q);
      var key := Lower(UserName(RawName(q.user, q.username)));
      if key in cache && now - cache[key].storedAt < CacheTtlMs {
        return Response(cache[key].value, true, None, None, false);
      }
      match fetched {
        case NetworkError =>
          cache := cache[key := CacheEntry(None, storedAt)];
          return Response(None, false, Some("network_error"), None, false);
        case NotOk(status) =>
          cache := cache[key := CacheEntry(None, storedAt)];
          return Response(None, false, None, Some("fetch returned " + NatToString(status)), debug);
        case Fetched(html) =>
          var followers, source := DetectFollowers(parse, locate, html);
          cache := cache[key := CacheEntry(followers, storedAt)];
          resp := Response(followers, false, None, None, debug);
      }
    }
  }
}
