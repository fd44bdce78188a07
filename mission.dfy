/**
 * The follower card: from the last response body of the follower endpoint
 * (if any) and whether the last request failed, the card shows one of
 * four things — a loading line, an error box with a message, a dash for
 * "no data", or the count.
 */
module Mission {
  import opened Optional

  /** A property of the parsed response body, as JavaScript sees it; `Missing` is an absent property. */
  datatype Value = Missing | Null | Bool(b: bool) | Num(x: real) | Str(s: string) | Composite

  /** The response fields the card reads. */
  datatype Body = Body(followers: Value, error: Value, note: Value, cached: Value, debug: Value)

  datatype View = Loading | ErrorBox(message: Value) | NoData | Success(followers: Value)

  /** JavaScript truthiness of a JSON value (JSON has no NaN). */
  predicate Truthy(v: Value) {
    match v
    case Missing => false
    case Null => false
    case Bool(b) => b
    case Num(x) => x != 0.0
    case Str(s) => s != ""
    case Composite => true
  }

  /** `v ?? null` */
  function OrNull(v: Value): (r: Value)
    ensures r == Null <==> v == Missing || v == Null
    ensures r != Null ==> r == v
  {
    if v == Missing then Null else v
  }

  /** `data?.followers ?? null` */
  function FollowersOf(data: Option<Body>): Value {
    if data.None? then Null else OrNull(data.value.followers)
  }

  /** Nothing has arrived yet: neither a body nor an error. */
  predicate IsLoading(data: Option<Body>, fetchError: bool) {
    data.None? && !fetchError
  }

  /**
   * A failed request, a truthy `error` or `note` in the body, or a
   * `followers` that is exactly `null` on a response that is neither
   * cached nor a debug response.
   */
  predicate HasError(data: Option<Body>, fetchError: bool) {
    fetchError ||
    (data.Some? &&
      (Truthy(data.value.error) || Truthy(data.value.note) ||
       (data.value.followers == Null && !Truthy(data.value.cached) && !Truthy(data.value.debug))))
  }

  /** `data?.note || data?.error || (data && data.followers === null ? "no follower value found" : null)` */
  function NoteText(data: Option<Body>): Value {
    if data.None? then Null
    else if Truthy(data.value.note) then data.value.note
    else if Truthy(data.value.error) then data.value.error
    else if data.value.followers == Null then Str("no follower value found")
    else Null
  }

  /** What the error box says: the note text, or a fixed fallback when that is falsy. */
  function ErrorMessage(data: Option<Body>): (r: Value)
    ensures Truthy(r)
  {
    if Truthy(NoteText(data)) then NoteText(data) else Str("Unable to fetch followers")
  }

  /** The conditional render chain: loading, then error, then no data, then the count. */
  function Render(data: Option<Body>, fetchError: bool): View {
    if IsLoading(data, fetchError) then Loading
    else if HasError(data, fetchError) then ErrorBox(ErrorMessage(data))
    else if FollowersOf(data) == Null then NoData
    else Success(FollowersOf(data))
  }

  /** Loading is shown exactly while neither a body nor an error exists, whatever else holds. */
  lemma LoadingIff(data: Option<Body>, fetchError: bool)
    ensures Render(data, fetchError) == Loading <==> data.None? && !fetchError
  {
  }

  /** With no body, a failed request always shows the fallback message. */
  lemma ErrorWithoutBody()
    ensures Render(None, true) == ErrorBox(Str("Unable to fetch followers"))
  {
  }

  /** The error box is shown exactly under the four error conditions. */
  lemma ErrorIff(data: Option<Body>, fetchError: bool)
    ensures Render(data, fetchError).ErrorBox? <==>
      fetchError ||
      (data.Some? &&
        (Truthy(data.value.error) || Truthy(data.value.note) ||
         (data.value.followers == Null && !Truthy(data.value.cached) && !Truthy(data.value.debug))))
  {
  }

  /**
   * The dash is shown exactly for a body without error or note whose
   * `followers` is absent, or is `null` on a cached or debug response.
   */
  lemma NoDataIff(data: Option<Body>, fetchError: bool)
    ensures Render(data, fetchError) == NoData <==>
      !fetchError && data.Some? && !Truthy(data.value.error) && !Truthy(data.value.note) &&
      (data.value.followers == Missing ||
       (data.value.followers == Null && (Truthy(data.value.cached) || Truthy(data.value.debug))))
  {
  }

  /** The count is shown exactly for a body without error or note whose `followers` is present and not `null`; it is shown as is. */
  lemma SuccessIff(data: Option<Body>, fetchError: bool, v: Value)
    ensures Render(data, fetchError) == Success(v) <==>
      !fetchError && data.Some? && !Truthy(data.value.error) && !Truthy(data.value.note) &&
      data.value.followers == v && v != Missing && v != Null
  {
  }

  /** A count of zero is a count: it is shown, not replaced by the dash. */
  lemma ZeroIsShown(b: Body)
    requires b.followers == Num(0.0)
    requires !Truthy(b.error) && !Truthy(b.note)
    ensures Render(Some(b), false) == Success(Num(0.0))
  {
  }

  /** A cached `null` shows the dash, not an error. */
  lemma CachedNullIsNoData(b: Body)
    requires b.followers == Null && Truthy(b.cached)
    requires !Truthy(b.error) && !Truthy(b.note)
    ensures Render(Some(b), false) == NoData
  {
  }

  /** A body without a `followers` property shows the dash, cached or not. */
  lemma MissingFollowersIsNoData(b: Body)
    requires b.followers == Missing
    requires !Truthy(b.error) && !Truthy(b.note)
    ensures Render(Some(b), false) == NoData
  {
  }

  /** A fresh `null` with no explanation is an error that says no value was found. */
  lemma FreshNullIsError(b: Body)
    requires b.followers == Null && !Truthy(b.cached) && !Truthy(b.debug)
    requires !Truthy(b.error) && !Truthy(b.note)
    ensures Render(Some(b), false) == ErrorBox(Str("no follower value found"))
  {
  }

  /**
   * The error box prefers the note, then the error, then "no follower
   * value found" for a `null` count, then the fixed fallback.
   */
  lemma MessagePriority(data: Option<Body>, fetchError: bool)
    requires Render(data, fetchError).ErrorBox?
    ensures Render(data, fetchError).message ==
      if data.Some? && Truthy(data.value.note) then data.value.note
      else if data.Some? && Truthy(data.value.error) then data.value.error
      else if data.Some? && data.value.followers == Null then Str("no follower value found")
      else Str("Unable to fetch followers")
  {
    assert Truthy(Str("no follower value found")) by {
      assert "no follower value found" != "";
    }
  }
}
