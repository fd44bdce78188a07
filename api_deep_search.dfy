/**
 * `findFollowerDeep`: a depth-first search of parsed JSON for the first
 * field that looks like a follower count, guarded by a set of visited
 * containers. `Deep`, `ScanFirst` and `ScanSecond` specify the search
 * (the function itself and its two loops over `Object.keys`);
 * `FindFollowerDeep` is the search as the code runs it, with the visited
 * set threaded through the recursive calls the way the shared `WeakSet`
 * is.
 */
module ApiDeepSearch {
  import opened Optional
  import opened JsText
  import opened JsNumber
  import opened JsonHeap
  import opened ApiKeys
  import Coercion = ApiCoercion

  /** The value found, if any, and the visited set after the search. */
  datatype Search = Search(found: Option<real>, seen: set<nat>)

  /** The number of containers not visited yet: what each nested call decreases. */
  function Unvisited(h: Heap, seen: set<nat>): nat {
    |h.Keys - seen|
  }

  lemma {:induction false} SubsetCard(a: set<nat>, b: set<nat>)
    requires a <= b
    ensures |a| <= |b|
    decreases |a|
  {
    if a != {} {
      var x :| x in a;
      SubsetCard(a - {x}, b - {x});
    }
  }

  lemma UnvisitedShrinks(h: Heap, seen: set<nat>, more: set<nat>)
    requires seen <= more
    ensures Unvisited(h, more) <= Unvisited(h, seen)
  {
    SubsetCard(h.Keys - more, h.Keys - seen);
  }

  lemma UnvisitedDrops(h: Heap, seen: set<nat>, id: nat)
    requires id in h && id !in seen
    ensures Unvisited(h, seen + {id}) < Unvisited(h, seen)
  {
    var before := h.Keys - seen;
    assert h.Keys - (seen + {id}) == before - {id};
    assert id in before;
  }

  /**
   * The search from `v`. Anything that is not a container, and a container
   * already visited, gives `null` at once; otherwise the container is
   * marked visited and its keys are scanned twice.
   */
  function Deep(h: Heap, v: Value, seen: set<nat>): (r: Search)
    ensures seen <= r.seen
    ensures IsContainer(h, v) ==> v.id in r.seen
    decreases Unvisited(h, seen), 0, 0
  {
    if !IsContainer(h, v) || v.id in seen then Search(None, seen)
    else
      var entries := h[v.id].entries;
      UnvisitedDrops(h, seen, v.id);
      var first := ScanFirst(h, entries, 0, seen + {v.id});
      if first.found.Some? then first
      else
        UnvisitedShrinks(h, seen + {v.id}, first.seen);
        ScanSecond(h, entries, 0, first.seen)
  }

  /**
   * The first loop, from entry `i` on: `null` values are skipped; under a
   * matching key any value that coerces is the answer; a container is
   * searched in depth before the next key; a string under any key is the
   * answer when it coerces to at least 10.
   */
  function ScanFirst(h: Heap, es: seq<Entry>, i: nat, seen: set<nat>): (r: Search)
    requires i <= |es|
    ensures seen <= r.seen
    decreases Unvisited(h, seen), 1, |es| - i
  {
    if i == |es| then Search(None, seen)
    else
      var val := es[i].val;
      if val.Null? then ScanFirst(h, es, i + 1, seen)
      else if KeyMatches(es[i].key) && Coercion.ToNumber(val).Some? then Search(Coercion.ToNumber(val), seen)
      else if val.Ref? then
        var nested := Deep(h, val, seen);
        if nested.found.Some? then nested
        else
          UnvisitedShrinks(h, seen, nested.seen);
          ScanFirst(h, es, i + 1, nested.seen)
      else if val.Str? && Coercion.ToNumber(val).Some? && Coercion.ToNumber(val).value >= 10.0 then
        Search(Coercion.ToNumber(val), seen)
      else ScanFirst(h, es, i + 1, seen)
  }

  /** The second loop: every value whose `typeof` is "object" (containers and `null`) is searched again. */
  function ScanSecond(h: Heap, es: seq<Entry>, i: nat, seen: set<nat>): (r: Search)
    requires i <= |es|
    ensures seen <= r.seen
    decreases Unvisited(h, seen), 1, |es| - i
  {
    if i == |es| then Search(None, seen)
    else
      var val := es[i].val;
      if val.Ref? || val.Null? then
        var nested := Deep(h, val, seen);
        if nested.found.Some? then nested
        else
          UnvisitedShrinks(h, seen, nested.seen);
          ScanSecond(h, es, i + 1, nested.seen)
      else ScanSecond(h, es, i + 1, seen)
  }

  /** What `findFollowerDeep(JSON.parse(...))` returns, starting from an empty visited set. */
  function FindFollower(p: Parsed): Option<real> {
    Deep(p.heap, p.root, {}).found
  }

  /** When the first loop finds nothing, every container among the entries has been visited. */
  lemma {:induction false} FirstLoopVisitsChildren(h: Heap, es: seq<Entry>, i: nat, seen: set<nat>)
    requires i <= |es| && ScanFirst(h, es, i, seen).found.None?
    ensures forall j :: i <= j < |es| && IsContainer(h, es[j].val) ==> es[j].val.id in ScanFirst(h, es, i, seen).seen
    decreases |es| - i
  {
    if i < |es| {
      var val := es[i].val;
      if val.Null? {
        FirstLoopVisitsChildren(h, es, i + 1, seen);
      } else if val.Ref? && !(KeyMatches(es[i].key) && Coercion.ToNumber(val).Some?) {
        var nested := Deep(h, val, seen);
        FirstLoopVisitsChildren(h, es, i + 1, nested.seen);
      } else {
        FirstLoopVisitsChildren(h, es, i + 1, seen);
      }
    }
  }

  /** Over entries whose containers are all visited, the second loop finds nothing and visits nothing. */
  lemma {:induction false} SecondLoopInert(h: Heap, es: seq<Entry>, i: nat, seen: set<nat>)
    requires i <= |es|
    requires forall j :: i <= j < |es| && IsContainer(h, es[j].val) ==> es[j].val.id in seen
    ensures ScanSecond(h, es, i, seen) == Search(None, seen)
    decreases |es| - i
  {
    if i < |es| {
      SecondLoopInert(h, es, i + 1, seen);
    }
  }

  /**
   * Termination guard and the redundant second loop: a non-container or a
   * visited container gives `null` with nothing visited, and otherwise the
   * result is the first loop's, so the second loop never changes it.
   */
  lemma DeepIsFirstLoop(h: Heap, v: Value, seen: set<nat>)
    ensures !IsContainer(h, v) || v.id in seen ==> Deep(h, v, seen) == Search(None, seen)
    ensures IsContainer(h, v) && v.id !in seen ==> Deep(h, v, seen) == ScanFirst(h, h[v.id].entries, 0, seen + {v.id})
  {
    if IsContainer(h, v) && v.id !in seen {
      var es := h[v.id].entries;
      var first := ScanFirst(h, es, 0, seen + {v.id});
      if first.found.None? {
        FirstLoopVisitsChildren(h, es, 0, seen + {v.id});
        SecondLoopInert(h, es, 0, first.seen);
      }
    }
  }

  /**
   * What may be returned from one entry: a value that coerces under a
   * matching key, or a string under any key that coerces to at least 10.
   * A number or a boolean under a key that does not match is never a hit.
   */
  predicate Hit(e: Entry, n: real) {
    || (KeyMatches(e.key) && Coercion.ToNumber(e.val) == Some(n))
    || (e.val.Str? && Coercion.ToNumber(e.val) == Some(n) && n >= 10.0)
  }

  /** An entry that is a hit for no value: neither early return of the first loop fires on it. */
  predicate Quiet(e: Entry) {
    && !(KeyMatches(e.key) && Coercion.ToNumber(e.val).Some?)
    && !(e.val.Str? && Coercion.ToNumber(e.val).Some? && Coercion.ToNumber(e.val).value >= 10.0)
  }

  lemma QuietMeans(e: Entry)
    ensures Quiet(e) <==> forall n :: !Hit(e, n)
  {
    if !Quiet(e) {
      assert Hit(e, Coercion.ToNumber(e.val).value);
    }
  }

  // ---------------------------------------------------------------------
  // Reachability

  /** Some entry of container `a` refers to container `b`. */
  predicate ChildOf(h: Heap, a: nat, b: nat) {
    a in h && exists k :: 0 <= k < |h[a].entries| && h[a].entries[k].val == Ref(b)
  }

  /** A chain of containers, each referred to by an entry of the one before. */
  predicate IsPath(h: Heap, p: seq<nat>) {
    && |p| > 0
    && (forall j :: 0 <= j < |p| ==> p[j] in h)
    && (forall j :: 0 <= j < |p| - 1 ==> ChildOf(h, p[j], p[j + 1]))
  }

  /** Container `b` can be reached from container `a` by following references. */
  ghost predicate Reachable(h: Heap, a: nat, b: nat) {
    exists p :: IsPath(h, p) && p[0] == a && p[|p| - 1] == b
  }

  lemma ReachSelf(h: Heap, a: nat)
    requires a in h
    ensures Reachable(h, a, a)
  {
    assert IsPath(h, [a]);
  }

  lemma ReachPrepend(h: Heap, a: nat, b: nat, c: nat)
    requires ChildOf(h, a, b) && Reachable(h, b, c)
    ensures Reachable(h, a, c)
  {
    var p :| IsPath(h, p) && p[0] == b && p[|p| - 1] == c;
    var q := [a] + p;
    assert forall j :: 0 < j < |q| ==> q[j] == p[j - 1];
    assert IsPath(h, q);
  }

  // ---------------------------------------------------------------------
  // Soundness: what is returned is a hit reachable from the start

  /** Some entry of a container reachable from `v` and outside `seen` is a hit for `n`. */
  ghost predicate HitBelow(h: Heap, v: Value, seen: set<nat>, n: real) {
    v.Ref? &&
    exists id, k :: id in h && Reachable(h, v.id, id) && id !in seen && 0 <= k < |h[id].entries| && Hit(h[id].entries[k], n)
  }

  lemma HitBelowWider(h: Heap, v: Value, seen: set<nat>, more: set<nat>, n: real)
    requires seen <= more && HitBelow(h, v, more, n)
    ensures HitBelow(h, v, seen, n)
  {
    var id, k :| id in h && Reachable(h, v.id, id) && id !in more && 0 <= k < |h[id].entries| && Hit(h[id].entries[k], n);
    assert id !in seen;
  }

  /** Soundness: a value the search returns is a hit in a container reachable from `v` and not visited before. */
  lemma {:induction false} DeepFindsHits(h: Heap, v: Value, seen: set<nat>, n: real)
    requires Deep(h, v, seen).found == Some(n)
    ensures HitBelow(h, v, seen, n)
    decreases Unvisited(h, seen), 0, 0
  {
    DeepIsFirstLoop(h, v, seen);
    var es := h[v.id].entries;
    UnvisitedDrops(h, seen, v.id);
    ScanFirstFindsHits(h, es, 0, seen + {v.id}, n);
    if k :| 0 <= k < |es| && Hit(es[k], n) {
      ReachSelf(h, v.id);
      assert Hit(h[v.id].entries[k], n);
    } else {
      var j :| 0 <= j < |es| && es[j].val.Ref? && HitBelow(h, es[j].val, seen + {v.id}, n);
      var c := es[j].val.id;
      assert ChildOf(h, v.id, c) by {
        assert h[v.id].entries[j].val == Ref(c);
      }
      var id, k :| id in h && Reachable(h, c, id) && id !in seen + {v.id} && 0 <= k < |h[id].entries| && Hit(h[id].entries[k], n);
      ReachPrepend(h, v.id, c, id);
    }
  }

  /** A value the first loop returns is a hit among the remaining entries or below one of them. */
  lemma {:induction false} ScanFirstFindsHits(h: Heap, es: seq<Entry>, i: nat, seen: set<nat>, n: real)
    requires i <= |es| && ScanFirst(h, es, i, seen).found == Some(n)
    ensures || (exists k :: i <= k < |es| && Hit(es[k], n))
            || (exists j :: i <= j < |es| && es[j].val.Ref? && HitBelow(h, es[j].val, seen, n))
    decreases Unvisited(h, seen), 1, |es| - i
  {
    var val := es[i].val;
    if val.Null? {
      ScanFirstFindsHits(h, es, i + 1, seen, n);
    } else if KeyMatches(es[i].key) && Coercion.ToNumber(val).Some? {
      assert Hit(es[i], n);
    } else if val.Ref? {
      var nested := Deep(h, val, seen);
      if nested.found.Some? {
        DeepFindsHits(h, val, seen, n);
      } else {
        UnvisitedShrinks(h, seen, nested.seen);
        ScanFirstFindsHits(h, es, i + 1, nested.seen, n);
        if j :| i + 1 <= j < |es| && es[j].val.Ref? && HitBelow(h, es[j].val, nested.seen, n) {
          HitBelowWider(h, es[j].val, seen, nested.seen, n);
        }
      }
    } else if val.Str? && Coercion.ToNumber(val).Some? && Coercion.ToNumber(val).value >= 10.0 {
      assert Hit(es[i], n);
    } else {
      ScanFirstFindsHits(h, es, i + 1, seen, n);
    }
  }

  // ---------------------------------------------------------------------
  // Completeness: `null` means no reachable container holds a hit

  /** Container `id` has no hit, and every container its entries refer to is in `done`. */
  predicate Scanned(h: Heap, id: nat, done: set<nat>)
    requires id in h
  {
    && (forall k :: 0 <= k < |h[id].entries| ==> Quiet(h[id].entries[k]))
    && (forall k :: 0 <= k < |h[id].entries| && IsContainer(h, h[id].entries[k].val) ==> h[id].entries[k].val.id in done)
  }

  /** Every container visited after `seen` was fully scanned. */
  ghost predicate Clean(h: Heap, seen: set<nat>, done: set<nat>) {
    forall id :: id in done && id !in seen ==> id in h && Scanned(h, id, done)
  }

  lemma CleanTrans(h: Heap, a: set<nat>, b: set<nat>, c: set<nat>)
    requires a <= b <= c && Clean(h, a, b) && Clean(h, b, c)
    ensures Clean(h, a, c)
  {
    forall id | id in c && id !in a
      ensures id in h && Scanned(h, id, c)
    {
      if id in b {
        assert Scanned(h, id, b);
      }
    }
  }

  /** A search that finds nothing has fully scanned every container it visited. */
  lemma {:induction false} DeepComplete(h: Heap, v: Value, seen: set<nat>)
    requires Deep(h, v, seen).found.None?
    ensures Clean(h, seen, Deep(h, v, seen).seen)
    decreases Unvisited(h, seen), 0, 0
  {
    DeepIsFirstLoop(h, v, seen);
    if IsContainer(h, v) && v.id !in seen {
      var es := h[v.id].entries;
      var s1 := seen + {v.id};
      UnvisitedDrops(h, seen, v.id);
      ScanFirstComplete(h, es, 0, s1);
      FirstLoopVisitsChildren(h, es, 0, s1);
      var done := ScanFirst(h, es, 0, s1).seen;
      assert Scanned(h, v.id, done);
    }
  }

  /** A first loop that finds nothing saw no hit among the remaining entries and fully scanned what it visited. */
  lemma {:induction false} ScanFirstComplete(h: Heap, es: seq<Entry>, i: nat, seen: set<nat>)
    requires i <= |es| && ScanFirst(h, es, i, seen).found.None?
    ensures forall k :: i <= k < |es| ==> Quiet(es[k])
    ensures Clean(h, seen, ScanFirst(h, es, i, seen).seen)
    decreases Unvisited(h, seen), 1, |es| - i
  {
    if i < |es| {
      var val := es[i].val;
      if val.Null? || val.Bool? {
        Coercion.NonStringsAreNull(val);
        ScanFirstComplete(h, es, i + 1, seen);
      } else if val.Ref? {
        Coercion.NonStringsAreNull(val);
        var nested := Deep(h, val, seen);
        DeepComplete(h, val, seen);
        UnvisitedShrinks(h, seen, nested.seen);
        ScanFirstComplete(h, es, i + 1, nested.seen);
        CleanTrans(h, seen, nested.seen, ScanFirst(h, es, i + 1, nested.seen).seen);
      } else {
        ScanFirstComplete(h, es, i + 1, seen);
      }
    }
  }

  /** Every container on a path from a visited container of a fully scanned set is in that set. */
  lemma {:induction false} PathStaysInside(h: Heap, p: seq<nat>, done: set<nat>)
    requires IsPath(h, p) && p[0] in done && Clean(h, {}, done)
    ensures p[|p| - 1] in done
    decreases |p|
  {
    if |p| > 1 {
      var q := p[..|p| - 1];
      assert IsPath(h, q) by {
        assert forall j :: 0 <= j < |q| ==> q[j] == p[j];
      }
      PathStaysInside(h, q, done);
      var a, b := p[|p| - 2], p[|p| - 1];
      assert ChildOf(h, a, b);
      var k :| 0 <= k < |h[a].entries| && h[a].entries[k].val == Ref(b);
      assert Scanned(h, a, done);
      assert IsContainer(h, h[a].entries[k].val);
    }
  }

  /**
   * Completeness: when the search from container `r` returns `null`, no
   * container reachable from `r` holds a hit — however many references
   * lead back into containers already visited.
   */
  lemma SearchComplete(h: Heap, r: nat)
    requires Deep(h, Ref(r), {}).found.None?
    ensures forall id, k, n :: Reachable(h, r, id) && id in h && 0 <= k < |h[id].entries| ==> !Hit(h[id].entries[k], n)
  {
    var done := Deep(h, Ref(r), {}).seen;
    DeepComplete(h, Ref(r), {});
    forall id, k, n | Reachable(h, r, id) && id in h && 0 <= k < |h[id].entries|
      ensures !Hit(h[id].entries[k], n)
    {
      var p :| IsPath(h, p) && p[0] == r && p[|p| - 1] == id;
      PathStaysInside(h, p, done);
      assert Scanned(h, id, done);
      QuietMeans(h[id].entries[k]);
    }
  }

  // ---------------------------------------------------------------------
  // Order: keys in order, each nested container searched before the next key

  /** Over entries that are neither hits nor containers, the first loop moves on and visits nothing. */
  lemma {:induction false} QuietPrefix(h: Heap, es: seq<Entry>, i: nat, k: nat, seen: set<nat>)
    requires i <= k <= |es|
    requires forall j :: i <= j < k ==> Quiet(es[j]) && !es[j].val.Ref?
    ensures ScanFirst(h, es, i, seen) == ScanFirst(h, es, k, seen)
    decreases k - i
  {
    if i < k {
      QuietPrefix(h, es, i + 1, k, seen);
    }
  }

  /**
   * Sibling order: when every key before position `k` is neither a hit
   * nor a container, a hit at `k` is the answer, whatever follows.
   */
  lemma FirstHitWins(h: Heap, r: nat, seen: set<nat>, k: nat, n: real)
    requires r in h && r !in seen
    requires k < |h[r].entries| && Hit(h[r].entries[k], n)
    requires forall j :: 0 <= j < k ==> Quiet(h[r].entries[j]) && !h[r].entries[j].val.Ref?
    ensures Deep(h, Ref(r), seen).found == Some(n)
  {
    var es := h[r].entries;
    DeepIsFirstLoop(h, Ref(r), seen);
    QuietPrefix(h, es, 0, k, seen + {r});
  }

  /**
   * Depth first: when the keys before position `k` are neither hits nor
   * containers and `k` holds a container in which the search finds a
   * count, that count is the answer, whatever hits later keys hold.
   */
  lemma NestedHitWins(h: Heap, r: nat, seen: set<nat>, k: nat, c: nat, n: real)
    requires r in h && r !in seen
    requires k < |h[r].entries| && h[r].entries[k].val == Ref(c)
    requires forall j :: 0 <= j < k ==> Quiet(h[r].entries[j]) && !h[r].entries[j].val.Ref?
    requires Deep(h, Ref(c), seen + {r}).found == Some(n)
    ensures Deep(h, Ref(r), seen).found == Some(n)
  {
    var es := h[r].entries;
    DeepIsFirstLoop(h, Ref(r), seen);
    QuietPrefix(h, es, 0, k, seen + {r});
    Coercion.NonStringsAreNull(es[k].val);
  }

  /**
   * The search as the code runs it: the first loop with its early
   * returns (including the second, redundant key test on primitive
   * values), then the second loop.
   */
  method FindFollowerDeep(h: Heap, v: Value, seen0: set<nat>) returns (found: Option<real>, seen: set<nat>)
    ensures Search(found, seen) == Deep(h, v, seen0)
    decreases Unvisited(h, seen0)
  {
    if !IsContainer(h, v) || v.id in seen0 {
      return None, seen0;
    }
    seen := seen0 + {v.id};
    UnvisitedDrops(h, seen0, v.id);
    var entries := h[v.id].entries;
    var i := 0;
    while i < |entries|
      invariant 0 <= i <= |entries|
      invariant seen0 + {v.id} <= seen
      invariant ScanFirst(h, entries, i, seen) == ScanFirst(h, entries, 0, seen0 + {v.id})
      decreases |entries| - i
    {
      var key, val := entries[i].key, entries[i].val;
      if !val.Null? {
        if KeyMatches(key) {
          var n := Coercion.ToNumber(val);
          if n.Some? {
            return n, seen;
          }
        }
        if val.Ref? {
          UnvisitedShrinks(h, seen0 + {v.id}, seen);
          var nested, seenAfter := FindFollowerDeep(h, val, seen);
          if nested.Some? {
            return nested, seenAfter;
          }
          seen := seenAfter;
        } else {
          if KeyMatches(key) {
            var n := Coercion.ToNumber(val);
            if n.Some? {
              return n, seen;
            }
          }
          if val.Str? {
            var n := Coercion.ToNumber(val);
            if n.Some? && n.value >= 10.0 {
              return n, seen;
            }
          }
        }
      }
      i := i + 1;
    }
    ghost var afterFirst := seen;
    i := 0;
    while i < |entries|
      invariant 0 <= i <= |entries|
      invariant afterFirst <= seen
      invariant ScanSecond(h, entries, i, seen) == ScanSecond(h, entries, 0, afterFirst)
      decreases |entries| - i
    {
      var val := entries[i].val;
      if val.Ref? || val.Null? {
        UnvisitedShrinks(h, seen0 + {v.id}, seen);
        var nested, seenAfter := FindFollowerDeep(h, val, seen);
        if nested.Some? {
          return nested, seenAfter;
        }
        seen := seenAfter;
      }
      i := i + 1;
    }
    return None, seen;
  }

  const NestedHeap: Heap := map[0 := Container([Entry("stats", Ref(1))]),
                               1 := Container([Entry("followerCount", Num(Finite(48213.0)))])]

  /** `{"stats": {"followerCount": 48213}}`: the count is found one level down. */
  lemma ExampleNested()
    ensures FindFollower(Parsed(NestedHeap, Ref(0))) == Some(48213.0)
  {
    NestedInner();
    var outer := [Entry("stats", Ref(1))];
    assert ScanFirst(NestedHeap, outer, 0, {0}) == Search(Some(48213.0), {0, 1});
    DeepIsFirstLoop(NestedHeap, Ref(0), {});
    assert {} + {0} == {0};
  }

  lemma NestedInner()
    ensures Deep(NestedHeap, Ref(1), {0}) == Search(Some(48213.0), {0, 1})
  {
    var inner := [Entry("followerCount", Num(Finite(48213.0)))];
    assert KeyMatches("followerCount") by {
      ExampleCamelCase();
    }
    assert ScanFirst(NestedHeap, inner, 0, {0, 1}) == Search(Some(48213.0), {0, 1});
    DeepIsFirstLoop(NestedHeap, Ref(1), {0});
    assert {0} + {1} == {0, 1};
  }

  /** A container that refers to itself is visited once; a 0 under a matching key is a hit. */
  lemma ExampleCycleAndZero()
    ensures FindFollower(Parsed(map[0 := Container([Entry("self", Ref(0)), Entry("fans", Num(Finite(0.0)))])], Ref(0)))
            == Some(0.0)
  {
    var es := [Entry("self", Ref(0)), Entry("fans", Num(Finite(0.0)))];
    var h := map[0 := Container(es)];
    assert KeyMatches("fans") by {
      assert StartsWithCI("fans", "fans");
      KeyMatchesMeans("fans");
    }
    var hit := Search(Some(0.0), {0});
    assert ScanFirst(h, es, 1, {0}) == hit;
    assert Deep(h, Ref(0), {0}) == Search(None, {0});
    assert ScanFirst(h, es, 0, {0}) == hit;
    DeepIsFirstLoop(h, Ref(0), {});
    assert {} + {0} == {0};
  }

  const DepthFirstHeap: Heap := map[0 := Container([Entry("stats", Ref(1)), Entry("followerCount", Num(Finite(99.0)))]),
                                   1 := Container([Entry("fans", Num(Finite(5.0)))])]

  /** `{"stats": {"fans": 5}, "followerCount": 99}`: the nested count comes first and wins. */
  lemma ExampleDepthFirst()
    ensures FindFollower(Parsed(DepthFirstHeap, Ref(0))) == Some(5.0)
  {
    assert KeyMatches("fans") by {
      assert StartsWithCI("fans", "fans");
      KeyMatchesMeans("fans");
    }
    assert Hit(DepthFirstHeap[1].entries[0], 5.0);
    FirstHitWins(DepthFirstHeap, 1, {0}, 0, 5.0);
    assert {} + {0} == {0};
    NestedHitWins(DepthFirstHeap, 0, {}, 0, 1, 5.0);
  }

  /** A number under a key that does not match is not a hit. */
  lemma ExampleNumberUnderOtherKey()
    ensures FindFollower(Parsed(map[0 := Container([Entry("bio", Num(Finite(500.0)))])], Ref(0))) == None
  {
    var h := map[0 := Container([Entry("bio", Num(Finite(500.0)))])];
    ExampleOtherKey();
    DeepIsFirstLoop(h, Ref(0), {});
  }

  /** JSON whose root is not a container gives `null`. */
  lemma ExamplePrimitiveRoot()
    ensures FindFollower(Parsed(map[], Num(Finite(48213.0)))) == None
  {}
}
