/**
 * `KEY_REGEX` of the lightweight extractor: a key names a follower count
 * when it contains, without regard to case and anywhere in it, one of the
 * alternatives of the pattern.
 */
module ApiKeys {
  import opened JsText

  /**
   * The alternatives in pattern order; `followers?` is listed as its two
   * spellings.
   */
  const KeyAlternatives: seq<string> := [
    "followers", "follower", "follower_count", "followerCount", "follow_count",
    "fan_count", "fans", "likes", "subscribers", "subscriber_count"
  ]

  /** `KEY_REGEX.test(key)`. */
  predicate KeyMatches(key: string) {
    ContainsAny(key, KeyAlternatives)
  }

  predicate ContainsAny(key: string, alternatives: seq<string>) {
    alternatives != [] && (ContainsCI(key, alternatives[0]) || ContainsAny(key, alternatives[1..]))
  }

  lemma {:induction false} ContainsAnyMeans(key: string, alternatives: seq<string>)
    ensures ContainsAny(key, alternatives) <==> exists i :: 0 <= i < |alternatives| && ContainsCI(key, alternatives[i])
  {
    if alternatives != [] {
      ContainsAnyMeans(key, alternatives[1..]);
      if exists i :: 0 <= i < |alternatives| && ContainsCI(key, alternatives[i]) {
        var i :| 0 <= i < |alternatives| && ContainsCI(key, alternatives[i]);
        if i > 0 {
          assert alternatives[1..][i - 1] == alternatives[i];
        }
      }
    }
  }

  /**
   * Every spelling with "follower" in front is subsumed by "follower", so
   * the pattern amounts to six words.
   */
  lemma KeyMatchesMeans(key: string)
    ensures KeyMatches(key) <==>
      || ContainsCI(key, "follower") || ContainsCI(key, "follow_count") || ContainsCI(key, "fan_count")
      || ContainsCI(key, "fans") || ContainsCI(key, "likes") || ContainsCI(key, "subscribers")
      || ContainsCI(key, "subscriber_count")
  {
    ContainsAnyMeans(key, KeyAlternatives);
    assert "followers" == "follower" + "s";
    assert "follower_count" == "follower" + "_count";
    assert "followerCount" == "follower" + "Count";
    if ContainsCI(key, "followers") {
      ContainsCIPrefix(key, "follower", "s");
    }
    if ContainsCI(key, "follower_count") {
      ContainsCIPrefix(key, "follower", "_count");
    }
    if ContainsCI(key, "followerCount") {
      ContainsCIPrefix(key, "follower", "Count");
    }
    if ContainsCI(key, "follower") {
      assert KeyAlternatives[1] == "follower";
    }
    assert KeyAlternatives[4] == "follow_count" && KeyAlternatives[5] == "fan_count" && KeyAlternatives[6] == "fans";
    assert KeyAlternatives[7] == "likes" && KeyAlternatives[8] == "subscribers" && KeyAlternatives[9] == "subscriber_count";
  }

  /** The test is unanchored: text around a matching key keeps it matching. */
  lemma KeyMatchesWithin(pre: string, key: string, post: string)
    requires KeyMatches(key)
    ensures KeyMatches(pre + key + post)
  {
    ContainsAnyMeans(key, KeyAlternatives);
    var i :| 0 <= i < |KeyAlternatives| && ContainsCI(key, KeyAlternatives[i]);
    ContainsCIWithin(pre, key, post, KeyAlternatives[i]);
    ContainsAnyMeans(pre + key + post, KeyAlternatives);
  }

  lemma ExampleCamelCase()
    ensures KeyMatches("followerCount")
  {
    assert StartsWithCI("followerCount", "follower");
    KeyMatchesMeans("followerCount");
  }

  lemma ExampleUpperCase()
    ensures KeyMatches("FANS")
  {
    assert StartsWithCI("FANS", "fans");
    KeyMatchesMeans("FANS");
  }

  /** "bio" contains none of the words. */
  lemma ExampleOtherKey()
    ensures !KeyMatches("bio")
  {
    KeyMatchesMeans("bio");
  }
}
