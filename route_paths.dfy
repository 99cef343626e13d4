/**
 * The per-key step of the route locator's table rebuild: give a route path a
 * leading `/`, and, when the configured Zuul prefix has text, put the prefix
 * in front and ensure a leading `/` again.
 */
module RoutePaths {
  import opened Wrappers
  import opened StringUtils

  /** `path.startsWith("/")`; false for the empty string. */
  predicate StartsWithSlash(s: string) {
    |s| > 0 && s[0] == '/'
  }

  /** The path with a leading `/`, added only when it has none. */
  function WithLeadingSlash(s: string): (r: string)
    ensures StartsWithSlash(r)
    ensures |s| <= |r| <= |s| + 1 && r[|r| - |s|..] == s
    ensures StartsWithSlash(s) ==> r == s
  {
    if StartsWithSlash(s) then s else "/" + s
  }

  /** The routing key a raw route path gets in the rebuilt table. */
  function Normalize(path: string, prefix: Option<string>): (r: string)
    ensures StartsWithSlash(r)
    ensures !HasText(prefix) && StartsWithSlash(path) ==> r == path
    ensures !HasText(prefix) && !StartsWithSlash(path) ==> r == "/" + path
    ensures HasText(prefix) ==> r == WithLeadingSlash(prefix.value) + WithLeadingSlash(path)
  {
    var p := WithLeadingSlash(path);
    if HasText(prefix) then
      assert |prefix.value| > 0;
      assert (prefix.value + p)[0] == prefix.value[0];
      WithLeadingSlash(prefix.value + p)
    else p
  }

  /** Ensuring the leading slash twice is the same as ensuring it once. */
  lemma WithLeadingSlashIdempotent(s: string)
    ensures WithLeadingSlash(WithLeadingSlash(s)) == WithLeadingSlash(s)
  {
  }

  /**
   * Two raw paths get the same key, under any prefix, exactly when they agree
   * once each has its leading slash: `orders` and `/orders` collide, nothing
   * else does.
   */
  lemma NormalizeCollision(a: string, b: string, prefix: Option<string>)
    ensures Normalize(a, prefix) == Normalize(b, prefix) <==> WithLeadingSlash(a) == WithLeadingSlash(b)
  {
    if HasText(prefix) {
      var pre := WithLeadingSlash(prefix.value);
      var x, y := WithLeadingSlash(a), WithLeadingSlash(b);
      if pre + x == pre + y {
        assert x == (pre + x)[|pre|..];
        assert y == (pre + y)[|pre|..];
      }
    }
  }

  /** A blank prefix (only whitespace) is ignored, exactly like a missing one. */
  lemma BlankPrefixIgnored(path: string, prefix: string)
    requires forall i :: 0 <= i < |prefix| ==> IsWhitespace(prefix[i])
    ensures Normalize(path, Some(prefix)) == Normalize(path, None)
  {
    ContainsTextMeans(prefix);
  }

  /** Sample keys. */
  lemma NormalizeExamples()
    ensures Normalize("orders", None) == "/orders"
    ensures Normalize("/orders", None) == "/orders"
    ensures Normalize("orders", Some("")) == "/orders"
    ensures Normalize("/orders", Some("/api")) == "/api/orders"
    ensures Normalize("orders", Some("api")) == "/api/orders"
  {
    assert !IsWhitespace("/api"[0]);
    assert !IsWhitespace("api"[0]);
    assert "/api" + "/orders" == "/api/orders";
  }

}
