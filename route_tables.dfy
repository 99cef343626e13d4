/**
 * The table `locateRoutes` returns: the static routes, then the loaded
 * routes, merged into one ordered map, then every key normalized and the
 * entries put again, in order, into a fresh ordered map.
 */
module RouteTables {
  import opened Wrappers
  import opened StringUtils
  import opened LinkedMaps
  import opened RoutePaths
  import opened Routes

  /** `putAll` of the static routes, then of the loaded routes, into an empty map. */
  function Merge(staticRoutes: Entries<string, ZuulRoute>, loaded: Entries<string, ZuulRoute>): Entries<string, ZuulRoute> {
    PutAll(PutAll([], staticRoutes), loaded)
  }

  /** The entries of `m` in order, each under its normalized key. */
  function Renamed(m: Entries<string, ZuulRoute>, prefix: Option<string>): (n: Entries<string, ZuulRoute>)
    ensures |n| == |m|
    ensures forall i :: 0 <= i < |m| ==> n[i] == (Normalize(m[i].0, prefix), m[i].1)
  {
    seq(|m|, i requires 0 <= i < |m| => (Normalize(m[i].0, prefix), m[i].1))
  }

  /** The re-keyed map: each entry of `m`, in order, put under its normalized key. */
  function Rekey(m: Entries<string, ZuulRoute>, prefix: Option<string>): (r: Entries<string, ZuulRoute>)
    ensures Distinct(r)
    ensures |r| <= |m|
    ensures forall k :: k in KeySet(r) ==> StartsWithSlash(k)
  {
    var n := Renamed(m, prefix);
    assert forall k :: k in KeySet(n) ==> StartsWithSlash(k);
    PutAll([], n)
  }

  /** The whole table for the static routes, the query outcome and the prefix. */
  function RouteTable(staticRoutes: Entries<string, ZuulRoute>, query: QueryResult, prefix: Option<string>): Entries<string, ZuulRoute> {
    Rekey(Merge(staticRoutes, LoadedFrom(query)), prefix)
  }

  /** One more entry of the merged map is put under its normalized key. */
  lemma RekeyStep(m: Entries<string, ZuulRoute>, i: int, prefix: Option<string>)
    requires 0 <= i < |m|
    ensures Rekey(m[..i + 1], prefix) == Put(Rekey(m[..i], prefix), Normalize(m[i].0, prefix), m[i].1)
  {
    var n := Renamed(m[..i + 1], prefix);
    assert n[..i] == Renamed(m[..i], prefix);
  }

  /** A loaded route replaces the static route with the same raw path; every other static route stays. */
  lemma {:induction false} MergeOverrides(staticRoutes: Entries<string, ZuulRoute>, loaded: Entries<string, ZuulRoute>, k: string)
    requires Distinct(staticRoutes) && Distinct(loaded)
    ensures k in KeySet(loaded) ==> Get(Merge(staticRoutes, loaded), k) == Get(loaded, k)
    ensures k !in KeySet(loaded) ==> Get(Merge(staticRoutes, loaded), k) == Get(staticRoutes, k)
  {
    PutAllIntoEmpty(staticRoutes);
    if k in KeySet(loaded) {
      var i :| 0 <= i < |loaded| && loaded[i].0 == k;
      PutAllLastWins(staticRoutes, loaded, i);
      GetDistinct(loaded, i);
    } else {
      PutAllFrame(staticRoutes, loaded, k);
    }
  }

  /**
   * The merged map starts with the static keys in their order, overridden or
   * not, followed by the new loaded keys in their order.
   */
  lemma MergeKeepsStaticOrder(staticRoutes: Entries<string, ZuulRoute>, loaded: Entries<string, ZuulRoute>)
    requires Distinct(staticRoutes)
    ensures |staticRoutes| <= |Merge(staticRoutes, loaded)|
    ensures Keys(Merge(staticRoutes, loaded))[..|staticRoutes|] == Keys(staticRoutes)
    ensures KeySet(Merge(staticRoutes, loaded)) == KeySet(staticRoutes) + KeySet(loaded)
    ensures Keys(Merge(staticRoutes, loaded)) == FirstOccurrences(Keys(staticRoutes) + Keys(loaded))
  {
    PutAllIntoEmpty(staticRoutes);
    PutAllOrder(staticRoutes, loaded);
  }

  /** The keys of the re-keyed map are exactly the normalized keys of `m`. */
  lemma RekeyKeys(m: Entries<string, ZuulRoute>, prefix: Option<string>, k: string)
    ensures k in KeySet(Rekey(m, prefix)) <==> exists i :: 0 <= i < |m| && Normalize(m[i].0, prefix) == k
  {
    var n := Renamed(m, prefix);
    if k in KeySet(n) {
      var i :| 0 <= i < |n| && n[i].0 == k;
      assert Normalize(m[i].0, prefix) == k;
    }
    if exists i :: 0 <= i < |m| && Normalize(m[i].0, prefix) == k {
      var i :| 0 <= i < |m| && Normalize(m[i].0, prefix) == k;
      assert n[i].0 == k;
    }
  }

  /**
   * When raw keys collide after normalization, the entry latest in the merged
   * map's order supplies the value.
   */
  lemma RekeyLastWins(m: Entries<string, ZuulRoute>, prefix: Option<string>, i: int)
    requires 0 <= i < |m|
    requires forall j :: i < j < |m| ==> Normalize(m[j].0, prefix) != Normalize(m[i].0, prefix)
    ensures Get(Rekey(m, prefix), Normalize(m[i].0, prefix)) == Some(m[i].1)
  {
    PutAllLastWins([], Renamed(m, prefix), i);
  }

  /**
   * The rebuilt map lists the normalized keys in the order in which they
   * first arise from the merged map's keys.
   */
  lemma RekeyOrder(m: Entries<string, ZuulRoute>, prefix: Option<string>)
    ensures Keys(Rekey(m, prefix)) == FirstOccurrences(Keys(Renamed(m, prefix)))
  {
    var n := Renamed(m, prefix);
    var empty: Entries<string, ZuulRoute> := [];
    PutAllOrder(empty, n);
    assert Keys(empty) + Keys(n) == Keys(n);
  }

  /** Without collisions, re-keying loses no entry. */
  lemma {:induction false} RekeyKeepsAll(m: Entries<string, ZuulRoute>, prefix: Option<string>)
    requires forall i, j :: 0 <= i < j < |m| ==> WithLeadingSlash(m[i].0) != WithLeadingSlash(m[j].0)
    ensures |Rekey(m, prefix)| == |m|
  {
    if m != [] {
      var i := |m| - 1;
      var init := m[..i];
      RekeyKeepsAll(init, prefix);
      RekeyStep(m, i, prefix);
      assert m[..i + 1] == m;
      var k := Normalize(m[i].0, prefix);
      forall j | 0 <= j < i ensures Normalize(init[j].0, prefix) != k {
        NormalizeCollision(m[j].0, m[i].0, prefix);
      }
      RekeyKeys(init, prefix, k);
    }
  }

  /** The re-keyed map's keys, stated over the raw key set. */
  lemma RekeyKeySet(m: Entries<string, ZuulRoute>, prefix: Option<string>, k: string)
    ensures k in KeySet(Rekey(m, prefix)) <==> exists x :: x in KeySet(m) && Normalize(x, prefix) == k
  {
    RekeyKeys(m, prefix, k);
    if exists x :: x in KeySet(m) && Normalize(x, prefix) == k {
      var x :| x in KeySet(m) && Normalize(x, prefix) == k;
      var j :| 0 <= j < |m| && m[j].0 == x;
    }
  }

  /**
   * The table holds exactly the normalized static keys and the normalized
   * paths of the routable rows, and every key starts with `/`.
   */
  lemma TableKeys(staticRoutes: Entries<string, ZuulRoute>, records: seq<GatewayRoute>, prefix: Option<string>, k: string)
    ensures k in KeySet(RouteTable(staticRoutes, Rows(records), prefix)) ==> StartsWithSlash(k)
    ensures k in KeySet(RouteTable(staticRoutes, Rows(records), prefix)) <==>
      || (exists s :: s in KeySet(staticRoutes) && Normalize(s, prefix) == k)
      || (exists i :: 0 <= i < |records| && IsRoutable(records[i]) && Normalize(records[i].path.value, prefix) == k)
  {
    var loaded := LoadedRoutes(records);
    var merged := Merge(staticRoutes, loaded);
    assert KeySet(merged) == KeySet(staticRoutes) + KeySet(loaded);
    RekeyKeySet(merged, prefix, k);
    if exists x :: x in KeySet(loaded) && Normalize(x, prefix) == k {
      var x :| x in KeySet(loaded) && Normalize(x, prefix) == k;
      LoadedKeys(records, x);
    }
    if exists i :: 0 <= i < |records| && IsRoutable(records[i]) && Normalize(records[i].path.value, prefix) == k {
      var i :| 0 <= i < |records| && IsRoutable(records[i]) && Normalize(records[i].path.value, prefix) == k;
      LoadedKeys(records, records[i].path.value);
    }
  }

  /** When the query fails, the table is the static routes alone, normalized. */
  lemma FailedQueryKeepsStatic(staticRoutes: Entries<string, ZuulRoute>, message: string, prefix: Option<string>)
    requires Distinct(staticRoutes)
    ensures RouteTable(staticRoutes, QueryFailed(message), prefix) == Rekey(staticRoutes, prefix)
  {
    PutAllIntoEmpty(staticRoutes);
  }

  /** Without a prefix, a map whose keys all start with `/` comes out of the rebuild unchanged. */
  lemma RekeyUnchanged(m: Entries<string, ZuulRoute>, prefix: Option<string>)
    requires Distinct(m) && !HasText(prefix)
    requires forall x :: x in KeySet(m) ==> StartsWithSlash(x)
    ensures Rekey(m, prefix) == m
  {
    var n := Renamed(m, prefix);
    forall i | 0 <= i < |m| ensures n[i] == m[i] {
      assert m[i].0 in KeySet(m);
    }
    assert n == m;
    PutAllIntoEmpty(m);
  }

  /**
   * The last routable row for a path supplies the route under that path's
   * normalized key, under any prefix, overriding a static route with the
   * same path, as long as no other static key and no other routable path has
   * the same form once given a leading `/`.
   */
  lemma TableOverride(staticRoutes: Entries<string, ZuulRoute>, records: seq<GatewayRoute>, prefix: Option<string>, i: int)
    requires Distinct(staticRoutes)
    requires 0 <= i < |records| && IsRoutable(records[i])
    requires forall j :: i < j < |records| && IsRoutable(records[j]) ==> records[j].path != records[i].path
    requires forall x :: x in KeySet(staticRoutes) && x != records[i].path.value
               ==> WithLeadingSlash(x) != WithLeadingSlash(records[i].path.value)
    requires forall j :: 0 <= j < |records| && IsRoutable(records[j]) && records[j].path != records[i].path
               ==> WithLeadingSlash(records[j].path.value) != WithLeadingSlash(records[i].path.value)
    ensures Get(RouteTable(staticRoutes, Rows(records), prefix), Normalize(records[i].path.value, prefix))
         == Some(ToZuulRoute(records[i]))
  {
    var path, z := records[i].path.value, ToZuulRoute(records[i]);
    var loaded := LoadedRoutes(records);
    var merged := Merge(staticRoutes, loaded);
    assert Get(merged, path) == Some(z) by {
      LoadedLastWins(records, i);
      MergeOverrides(staticRoutes, loaded, path);
    }
    assert KeySet(merged) == KeySet(staticRoutes) + KeySet(loaded);
    var p :| 0 <= p < |merged| && merged[p] == (path, z);
    forall j | p < j < |merged| ensures Normalize(merged[j].0, prefix) != Normalize(path, prefix) {
      var x := merged[j].0;
      assert x != path;
      assert x in KeySet(merged);
      if x !in KeySet(staticRoutes) {
        LoadedKeys(records, x);
      }
      NormalizeCollision(x, path, prefix);
    }
    RekeyLastWins(merged, prefix, p);
  }

  /**
   * When the static keys and the paths of the routable rows all start with
   * `/`, the last routable row for a path always wins its key
   * (`/legacy` served by the row, not by the static target).
   */
  lemma TableOverrideSlashLed(staticRoutes: Entries<string, ZuulRoute>, records: seq<GatewayRoute>, prefix: Option<string>, i: int)
    requires Distinct(staticRoutes)
    requires forall x :: x in KeySet(staticRoutes) ==> StartsWithSlash(x)
    requires forall j :: 0 <= j < |records| && IsRoutable(records[j]) ==> StartsWithSlash(records[j].path.value)
    requires 0 <= i < |records| && IsRoutable(records[i])
    requires forall j :: i < j < |records| && IsRoutable(records[j]) ==> records[j].path != records[i].path
    ensures Get(RouteTable(staticRoutes, Rows(records), prefix), Normalize(records[i].path.value, prefix))
         == Some(ToZuulRoute(records[i]))
  {
    TableOverride(staticRoutes, records, prefix, i);
  }

  /**
   * A later merged key with the same form once slash-led takes the
   * normalized key: with static routes `/k` and, after it, `k`, the static
   * `k` comes later in the merged map than `/k` and also normalizes to `/k`,
   * so it takes `/k` from the row that overrode the static `/k` route.
   */
  lemma UnslashedStaticKeyShadowsRow(k: string, a: ZuulRoute, b: ZuulRoute, row: GatewayRoute)
    requires !StartsWithSlash(k)
    requires IsRoutable(row) && row.path == Some("/" + k)
    ensures Get(RouteTable([("/" + k, a), (k, b)], Rows([row]), None), "/" + k) == Some(b)
    ensures Get(Merge([("/" + k, a), (k, b)], LoadedFrom(Rows([row]))), "/" + k) == Some(ToZuulRoute(row))
  {
    var merged := Merge([("/" + k, a), (k, b)], LoadedFrom(Rows([row])));
    RowOverridesSlashedStatic(k, a, b, row);
    SecondKeyTakesSlashedKey(merged, k, b);
  }

  /**
   * Merging the row into the static routes `/k` and `k` overrides `/k` in
   * place and leaves `k` second.
   */
  lemma RowOverridesSlashedStatic(k: string, a: ZuulRoute, b: ZuulRoute, row: GatewayRoute)
    requires !StartsWithSlash(k)
    requires IsRoutable(row) && row.path == Some("/" + k)
    ensures var merged := Merge([("/" + k, a), (k, b)], LoadedFrom(Rows([row])));
      |merged| == 2 && merged[1] == (k, b) && Get(merged, "/" + k) == Some(ToZuulRoute(row))
  {
    var statics := [("/" + k, a), (k, b)];
    assert statics[0].0 != statics[1].0 by {
      assert StartsWithSlash(statics[0].0);
    }
    SingleRowLoaded(row);
    OverriddenStaticKeepsPlace(statics, 0, ToZuulRoute(row));
  }

  /** A single routable row loads as a single entry under its path. */
  lemma SingleRowLoaded(row: GatewayRoute)
    requires IsRoutable(row)
    ensures LoadedFrom(Rows([row])) == [(row.path.value, ToZuulRoute(row))]
  {
    assert [row][..0] == [];
  }

  /**
   * A row overriding one of two static routes takes that route's place and
   * leaves the other route where it was.
   */
  lemma OverriddenStaticKeepsPlace(statics: Entries<string, ZuulRoute>, o: int, z: ZuulRoute)
    requires |statics| == 2 && statics[0].0 != statics[1].0 && 0 <= o < 2
    ensures var merged := Merge(statics, [(statics[o].0, z)]);
      |merged| == 2 && merged[o] == (statics[o].0, z) && merged[1 - o] == statics[1 - o]
  {
    var k := statics[o].0;
    assert Distinct(statics);
    PutAllIntoEmpty(statics);
    var merged := Put(statics, k, z);
    assert Merge(statics, [(k, z)]) == merged by {
      var d := [(k, z)];
      assert d[..0] == [];
      assert PutAll(statics, d) == Put(PutAll(statics, d[..0]), k, z);
    }
    PutInPlace(statics, o, z);
  }

  /** Putting one key of a two-entry map again keeps both places. */
  lemma PutInPlace(statics: Entries<string, ZuulRoute>, o: int, z: ZuulRoute)
    requires |statics| == 2 && statics[0].0 != statics[1].0 && 0 <= o < 2
    ensures var merged := Put(statics, statics[o].0, z);
      |merged| == 2 && merged[o] == (statics[o].0, z) && merged[1 - o] == statics[1 - o]
  {
    var k := statics[o].0;
    var merged := Put(statics, k, z);
    assert Distinct(statics);
    assert k in KeySet(statics);
    assert Keys(merged) == Keys(statics);
    assert |merged| == |Keys(merged)| == 2;
    assert merged[o].0 == Keys(merged)[o] == k;
    assert merged[1 - o].0 == Keys(merged)[1 - o] == statics[1 - o].0;
    GetDistinct(statics, 1 - o);
    GetDistinct(merged, o);
    GetDistinct(merged, 1 - o);
  }

  /**
   * The other order: with static routes `k` and, after it, `/k`, the row for
   * `/k` overrides the later `/k` and keeps that key in the table.
   */
  lemma RowWinsOverEarlierUnslashedKey(k: string, a: ZuulRoute, b: ZuulRoute, row: GatewayRoute)
    requires !StartsWithSlash(k)
    requires IsRoutable(row) && row.path == Some("/" + k)
    ensures Get(RouteTable([(k, b), ("/" + k, a)], Rows([row]), None), "/" + k) == Some(ToZuulRoute(row))
  {
    var statics := [(k, b), ("/" + k, a)];
    var merged := Merge(statics, LoadedFrom(Rows([row])));
    assert |merged| == 2 && merged[1] == ("/" + k, ToZuulRoute(row)) by {
      assert statics[0].0 != statics[1].0 by {
        assert StartsWithSlash(statics[1].0);
      }
      SingleRowLoaded(row);
      OverriddenStaticKeepsPlace(statics, 1, ToZuulRoute(row));
    }
    LastOfTwoKeepsKey(merged, "/" + k);
  }

  /** Of two entries, the second keeps its slash-led key with no prefix. */
  lemma LastOfTwoKeepsKey(merged: Entries<string, ZuulRoute>, k: string)
    requires |merged| == 2 && merged[1].0 == k && StartsWithSlash(k)
    ensures Get(Rekey(merged, None), k) == Some(merged[1].1)
  {
    RekeyLastWins(merged, None, 1);
  }

  /** Of two entries, the second wins the normalized key they share. */
  lemma SecondKeyTakesSlashedKey(merged: Entries<string, ZuulRoute>, k: string, b: ZuulRoute)
    requires |merged| == 2 && merged[1] == (k, b) && !StartsWithSlash(k)
    ensures Get(Rekey(merged, None), "/" + k) == Some(b)
  {
    RekeyLastWins(merged, None, 1);
  }

}
