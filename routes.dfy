/**
 * The rows of the `gateway_route` table, the Zuul routes made from them, and
 * the ordered map `loadRoutes` builds: enabled rows with a path and a target,
 * keyed by path, later rows overwriting earlier ones.
 */
module Routes {
  import opened Wrappers
  import opened StringUtils
  import opened LinkedMaps

  /** One row of `gateway_route` (`GatewayRoute`); `None` is an SQL NULL. */
  datatype GatewayRoute = GatewayRoute(
    routeId: int,
    path: Option<string>,
    serviceId: Option<string>,
    url: Option<string>,
    status: int,
    retryable: int,
    stripPrefix: int,
    isPersist: int,
    routeName: Option<string>)

  /** A Zuul route, reduced to the properties the locator sets or copies. */
  datatype ZuulRoute = ZuulRoute(
    id: Option<string>,
    path: Option<string>,
    serviceId: Option<string>,
    url: Option<string>)

  /** The outcome of the query for the enabled rows: the rows, or the exception it threw. */
  datatype QueryResult = Rows(records: seq<GatewayRoute>) | QueryFailed(message: string)

  /** A route has somewhere to send requests: a service id or a URL. */
  predicate HasTarget(z: ZuulRoute) {
    !(IsEmpty(z.serviceId) && IsEmpty(z.url))
  }

  /** The route made from a row: its properties copied over, its id set to the row's name. */
  function ToZuulRoute(r: GatewayRoute): ZuulRoute {
    ZuulRoute(r.routeName, r.path, r.serviceId, r.url)
  }

  /** A row takes part in routing: it has a path, and its route has a target. */
  predicate IsRoutable(r: GatewayRoute) {
    !IsEmpty(r.path) && HasTarget(ToZuulRoute(r))
  }

  /**
   * The map `loadRoutes` builds from the fetched rows, in order: a routable
   * row is put under its path, any other row is skipped.
   */
  function LoadedRoutes(records: seq<GatewayRoute>): (m: Entries<string, ZuulRoute>)
    ensures Distinct(m)
    ensures |m| <= |records|
    ensures forall e :: e in m ==> e.0 != "" && e.1.path == Some(e.0) && HasTarget(e.1)
  {
    if records == [] then []
    else
      var rest := LoadedRoutes(records[..|records| - 1]);
      var r := records[|records| - 1];
      if IsEmpty(r.path) then rest
      else if IsEmpty(r.serviceId) && IsEmpty(r.url) then rest
      else Put(rest, r.path.value, ToZuulRoute(r))
  }

  /** The paths of the routable rows, in row order, repeats included. */
  function RoutablePaths(records: seq<GatewayRoute>): seq<string> {
    if records == [] then []
    else
      var r := records[|records| - 1];
      RoutablePaths(records[..|records| - 1]) + if IsRoutable(r) then [r.path.value] else []
  }

  /** The routes a query outcome contributes: none when the query failed. */
  function LoadedFrom(query: QueryResult): Entries<string, ZuulRoute> {
    match query
    case Rows(records) => LoadedRoutes(records)
    case QueryFailed(_) => []
  }

  /** The keys are exactly the paths of the routable rows. */
  lemma {:induction false} LoadedKeys(records: seq<GatewayRoute>, k: string)
    ensures k in KeySet(LoadedRoutes(records))
        <==> exists i :: 0 <= i < |records| && IsRoutable(records[i]) && records[i].path == Some(k)
  {
    if records != [] {
      var init, r := records[..|records| - 1], records[|records| - 1];
      LoadedKeys(init, k);
      var inInit := exists i :: 0 <= i < |init| && IsRoutable(init[i]) && init[i].path == Some(k);
      var inAll := exists i :: 0 <= i < |records| && IsRoutable(records[i]) && records[i].path == Some(k);
      assert inAll <==> inInit || (IsRoutable(r) && r.path == Some(k)) by {
        assert forall i :: 0 <= i < |init| ==> init[i] == records[i];
      }
      assert k in KeySet(LoadedRoutes(records))
        <==> k in KeySet(LoadedRoutes(init)) || (IsRoutable(r) && r.path == Some(k));
    }
  }

  /**
   * Each route is made from the LAST routable row with its path: id from the
   * row's name, path, service id and URL from the row.
   */
  lemma {:induction false} LoadedLastWins(records: seq<GatewayRoute>, i: int)
    requires 0 <= i < |records| && IsRoutable(records[i])
    requires forall j :: i < j < |records| && IsRoutable(records[j]) ==> records[j].path != records[i].path
    ensures Get(LoadedRoutes(records), records[i].path.value) == Some(ToZuulRoute(records[i]))
  {
    var init := records[..|records| - 1];
    if i < |records| - 1 {
      LoadedLastWins(init, i);
    }
  }

  /**
   * The loaded keys come in the order in which their paths first appear
   * among the routable rows; a later row with the same path keeps the
   * earlier position.
   */
  lemma {:induction false} LoadedOrder(records: seq<GatewayRoute>)
    ensures Keys(LoadedRoutes(records)) == FirstOccurrences(RoutablePaths(records))
  {
    if records != [] {
      var init, r := records[..|records| - 1], records[|records| - 1];
      LoadedOrder(init);
      if IsRoutable(r) {
        PutOrder(LoadedRoutes(init), RoutablePaths(init), r.path.value, ToZuulRoute(r));
      } else {
        assert RoutablePaths(records) == RoutablePaths(init);
      }
    }
  }

  /** A row without a path, or without both a service id and a URL, never becomes a route. */
  lemma SkippedRowsAbsent(records: seq<GatewayRoute>, i: int)
    requires 0 <= i < |records| && !IsRoutable(records[i])
    ensures forall e :: e in LoadedRoutes(records) ==> e.1 != ToZuulRoute(records[i])
  {
  }

  /** Single-row filtering cases. */
  lemma LoadedExamples(id: int, name: Option<string>)
    ensures LoadedRoutes([GatewayRoute(id, Some(""), Some("svc"), Some("http://h"), 1, 0, 1, 0, name)]) == []
    ensures LoadedRoutes([GatewayRoute(id, None, Some("svc"), None, 1, 0, 1, 0, name)]) == []
    ensures LoadedRoutes([GatewayRoute(id, Some("/x"), Some(""), None, 1, 0, 1, 0, name)]) == []
    ensures LoadedRoutes([GatewayRoute(id, Some("/x"), None, Some("http://h"), 1, 0, 1, 0, name)])
         == [("/x", ZuulRoute(name, Some("/x"), None, Some("http://h")))]
  {
  }

}
