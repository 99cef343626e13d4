/**
 * `JdbcRouteLocator`: a route locator that adds the enabled rows of the
 * `gateway_route` table to the statically configured Zuul routes.
 */
module Locator {
  import opened Wrappers
  import opened StringUtils
  import opened LinkedMaps
  import opened RoutePaths
  import opened Routes
  import opened RouteTables

  /** The rows `routeList` holds after a load with this query outcome: none on failure. */
  function FetchedRows(query: QueryResult): seq<GatewayRoute> {
    if query.Rows? then query.records else []
  }

  /**
   * The rebuild loop of `locateRoutes`: each entry of the merged map, in
   * order, put into a fresh map under its normalized path.
   */
  method NormalizeRoutes(routesMap: Entries<string, ZuulRoute>, prefix: Option<string>)
    returns (values: Entries<string, ZuulRoute>)
    ensures values == Rekey(routesMap, prefix)
  {
    values := [];
    var i := 0;
    while i < |routesMap|
      invariant 0 <= i <= |routesMap|
      invariant values == Rekey(routesMap[..i], prefix)
    {
      var path := Normalize(routesMap[i].0, prefix);
      RekeyStep(routesMap, i, prefix);
      values := Put(values, path, routesMap[i].1);
      i := i + 1;
    }
    assert routesMap[..i] == routesMap;
  }

  class JdbcRouteLocator {
    /** The configured Zuul prefix (`properties.getPrefix()`). */
    const prefix: Option<string>
    /** The rows fetched by the last load; `None` (null) before the first one. */
    var routeList: Option<seq<GatewayRoute>>

    constructor (prefix: Option<string>)
      ensures this.prefix == prefix && routeList == None
    {
      this.prefix := prefix;
      routeList := None;
    }

    /**
     * `loadRoutes`: the enabled rows as routes keyed by path. A failed query
     * is swallowed: the result is empty and `routeList` an empty list.
     */
    method LoadRoutes(query: QueryResult) returns (routes: Entries<string, ZuulRoute>)
      modifies this
      ensures routeList == Some(FetchedRows(query))
      ensures routes == LoadedFrom(query)
    {
      routes := [];
      routeList := Some([]);
      match query
      case QueryFailed(_) =>
      case Rows(records) =>
        routeList := Some(records);
        if |records| > 0 {
          var i := 0;
          while i < |records|
            invariant 0 <= i <= |records|
            invariant routes == LoadedRoutes(records[..i])
          {
            var result := records[i];
            assert records[..i + 1][..i] == records[..i];
            i := i + 1;
            if IsEmpty(result.path) {
              continue;
            }
            if IsEmpty(result.serviceId) && IsEmpty(result.url) {
              continue;
            }
            var zuulRoute := ToZuulRoute(result);
            routes := Put(routes, zuulRoute.path.value, zuulRoute);
          }
          assert records[..i] == records;
        }
    }

    /**
     * `locateRoutes`: the static routes, then the loaded ones, merged; then
     * every key normalized and the entries put, in order, into a fresh map.
     */
    method LocateRoutes(staticRoutes: Entries<string, ZuulRoute>, query: QueryResult)
      returns (values: Entries<string, ZuulRoute>)
      modifies this
      ensures routeList == Some(FetchedRows(query))
      ensures values == RouteTable(staticRoutes, query, prefix)
    {
      var routesMap: Entries<string, ZuulRoute> := [];
      routesMap := PutAll(routesMap, staticRoutes);
      var loaded := LoadRoutes(query);
      routesMap := PutAll(routesMap, loaded);
      values := NormalizeRoutes(routesMap, prefix);
    }
  }

  /** After a load, every key of the table a locator returns starts with `/`. */
  method LocateFromFreshLocator(prefix: Option<string>, staticRoutes: Entries<string, ZuulRoute>, query: QueryResult)
    returns (values: Entries<string, ZuulRoute>, fetched: seq<GatewayRoute>)
    ensures forall k :: k in KeySet(values) ==> StartsWithSlash(k)
    ensures Distinct(values)
    ensures fetched == FetchedRows(query)
  {
    var locator := new JdbcRouteLocator(prefix);
    values := locator.LocateRoutes(staticRoutes, query);
    fetched := locator.routeList.value;
  }

}
