# JdbcRouteLocator route table, in Dafny

This project models how the open-cloud Zuul gateway builds its route table in
`JdbcRouteLocator`. The gateway takes the statically configured Zuul routes
and adds the enabled rows of the `gateway_route` table:

- **`loadRoutes`** runs the query. It skips every row whose `path` is empty,
  and every row whose `service_id` and `url` are both empty. It turns each
  remaining row into a Zuul route whose id is the row's `route_name`, and
  puts it into an insertion-ordered map keyed by the row's path. It also
  stores the fetched rows in the `routeList` field. When the query throws,
  the exception is swallowed: the method returns an empty map and leaves
  `routeList` as an empty list.
- **`locateRoutes`** puts the static routes and then the loaded routes into
  one `LinkedHashMap`. A loaded route with the same raw path replaces the
  static one and keeps the static key's position. The method then rebuilds
  the map: every key gets a leading `/`; when the configured prefix has
  text, the prefix goes in front and a leading `/` is ensured again.

Modules:

- `Wrappers`: `Option`, where `None` stands for a Java `null`.
- `StringUtils`: Spring's `isEmpty` and `hasText`, with Java's
  `Character.isWhitespace`.
- `LinkedMaps`: `LinkedHashMap` as a sequence of entries with
  `Get`, `Put` and `PutAll`. `Put` on an existing key replaces the value
  in place; on a new key it appends.
- `RoutePaths`: the per-key step `Normalize(path, prefix)`.
- `Routes`: the row and route records, and the map `loadRoutes` builds
  (`LoadedRoutes`).
- `RouteTables`: the merge and the re-keying, as specification functions,
  with the lemmas about them.
- `Locator`: the class `JdbcRouteLocator`, with its `routeList` field.
  `LoadRoutes` is a loop over the fetched rows. `LocateRoutes` merges with
  the function `PutAll` and rebuilds the map in the loop `NormalizeRoutes`.
  Each method is proved equal to the specification functions.

The outcome of the query (`QueryResult`: the rows, or a failure) and the
static routes returned by the framework's base locator are parameters.

Four details of the code are easy to miss:

- The prefix is applied only when it has text (`StringUtils.hasText`), so a
  prefix made only of whitespace is ignored (`BlankPrefixIgnored`). It is
  not enough for the prefix to be non-empty.
- The rows fetched last are kept in a mutable field, `routeList`, which is
  `null` (`None`) until the first load. They are not part of an immutable
  table snapshot.
- There is no refresh state machine in this class: `doRefresh` only
  delegates to the framework.
- A row overrides a static route only in the merged map, before the keys
  are normalized. When two merged keys have the same form once slash-led,
  the later one takes the normalized key. So when the static routes hold
  `/k` and, after it, `k`, the static `k` takes `/k` from the row for `/k`
  (`UnslashedStaticKeyShadowsRow`). When `k` comes first, the row keeps
  `/k` (`RowWinsOverEarlierUnslashedKey`). When no other key has the row's
  slash form, the row wins (`TableOverride`).

## Model

| member | source | states |
|---|---|---|
| StringUtils.IsWhitespace | opencloud-gateway/opencloud-api-gateway-zuul/src/main/java/com/opencloud/zuul/locator/JdbcRouteLocator.java:62 | `Character.isWhitespace`, as `hasText` uses it: the ASCII controls TAB to CR, U+001C to U+0020, and the Unicode space, line and paragraph separators except the non-breaking ones; `ContainsTextMeans` and `BlankPrefixIgnored` rely on it |
| StringUtils.IsEmpty | opencloud-gateway/opencloud-api-gateway-zuul/src/main/java/com/opencloud/zuul/locator/JdbcRouteLocator.java:106-109 | `StringUtils.isEmpty`: the string is null or empty; `HasTextIsNotEmpty` relates it to `hasText`, and `SkippedRowsAbsent` uses it for the two row skips |
| StringUtils.HasText | opencloud-gateway/opencloud-api-gateway-zuul/src/main/java/com/opencloud/zuul/locator/JdbcRouteLocator.java:62 | `StringUtils.hasText`: not null and some character is not whitespace (`ContainsTextMeans`); a blank prefix has no text (`BlankPrefixIgnored`) |
| StringUtils.ContainsTextMeans | opencloud-gateway/opencloud-api-gateway-zuul/src/main/java/com/opencloud/zuul/locator/JdbcRouteLocator.java:62 | the `hasText` scan accepts exactly the strings that have a character which is not whitespace |
| StringUtils.HasTextIsNotEmpty | opencloud-gateway/opencloud-api-gateway-zuul/src/main/java/com/opencloud/zuul/locator/JdbcRouteLocator.java:62 | a string with text is never empty in the `isEmpty` sense; a blank string such as " " is not empty but has no text |
| LinkedMaps.Put | opencloud-gateway/opencloud-api-gateway-zuul/src/main/java/com/opencloud/zuul/locator/JdbcRouteLocator.java:68 | afterwards the key maps to the new value and every other key keeps its value; an existing key keeps its position; a new key is appended at the end; distinct keys stay distinct |
| LinkedMaps.PutAll | opencloud-gateway/opencloud-api-gateway-zuul/src/main/java/com/opencloud/zuul/locator/JdbcRouteLocator.java:51-53 | the key set is the union of both maps' keys; the existing keys keep their order at the front; the size grows by at most the argument's size; every entry comes from one of the two maps |
| LinkedMaps.PutAllFrame | opencloud-gateway/opencloud-api-gateway-zuul/src/main/java/com/opencloud/zuul/locator/JdbcRouteLocator.java:50-53 | a key the second map lacks keeps its value from the first map |
| LinkedMaps.PutAllLastWins | opencloud-gateway/opencloud-api-gateway-zuul/src/main/java/com/opencloud/zuul/locator/JdbcRouteLocator.java:50-53 | the last entry of the second map for a key supplies that key's value (last writer wins) |
| LinkedMaps.PutAllIntoEmpty | opencloud-gateway/opencloud-api-gateway-zuul/src/main/java/com/opencloud/zuul/locator/JdbcRouteLocator.java:50-51 | putting a map with distinct keys into an empty map reproduces it, order included |
| LinkedMaps.PutAllOrder | opencloud-gateway/opencloud-api-gateway-zuul/src/main/java/com/opencloud/zuul/locator/JdbcRouteLocator.java:50-53 | into a map with distinct keys, the keys come out in the order in which they first occur in the map's keys followed by the argument's keys (`FirstOccurrences`, defined independently of `PutAll`) |
| RoutePaths.WithLeadingSlash | opencloud-gateway/opencloud-api-gateway-zuul/src/main/java/com/opencloud/zuul/locator/JdbcRouteLocator.java:58-61 | the result starts with `/`; it is the input with at most one `/` added in front; an input that already starts with `/` is unchanged |
| RoutePaths.Normalize | opencloud-gateway/opencloud-api-gateway-zuul/src/main/java/com/opencloud/zuul/locator/JdbcRouteLocator.java:57-67 | the key always starts with `/`; with no prefix text, a slash-led path is unchanged and any other path gets exactly one `/` in front; with prefix text, the key is the slash-led prefix followed by the slash-led path |
| RoutePaths.WithLeadingSlashIdempotent | opencloud-gateway/opencloud-api-gateway-zuul/src/main/java/com/opencloud/zuul/locator/JdbcRouteLocator.java:64-66 | ensuring the leading slash a second time changes nothing |
| RoutePaths.NormalizeCollision | opencloud-gateway/opencloud-api-gateway-zuul/src/main/java/com/opencloud/zuul/locator/JdbcRouteLocator.java:57-68 | under any prefix, two raw paths get the same key if and only if they are equal once each has its leading slash |
| RoutePaths.BlankPrefixIgnored | opencloud-gateway/opencloud-api-gateway-zuul/src/main/java/com/opencloud/zuul/locator/JdbcRouteLocator.java:62 | a prefix made only of whitespace gives the same key as no prefix |
| RoutePaths.NormalizeExamples | opencloud-gateway/opencloud-api-gateway-zuul/src/main/java/com/opencloud/zuul/locator/JdbcRouteLocator.java:57-67 | `orders` gives `/orders`; (`/orders`, `/api`) gives `/api/orders`; (`orders`, `api`) gives `/api/orders`; an empty prefix is ignored |
| Routes.IsRoutable | opencloud-gateway/opencloud-api-gateway-zuul/src/main/java/com/opencloud/zuul/locator/JdbcRouteLocator.java:106-111 | a row is kept when its path is not empty and it has a service id or a URL; `LoadedKeys` and `SkippedRowsAbsent` state that exactly these rows give keys |
| Routes.ToZuulRoute | opencloud-gateway/opencloud-api-gateway-zuul/src/main/java/com/opencloud/zuul/locator/JdbcRouteLocator.java:112-115 | the route copies the row's path, service id and URL and takes the row's name as its id; `LoadedLastWins` states that the loaded map holds it under its path |
| Routes.LoadedRoutes | opencloud-gateway/opencloud-api-gateway-zuul/src/main/java/com/opencloud/zuul/locator/JdbcRouteLocator.java:104-117 | the loaded map has distinct keys and at most one entry per row; every entry is keyed by its route's non-empty path, and has a service id or a URL |
| Routes.LoadedKeys | opencloud-gateway/opencloud-api-gateway-zuul/src/main/java/com/opencloud/zuul/locator/JdbcRouteLocator.java:104-116 | a path is a key of the loaded map if and only if some routable row has that path |
| Routes.LoadedLastWins | opencloud-gateway/opencloud-api-gateway-zuul/src/main/java/com/opencloud/zuul/locator/JdbcRouteLocator.java:112-116 | the last routable row with a path supplies that key's route: id from the row's name, and path, service id and URL from the row |
| Routes.SkippedRowsAbsent | opencloud-gateway/opencloud-api-gateway-zuul/src/main/java/com/opencloud/zuul/locator/JdbcRouteLocator.java:106-111 | no route made from a row with an empty path, or with neither a service id nor a URL, appears in the loaded map |
| Routes.LoadedExamples | opencloud-gateway/opencloud-api-gateway-zuul/src/main/java/com/opencloud/zuul/locator/JdbcRouteLocator.java:106-116 | single rows with an empty or null path, or with no target, load nothing; a row with path `/x` and a URL loads exactly that route under `/x` |
| Routes.LoadedOrder | opencloud-gateway/opencloud-api-gateway-zuul/src/main/java/com/opencloud/zuul/locator/JdbcRouteLocator.java:85-116 | the loaded map's keys are the paths of the routable rows, in the order in which each path first occurs among those rows |
| Routes.LoadedFrom | opencloud-gateway/opencloud-api-gateway-zuul/src/main/java/com/opencloud/zuul/locator/JdbcRouteLocator.java:85-123 | the loaded routes of a successful query, or an empty map when the query threw; `FailedQueryKeepsStatic` and `LoadRoutes` state both cases |
| RouteTables.Merge | opencloud-gateway/opencloud-api-gateway-zuul/src/main/java/com/opencloud/zuul/locator/JdbcRouteLocator.java:50-53 | `putAll` of the static routes, then of the loaded routes, into an empty map; `MergeOverrides` and `MergeKeepsStaticOrder` state its values, keys and order |
| RouteTables.RouteTable | opencloud-gateway/opencloud-api-gateway-zuul/src/main/java/com/opencloud/zuul/locator/JdbcRouteLocator.java:49-70 | the table `locateRoutes` returns; `TableKeys`, `TableOverride` and `FailedQueryKeepsStatic` state its keys and values, and `LocateRoutes` is proved to return it |
| RouteTables.Rekey | opencloud-gateway/opencloud-api-gateway-zuul/src/main/java/com/opencloud/zuul/locator/JdbcRouteLocator.java:55-70 | the rebuilt map has distinct keys, is no larger than the merged map, and every key starts with `/` |
| RouteTables.MergeOverrides | opencloud-gateway/opencloud-api-gateway-zuul/src/main/java/com/opencloud/zuul/locator/JdbcRouteLocator.java:50-53 | a loaded path that is also a static key gets the loaded route; every other static key keeps its static route |
| RouteTables.MergeKeepsStaticOrder | opencloud-gateway/opencloud-api-gateway-zuul/src/main/java/com/opencloud/zuul/locator/JdbcRouteLocator.java:50-53 | the merged map begins with the static keys in their order, overridden or not; its keys are the static keys followed by the new loaded keys, each in first-occurrence order |
| RouteTables.RekeyKeys | opencloud-gateway/opencloud-api-gateway-zuul/src/main/java/com/opencloud/zuul/locator/JdbcRouteLocator.java:56-68 | a key is in the rebuilt map if and only if it is the normalized form of some key of the merged map |
| RouteTables.RekeyKeySet | opencloud-gateway/opencloud-api-gateway-zuul/src/main/java/com/opencloud/zuul/locator/JdbcRouteLocator.java:56-68 | the same statement over the merged map's key set |
| RouteTables.RekeyLastWins | opencloud-gateway/opencloud-api-gateway-zuul/src/main/java/com/opencloud/zuul/locator/JdbcRouteLocator.java:56-68 | when raw keys collide after normalization, the entry latest in the merged order supplies the value |
| RouteTables.RekeyOrder | opencloud-gateway/opencloud-api-gateway-zuul/src/main/java/com/opencloud/zuul/locator/JdbcRouteLocator.java:55-68 | the rebuilt map's keys are the normalized keys in the order in which each first arises from the merged map's keys |
| RouteTables.RekeyKeepsAll | opencloud-gateway/opencloud-api-gateway-zuul/src/main/java/com/opencloud/zuul/locator/JdbcRouteLocator.java:56-68 | when no two raw keys agree after adding a leading slash, the rebuilt map has as many entries as the merged map |
| RouteTables.RekeyUnchanged | opencloud-gateway/opencloud-api-gateway-zuul/src/main/java/com/opencloud/zuul/locator/JdbcRouteLocator.java:57-62 | with no prefix text, a map whose keys all start with `/` comes out of the rebuild unchanged |
| RouteTables.TableKeys | opencloud-gateway/opencloud-api-gateway-zuul/src/main/java/com/opencloud/zuul/locator/JdbcRouteLocator.java:49-70 | the table's keys all start with `/`, and they are exactly the normalized static keys plus the normalized paths of the routable rows |
| RouteTables.FailedQueryKeepsStatic | opencloud-gateway/opencloud-api-gateway-zuul/src/main/java/com/opencloud/zuul/locator/JdbcRouteLocator.java:50-53 | when the query fails, the table is the static routes alone, normalized |
| RouteTables.TableOverride | opencloud-gateway/opencloud-api-gateway-zuul/src/main/java/com/opencloud/zuul/locator/JdbcRouteLocator.java:50-68 | under any prefix, the last routable row for a path supplies the route under that path's normalized key, overriding a static route with the same path, when no other static key and no other routable path has the same slash-led form |
| RouteTables.TableOverrideSlashLed | opencloud-gateway/opencloud-api-gateway-zuul/src/main/java/com/opencloud/zuul/locator/JdbcRouteLocator.java:50-68 | when the static keys and the routable rows' paths all start with `/`, the last routable row for a path always supplies that path's route in the table |
| RouteTables.UnslashedStaticKeyShadowsRow | opencloud-gateway/opencloud-api-gateway-zuul/src/main/java/com/opencloud/zuul/locator/JdbcRouteLocator.java:50-68 | with static routes `/k` and, after it, `k` (no leading slash) and a routable row for `/k`, the merged map gives `/k` the row's route, but the table gives `/k` the static route of `k`, the later merged key with the same slash-led form |
| RouteTables.RowWinsOverEarlierUnslashedKey | opencloud-gateway/opencloud-api-gateway-zuul/src/main/java/com/opencloud/zuul/locator/JdbcRouteLocator.java:50-68 | with static routes `k` and, after it, `/k` and a routable row for `/k`, the table gives `/k` the row's route |
| Locator.NormalizeRoutes | opencloud-gateway/opencloud-api-gateway-zuul/src/main/java/com/opencloud/zuul/locator/JdbcRouteLocator.java:55-70 | the rebuild loop returns exactly the re-keyed map |
| Locator.JdbcRouteLocator.constructor | opencloud-gateway/opencloud-api-gateway-zuul/src/main/java/com/opencloud/zuul/locator/JdbcRouteLocator.java:37-41 | the locator keeps the configured prefix; `routeList` is null until the first load |
| Locator.JdbcRouteLocator.LoadRoutes | opencloud-gateway/opencloud-api-gateway-zuul/src/main/java/com/opencloud/zuul/locator/JdbcRouteLocator.java:84-124 | `routeList` holds exactly the fetched rows, or an empty list when the query failed; the result is the loaded map, or empty when the query failed |
| Locator.JdbcRouteLocator.LocateRoutes | opencloud-gateway/opencloud-api-gateway-zuul/src/main/java/com/opencloud/zuul/locator/JdbcRouteLocator.java:49-71 | the result is the static routes, then the loaded routes, merged and re-keyed with the locator's prefix; `routeList` is updated as by `loadRoutes` |
| Locator.LocateFromFreshLocator | opencloud-gateway/opencloud-api-gateway-zuul/src/main/java/com/opencloud/zuul/locator/JdbcRouteLocator.java:49-71 | a caller that sees only the class's contracts learns that every returned key starts with `/`, that the keys are distinct, and that `routeList` holds the fetched rows |

## Left out

- `doRefresh` and `onApplicationEvent`: these delegate to the framework's refresh. Concurrent readers during a refresh, and atomic publication of the table, are not modelled.
- The JDBC query, its SQL text and the `RowMapper` column mapping are database I/O. The model takes their outcome as an input. The query selects rows with `status = 1`; the model takes the fetched rows as given and does not re-check `status`.
- `super.locateRoutes()` and the `SimpleRouteLocator` base class are framework code. The static routes are a parameter.
- `BeanUtils.copyProperties` is reflection. The model carries over only the path, the service id and the URL. The other Zuul route properties (strip prefix, retryable, sensitive headers) are not modelled.
- Locator.JdbcRouteLocator.LoadRoutes: an exception thrown inside the row loop would return a partly filled map. Only `copyProperties` could throw there, and that exception is not modelled. The only failure the model covers is a failed query, which yields an empty map.
- `JdbcTemplate.query` never returns `null`, and a sequence cannot be null, so the `routeList != null` guard has no counterpart.
- The two log statements.
- The prefix is read from `ZuulProperties` on every `locateRoutes` call. The model makes it a constant of the locator, fixed at construction, so a change of the configured prefix between calls is not modelled.
- `getRouteList` and `setRouteList` are plain accessors. The model reads and writes the `routeList` field directly.
- `Character.isWhitespace` follows the Unicode tables of current JDKs. JDK 8 also counts U+180E as whitespace.
