# Greenhouse portal: read-side queries, image paths and the time slider

A Dafny model of the logic in the greenhouse telemetry portal that the two
halves of the system share:

- **The sample store's queries** (`Database`): the four tables
  `data_points`, `sensor_data`, `system_data` and `image_data` are sequences
  of rows in storage order, and each query of `GreenhouseDatabase` is a
  function over them. It covers the latest data point, the data point nearest
  to a timestamp, the join of one data point with its sensor rows (ordered by
  sensor id), its system row and the image row with the greatest `data_point_id`
  not above its id (the query orders by id, not by time), and the timestamps of one local calendar day.
- **The image route** (`Images`, with `Strings`): building the path relative to
  the image directory from the request path, the 403-before-404 decision
  order, and the content type chosen from the extension.
- **The image URL** (`ApiClient`) the dashboard builds from a stored file name.
  `ImageUrls` proves that the route takes that URL apart into the part after
  "/imgs/", for a stored name of the form "/P/imgs/R" in which "/imgs/" does
  not occur before that point. Other stored names (one without "/imgs/", or
  one where "/imgs/" occurs earlier) are not covered by that lemma.
- **The time slider** (`Slider`): a class whose fields are the list of
  timestamps and the range input's `value`, `min`, `max` and `disabled`. Its
  invariant is that the selected index stays inside the list.
- **The sensor labels** (`SensorDisplay`): sensor id 1 is "Internal", 2 is
  "External", every other id is "Unknown". An empty reading list shows a
  placeholder.

The records come from `client/src/types/index.ts` (`Types`). Measurements are
carried as opaque `real` values, because no modelled operation computes with them.

Three points about the code shape what the model promises:

- `client/src/app.ts:224-239` calls `apiClient.getChartDataForDay`,
  `getChartDataForMonth` and `getChartDataForYear`, which
  `client/src/api/client.ts` does not define. The aggregation behind them is
  not modelled.
- `ORDER BY ABS(timestamp - ?) LIMIT 1` leaves ties to SQLite, so the
  contracts promise only a minimal distance.
- The label map follows the code's if/else chain.

## Model

| member | source | states |
|---|---|---|
| `Database.NewestRow` | server/src/db/database.ts:20-22 | absent exactly on an empty table; otherwise a stored row whose timestamp is at least every stored timestamp |
| `Database.GetLatestDataPoint` | server/src/db/database.ts:19-29 | null exactly when `data_points` is empty; otherwise a stored point, and the result is `getDataPointWithData` of that point's id |
| `Database.LatestIsNewest` | server/src/db/database.ts:19-28 | with unique ids, the latest point's timestamp is at least every stored timestamp |
| `Database.ClosestRow` | server/src/db/database.ts:33-37 | absent exactly on an empty table; otherwise a stored row minimising the absolute difference to the target |
| `Database.GetDataPointByTimestamp` | server/src/db/database.ts:31-44 | null exactly when the table is empty; otherwise a stored point, and the result is `getDataPointWithData` of its id |
| `Database.NearestIsClosest` | server/src/db/database.ts:31-44 | with unique ids, no stored point is strictly closer to the target than the one returned (ties unspecified) |
| `Database.NearestExample` | server/src/db/database.ts:31-44 | timestamps 100, 200, 500 and target 260 give the point at 200 |
| `Database.RowWithId` | server/src/db/database.ts:47-53 | absent exactly when no row has the id; otherwise a stored row with that id |
| `Database.RowWithIdFindsRow` | server/src/db/database.ts:47-49 | with unique ids, looking up a stored row's id returns that row |
| `Database.SensorRowsOf` | server/src/db/database.ts:55-57 | holds each sensor row of the data point as often as the table does, and no other row |
| `Sorting.SortBy` | server/src/db/database.ts:56 | the result is ordered by the key and is a permutation of the input |
| `Database.SensorsOf` | server/src/db/database.ts:55-57 | exactly the multiset of sensor rows with that `data_point_id`, in nondecreasing `sensor_id` order |
| `Database.SystemRowOf` | server/src/db/database.ts:59-61 | null exactly when no system row has that `data_point_id`; otherwise a stored row with it |
| `Database.ImageAtOrBefore` | server/src/db/database.ts:63-71 | null exactly when every image row's `data_point_id` exceeds the id; otherwise a stored row with the greatest `data_point_id` not above it |
| `Database.GetDataPointWithData` | server/src/db/database.ts:46-79 | null exactly when no point has the id; otherwise the point with that id plus the sensor, system and image facts above |
| `Database.Timestamps` | server/src/db/database.ts:96 | the timestamp column, position by position |
| `Database.TimestampsBetween` | server/src/db/database.ts:90-94 | each stored timestamp in the inclusive bounds as often as it is stored, nothing outside them |
| `Database.DayStartSecond` | server/src/db/database.ts:82-84 | the whole second containing the day's first millisecond, as `Math.floor(getTime() / 1000)` gives |
| `Database.DayEndSecond` | server/src/db/database.ts:86-88 | the whole second containing 23:59:59.999, taken as one millisecond before the next local midnight |
| `Database.DayBoundsOverlap` | server/src/db/database.ts:82-88 | a second lies within the floored bounds exactly when it overlaps the local day from its midnight to 23:59:59.999 |
| `Database.DayBoundsWholeSeconds` | server/src/db/database.ts:82-88 | on whole-second midnights the bounds are the day's first second and the next midnight's second minus one |
| `Database.GetDataPointsForDate` | server/src/db/database.ts:81-97 | ascending, and exactly the stored timestamps within the day's bounds with duplicates kept |
| `Strings.IndexOf` | server/src/routes/images.ts:22 | -1 exactly when the pattern does not occur; otherwise an occurrence with none before it |
| `Strings.FirstOccurrenceAfter` | server/src/routes/images.ts:22-27 | in `a + pat + b`, the first occurrence is right after `a` when no earlier one overlaps `a` |
| `Strings.ToLower` | server/src/routes/images.ts:51 | same length, every ASCII capital lowered, every other character kept |
| `Images.ReplaceFirst` | server/src/routes/images.ts:12 | unchanged without an occurrence; otherwise the first occurrence, and no earlier one, is replaced |
| `Images.RequestedPath` | server/src/routes/images.ts:12 | a non-empty wildcard is used as is; otherwise the router path loses its first "/api/images" (a leading one in particular), and is unchanged without one |
| `Images.StripLeadingSlash` | server/src/routes/images.ts:15-17 | a suffix of the input, one character shorter exactly when it started with '/', otherwise unchanged |
| `Images.RelativePath` | server/src/routes/images.ts:12-34 | the result is always a suffix of the requested path |
| `Images.RelativePathAfterFirstImgs` | server/src/routes/images.ts:22-27 | with "/imgs/" in the stripped path, the result is what follows its first occurrence |
| `Images.RelativePathLeadingImgs` | server/src/routes/images.ts:28-30 | without "/imgs/", a leading "imgs/" is dropped |
| `Images.RelativePathUnchanged` | server/src/routes/images.ts:31-34 | with neither, the stripped path is used unchanged |
| `Images.RelativePathOfStoredExample` | server/src/routes/images.ts:20-27 | the stored path in the route's comment yields "2023/04/23/img_1682303523_19_32_03.jpg" |
| `Images.ContentType` | server/src/routes/images.ts:51-56 | "image/png" exactly for ".png" after lowering, "image/jpeg" for every other extension |
| `Images.ContentTypeIgnoresCase` | server/src/routes/images.ts:51 | the content type of an extension equals that of its lower-case form |
| `Images.Respond` | server/src/routes/images.ts:42-59 | 403 exactly when the resolved path lacks the base as a prefix, whether or not the file exists; 404 exactly when the prefix holds and the file is absent; otherwise the file with its content type |
| `Images.PrefixCheckAdmitsSibling` | server/src/routes/images.ts:38-44 | the prefix test serves "/data/imgs-private/a.jpg" for base "/data/imgs", a path outside that directory |
| `Images.RespondWithinBase` | server/src/routes/images.ts:38-48 | a served file is always the base itself or below it; inside the base it decides as the route does |
| `ApiClient.ImageUrl` | client/src/api/client.ts:26-30 | empty exactly for an empty file name; otherwise 11 + n characters, starting with "/api/images" and ending with the file name |
| `ImageUrls.ImageUrlRoundTrip` | client/src/api/client.ts:29 | the route recovers R from the URL of a stored "/P/imgs/R" when "/imgs/" does not occur earlier |
| `ImageUrls.WildcardRoundTrip` | server/src/routes/images.ts:12-34 | for "/P/imgs/R" with P non-empty, not starting with '/' and no earlier "/imgs/", the route's first line applied to the wildcard parameter (the URL after "/api/images/") and the path split recover R |
| `Slider.IndexOf` | client/src/components/TimeSlider.ts:53 | -1 exactly when the timestamp is absent; otherwise its first index |
| `Slider.TimeSlider.constructor` | client/src/components/TimeSlider.ts:5-32 | an empty list, the range defaults 0 to 100 at 50, and no callback |
| `Slider.TimeSlider.SelectedTimestamp` | client/src/components/TimeSlider.ts:60-66 | null exactly for an empty list; otherwise the timestamp at the selected index, which is in range |
| `Slider.TimeSlider.UpdateDisplay` | client/src/components/TimeSlider.ts:68-83 | the no-data text for an empty list, otherwise the selected timestamp's time |
| `Slider.TimeSlider.SetTimestamps` | client/src/components/TimeSlider.ts:34-50 | empty list: disabled, min = max = value = 0, nothing selected; otherwise enabled over 0 to n - 1 with the last timestamp selected; callback not invoked |
| `Slider.TimeSlider.SetTimestamp` | client/src/components/TimeSlider.ts:52-58 | a listed timestamp selects its first index, so it becomes the selection; an unlisted one changes nothing; callback not invoked |
| `Slider.TimeSlider.OnChange` | client/src/components/TimeSlider.ts:85-87 | a callback is registered |
| `Slider.TimeSlider.Input` | client/src/components/TimeSlider.ts:24-31 | the index stays in range; the callback gets `timestamps[value]` only when one is registered and the list is non-empty |
| `SensorDisplay.SensorLabel` | client/src/components/SensorDisplay.ts:22-29 | "Internal" exactly for id 1, "External" exactly for id 2, "Unknown" exactly for every other id |
| `SensorDisplay.SensorLabels` | client/src/components/SensorDisplay.ts:21-30 | one label per reading, in input order |
| `SensorDisplay.Render` | client/src/components/SensorDisplay.ts:15-30 | only the "No sensor data available" placeholder exactly for an empty list; otherwise one label per reading in order |

## Left out

- Bucketed day, month and year aggregation, gap sentinels and chart series: `client/src/app.ts:224-239` calls `getChartDataForDay`, `getChartDataForMonth` and `getChartDataForYear`, which `client/src/api/client.ts` does not define. `ChartDisplay` is not part of this model.
- The SQLite engine, the WAL pragma and `close`: they are foreign storage. Only what each SELECT returns is modelled.
- Ties in `ORDER BY`: SQLite leaves the order of equal keys unspecified. The model keeps table order, and no contract depends on that.
- Database.LatestIsNewest, Database.NearestIsClosest: assume unique ids (the primary key). Without that, a lookup by id could return a different row with the same id.
- Database.DayEndSecond: takes 23:59:59.999 as one millisecond before the next local midnight. In a zone whose clocks fall back across midnight, `setHours(23, 59, 59, 999)` picks the first of the repeated 23:59:59.999 instants, and the model's bound is the second one.
- SQLite's 64-bit integer arithmetic is not modelled; integers are unbounded.
- Time zones and `Date` arithmetic (`setHours`, `toISOString`, `toLocale*`): these are library calls. `GetDataPointsForDate` takes the local midnight and the next local midnight in milliseconds as inputs.
- `path.join`, `path.resolve`, `path.extname`, `fs.existsSync` and `res.sendFile`: these are foreign calls. The resolved paths, the extension and the file's existence are inputs of `Respond`.
- The 500 response of the route's `catch`: it only fires on exceptions from the foreign calls listed above.
- How Express fills `req.params[0]` and `req.path`: they are inputs of `RequestedPath`.
- Strings.ToLower: lowers ASCII letters only. JavaScript's `toLowerCase` covers all of Unicode.
- The time slider's DOM: the container lookup, the element creation and the time formatting. The label is modelled as the timestamp it shows.
- Aliasing of the array passed to `setTimestamps`: the model copies it as a value.
- The callback itself (what the dashboard does with a timestamp): the model records only the timestamps delivered to it.
- Slider.TimeSlider.Input: requires an enabled slider and a position within `min`..`max`. Those are the only input events a browser dispatches to a range input.
- The sensor card template: it reads `.temperature` and `.humidity` from the label string, and `humidity.toFixed` then throws. Only the label map and the empty-list branch are modelled.
- `SystemCharts`, `SystemDisplay`, `UnitSelector`, `DatePicker`, `ImageDisplay`, `app.ts`, the HTTP routers and the server bootstrap: these are rendering, floating-point formatting, timers and I/O.
- The `fetch` methods of the API client: these are I/O.

## Findings

| source | as written | input that shows it | evidently intended | confidence | as-written member | corrected member |
|---|---|---|---|---|---|---|
| server/src/routes/images.ts:42 | access is granted when the resolved path merely starts with the resolved base as a string | base "/data/imgs", resolved path "/data/imgs-private/a.jpg" (relative path "../imgs-private/a.jpg"): the file is served | the comment on line 38: only paths inside the base directory, that is the base itself or below "base/" | medium (depends on a request reaching the route with ".." in its path), not executed | `Images.PrefixCheckAdmitsSibling` | `Images.RespondWithinBase` |
