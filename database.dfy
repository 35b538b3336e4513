/**
 * The read side of the sample store (server/src/db/database.ts). Each of the
 * four tables is a sequence of rows in storage order, and each query is a
 * function of those sequences that returns what its SELECT returns.
 */
module Database {
  import opened Wrappers
  import opened Types
  import Sorting

  /** The tables `data_points`, `sensor_data`, `system_data` and `image_data`. */
  datatype Store = Store(
    dataPoints: seq<DataPoint>,
    sensorData: seq<SensorData>,
    systemData: seq<SystemData>,
    imageData: seq<ImageData>)

  /** `id` is the primary key of `data_points`: no two rows share it. */
  ghost predicate UniqueIds(ps: seq<DataPoint>) {
    forall i, j :: 0 <= i < j < |ps| ==> ps[i].id != ps[j].id
  }

  function Abs(x: int): nat {
    if x < 0 then -x else x
  }

  /** `SELECT * FROM data_points ORDER BY timestamp DESC LIMIT 1`. */
  function NewestRow(ps: seq<DataPoint>): (r: Option<DataPoint>)
    ensures r.None? <==> ps == []
    ensures r.Some? ==> r.value in ps && forall q :: q in ps ==> q.timestamp <= r.value.timestamp
  {
    if ps == [] then None
    else match NewestRow(ps[1..])
      case None => Some(ps[0])
      case Some(p) => if p.timestamp > ps[0].timestamp then Some(p) else Some(ps[0])
  }

  /** `SELECT * FROM data_points ORDER BY ABS(timestamp - ?) LIMIT 1`. */
  function ClosestRow(ps: seq<DataPoint>, t: int): (r: Option<DataPoint>)
    ensures r.None? <==> ps == []
    ensures r.Some? ==> r.value in ps && forall q :: q in ps ==> Abs(r.value.timestamp - t) <= Abs(q.timestamp - t)
  {
    if ps == [] then None
    else match ClosestRow(ps[1..], t)
      case None => Some(ps[0])
      case Some(p) => if Abs(p.timestamp - t) < Abs(ps[0].timestamp - t) then Some(p) else Some(ps[0])
  }

  /** `SELECT * FROM data_points WHERE id = ?`, first matching row. */
  function RowWithId(ps: seq<DataPoint>, id: int): (r: Option<DataPoint>)
    ensures r.None? <==> forall q :: q in ps ==> q.id != id
    ensures r.Some? ==> r.value in ps && r.value.id == id
  {
    if ps == [] then None
    else if ps[0].id == id then Some(ps[0])
    else RowWithId(ps[1..], id)
  }

  /** With unique ids, looking a stored row up by its id finds that very row. */
  lemma RowWithIdFindsRow(ps: seq<DataPoint>, p: DataPoint)
    requires UniqueIds(ps)
    requires p in ps
    ensures RowWithId(ps, p.id) == Some(p)
  {
  }

  function SensorKey(s: SensorData): int {
    s.sensorId
  }

  /** `SELECT * FROM sensor_data WHERE data_point_id = ?`, before ordering. */
  function SensorRowsOf(rows: seq<SensorData>, id: int): (r: seq<SensorData>)
    ensures forall x :: multiset(r)[x] == if x.dataPointId == id then multiset(rows)[x] else 0
  {
    if rows == [] then []
    else
      assert rows == [rows[0]] + rows[1..];
      if rows[0].dataPointId == id then [rows[0]] + SensorRowsOf(rows[1..], id)
      else SensorRowsOf(rows[1..], id)
  }

  /** `... ORDER BY sensor_id`: the sensor rows of data point `id`, by sensor id. */
  function SensorsOf(rows: seq<SensorData>, id: int): (r: seq<SensorData>)
    ensures forall x :: multiset(r)[x] == if x.dataPointId == id then multiset(rows)[x] else 0
    ensures forall i, j :: 0 <= i < j < |r| ==> r[i].sensorId <= r[j].sensorId
  {
    var r := Sorting.SortBy(SensorRowsOf(rows, id), SensorKey);
    assert forall i, j :: 0 <= i < j < |r| ==> SensorKey(r[i]) <= SensorKey(r[j]);
    r
  }

  /** `SELECT * FROM system_data WHERE data_point_id = ?`, first matching row or null. */
  function SystemRowOf(rows: seq<SystemData>, id: int): (r: Option<SystemData>)
    ensures r.None? <==> forall x :: x in rows ==> x.dataPointId != id
    ensures r.Some? ==> r.value in rows && r.value.dataPointId == id
  {
    if rows == [] then None
    else if rows[0].dataPointId == id then Some(rows[0])
    else SystemRowOf(rows[1..], id)
  }

  /**
   * `SELECT * FROM image_data WHERE data_point_id <= ? ORDER BY data_point_id DESC LIMIT 1`:
   * the image row with the greatest `data_point_id` not above `id`, which need
   * not be `id` itself (the order is by id, not by time).
   */
  function ImageAtOrBefore(rows: seq<ImageData>, id: int): (r: Option<ImageData>)
    ensures r.None? <==> forall x :: x in rows ==> x.dataPointId > id
    ensures r.Some? ==> r.value in rows && r.value.dataPointId <= id
    ensures r.Some? ==> forall x :: x in rows && x.dataPointId <= id ==> x.dataPointId <= r.value.dataPointId
  {
    if rows == [] then None
    else
      var rest := ImageAtOrBefore(rows[1..], id);
      if rows[0].dataPointId > id then rest
      else match rest
        case None => Some(rows[0])
        case Some(x) => if x.dataPointId > rows[0].dataPointId then rest else Some(rows[0])
  }

  /** `getDataPointWithData(id)`: the data point with that id joined with its rows, or null. */
  function GetDataPointWithData(s: Store, id: int): (r: Option<DataPointWithData>)
    ensures r.None? <==> forall p :: p in s.dataPoints ==> p.id != id
    ensures r.Some? ==> r.value.dataPoint in s.dataPoints && r.value.dataPoint.id == id
    ensures r.Some? ==> forall x :: multiset(r.value.sensors)[x] ==
                          if x.dataPointId == id then multiset(s.sensorData)[x] else 0
    ensures r.Some? ==> forall i, j :: 0 <= i < j < |r.value.sensors| ==>
                          r.value.sensors[i].sensorId <= r.value.sensors[j].sensorId
    ensures r.Some? ==> (r.value.systemData.None? <==> forall x :: x in s.systemData ==> x.dataPointId != id)
    ensures r.Some? && r.value.systemData.Some? ==>
              r.value.systemData.value in s.systemData && r.value.systemData.value.dataPointId == id
    ensures r.Some? ==> (r.value.image.None? <==> forall x :: x in s.imageData ==> x.dataPointId > id)
    ensures r.Some? && r.value.image.Some? ==>
              var img := r.value.image.value;
              img in s.imageData && img.dataPointId <= id &&
              forall x :: x in s.imageData && x.dataPointId <= id ==> x.dataPointId <= img.dataPointId
  {
    match RowWithId(s.dataPoints, id)
    case None => None
    case Some(p) =>
      Some(DataPointWithData(
        p,
        SensorsOf(s.sensorData, id),
        SystemRowOf(s.systemData, id),
        ImageAtOrBefore(s.imageData, id)))
  }

  /** `getLatestDataPoint()`: the newest data point with its rows, or null on an empty table. */
  function GetLatestDataPoint(s: Store): (r: Option<DataPointWithData>)
    ensures r.None? <==> s.dataPoints == []
    ensures r.Some? ==> r.value.dataPoint in s.dataPoints
    ensures r.Some? ==> r == GetDataPointWithData(s, r.value.dataPoint.id)
  {
    match NewestRow(s.dataPoints)
    case None => None
    case Some(p) => GetDataPointWithData(s, p.id)
  }

  /** With unique ids, the latest data point has the largest stored timestamp. */
  lemma LatestIsNewest(s: Store)
    requires UniqueIds(s.dataPoints)
    ensures GetLatestDataPoint(s).Some? ==>
              forall q :: q in s.dataPoints ==> q.timestamp <= GetLatestDataPoint(s).value.dataPoint.timestamp
  {
  }

  /** `getDataPointByTimestamp(t)`: the data point nearest to `t` with its rows, or null. */
  function GetDataPointByTimestamp(s: Store, t: int): (r: Option<DataPointWithData>)
    ensures r.None? <==> s.dataPoints == []
    ensures r.Some? ==> r.value.dataPoint in s.dataPoints
    ensures r.Some? ==> r == GetDataPointWithData(s, r.value.dataPoint.id)
  {
    match ClosestRow(s.dataPoints, t)
    case None => None
    case Some(p) => GetDataPointWithData(s, p.id)
  }

  /** With unique ids, the data point found for `t` is at least as close to it as every stored one. */
  lemma NearestIsClosest(s: Store, t: int)
    requires UniqueIds(s.dataPoints)
    ensures GetDataPointByTimestamp(s, t).Some? ==>
              var p := GetDataPointByTimestamp(s, t).value.dataPoint;
              forall q :: q in s.dataPoints ==> Abs(p.timestamp - t) <= Abs(q.timestamp - t)
  {
  }

  /** Stored timestamps 100, 200 and 500 and target 260: the point at 200 is found (60 away, against 240). */
  lemma NearestExample()
    ensures var s := Store([DataPoint(1, 100, 1), DataPoint(2, 200, 1), DataPoint(3, 500, 1)], [], [], []);
            GetDataPointByTimestamp(s, 260) == Some(DataPointWithData(DataPoint(2, 200, 1), [], None, None))
  {
  }

  /** The timestamp column of `data_points`, in storage order. */
  function Timestamps(ps: seq<DataPoint>): (r: seq<int>)
    ensures |r| == |ps| && forall i :: 0 <= i < |ps| ==> r[i] == ps[i].timestamp
  {
    if ps == [] then [] else [ps[0].timestamp] + Timestamps(ps[1..])
  }

  /** `SELECT timestamp FROM data_points WHERE timestamp >= ? AND timestamp <= ?`, before ordering. */
  function TimestampsBetween(ps: seq<DataPoint>, lo: int, hi: int): (r: seq<int>)
    ensures forall t :: multiset(r)[t] == if lo <= t <= hi then multiset(Timestamps(ps))[t] else 0
  {
    if ps == [] then []
    else
      var rest := TimestampsBetween(ps[1..], lo, hi);
      assert Timestamps(ps) == [ps[0].timestamp] + Timestamps(ps[1..]);
      if lo <= ps[0].timestamp <= hi then [ps[0].timestamp] + rest else rest
  }

  function TimestampKey(t: int): int {
    t
  }

  /**
   * The inclusive second bounds of a local day: the floor, in seconds, of its
   * first millisecond and of its last (23:59:59.999, one millisecond before
   * the next local midnight). Both millisecond instants are inputs, standing
   * for the `setHours` calls on the local calendar day.
   */
  function DayStartSecond(startOfDayMs: int): (r: int)
    ensures r * 1000 <= startOfDayMs < (r + 1) * 1000
  {
    startOfDayMs / 1000
  }

  function DayEndSecond(nextStartOfDayMs: int): (r: int)
    ensures r * 1000 <= nextStartOfDayMs - 1 < (r + 1) * 1000
  {
    (nextStartOfDayMs - 1) / 1000
  }

  /** A second lies within the day's bounds exactly when the second overlaps the day. */
  lemma DayBoundsOverlap(startOfDayMs: int, nextStartOfDayMs: int, t: int)
    ensures DayStartSecond(startOfDayMs) <= t <= DayEndSecond(nextStartOfDayMs)
            <==> startOfDayMs < 1000 * t + 1000 && 1000 * t < nextStartOfDayMs
  {
  }

  /** On whole-second day boundaries the bounds are the day's first second and the next day's first second minus one. */
  lemma DayBoundsWholeSeconds(startOfDayMs: int, nextStartOfDayMs: int)
    requires startOfDayMs % 1000 == 0 && nextStartOfDayMs % 1000 == 0
    ensures DayStartSecond(startOfDayMs) * 1000 == startOfDayMs
    ensures DayEndSecond(nextStartOfDayMs) == nextStartOfDayMs / 1000 - 1
  {
  }

  /**
   * `getDataPointsForDate(date)`: the stored timestamps within the local day, ascending,
   * each kept as often as it is stored.
   */
  function GetDataPointsForDate(s: Store, startOfDayMs: int, nextStartOfDayMs: int): (r: seq<int>)
    ensures forall i, j :: 0 <= i < j < |r| ==> r[i] <= r[j]
    ensures forall t :: multiset(r)[t] ==
              if DayStartSecond(startOfDayMs) <= t <= DayEndSecond(nextStartOfDayMs)
              then multiset(Timestamps(s.dataPoints))[t] else 0
  {
    var r := Sorting.SortBy(
      TimestampsBetween(s.dataPoints, DayStartSecond(startOfDayMs), DayEndSecond(nextStartOfDayMs)),
      TimestampKey);
    assert forall i, j :: 0 <= i < j < |r| ==> TimestampKey(r[i]) <= TimestampKey(r[j]);
    r
  }
}
