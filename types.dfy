/**
 * The records shared by the server and the dashboard (client/src/types/index.ts).
 * Identifiers, timestamps (Unix seconds) and foreign keys are integers; the
 * measurements are floating-point numbers that no modelled operation computes
 * with, so they are carried as opaque `Measurement` values.
 */
module Types {
  import opened Wrappers

  type Measurement = real

  /** One row of `data_points`: an observation event. */
  datatype DataPoint = DataPoint(id: int, timestamp: int, synchronized: int)

  /** One row of `sensor_data`: the reading of one sensor for one data point. */
  datatype SensorData = SensorData(
    id: int,
    sensorId: int,
    name: Option<string>,
    temperature: Measurement,
    humidity: Measurement,
    dataPointId: int)

  /** One row of `system_data`: the host snapshot taken with one data point. */
  datatype SystemData = SystemData(
    id: int,
    socTemperature: Measurement,
    wlan0LinkQuality: Measurement,
    wlan0SignalLevel: Measurement,
    storageTotalSize: Measurement,
    storageUsed: Measurement,
    storageAvail: Measurement,
    dataPointId: int)

  /** One row of `image_data`: a camera image, stored by its absolute file name. */
  datatype ImageData = ImageData(id: int, filename: string, dataPointId: int)

  /** A data point joined with its sensor rows, its system row and an image. */
  datatype DataPointWithData = DataPointWithData(
    dataPoint: DataPoint,
    sensors: seq<SensorData>,
    systemData: Option<SystemData>,
    image: Option<ImageData>)
}
