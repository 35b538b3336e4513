/**
 * The sensor panel (client/src/components/SensorDisplay.ts): the label each
 * sensor id is shown under, and the placeholder for an empty reading list.
 * The HTML cards built from the labels are not modelled.
 */
module SensorDisplay {
  import opened Types

  const NoSensorData := "No sensor data available"

  /** The display name of a sensor: 1 is the internal sensor, 2 the external one. */
  function SensorLabel(sensorId: int): (r: string)
    ensures r == "Internal" <==> sensorId == 1
    ensures r == "External" <==> sensorId == 2
    ensures r == "Unknown" <==> sensorId != 1 && sensorId != 2
  {
    if sensorId == 1 then "Internal"
    else if sensorId == 2 then "External"
    else "Unknown"
  }

  /** The labels of a reading list: one per reading, in the list's order. */
  function SensorLabels(sensors: seq<SensorData>): (r: seq<string>)
    ensures |r| == |sensors|
    ensures forall i :: 0 <= i < |sensors| ==> r[i] == SensorLabel(sensors[i].sensorId)
  {
    if sensors == [] then [] else [SensorLabel(sensors[0].sensorId)] + SensorLabels(sensors[1..])
  }

  /**
   * What `render` hands on: the placeholder text, or the labels the card
   * template receives (the template itself throws on them; see README).
   */
  datatype SensorPanel = Placeholder(text: string) | Cards(labels: seq<string>)

  /** `render(sensors, unit)`, as far as the labels go. */
  function Render(sensors: seq<SensorData>): (r: SensorPanel)
    ensures r.Placeholder? <==> sensors == []
    ensures r.Placeholder? ==> r.text == NoSensorData
    ensures r.Cards? ==> |r.labels| == |sensors| > 0
    ensures r.Cards? ==> forall i :: 0 <= i < |sensors| ==> r.labels[i] == SensorLabel(sensors[i].sensorId)
  {
    if sensors == [] then Placeholder(NoSensorData) else Cards(SensorLabels(sensors))
  }
}
