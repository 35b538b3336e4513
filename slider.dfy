/**
 * The time slider of the dashboard (client/src/components/TimeSlider.ts).
 * The HTML range input is reduced to its fields `value`, `min`, `max` and
 * `disabled`, holding the integers the component writes into them as
 * strings; the time label is the `Display` it shows; the change callback is
 * represented by whether one is registered and by the list of timestamps
 * delivered to it so far.
 */
module Slider {
  import opened Wrappers

  /** What the time label shows: nothing yet, the no-data text, or the time of a timestamp. */
  datatype Display = Blank | NoData | ShowTime(timestamp: int)

  /** `timestamps.indexOf(t)`: the first index holding `t`, or -1. */
  function IndexOf(s: seq<int>, t: int): (r: int)
    ensures -1 <= r < |s|
    ensures r == -1 <==> t !in s
    ensures r != -1 ==> s[r] == t && forall j :: 0 <= j < r ==> s[j] != t
  {
    if s == [] then -1
    else if s[0] == t then 0
    else
      var k := IndexOf(s[1..], t);
      if k == -1 then -1 else k + 1
  }

  class TimeSlider {
    var timestamps: seq<int>
    var value: int
    var min: int
    var max: int
    var disabled: bool
    var display: Display
    var hasCallback: bool
    var delivered: seq<int>

    /** The selected position lies in the input's range, which spans exactly the indices of a non-empty list. */
    ghost predicate Valid()
      reads this
    {
      && min <= value <= max
      && (|timestamps| > 0 ==> min == 0 && max == |timestamps| - 1)
    }

    /** A fresh slider: an HTML range input's defaults (0 to 100, at 50), no timestamps, no callback. */
    constructor ()
      ensures Valid()
      ensures timestamps == [] && min == 0 && max == 100 && value == 50 && !disabled
      ensures display == Blank && !hasCallback && delivered == []
    {
      timestamps := [];
      min, max, value := 0, 100, 50;
      disabled := false;
      display := Blank;
      hasCallback := false;
      delivered := [];
    }

    /** `getSelectedTimestamp()`: null for an empty list, otherwise the timestamp at the selected index. */
    function SelectedTimestamp(): (r: Option<int>)
      reads this
      requires Valid()
      ensures r.None? <==> timestamps == []
      ensures r.Some? ==> 0 <= value < |timestamps| && r.value == timestamps[value]
    {
      if timestamps == [] then None else Some(timestamps[value])
    }

    /** `updateDisplay()`: the text for the selected timestamp. */
    method UpdateDisplay()
      requires Valid()
      modifies this`display
      ensures display == if timestamps == [] then NoData else ShowTime(timestamps[value])
    {
      if timestamps == [] {
        display := NoData;
      } else {
        display := ShowTime(timestamps[value]);
      }
    }

    /**
     * `setTimestamps(ts)`: an empty list disables the slider at 0; a non-empty
     * one enables it over its indices and selects the last (the latest) one.
     * The callback is not invoked.
     */
    method SetTimestamps(ts: seq<int>)
      modifies this
      ensures Valid()
      ensures timestamps == ts
      ensures ts == [] ==> disabled && min == 0 && max == 0 && value == 0 && display == NoData
      ensures ts == [] ==> SelectedTimestamp() == None
      ensures ts != [] ==> !disabled && min == 0 && max == |ts| - 1 && value == |ts| - 1
      ensures ts != [] ==> SelectedTimestamp() == Some(ts[|ts| - 1]) && display == ShowTime(ts[|ts| - 1])
      ensures hasCallback == old(hasCallback) && delivered == old(delivered)
    {
      timestamps := ts;
      if |ts| == 0 {
        disabled := true;
        min, max, value := 0, 0, 0;
        display := NoData;
        return;
      }
      disabled := false;
      min := 0;
      max := |ts| - 1;
      value := |ts| - 1;
      UpdateDisplay();
    }

    /**
     * `setTimestamp(t)`: selects the first occurrence of `t`; a timestamp
     * not in the list changes nothing. The callback is not invoked.
     */
    method SetTimestamp(t: int)
      requires Valid()
      modifies this
      ensures Valid()
      ensures timestamps == old(timestamps) && min == old(min) && max == old(max) && disabled == old(disabled)
      ensures hasCallback == old(hasCallback) && delivered == old(delivered)
      ensures t in timestamps ==> value == IndexOf(timestamps, t) && SelectedTimestamp() == Some(t)
      ensures t in timestamps ==> display == ShowTime(t)
      ensures t !in timestamps ==> value == old(value) && display == old(display)
    {
      var index := IndexOf(timestamps, t);
      if index != -1 {
        value := index;
        UpdateDisplay();
      }
    }

    /** `onChange(callback)`: registers the callback. */
    method OnChange()
      modifies this`hasCallback
      ensures hasCallback
    {
      hasCallback := true;
    }

    /**
     * The `input` handler, run after the user moves the enabled slider to
     * `position` (the browser keeps it within the range): the label follows,
     * and a registered callback receives the selected timestamp when the
     * list is not empty.
     */
    method Input(position: int)
      requires Valid()
      requires !disabled && min <= position <= max
      modifies this
      ensures Valid()
      ensures value == position
      ensures timestamps == old(timestamps) && min == old(min) && max == old(max) && disabled == old(disabled)
      ensures hasCallback == old(hasCallback)
      ensures display == if timestamps == [] then NoData else ShowTime(timestamps[position])
      ensures delivered == old(delivered) +
                (if hasCallback && timestamps != [] then [timestamps[position]] else [])
      ensures hasCallback && timestamps != [] ==> Some(delivered[|delivered| - 1]) == SelectedTimestamp()
    {
      value := position;
      UpdateDisplay();
      if hasCallback && |timestamps| > 0 {
        var index := value;
        delivered := delivered + [timestamps[index]];
      }
    }
  }

  /** A client of the slider: what its contracts let a caller conclude, step by step. */
  method SelectionScenario()
  {
    var slider := new TimeSlider();
    slider.OnChange();
    slider.SetTimestamps([100, 200, 200, 300]);
    assert slider.SelectedTimestamp() == Some(300);
    slider.SetTimestamp(200);
    assert slider.value == 1;
    slider.SetTimestamp(250);
    assert slider.value == 1 && slider.delivered == [];
    slider.Input(3);
    assert slider.delivered == [300];
    slider.SetTimestamps([]);
    assert slider.SelectedTimestamp() == None && slider.disabled;
  }
}
