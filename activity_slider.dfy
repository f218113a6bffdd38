// The slider activity: a position moved freely and saved when the drag
// ends on a value other than the stored one.

module ActivitySlider {

  import opened Strings

  const DefaultMin := 1
  const DefaultMax := 10
  const Step := 1

  /** The range: the activity's own bounds, 1 and 10 when it has none. */
  function Bounds(min: Option<int>, max: Option<int>): (r: (int, int))
    ensures r.0 == (if min.Some? then min.value else DefaultMin)
    ensures r.1 == (if max.Some? then max.value else DefaultMax)
  {
    (if min.Some? then min.value else DefaultMin, if max.Some? then max.value else DefaultMax)
  }

  class SliderActivity {
    /** The stored value the slider was given. */
    var value: int
    /** The position shown. */
    var localValue: int
    /** The values handed to `onSave`, in order. */
    var saves: seq<int>

    constructor (value: int)
      ensures this.value == value && localValue == value && saves == []
    {
      this.value := value;
      localValue := value;
      saves := [];
    }

    /** A new stored value moves the slider to it. */
    method Resync(v: int)
      modifies this
      ensures value == v && localValue == v && saves == old(saves)
    {
      value := v;
      localValue := v;
    }

    /** `handleChange`: dragging moves the shown position and saves
      * nothing. */
    method Change(v: int)
      modifies this
      ensures localValue == v && value == old(value) && saves == old(saves)
    {
      localValue := v;
    }

    /** `handleCommit`: the end of a drag saves its value when it differs
      * from the stored one. */
    method Commit(v: int)
      modifies this
      ensures saves == (if v != value then old(saves) + [v] else old(saves))
      ensures value == old(value) && localValue == old(localValue)
    {
      if v != value {
        saves := saves + [v];
      }
    }
  }
}
