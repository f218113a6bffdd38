// The text activity: the text typed is saved a moment after the last edit,
// when it differs from the stored text and is not blank.

module ActivityTextarea {

  import opened Strings

  /** What the delayed save does when it fires: the text as typed, not
    * trimmed, when it differs from the stored text and has a non-blank
    * character. */
  function SaveOnFire(localValue: string, value: string): (r: Option<string>)
    ensures r.Some? <==> localValue != value && !IsBlank(localValue)
    ensures r.Some? ==> r.value == localValue
  {
    if localValue != value && Trim(localValue) != "" then Some(localValue) else None
  }

  /** Clearing the text, or leaving only spaces, is never saved. */
  lemma ClearingNotSaved(localValue: string, value: string)
    requires IsBlank(localValue)
    ensures SaveOnFire(localValue, value).None?
  {
  }

  /** Text that is saved keeps its surrounding spaces. */
  lemma SavedUntrimmed(text: string, value: string)
    requires text != value && Trim(text) != text && Trim(text) != ""
    ensures SaveOnFire(text, value) == Some(text) && SaveOnFire(text, value).value != Trim(text)
  {
  }

  class TextareaActivity {
    /** The stored text the field was given. */
    var value: string
    var localValue: string
    /** Whether a delayed save is waiting; a new one replaces it, so at
      * most one waits at a time. */
    var pending: bool
    /** The texts handed to `onSave`, in order. */
    var saves: seq<string>

    /** Mounting arms the delayed save once. */
    constructor (value: string)
      ensures this.value == value && localValue == value && pending && saves == []
    {
      this.value := value;
      localValue := value;
      pending := true;
      saves := [];
    }

    /** A new stored text replaces the field's text and re-arms the save. */
    method Resync(v: string)
      modifies this
      ensures value == v && localValue == v && pending && saves == old(saves)
    {
      value := v;
      localValue := v;
      pending := true;
    }

    /** An edit cancels the waiting save and arms a new one. */
    method Edit(text: string)
      modifies this
      ensures localValue == text && value == old(value) && pending && saves == old(saves)
    {
      localValue := text;
      pending := true;
    }

    /** The waiting save fires, with the text and stored text current at
      * the last edit, which are the current ones. */
    method TimerFires()
      modifies this
      ensures !pending && value == old(value) && localValue == old(localValue)
      ensures old(pending) && SaveOnFire(localValue, value).Some? ==> saves == old(saves) + [localValue]
      ensures !old(pending) || SaveOnFire(localValue, value).None? ==> saves == old(saves)
    {
      if pending {
        var s := SaveOnFire(localValue, value);
        if s.Some? {
          saves := saves + [s.value];
        }
      }
      pending := false;
    }
  }
}
