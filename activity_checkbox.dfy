// The checkbox activity: a list of selected options, toggled one at a time
// and saved on every toggle.

module ActivityCheckbox {

  /** `selected.filter(s => s !== option)`. */
  function Without(selected: seq<string>, option: string): (r: seq<string>)
    ensures forall x :: x in r <==> x in selected && x != option
    ensures |r| <= |selected|
    decreases |selected|
  {
    if selected == [] then []
    else if selected[|selected| - 1] != option then Without(selected[..|selected| - 1], option) + [selected[|selected| - 1]]
    else Without(selected[..|selected| - 1], option)
  }

  /** The selection after a toggle: a selected option is removed, any
    * other is appended at the end. */
  function Toggled(selected: seq<string>, option: string): (r: seq<string>)
    ensures option in selected ==> r == Without(selected, option)
    ensures option !in selected ==> r == selected + [option]
  {
    if option in selected then Without(selected, option) else selected + [option]
  }

  predicate NoDuplicates(s: seq<string>) {
    forall i, j :: 0 <= i < j < |s| ==> s[i] != s[j]
  }

  /** A toggle flips the option's box and leaves every other box alone. */
  lemma ToggleFlips(selected: seq<string>, option: string, other: string)
    requires other != option
    ensures option in Toggled(selected, option) <==> option !in selected
    ensures other in Toggled(selected, option) <==> other in selected
  {
  }

  /** Toggling an option twice restores which options are checked. */
  lemma ToggleTwice(selected: seq<string>, option: string)
    ensures forall x :: x in Toggled(Toggled(selected, option), option) <==> x in selected
  {
  }

  /** Removing an absent option gives the list back. */
  lemma {:induction false} WithoutAbsent(s: seq<string>, option: string)
    requires option !in s
    ensures Without(s, option) == s
    decreases |s|
  {
    if s != [] {
      WithoutAbsent(s[..|s| - 1], option);
    }
  }

  /** Checking an unchecked option and unchecking it again gives the very
    * same list back. */
  lemma CheckThenUncheck(selected: seq<string>, option: string)
    requires option !in selected
    ensures Toggled(Toggled(selected, option), option) == selected
  {
    var s := selected + [option];
    assert s[..|s| - 1] == selected;
    WithoutAbsent(selected, option);
  }

  lemma {:induction false} WithoutNoDuplicates(s: seq<string>, option: string)
    requires NoDuplicates(s)
    ensures NoDuplicates(Without(s, option))
    decreases |s|
  {
    if s != [] {
      var init := s[..|s| - 1];
      WithoutNoDuplicates(init, option);
      assert s[|s| - 1] !in init;
    }
  }

  /** A toggle never makes an option appear twice. */
  lemma ToggleNoDuplicates(selected: seq<string>, option: string)
    requires NoDuplicates(selected)
    ensures NoDuplicates(Toggled(selected, option))
  {
    if option in selected {
      WithoutNoDuplicates(selected, option);
    }
  }

  class CheckboxActivity {
    var selected: seq<string>
    /** The selections handed to `onSave`, in order. */
    var saves: seq<seq<string>>

    constructor (value: seq<string>)
      ensures selected == value && saves == []
    {
      selected := value;
      saves := [];
    }

    /** A new stored value replaces the selection. */
    method Resync(value: seq<string>)
      modifies this
      ensures selected == value && saves == old(saves)
    {
      selected := value;
    }

    /** `handleToggle`: the new selection is kept and saved at once. */
    method Toggle(option: string)
      modifies this
      ensures selected == Toggled(old(selected), option)
      ensures saves == old(saves) + [selected]
    {
      var newSelected := if option in selected then Without(selected, option) else selected + [option];
      selected := newSelected;
      saves := saves + [newSelected];
    }
  }
}
