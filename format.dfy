// Numbers written into text by template literals, and read back by
// `parseInt`.

module Format {

  import opened Strings

  /** `${n}` for an integer. */
  function IntToString(n: int): (r: string)
    ensures r != []
  {
    if n < 0 then "-" + NatToString(-n) else NatToString(n)
  }

  /** `parseInt` reads back what `${n}` wrote, whatever follows it. */
  lemma ParseIntToString(n: int, suffix: string)
    requires suffix == [] || !IsDigit(suffix[0])
    ensures ParseInt(IntToString(n) + suffix) == Some(n)
  {
    if n < 0 {
      var d := NatToString(-n);
      assert IntToString(n) + suffix == ['-'] + (d + suffix);
      ParseNegativeDigits(d, suffix);
    } else {
      ParseDigits(NatToString(n), suffix);
    }
  }

  lemma ParseDigits(d: string, suffix: string)
    requires d != [] && AllDigits(d) && (suffix == [] || !IsDigit(suffix[0]))
    ensures ParseInt(d + suffix) == Some(DigitsValue(d) as int)
  {
    var s := d + suffix;
    assert !IsSpace(s[0]);
    assert TrimStart(s) == s;
    LeadingDigitsStops(d, suffix);
  }

  lemma ParseNegativeDigits(d: string, suffix: string)
    requires d != [] && AllDigits(d) && (suffix == [] || !IsDigit(suffix[0]))
    ensures ParseInt(['-'] + (d + suffix)) == Some(-(DigitsValue(d) as int))
  {
    var s := ['-'] + (d + suffix);
    assert s[1..] == d + suffix;
    LeadingDigitsStops(d, suffix);
    ParseMinus(s, d);
  }

}
