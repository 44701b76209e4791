/** The report loop at the end of script_manager/manager.py: each script
    is printed after a prefix made of its 1-based position, right-justified
    to two columns, and a dash. */
module Report {
  import opened PyStr

  /** The prefix of the row of the script at position `idx`: a blank, the
      position right-justified to 2 (never truncated), then "  -   ". */
  function RowPrefix(idx: int): (p: string)
    ensures |p| == 7 + Max(2, |IntToDecimal(idx)|)
  {
    " " + RJust(IntToDecimal(idx), 2, ' ') + "  -   "
  }

  /** The position field of a prefix reads back as the position, between
      the leading blank and the dash. */
  lemma RowPrefixReadBack(idx: int)
    ensures var p := RowPrefix(idx);
      var w := |p| - 6;
      && p[0] == ' '
      && p[1..w] == RJust(IntToDecimal(idx), 2, ' ')
      && ParseDecimal(LStrip(p[1..w])) == Some(idx)
      && p[w..] == "  -   "
  {
    var f := RJust(IntToDecimal(idx), 2, ' ');
    PrefixFields(f);
    RJustDecimalReadBack(idx, 2);
  }

  /** Where the field and the literals of a prefix sit, whatever the field holds. */
  lemma PrefixFields(f: string)
    ensures var p := " " + f + "  -   ";
      && p[0] == ' '
      && p[1..|p| - 6] == f
      && p[|p| - 6..] == "  -   "
  {
  }

  /** Positions 1 to 99, all the report numbers up to 99 scripts, give
      prefixes of the same width: the rows line up. */
  lemma RowPrefixWidth(idx: int)
    requires 1 <= idx <= 99
    ensures |RowPrefix(idx)| == 9
  {
    DecimalWidth(idx);
    if idx >= 10 {
      assert NatToDecimal(idx) == NatToDecimal(idx / 10) + [DigitChar(idx % 10)];
    }
  }

  /** Different positions give different prefixes. */
  lemma RowPrefixInjective(a: int, b: int)
    ensures RowPrefix(a) == RowPrefix(b) ==> a == b
  {
    RowPrefixReadBack(a);
    RowPrefixReadBack(b);
  }

  /** The first and the twelfth script. */
  lemma RowPrefixExamples()
    ensures RowPrefix(1) == "  1  -   "
    ensures RowPrefix(12) == " 12  -   "
  {
    assert IntToDecimal(1) == "1";
    assert NatToDecimal(12) == NatToDecimal(1) + [DigitChar(2)];
  }
}
