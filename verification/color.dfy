/** ANSI colour codes: the `Color` and `BrightColor` classes of
    script_manager/manager.py. Both classes only hold static tables and
    class methods, so they become constants and functions here. A colour
    name selects a position in an eight-name list, the position selects a
    number from one of four code tables, and the number is rendered as an
    SGR escape sequence `ESC [ n m` (Select Graphic Rendition, section
    8.3.117 of ECMA-48). */
module Color {
  import opened PyStr

  /** The escape character that starts every control sequence. */
  const Esc: char := '\U{1B}'

  /** `Color.ColorMap`: the eight colour names in table order. The source
      spells them capitalised and lowercases the list once, when the class
      is built; the lowercased list is written out here. */
  const ColorMap: seq<string> := ["black", "red", "green", "yellow", "blue", "purple", "teal", "white"]

  /** `Color.Reset`: the code that ends every styling. */
  const ResetCode: int := 0

  const FgCodes: seq<int> := [30, 31, 32, 33, 34, 35, 36, 37]
  const BgCodes: seq<int> := [40, 41, 42, 43, 44, 45, 46, 47]
  const BrightFgCodes: seq<int> := [90, 91, 92, 93, 94, 95, 96, 97]
  const BrightBgCodes: seq<int> := [100, 101, 102, 103, 104, 105, 106, 107]

  /** Entry i of each code table is its base code plus i. */
  lemma CodesAt(i: nat)
    requires i < 8
    ensures FgCodes[i] == 30 + i && BgCodes[i] == 40 + i
    ensures BrightFgCodes[i] == 90 + i && BrightBgCodes[i] == 100 + i
  {
  }

  /** Reads a control sequence `ESC [ n m` back into its number `n`. */
  function DecodeNum(s: string): Option<int>
  {
    if |s| >= 3 && s[0] == Esc && s[1] == '[' && s[|s| - 1] == 'm' then ParseDecimal(s[2..|s| - 1])
    else None
  }

  /** `Color._encode_num`: any integer, negative ones included, is encoded
      verbatim, and the sequence reads back as that integer. */
  function EncodeNum(colorCode: int): (s: string)
    ensures |s| >= 4 && s[0] == Esc && s[1] == '[' && s[|s| - 1] == 'm'
    ensures s[2..|s| - 1] == IntToDecimal(colorCode)
    ensures DecodeNum(s) == Some(colorCode)
  {
    var s := [Esc, '['] + IntToDecimal(colorCode) + "m";
    assert s[2..|s| - 1] == IntToDecimal(colorCode);
    IntToDecimalRoundTrip(colorCode);
    s
  }

  /** Two codes give the same sequence only if they are the same code. */
  lemma EncodeNumInjective(a: int, b: int)
    requires EncodeNum(a) == EncodeNum(b)
    ensures a == b
  {
    assert DecodeNum(EncodeNum(a)) == Some(a);
  }

  /** `Color.reset()` */
  function Reset(): (s: string)
    ensures s == "\U{1B}[0m"
  {
    EncodeNum(ResetCode)
  }

  /** The position of a colour name in `ColorMap`, ignoring case; `None`
      where `list.index` raises ValueError. */
  function ColorIndex(name: string): (r: Option<nat>)
    ensures r.None? <==> Lower(name) !in ColorMap
    ensures r.Some? ==> r.value < 8 && ColorMap[r.value] == Lower(name)
  {
    IndexOf(ColorMap, Lower(name))
  }

  /** `Color._map_lookup`: an unknown name raises ValueError; a known one
      gives the sequence for the entry of `codeMap` at the name's position
      (IndexError if the table were too short for it). */
  function MapLookup(name: string, codeMap: seq<int>): (r: Result<string>)
    ensures ColorIndex(name).None? ==> r == Err(ValueError)
    ensures ColorIndex(name).Some? && ColorIndex(name).value < |codeMap| ==>
      r == Ok(EncodeNum(codeMap[ColorIndex(name).value]))
    ensures ColorIndex(name).Some? && ColorIndex(name).value >= |codeMap| ==> r == Err(IndexError)
  {
    match IndexOf(ColorMap, Lower(name))
    case None => Err(ValueError)
    case Some(i) => if i < |codeMap| then Ok(EncodeNum(codeMap[i])) else Err(IndexError)
  }

  /** `Color.fg`: the colour at position i has foreground code 30 + i. */
  function Fg(name: string): (r: Result<string>)
    ensures r.Ok? <==> ColorIndex(name).Some?
    ensures r.Err? ==> r.error == ValueError
    ensures r.Ok? ==> r.value == EncodeNum(30 + ColorIndex(name).value)
  {
    match ColorIndex(name)
    case None => MapLookup(name, FgCodes)
    case Some(i) => CodesAt(i); MapLookup(name, FgCodes)
  }

  /** `Color.bg`: the colour at position i has background code 40 + i. */
  function Bg(name: string): (r: Result<string>)
    ensures r.Ok? <==> ColorIndex(name).Some?
    ensures r.Err? ==> r.error == ValueError
    ensures r.Ok? ==> r.value == EncodeNum(40 + ColorIndex(name).value)
  {
    match ColorIndex(name)
    case None => MapLookup(name, BgCodes)
    case Some(i) => CodesAt(i); MapLookup(name, BgCodes)
  }

  /** `BrightColor.fg`: the colour at position i has bright foreground code 90 + i. */
  function BrightFg(name: string): (r: Result<string>)
    ensures r.Ok? <==> ColorIndex(name).Some?
    ensures r.Err? ==> r.error == ValueError
    ensures r.Ok? ==> r.value == EncodeNum(90 + ColorIndex(name).value)
  {
    match ColorIndex(name)
    case None => MapLookup(name, BrightFgCodes)
    case Some(i) => CodesAt(i); MapLookup(name, BrightFgCodes)
  }

  /** `BrightColor.bg`: the colour at position i has bright background code 100 + i. */
  function BrightBg(name: string): (r: Result<string>)
    ensures r.Ok? <==> ColorIndex(name).Some?
    ensures r.Err? ==> r.error == ValueError
    ensures r.Ok? ==> r.value == EncodeNum(100 + ColorIndex(name).value)
  {
    match ColorIndex(name)
    case None => MapLookup(name, BrightBgCodes)
    case Some(i) => CodesAt(i); MapLookup(name, BrightBgCodes)
  }

  /** Every lookup gives the same answer for a name and its lowercase form. */
  lemma LookupIgnoresCase(name: string)
    ensures Fg(name) == Fg(Lower(name)) && Bg(name) == Bg(Lower(name))
    ensures BrightFg(name) == BrightFg(Lower(name)) && BrightBg(name) == BrightBg(Lower(name))
  {
    LowerIdempotent(name);
  }

  /** Within each table, two names give the same sequence only when they
      are the same colour. */
  lemma SameSequenceSameColor(a: string, b: string)
    ensures Fg(a).Ok? && Fg(a) == Fg(b) ==> Lower(a) == Lower(b)
    ensures Bg(a).Ok? && Bg(a) == Bg(b) ==> Lower(a) == Lower(b)
    ensures BrightFg(a).Ok? && BrightFg(a) == BrightFg(b) ==> Lower(a) == Lower(b)
    ensures BrightBg(a).Ok? && BrightBg(a) == BrightBg(b) ==> Lower(a) == Lower(b)
  {
    if ColorIndex(a).Some? && ColorIndex(b).Some? {
      var i, j := ColorIndex(a).value, ColorIndex(b).value;
      assert DecodeNum(EncodeNum(30 + i)) == Some(30 + i) && DecodeNum(EncodeNum(30 + j)) == Some(30 + j);
      assert DecodeNum(EncodeNum(40 + i)) == Some(40 + i) && DecodeNum(EncodeNum(40 + j)) == Some(40 + j);
      assert DecodeNum(EncodeNum(90 + i)) == Some(90 + i) && DecodeNum(EncodeNum(90 + j)) == Some(90 + j);
      assert DecodeNum(EncodeNum(100 + i)) == Some(100 + i) && DecodeNum(EncodeNum(100 + j)) == Some(100 + j);
    }
  }

  /** No sequence of one table is also a sequence of another table, nor
      the reset sequence. */
  lemma TablesDisjoint(a: string, b: string)
    requires ColorIndex(a).Some? && ColorIndex(b).Some?
    ensures Fg(a) != Bg(b) && Fg(a) != BrightFg(b) && Fg(a) != BrightBg(b)
    ensures Bg(a) != BrightFg(b) && Bg(a) != BrightBg(b) && BrightFg(a) != BrightBg(b)
    ensures Fg(a) != Ok(Reset()) && Bg(a) != Ok(Reset())
    ensures BrightFg(a) != Ok(Reset()) && BrightBg(a) != Ok(Reset())
  {
    var i, j := ColorIndex(a).value, ColorIndex(b).value;
    var codes := [30 + i, 40 + i, 90 + i, 100 + i, 40 + j, 90 + j, 100 + j, 0];
    forall k | 0 <= k < |codes|
      ensures DecodeNum(EncodeNum(codes[k])) == Some(codes[k])
    {
    }
  }

  /** Two-digit codes are rendered as their two digits. */
  lemma TwoDigitCode(n: int)
    requires 10 <= n < 100
    ensures EncodeNum(n) == [Esc, '[', DigitChar(n / 10), DigitChar(n % 10), 'm']
  {
    assert NatToDecimal(n) == NatToDecimal(n / 10) + [DigitChar(n % 10)];
  }

  /** "Red" is found at position 1, whatever its case. */
  lemma RedIndex()
    ensures ColorIndex("Red") == ColorIndex("RED") == ColorIndex("red") == Some(1)
  {
    assert Lower("Red") == "red";
    assert Lower("RED") == "red";
    assert Lower("red") == "red";
  }

  /** The colour the file-type marker uses: bright red is code 91. */
  lemma BrightRed()
    ensures BrightFg("Red") == Ok("\U{1B}[91m")
  {
    RedIndex();
    BrightRedOf("Red");
  }

  /** Any spelling of red gives bright foreground code 91. */
  lemma BrightRedOf(name: string)
    requires ColorIndex(name) == Some(1)
    ensures BrightFg(name) == Ok("\U{1B}[91m")
  {
    assert BrightFg(name) == Ok(EncodeNum(91));
    Code91();
  }

  lemma Code91()
    ensures EncodeNum(91) == "\U{1B}[91m"
  {
    TwoDigitCode(91);
  }

  /** Any spelling of red gives foreground code 31. */
  lemma RedOf(name: string)
    requires ColorIndex(name) == Some(1)
    ensures Fg(name) == Ok("\U{1B}[31m")
  {
    assert Fg(name) == Ok(EncodeNum(31));
    Code31();
  }

  lemma Code31()
    ensures EncodeNum(31) == "\U{1B}[31m"
  {
    TwoDigitCode(31);
  }

  /** Case does not matter. */
  lemma LookupExamples()
    ensures Fg("RED") == Fg("red") == Fg("Red") == Ok("\U{1B}[31m")
  {
    RedIndex();
    RedOf("RED");
    RedOf("red");
    RedOf("Red");
  }

  /** `str.lower` turns the Kelvin sign into the letter k, so a name
      spelled with it still finds its colour. */
  lemma KelvinSignExample()
    ensures Fg("blac\U{212A}") == Fg("black") == Ok("\U{1B}[30m")
  {
    assert Lower("blac\U{212A}") == "black";
    assert Lower("black") == "black";
    BlackOf("blac\U{212A}");
    BlackOf("black");
  }

  lemma BlackOf(name: string)
    requires ColorIndex(name) == Some(0)
    ensures Fg(name) == Ok("\U{1B}[30m")
  {
    assert Fg(name) == Ok(EncodeNum(30));
    Code30();
  }

  lemma Code30()
    ensures EncodeNum(30) == "\U{1B}[30m"
  {
    TwoDigitCode(30);
  }

  /** A name outside the eight fails with ValueError, in every table:
      the source calls ANSI magenta "purple". */
  lemma UnknownColorExample()
    ensures Fg("Magenta") == Bg("Magenta") == BrightFg("Magenta") == BrightBg("Magenta") == Err(ValueError)
  {
    var low := Lower("Magenta");
    assert |low| == 7;
    forall k | 0 <= k < |ColorMap| ensures ColorMap[k] != low {
      assert |ColorMap[k]| != 7;
    }
  }
}
