/** One script of the scripts home: the `ScriptFile` class of
    script_manager/manager.py. A `ScriptFile` only stores its path and
    never changes, so it is a datatype; its properties are functions, and
    `num_lines`, which counts in a loop, is a method proved against the
    function `LineStats`. */
module ScriptFiles {
  import opened PyStr
  import Color

  /** What reading the file gives: lines of text, each with its line
      terminator as Python's line iteration yields it, or bytes that do not
      decode as text (UnicodeDecodeError). */
  datatype Content = Undecodable | Lines(lines: seq<string>)

  /** `ScriptFile(path)`: `fileName` is the final component of the path
      (`Path.name`), `content` what opening the file would read. */
  datatype ScriptFile = ScriptFile(fileName: string, content: Content)

  // ---------------------------------------------------------------------
  // name: Path.stem and Path.suffix

  /** `Path.suffix`: from the last dot on, unless that dot is the first or
      the last character of the name. */
  function Suffix(fileName: string): (sfx: string)
    ensures |sfx| <= |fileName|
    ensures forall k :: 0 <= k < |sfx| ==> sfx[k] == fileName[|fileName| - |sfx| + k]
    ensures sfx != [] ==> |sfx| < |fileName| && |sfx| >= 2 && sfx[0] == '.' && '.' !in sfx[1..]
    ensures sfx == [] <==>
      (fileName != [] && fileName[|fileName| - 1] == '.') || (forall k :: 0 < k < |fileName| ==> fileName[k] != '.')
  {
    var i := RFind(fileName, '.');
    if 0 < i < |fileName| - 1 then fileName[i..] else ""
  }

  /** `ScriptFile.name`, that is `Path.stem`: the file name without its suffix. */
  function Name(f: ScriptFile): (name: string)
    ensures name + Suffix(f.fileName) == f.fileName
    ensures Suffix(f.fileName) != [] ==> name != []
  {
    var i := RFind(f.fileName, '.');
    if 0 < i < |f.fileName| - 1 then f.fileName[..i] else f.fileName
  }

  // ---------------------------------------------------------------------
  // filetype

  /** `script.readline()`: the first line, "" for an empty file, `None`
      where decoding fails. */
  function FirstLine(c: Content): (line: Option<string>)
    ensures line.None? <==> c.Undecodable?
    ensures c.Lines? && c.lines != [] ==> line == Some(c.lines[0])
    ensures c == Lines([]) ==> line == Some("")
  {
    match c
    case Undecodable => None
    case Lines(ls) => Some(if ls == [] then "" else ls[0])
  }

  /** `line.startswith("#!")` on a line that was read. */
  predicate IsShebang(line: Option<string>): (b: bool)
    ensures b <==> line.Some? && |line.value| >= 2 && line.value[0] == '#' && line.value[1] == '!'
  {
    line.Some? && |line.value| >= 2 && line.value[..2] == "#!"
  }

  /** The marker for an unknown file type: "??" in bright red, then the
      reset sequence. */
  function UnknownType(): (s: string)
    ensures s == "\U{1B}[91m??\U{1B}[0m"
  {
    Color.BrightRed();
    MarkerText(Color.BrightFg("Red").value, Color.Reset());
    Color.BrightFg("Red").value + "??" + Color.Reset()
  }

  /** The marker spelled out from its two sequences. */
  lemma MarkerText(red: string, reset: string)
    requires red == "\U{1B}[91m" && reset == "\U{1B}[0m"
    ensures red + "??" + reset == "\U{1B}[91m??\U{1B}[0m"
  {
  }

  /** `ScriptFile.filetype`: the suffix without its dot; else, when the
      first line is a shebang, the second space-separated token of that
      line without trailing whitespace (IndexError, uncaught, when the line
      has no space); else, and also when the file does not decode, the
      red "??" marker. */
  function Filetype(f: ScriptFile): (r: Result<string>)
    ensures Suffix(f.fileName) != [] ==>
      r.Ok? && f.fileName == Name(f) + "." + r.value && r.value != [] && '.' !in r.value
    ensures Suffix(f.fileName) == [] && !IsShebang(FirstLine(f.content)) ==> r == Ok(UnknownType())
    ensures Suffix(f.fileName) == [] && IsShebang(FirstLine(f.content)) ==>
      var line := FirstLine(f.content).value;
      && (' ' !in line ==> r == Err(IndexError))
      && (' ' in line ==> r == Ok(RStrip(Split(line, ' ')[1])))
    ensures r.Err? ==> r.error == IndexError
  {
    var sfx := Suffix(f.fileName);
    var ext := if |sfx| >= 1 then sfx[1..] else "";
    if ext != "" then
      NameDotType(f);
      Ok(ext)
    else
      var line := FirstLine(f.content);
      if IsShebang(line) then
        var parts := Split(line.value, ' ');
        if |parts| > 1 then Ok(RStrip(parts[1])) else Err(IndexError)
      else
        Ok(UnknownType())
  }

  /** A name with a suffix is its stem, a dot and the suffix's text. */
  lemma NameDotType(f: ScriptFile)
    requires Suffix(f.fileName) != []
    ensures var ext := Suffix(f.fileName)[1..];
      f.fileName == Name(f) + "." + ext && ext != [] && '.' !in ext
  {
    var sfx := Suffix(f.fileName);
    assert sfx == ['.'] + sfx[1..];
  }

  /** A file with a suffix is typed by the suffix alone: its content is
      never read. */
  lemma FiletypeIgnoresContent(f: ScriptFile, other: Content)
    requires Suffix(f.fileName) != []
    ensures Filetype(f) == Filetype(f.(content := other))
  {
  }

  /** A script named by its suffix. */
  lemma SuffixExample()
    ensures Filetype(ScriptFile("build.sh", Undecodable)) == Ok("sh")
    ensures Name(ScriptFile("build.sh", Undecodable)) == "build"
  {
    ShSuffix("build.sh");
  }

  lemma ShSuffix(n: string)
    requires n == "build.sh"
    ensures Suffix(n) == ".sh" && n[..5] == "build"
  {
    assert RFind("build.sh", '.') == 5;
  }

  /** A script named by its shebang line. */
  lemma ShebangExample()
    ensures Filetype(ScriptFile("config", Lines(["#!/usr/bin/env bash\n", "echo\n"]))) == Ok("bash")
  {
    NoSuffix("config");
    EnvShebang(ScriptFile("config", Lines(["#!/usr/bin/env bash\n", "echo\n"])));
  }

  /** Any script without a suffix whose first line is `#!/usr/bin/env bash`. */
  lemma EnvShebang(f: ScriptFile)
    requires Suffix(f.fileName) == [] && FirstLine(f.content) == Some("#!/usr/bin/env bash\n")
    ensures Filetype(f) == Ok("bash")
  {
    assert "#!/usr/bin/env bash\n"[..2] == "#!";
    BashToken();
    BashStripped();
  }

  lemma BashStripped()
    ensures RStrip("bash\n") == "bash"
  {
    assert "bash\n"[..4] == "bash";
  }

  /** A script with neither a suffix nor a readable first line. */
  lemma UndecodableExample()
    ensures Filetype(ScriptFile("config", Undecodable)) == Ok("\U{1B}[91m??\U{1B}[0m")
  {
    NoSuffix("config");
  }

  lemma NoSuffix(n: string)
    requires n == "config"
    ensures Suffix(n) == []
  {
    assert forall k :: 0 < k < |n| ==> n[k] != '.';
  }

  /** The interpreter token of an `env` shebang line. */
  lemma BashToken()
    ensures Split("#!/usr/bin/env bash\n", ' ')[1] == "bash\n"
  {
    SecondPartOf("#!/usr/bin/env", "bash\n");
    assert "#!/usr/bin/env" + [' '] + "bash\n" == "#!/usr/bin/env bash\n";
  }

  /** Part 1 of a line with exactly one space is the text after it. */
  lemma SecondPartOf(a: string, b: string)
    requires ' ' !in a && ' ' !in b
    ensures Split(a + [' '] + b, ' ')[1] == b
  {
    SplitAtFirst(a, b, ' ');
    SplitWithoutSep(b, ' ');
  }

  /** The shebang file type of a line with a space: the text after the
      first space up to the next space or the end, less trailing
      whitespace. */
  lemma SecondToken(line: string)
    requires ' ' in line
    ensures var i := IndexOf(line, ' ').value;
      var j := i + 1 + |Split(line, ' ')[1]|;
      var ft := RStrip(Split(line, ' ')[1]);
      && i + 1 + |ft| <= j <= |line|
      && (j == |line| || line[j] == ' ')
      && ' ' !in line[i + 1..j]
      && line[i + 1..i + 1 + |ft|] == ft
      && AllSpace(line[i + 1 + |ft|..j])
      && (ft == [] || !IsSpace(ft[|ft| - 1]))
  {
    SplitSecondPart(line, ' ');
    var tok := Split(line, ' ')[1];
    TokenFacts(line, IndexOf(line, ' ').value, tok);
    RStripSpec(tok);
  }

  /** What `rstrip` keeps of a token that sits after position i of a line. */
  lemma TokenFacts(line: string, i: nat, tok: string)
    requires i + 1 + |tok| <= |line|
    requires line[i + 1..i + 1 + |tok|] == tok
    ensures var ft := RStrip(tok);
      && line[i + 1..i + 1 + |ft|] == ft
      && AllSpace(line[i + 1 + |ft|..i + 1 + |tok|])
  {
    RStripWithin(line, i + 1, i + 1 + |tok|);
  }

  // ---------------------------------------------------------------------
  // num_lines

  /** A blank line: `not line.strip()`, that is, whitespace only
      (`StripEmptyIffAllSpace`). */
  predicate IsBlank(line: string)
  {
    AllSpace(line)
  }

  /** The test `not line.strip()` in the loop of `num_lines`. */
  method StripsToEmpty(line: string) returns (b: bool)
    ensures b <==> IsBlank(line)
  {
    StripEmptyIffAllSpace(line);
    b := Strip(line) == [];
  }

  /** How many of the lines are blank. */
  function CountBlank(lines: seq<string>): (n: nat)
    ensures n <= |lines|
  {
    if lines == [] then 0
    else CountBlank(lines[..|lines| - 1]) + (if IsBlank(lines[|lines| - 1]) then 1 else 0)
  }

  /** The pair `num_lines` returns: (lines, blank lines), or (-1, 0) when
      the file does not decode. */
  function LineStats(c: Content): (stats: (int, int))
    ensures c.Undecodable? ==> stats == (-1, 0)
    ensures c.Lines? ==> stats == (|c.lines|, CountBlank(c.lines)) && 0 <= stats.1 <= stats.0
  {
    match c
    case Undecodable => (-1, 0)
    case Lines(ls) => (|ls|, CountBlank(ls))
  }

  /** `ScriptFile.num_lines`: counts every line and every blank line in one
      pass; a file that does not decode gives the sentinel (-1, 0). */
  method NumLines(f: ScriptFile) returns (lineCount: int, blankLineCount: int)
    ensures (lineCount, blankLineCount) == LineStats(f.content)
  {
    lineCount, blankLineCount := 0, 0;
    match f.content {
      case Undecodable =>
        return -1, 0;
      case Lines(ls) =>
        for i := 0 to |ls|
          invariant lineCount == i
          invariant blankLineCount == CountBlank(ls[..i])
        {
          assert ls[..i + 1][..i] == ls[..i];
          lineCount := lineCount + 1;
          var blank := StripsToEmpty(ls[i]);
          if blank {
            blankLineCount := blankLineCount + 1;
          }
        }
        assert ls[..|ls|] == ls;
    }
  }

  /** All lines count as blank exactly when every line is blank. */
  lemma {:induction false} CountBlankAll(lines: seq<string>)
    ensures CountBlank(lines) == |lines| <==> forall k :: 0 <= k < |lines| ==> IsBlank(lines[k])
  {
    if lines != [] {
      var init := lines[..|lines| - 1];
      CountBlankAll(init);
      assert forall k :: 0 <= k < |init| ==> init[k] == lines[k];
    }
  }

  /** No line counts as blank exactly when no line is blank. */
  lemma {:induction false} CountBlankNone(lines: seq<string>)
    ensures CountBlank(lines) == 0 <==> forall k :: 0 <= k < |lines| ==> !IsBlank(lines[k])
  {
    if lines != [] {
      var init := lines[..|lines| - 1];
      CountBlankNone(init);
      assert forall k :: 0 <= k < |init| ==> init[k] == lines[k];
    }
  }

  /** Counting is additive over a split of the file. */
  lemma {:induction false} CountBlankAppend(a: seq<string>, b: seq<string>)
    ensures CountBlank(a + b) == CountBlank(a) + CountBlank(b)
    decreases |b|
  {
    if b != [] {
      CountBlankAppend(a, b[..|b| - 1]);
      assert (a + b)[..|a + b| - 1] == a + b[..|b| - 1];
    } else {
      assert a + b == a;
    }
  }

  /** A three-line script with one empty line. */
  lemma LineStatsExample()
    ensures LineStats(Lines(["#!/bin/sh\n", "\n", "echo hi\n"])) == (3, 1)
  {
    var ls := ["#!/bin/sh\n", "\n", "echo hi\n"];
    assert ls[0][0] == '#' && ls[2][0] == 'e' && ls[1] == [ls[1][0]] && ls[1][0] == '\n';
    assert !IsBlank(ls[0]) && IsBlank(ls[1]) && !IsBlank(ls[2]);
    assert ls[..1][..0] == [] && ls[..1][0] == ls[0];
    assert CountBlank(ls[..1]) == 0;
    assert ls[..2][..1] == ls[..1] && ls[..2][1] == ls[1];
    assert CountBlank(ls[..2]) == 1;
    assert ls[..2] == ls[..|ls| - 1];
  }

  /** Effective lines of code are never negative for a decodable file and
      are -1 for an undecodable one. */
  lemma LinesOfCodeSign(c: Content)
    ensures c.Lines? ==> 0 <= LineStats(c).0 - LineStats(c).1 <= |c.lines|
    ensures c.Undecodable? ==> LineStats(c).0 - LineStats(c).1 == -1
  {
  }

  // ---------------------------------------------------------------------
  // to_str

  /** The row text for a name, a file type and the two counts: the name
      and type columns, then the count columns. */
  function Row(name: string, ft: string, total: int, blank: int): (r: string)
    ensures |r| == |NameAndType(name, ft)| + |Counts(total, blank)|
    ensures |r| > |name| && r[..|name|] == name && r[|name|] == ' '
    ensures r[..|NameAndType(name, ft)|] == NameAndType(name, ft)
    ensures r[|NameAndType(name, ft)|..] == Counts(total, blank)
  {
    NameAndType(name, ft) + Counts(total, blank)
  }

  /** The name and type columns: the name and a blank, padded with dots
      to 20; an opening bracket; the type centred in 8; a closing bracket. */
  function NameAndType(name: string, ft: string): (h: string)
    ensures |h| == Max(20, |name| + 1) + 4 + Max(8, |ft|) + 5
  {
    LJust(name + " ", 20, '.') + "  [ " + Center(ft, 8, ' ') + " ]   "
  }

  /** The three numbers, right-justified to 4, 3 and 3, with their labels. */
  function Counts(total: int, blank: int): (c: string)
    ensures |c| == Max(4, |IntToDecimal(total)|) + 12 + Max(3, |IntToDecimal(blank)|) + 9
      + Max(3, |IntToDecimal(total - blank)|) + 5
  {
    RJust(IntToDecimal(total), 4, ' ')
    + " lines .... "
    + RJust(IntToDecimal(blank), 3, ' ')
    + " blank | "
    + RJust(IntToDecimal(total - blank), 3, ' ')
    + "  LoC"
  }

  /** `ScriptFile.to_str`: the row for this file; fails only where
      `filetype` fails, with IndexError. */
  function ToStr(f: ScriptFile): (r: Result<string>)
    ensures r.Err? <==> Filetype(f).Err?
    ensures r.Err? ==> r.error == IndexError
    ensures r.Ok? ==> r.value == Row(Name(f), Filetype(f).value, LineStats(f.content).0, LineStats(f.content).1)
  {
    var stats := LineStats(f.content);
    match Filetype(f)
    case Err(e) => Err(e)
    case Ok(ft) => Ok(Row(Name(f), ft, stats.0, stats.1))
  }

  /** The name and type columns: the name, a blank, dots up to column 20
      (never truncated), then the type centred in at least 8 columns
      between brackets. */
  lemma NameAndTypeLayout(name: string, ft: string)
    ensures var h := NameAndType(name, ft);
      var a := Max(20, |name| + 1);
      && |h| == a + 4 + Max(8, |ft|) + 5
      && h[..|name|] == name && h[|name|] == ' '
      && (forall k :: |name| < k < a ==> h[k] == '.')
      && h[a..a + 4] == "  [ "
      && h[a + 4..|h| - 5] == Center(ft, 8, ' ')
      && h[|h| - 5..] == " ]   "
  {
    var f1 := LJust(name + " ", 20, '.');
    NameAndTypeFields(name, f1, Center(ft, 8, ' '));
  }

  /** Where the padded name and the type sit, whatever the type field holds. */
  lemma NameAndTypeFields(name: string, f1: string, f3: string)
    requires |f1| >= |name| + 1 && f1[..|name| + 1] == name + " "
    ensures var h := f1 + "  [ " + f3 + " ]   ";
      var a := |f1|;
      && |h| == a + 4 + |f3| + 5
      && h[..|name|] == name && h[|name|] == ' '
      && (forall k :: |name| < k < a ==> h[k] == f1[k])
      && h[a..a + 4] == "  [ "
      && h[a + 4..|h| - 5] == f3
      && h[|h| - 5..] == " ]   "
  {
    SliceOfConcat3(f1, "  [ ", f3, " ]   ");
    var h := f1 + "  [ " + f3 + " ]   ";
    assert forall k :: 0 <= k <= |name| ==> h[k] == (name + " ")[k] by {
      assert forall k :: 0 <= k <= |name| ==> f1[k] == f1[..|name| + 1][k];
    }
  }

  /** The count columns: each number right-justified with blanks in its
      field (4, 3 and 3 wide, never truncated), reading back as that
      number, and the labels between the fields. */
  lemma CountsLayout(total: int, blank: int)
    ensures var c := Counts(total, blank);
      var f1 := RJust(IntToDecimal(total), 4, ' ');
      var f2 := RJust(IntToDecimal(blank), 3, ' ');
      var f3 := RJust(IntToDecimal(total - blank), 3, ' ');
      var w1 := |f1|;
      var w2 := w1 + 12 + |f2|;
      var w3 := w2 + 9 + |f3|;
      && |c| == w3 + 5
      && c[..w1] == f1 && ParseDecimal(LStrip(c[..w1])) == Some(total)
      && c[w1..w1 + 12] == " lines .... "
      && c[w1 + 12..w2] == f2 && ParseDecimal(LStrip(c[w1 + 12..w2])) == Some(blank)
      && c[w2..w2 + 9] == " blank | "
      && c[w2 + 9..w3] == f3 && ParseDecimal(LStrip(c[w2 + 9..w3])) == Some(total - blank)
      && c[w3..] == "  LoC"
  {
    CountsLabels(total, blank);
    TotalField(total, blank);
    BlankField(total, blank);
    CodeField(total, blank);
  }

  /** The labels of the count columns. */
  lemma CountsLabels(total: int, blank: int)
    ensures var c := Counts(total, blank);
      var w1 := |RJust(IntToDecimal(total), 4, ' ')|;
      var w2 := w1 + 12 + |RJust(IntToDecimal(blank), 3, ' ')|;
      var w3 := w2 + 9 + |RJust(IntToDecimal(total - blank), 3, ' ')|;
      && |c| == w3 + 5 && c[w1..w1 + 12] == " lines .... " && c[w2..w2 + 9] == " blank | " && c[w3..] == "  LoC"
  {
    CountsFields(RJust(IntToDecimal(total), 4, ' '), RJust(IntToDecimal(blank), 3, ' '),
                 RJust(IntToDecimal(total - blank), 3, ' '));
  }

  /** The first count column is the number of lines right-justified to 4,
      and reads back as that number. */
  lemma TotalField(total: int, blank: int)
    ensures var c := Counts(total, blank);
      var f := RJust(IntToDecimal(total), 4, ' ');
      c[..|f|] == f && ParseDecimal(LStrip(c[..|f|])) == Some(total)
  {
    FirstField(RJust(IntToDecimal(total), 4, ' '), RJust(IntToDecimal(blank), 3, ' '),
               RJust(IntToDecimal(total - blank), 3, ' '));
    RJustDecimalReadBack(total, 4);
  }

  /** The second count column is the number of blank lines right-justified
      to 3, and reads back as that number. */
  lemma BlankField(total: int, blank: int)
    ensures var c := Counts(total, blank);
      var f := RJust(IntToDecimal(blank), 3, ' ');
      var lo := |RJust(IntToDecimal(total), 4, ' ')| + 12;
      c[lo..lo + |f|] == f && ParseDecimal(LStrip(c[lo..lo + |f|])) == Some(blank)
  {
    SecondField(RJust(IntToDecimal(total), 4, ' '), RJust(IntToDecimal(blank), 3, ' '),
                RJust(IntToDecimal(total - blank), 3, ' '));
    RJustDecimalReadBack(blank, 3);
  }

  /** The third count column is the lines of code right-justified to 3,
      and reads back as that number. */
  lemma CodeField(total: int, blank: int)
    ensures var c := Counts(total, blank);
      var f := RJust(IntToDecimal(total - blank), 3, ' ');
      var lo := |RJust(IntToDecimal(total), 4, ' ')| + 12 + |RJust(IntToDecimal(blank), 3, ' ')| + 9;
      c[lo..lo + |f|] == f && ParseDecimal(LStrip(c[lo..lo + |f|])) == Some(total - blank)
  {
    ThirdField(RJust(IntToDecimal(total), 4, ' '), RJust(IntToDecimal(blank), 3, ' '),
               RJust(IntToDecimal(total - blank), 3, ' '));
    RJustDecimalReadBack(total - blank, 3);
  }

  /** Where the three number fields and the labels sit, whatever the fields hold. */
  lemma CountsFields(f1: string, f2: string, f3: string)
    ensures var c := f1 + " lines .... " + f2 + " blank | " + f3 + "  LoC";
      var w1 := |f1|;
      var w2 := w1 + 12 + |f2|;
      var w3 := w2 + 9 + |f3|;
      && |c| == w3 + 5
      && c[w1..w1 + 12] == " lines .... "
      && c[w2..w2 + 9] == " blank | "
      && c[w3..] == "  LoC"
  {
    SliceOfConcat6(f1, " lines .... ", f2, " blank | ", f3, "  LoC");
  }

  lemma FirstField(f1: string, f2: string, f3: string)
    ensures (f1 + " lines .... " + f2 + " blank | " + f3 + "  LoC")[..|f1|] == f1
  {
    SliceOfConcat6(f1, " lines .... ", f2, " blank | ", f3, "  LoC");
  }

  lemma SecondField(f1: string, f2: string, f3: string)
    ensures (f1 + " lines .... " + f2 + " blank | " + f3 + "  LoC")[|f1| + 12..|f1| + 12 + |f2|] == f2
  {
    SliceOfConcat6(f1, " lines .... ", f2, " blank | ", f3, "  LoC");
  }

  lemma ThirdField(f1: string, f2: string, f3: string)
    ensures var w2 := |f1| + 12 + |f2| + 9;
      (f1 + " lines .... " + f2 + " blank | " + f3 + "  LoC")[w2..w2 + |f3|] == f3
  {
    SliceOfConcat6(f1, " lines .... ", f2, " blank | ", f3, "  LoC");
  }

  /** When every value fits its column, a row is 73 characters long and
      every column starts at the same position in every row; the row of a
      file that does not decode, with its counts (-1, 0), fits as well. */
  lemma RowFixedWidth(name: string, ft: string, total: int, blank: int)
    requires |name| < 20 && |ft| <= 8
    requires (total, blank) == (-1, 0) || 0 <= blank <= total < 1000
    ensures var r := Row(name, ft, total, blank);
      && |r| == 73
      && r[..|name|] == name
      && r[20..24] == "  [ " && r[24..32] == Center(ft, 8, ' ') && r[32..37] == " ]   "
      && r[37..41] == RJust(IntToDecimal(total), 4, ' ') && ParseDecimal(LStrip(r[37..41])) == Some(total)
      && r[41..53] == " lines .... "
      && r[53..56] == RJust(IntToDecimal(blank), 3, ' ') && ParseDecimal(LStrip(r[53..56])) == Some(blank)
      && r[56..65] == " blank | "
      && r[65..68] == RJust(IntToDecimal(total - blank), 3, ' ')
      && ParseDecimal(LStrip(r[65..68])) == Some(total - blank)
      && r[68..] == "  LoC"
  {
    NameAndTypeLayout(name, ft);
    CountsLayout(total, blank);
    if total < 0 {
      assert IntToDecimal(-1) == "-1";
    } else {
      DecimalWidth(total);
      DecimalWidth(blank);
      DecimalWidth(total - blank);
    }
    RowColumns(NameAndType(name, ft), Counts(total, blank), |name|);
  }

  /** Where each column of a 37 + 36 character row comes from. */
  lemma RowColumns(h: string, c: string, n: nat)
    requires |h| == 37 && |c| == 36 && n <= 37
    ensures var r := h + c;
      && |r| == 73 && r[..n] == h[..n]
      && r[20..24] == h[20..24] && r[24..32] == h[24..32] && r[32..37] == h[32..]
      && r[37..41] == c[..4] && r[41..53] == c[4..16] && r[53..56] == c[16..19]
      && r[56..65] == c[19..28] && r[65..68] == c[28..31] && r[68..] == c[31..]
  {
  }
}
