# Script manager: a Dafny model

`script_manager/manager.py` lists the scripts in the user's scripts home.
For each file it prints one row: the name, the file type, and the line
counts (total, blank, lines of code). The type comes from the file's suffix.
Without a suffix it comes from the file's shebang line. Failing both, it is
a red `??` marker drawn with ANSI colour codes.

This project models the string-level core of that file in four modules:

- `PyStr` (`py_str.dfy`) holds the Python builtins the core relies on,
  each defined once with its properties:
  - `str(int)`, `str.lower`, `rstrip`, `strip`;
  - `split(" ")`, `ljust`, `rjust`, `center` (with CPython's rule for an odd
    margin), `rfind` and `list.index`.
  - It also defines `isspace` and `lstrip`. The code does not call them
    itself: `isspace` is the whitespace test inside `rstrip` and `strip`,
    and `lstrip` reads a right-justified count back in the layout lemmas.
- `Color` (`color.dfy`) covers `Color` and `BrightColor`. Both classes hold
  only constant tables and class methods, so they become constants and pure
  functions. A lookup failure (`ValueError`) is an `Err` value.
- `ScriptFiles` (`script_file.dfy`) covers `ScriptFile`.
  - A `ScriptFile` never changes, so it is a datatype. It holds the file's
    name and a `Content`, either `Undecodable` or the lines that reading
    the file yields.
  - `name`, `filetype` and `to_str` are functions.
  - `num_lines` counts in a loop. It is the method `NumLines`, proved
    against the function `LineStats`.
  - The uncaught `IndexError` of `filetype` is an `Err` value.
- `Report` (`report.dfy`) covers the prefix the report loop puts before
  each row.

Two behaviours of the code are worth stating up front:

- The row prefix is a blank, the index right-justified to 2, then
  `"  -   "` (manager.py:145).
- A shebang line without a space makes `filetype`, and so `to_str`, raise
  an uncaught `IndexError` (manager.py:86-88).

## Model

| member | source | states |
|---|---|---|
| Color.EncodeNum | script_manager/manager.py:27-29 | the sequence is `ESC [`, then exactly `str(n)`, then `m`, and reads back as the code it encodes, for every integer including negative ones |
| Color.EncodeNumInjective | script_manager/manager.py:27-29 | two codes with the same sequence are the same code |
| Color.TwoDigitCode | script_manager/manager.py:29 | a two-digit code is written as its two decimal digits between `ESC [` and `m` |
| Color.Reset | script_manager/manager.py:49-52 | `reset()` is exactly `ESC [ 0 m` |
| Color.CodesAt | script_manager/manager.py:42-66 | entry i of the four tables is 30+i, 40+i, 90+i and 100+i |
| Color.ColorIndex | script_manager/manager.py:35 | no position exactly when the lowercased name is not one of the eight; otherwise a position below 8 holding the lowercased name |
| Color.MapLookup | script_manager/manager.py:31-37 | an unknown name gives ValueError; a known one gives the encoding of the table entry at its position, or IndexError past the table's end |
| Color.Fg | script_manager/manager.py:39-42 | succeeds exactly for the eight names, otherwise ValueError; the colour at position i gives code 30+i |
| Color.Bg | script_manager/manager.py:44-47 | succeeds exactly for the eight names, otherwise ValueError; the colour at position i gives code 40+i |
| Color.BrightFg | script_manager/manager.py:58-61 | succeeds exactly for the eight names, otherwise ValueError; the colour at position i gives code 90+i |
| Color.BrightBg | script_manager/manager.py:63-66 | succeeds exactly for the eight names, otherwise ValueError; the colour at position i gives code 100+i |
| Color.LookupIgnoresCase | script_manager/manager.py:35 | all four lookups give the same answer for a name and its lowercase form |
| Color.SameSequenceSameColor | script_manager/manager.py:39-66 | within each table, two names with the same sequence are the same colour up to case |
| Color.TablesDisjoint | script_manager/manager.py:39-66 | no sequence of one table equals a sequence of another table or the reset sequence |
| Color.RedIndex | script_manager/manager.py:10-22 | "Red", "RED" and "red" all sit at position 1 of the colour list |
| Color.BrightRed | script_manager/manager.py:89 | `BrightColor.fg("Red")` is `ESC [ 91 m` |
| Color.LookupExamples | script_manager/manager.py:39-42 | `fg` of "RED", "red" and "Red" is `ESC [ 31 m` in each case |
| Color.UnknownColorExample | script_manager/manager.py:35 | "Magenta" is not a colour here, so all four lookups fail with ValueError |
| Color.KelvinSignExample | script_manager/manager.py:35 | a name spelled with the Kelvin sign lowercases to "black" and gets the black foreground code |
| PyStr.IntToDecimal | script_manager/manager.py:29 | `str(n)` is non-empty, starts with a digit or `-`, and starts with `-` exactly for negative n; it has no leading zero: "0" is the only rendering starting with `0`, and a negative one continues with a non-zero digit |
| PyStr.IntToDecimalRoundTrip | script_manager/manager.py:29 | `str(n)` parses back to n |
| PyStr.IntToDecimalInjective | script_manager/manager.py:29 | different integers have different decimal strings |
| PyStr.NatToDecimalRoundTrip | script_manager/manager.py:29 | the digits of a natural number have that number as their value |
| PyStr.Lower | script_manager/manager.py:35 | the lowercase form has the same length and lowercases each character: ASCII capitals and the Kelvin sign |
| PyStr.LowerIdempotent | script_manager/manager.py:35 | lowercasing twice is lowercasing once |
| PyStr.RStripSpec | script_manager/manager.py:86 | `rstrip` keeps a prefix that does not end in whitespace, and everything it drops is whitespace |
| PyStr.RStrip | script_manager/manager.py:86 | `rstrip` never lengthens the string (what it keeps and drops: RStripSpec) |
| PyStr.Strip | script_manager/manager.py:97 | `strip()` is no longer than the line and neither starts nor ends with whitespace |
| PyStr.StripEmptyIffAllSpace | script_manager/manager.py:97 | `strip()` is empty exactly when the line is whitespace only |
| PyStr.Split | script_manager/manager.py:86 | there is always at least one part, and at least two exactly when the separator occurs |
| PyStr.SplitJoin | script_manager/manager.py:86 | joining the parts with the separator gives back the string |
| PyStr.SplitPartsLackSep | script_manager/manager.py:86 | no part holds the separator |
| PyStr.SplitWithoutSep | script_manager/manager.py:86 | a string without the separator is its own single part |
| PyStr.SplitAtFirst | script_manager/manager.py:86 | the text before the first separator is the first part, and the rest splits on its own |
| PyStr.SplitSecondPart | script_manager/manager.py:86 | part 1 runs from just after the first separator to the next separator or the end |
| PyStr.RFind | script_manager/manager.py:75-79 | the result is -1 or holds the character, and no later position holds it |
| PyStr.IndexOf | script_manager/manager.py:35 | none exactly when absent; otherwise the first position holding the value |
| PyStr.LJust | script_manager/manager.py:106 | width is the larger of the length and the target; the text comes first, fill after it |
| PyStr.RJust | script_manager/manager.py:110-114 | width is the larger of the length and the target: never truncates |
| PyStr.RJustContents | script_manager/manager.py:110-114 | a right-justified string is fill characters followed by the string itself |
| PyStr.Center | script_manager/manager.py:108 | width is the larger of the length and the target; the text is framed by fill, the two sides differing by at most one |
| PyStr.LStripRJust | script_manager/manager.py:110-115 | blank right-justification is undone by `lstrip` for text that does not start with whitespace |
| PyStr.RJustDecimalReadBack | script_manager/manager.py:110-115 | a number right-justified in a blank-padded field reads back as that number, whatever the width |
| PyStr.DecimalWidth | script_manager/manager.py:110-115 | numbers below 1000 take at most three characters |
| ScriptFiles.Suffix | script_manager/manager.py:79 | the suffix ends the name; if non-empty it is a dot and at least one character, no other dot, and not the whole name; empty exactly when the name ends in a dot or has no dot after its first character |
| ScriptFiles.Name | script_manager/manager.py:73-75 | stem followed by suffix is the file name; the stem is non-empty when there is a suffix |
| ScriptFiles.UnknownType | script_manager/manager.py:89 | the marker is exactly `ESC [ 91 m ?? ESC [ 0 m` |
| ScriptFiles.FirstLine | script_manager/manager.py:84 | `readline()`: nothing for undecodable content, the first line otherwise, "" for an empty file |
| ScriptFiles.IsShebang | script_manager/manager.py:85 | `startswith("#!")`: a line was read and its first two characters are `#` and `!` |
| ScriptFiles.Filetype | script_manager/manager.py:77-89 | a suffix gives the type, and name + "." + type is the file name; else a shebang line gives token 1 of `split(" ")` right-stripped, or IndexError without a space; else the marker; IndexError is the only failure |
| ScriptFiles.NameDotType | script_manager/manager.py:79-81 | with a suffix, the file name is the name, a dot and a non-empty type without dots |
| ScriptFiles.FiletypeIgnoresContent | script_manager/manager.py:79-81 | with a suffix, the type does not depend on the content: the file is not read |
| ScriptFiles.SecondToken | script_manager/manager.py:86 | the shebang type is the text after the first space, up to the next space or the line end, less trailing whitespace |
| ScriptFiles.SuffixExample | script_manager/manager.py:73-81 | "build.sh" has name "build" and type "sh" |
| ScriptFiles.ShebangExample | script_manager/manager.py:83-86 | "config" starting with `#!/usr/bin/env bash` has type "bash" |
| ScriptFiles.UndecodableExample | script_manager/manager.py:87-89 | an undecodable file without a suffix gets the red `??` marker |
| ScriptFiles.StripsToEmpty | script_manager/manager.py:97 | the test `not line.strip()` holds exactly for whitespace-only lines |
| ScriptFiles.CountBlank | script_manager/manager.py:95-98 | never more blank lines than lines |
| ScriptFiles.LineStats | script_manager/manager.py:91-101 | undecodable content gives (-1, 0); otherwise the number of lines and `CountBlank` of the lines, the number of lines whose `strip()` is empty |
| ScriptFiles.NumLines | script_manager/manager.py:91-101 | the loop returns exactly `LineStats` of the content |
| ScriptFiles.CountBlankAll | script_manager/manager.py:95-98 | every line counts as blank exactly when every line is whitespace only |
| ScriptFiles.CountBlankNone | script_manager/manager.py:95-98 | no line counts as blank exactly when no line is whitespace only |
| ScriptFiles.CountBlankAppend | script_manager/manager.py:95-98 | the blank count of two runs of lines is the sum of their counts |
| ScriptFiles.LineStatsExample | script_manager/manager.py:91-99 | three lines, one of them empty, give (3, 1) |
| ScriptFiles.LinesOfCodeSign | script_manager/manager.py:113-114 | lines of code lie between 0 and the number of lines, and are -1 for undecodable content |
| ScriptFiles.ToStr | script_manager/manager.py:103-116 | fails exactly when `filetype` fails, with IndexError; otherwise the row of the name, the type and the two counts |
| ScriptFiles.Row | script_manager/manager.py:105-116 | the row is the name and type columns followed by the count columns, for every input, overflowing columns included; it starts with the name and a blank |
| ScriptFiles.NameAndType | script_manager/manager.py:106-109 | the name and type columns are at least 20 + 4 + 8 + 5 wide, growing with a long name or type |
| ScriptFiles.Counts | script_manager/manager.py:110-115 | the count columns are at least 4 + 12 + 3 + 9 + 3 + 5 wide, growing with a long number |
| ScriptFiles.NameAndTypeLayout | script_manager/manager.py:106-109 | the name, a blank, dots up to column 20 (never truncated), `"  [ "`, the type centred in at least 8 columns, `" ]   "` |
| ScriptFiles.CountsLayout | script_manager/manager.py:110-115 | each count field is its number right-justified with blanks to 4, 3 and 3 (never truncated) and reads back as that number: total, blank, total − blank; the labels sit between the fields |
| ScriptFiles.CountsLabels | script_manager/manager.py:110-115 | the labels `" lines .... "`, `" blank \| "` and `"  LoC"` sit after the three fields |
| ScriptFiles.TotalField | script_manager/manager.py:110 | the first count field is `RJust(str(total), 4)` and reads back as the number of lines |
| ScriptFiles.BlankField | script_manager/manager.py:112 | the second count field is `RJust(str(blank), 3)` and reads back as the number of blank lines |
| ScriptFiles.CodeField | script_manager/manager.py:114 | the third count field is `RJust(str(total − blank), 3)` and reads back as the lines of code |
| ScriptFiles.RowFixedWidth | script_manager/manager.py:103-116 | when each value fits its column, or the counts are the sentinel (-1, 0), the row is 73 characters: the name at column 0, the brackets and the centred type at 20-37, and the three right-justified counts at 37-41, 53-56 and 65-68, each reading back as its number, with the labels between them |
| Report.RowPrefix | script_manager/manager.py:145 | the prefix is 7 characters plus the index field, at least 2 wide |
| Report.RowPrefixReadBack | script_manager/manager.py:145 | a blank, then the index right-justified with blanks to 2, which reads back as the index, then `"  -   "` |
| Report.RowPrefixWidth | script_manager/manager.py:145 | indices 1 to 99 all give 9-character prefixes |
| Report.RowPrefixInjective | script_manager/manager.py:144-145 | different indices give different prefixes |
| Report.RowPrefixExamples | script_manager/manager.py:145 | the prefixes of rows 1 and 12 spelled out |

## Left out

- `ScriptsHome` (manager.py:119-137) is not modelled. It finds the home
  directory, creates `~/bin`, and lists its regular files in filesystem
  order. All of that is filesystem I/O; the model takes each file as a
  `ScriptFile` value instead.
- Opening files and decoding them are not modelled. `Content` stands for
  what reading yields: the lines, each with its terminator, or
  `Undecodable`.
  - In Python, `readline` decodes only the start of the file, so a file can
    have a readable first line and still fail later in `num_lines`. The
    model has one `Content` for both reads.
  - Other errors from `open` (a missing file, no permission) are not
    modelled.
- The `print` calls of the header, the rule and the rows (manager.py:140-145)
  are output only and are not modelled. `Report.RowPrefix` is the text
  that goes before each row.
- PyStr.Lower: maps the ASCII capitals and the Kelvin sign U+212A to
  lowercase and keeps every other character. Python's `str.lower` also
  lowercases other alphabets, and some characters expand to two. None of
  those results is an ASCII-only string, so they cannot match a colour
  name, and the colour lookup answers as in Python. The model does not
  describe `lower` outside the lookup.
- ScriptFiles.Suffix: uses the classic `pathlib` rule: the text from the
  last dot, unless that dot is the first or the last character. Newer
  Python releases changed the rule for a name that ends in a dot; that
  variant is not modelled.
- Terminal rendering and display width are not modelled. An escape
  sequence counts as ordinary characters, so the 11-character `??` marker
  overflows the 8-column type field and gets no padding.
