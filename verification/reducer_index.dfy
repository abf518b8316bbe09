/**
 * `tools/add-reducer-to-index.mjs`: appends `export * from "./<Name>";` to
 * the reducers' `index.ts` unless a line of the file already holds it.
 */
module ReducerIndex {
  import opened Wrappers

  /**
   * The characters JavaScript's `trim`/`trimEnd` remove: WhiteSpace
   * (TAB, VT, FF, SP, NBSP, ZWNBSP and the space separators) and
   * LineTerminator (LF, CR, LS, PS).
   */
  predicate IsJsWhitespace(c: char) {
    c == '\t' || c == '\U{000B}' || c == '\U{000C}' || c == ' ' || c == '\U{00A0}' || c == '\U{FEFF}'
    || c == '\U{1680}' || ('\U{2000}' <= c <= '\U{200A}') || c == '\U{202F}' || c == '\U{205F}' || c == '\U{3000}'
    || c == '\n' || c == '\r' || c == '\U{2028}' || c == '\U{2029}'
  }

  /** `s.trimEnd()`: the longest prefix of `s` that does not end in whitespace. */
  function TrimEnd(s: string): (r: string)
    ensures r <= s
    ensures r == [] || !IsJsWhitespace(r[|r| - 1])
    ensures forall i :: |r| <= i < |s| ==> IsJsWhitespace(s[i])
    decreases |s|
  {
    if s == [] || !IsJsWhitespace(s[|s| - 1]) then s
    else TrimEnd(s[..|s| - 1])
  }

  /** The suffix of `s` left after removing its leading whitespace. */
  function TrimStart(s: string): (r: string)
    ensures |r| <= |s| && r == s[|s| - |r|..]
    ensures r == [] || !IsJsWhitespace(r[0])
    ensures forall i :: 0 <= i < |s| - |r| ==> IsJsWhitespace(s[i])
    decreases |s|
  {
    if s == [] || !IsJsWhitespace(s[0]) then s
    else TrimStart(s[1..])
  }

  /** `s.trim()`: `s` without its leading and trailing whitespace. */
  function Trim(s: string): (r: string)
    ensures |r| <= |s|
    ensures r == [] || (!IsJsWhitespace(r[0]) && !IsJsWhitespace(r[|r| - 1]))
  {
    TrimStart(TrimEnd(s))
  }

  /** The trim is the slice of `s` between a whitespace prefix and a whitespace suffix. */
  lemma TrimIsSlice(s: string)
    ensures var end := |TrimEnd(s)|; var k := end - |Trim(s)|;
      0 <= k && Trim(s) == s[k..end]
      && (forall i :: 0 <= i < k ==> IsJsWhitespace(s[i]))
      && (forall i :: end <= i < |s| ==> IsJsWhitespace(s[i]))
  {
    var e := TrimEnd(s);
    assert forall i :: 0 <= i < |e| ==> e[i] == s[i];
  }

  /** A string that neither starts nor ends with whitespace is its own trim. */
  lemma TrimFixed(s: string)
    requires s != [] && !IsJsWhitespace(s[0]) && !IsJsWhitespace(s[|s| - 1])
    ensures Trim(s) == s
  {
  }

  /** `s.trim()` is empty exactly when `s` holds only whitespace. */
  lemma TrimEmptyIffBlank(s: string)
    ensures Trim(s) == [] <==> forall i :: 0 <= i < |s| ==> IsJsWhitespace(s[i])
  {
    var e := TrimEnd(s);
    if Trim(s) == [] {
      forall i | 0 <= i < |s| ensures IsJsWhitespace(s[i]) {
        if i < |e| { assert e[i] == s[i]; }
      }
    } else if e != [] {
      assert !IsJsWhitespace(s[|e| - 1]);
    }
  }

  /** `s.split(/\r?\n/)`: a line feed, with the carriage return before it if any, ends a line. */
  function SplitLines(s: string): (lines: seq<string>)
    ensures |lines| >= 1
    ensures forall i :: 0 <= i < |lines| ==> '\n' !in lines[i]
    decreases |s|
  {
    if s == [] then [""]
    else if s[0] == '\n' then [""] + SplitLines(s[1..])
    else if s[0] == '\r' && |s| >= 2 && s[1] == '\n' then [""] + SplitLines(s[2..])
    else
      var rest := SplitLines(s[1..]);
      [[s[0]] + rest[0]] + rest[1..]
  }

  /** A string without a line feed is one line. */
  lemma {:induction false} SingleLine(s: string)
    requires '\n' !in s
    ensures SplitLines(s) == [s]
    decreases |s|
  {
    if s != [] {
      assert '\n' !in s[1..] by {
        forall i | 0 <= i < |s[1..]| ensures s[1..][i] != '\n' { assert s[1..][i] == s[i + 1]; }
      }
      SingleLine(s[1..]);
      assert [s[0]] + s[1..] == s;
    }
  }

  /** A line feed that no carriage return precedes splits the string into the lines of each side. */
  lemma {:induction false} SplitAtLineFeed(x: string, y: string)
    requires x == [] || x[|x| - 1] != '\r'
    ensures SplitLines(x + "\n" + y) == SplitLines(x) + SplitLines(y)
    decreases |x|
  {
    var s := x + "\n" + y;
    if x == [] {
      assert s == "\n" + y;
      assert s[1..] == y;
    } else if x[0] == '\n' {
      assert s[1..] == x[1..] + "\n" + y;
      SplitAtLineFeed(x[1..], y);
    } else if x[0] == '\r' && |x| >= 2 && x[1] == '\n' {
      assert s[2..] == x[2..] + "\n" + y;
      SplitAtLineFeed(x[2..], y);
    } else {
      assert x[0] == '\r' ==> |x| >= 2 && s[1] == x[1];
      assert s[1..] == x[1..] + "\n" + y;
      SplitAtLineFeed(x[1..], y);
    }
  }

  /** A carriage return and line feed split the string into the lines of each side. */
  lemma {:induction false} SplitAtCarriageReturnLineFeed(x: string, y: string)
    requires x == [] || x[|x| - 1] != '\r'
    ensures SplitLines(x + "\r\n" + y) == SplitLines(x) + SplitLines(y)
    decreases |x|
  {
    var s := x + "\r\n" + y;
    if x == [] {
      assert s == "\r\n" + y;
      assert s[2..] == y;
    } else if x[0] == '\n' {
      assert s[1..] == x[1..] + "\r\n" + y;
      SplitAtCarriageReturnLineFeed(x[1..], y);
    } else if x[0] == '\r' && |x| >= 2 && x[1] == '\n' {
      assert s[2..] == x[2..] + "\r\n" + y;
      SplitAtCarriageReturnLineFeed(x[2..], y);
    } else {
      assert x[0] == '\r' ==> |x| >= 2 && s[1] == x[1];
      assert s[1..] == x[1..] + "\r\n" + y;
      SplitAtCarriageReturnLineFeed(x[1..], y);
    }
  }

  /** `export * from "./<name>";` */
  function ExportLine(name: string): (line: string)
    ensures |line| == |name| + 19
    ensures line[..17] == "export * from \"./" && line[17..17 + |name|] == name && line[17 + |name|..] == "\";"
  {
    "export * from \"./" + name + "\";"
  }

  lemma ExportLineShape(name: string)
    ensures var line := ExportLine(name);
      line != [] && !IsJsWhitespace(line[0]) && line[|line| - 1] == ';'
      && Trim(line) == line
      && ('\n' in line <==> '\n' in name)
  {
    var line := ExportLine(name);
    assert line[..17][0] == line[0];
    assert line[17 + |name|..][1] == line[|line| - 1];
    TrimFixed(line);
    ExportLineFeeds(name);
  }

  /** The export line holds a line feed exactly when the name does. */
  lemma ExportLineFeeds(name: string)
    ensures '\n' in ExportLine(name) <==> '\n' in name
  {
    var line := ExportLine(name);
    if '\n' in name {
      var i :| 0 <= i < |name| && name[i] == '\n';
      assert line[17..17 + |name|][i] == line[17 + i];
    }
    assert forall j :: 0 <= j < 17 ==> line[j] == line[..17][j];
    assert forall j :: 17 + |name| <= j < |line| ==> line[j] == line[17 + |name|..][j - 17 - |name|];
    assert forall j :: 17 <= j < 17 + |name| ==> line[j] == line[17..17 + |name|][j - 17];
  }

  /** `lines.some((line) => line.trim() === exportLine)`. */
  predicate AlreadyExists(content: string, exportLine: string) {
    exists line :: line in SplitLines(content) && Trim(line) == exportLine
  }

  /** The content written when the line is missing: appended after the trimmed old content. */
  function NewContent(current: string, exportLine: string): (r: string)
    ensures Trim(current) != [] ==> TrimEnd(current) + "\n" <= r
    ensures Trim(current) != [] ==> |r| == |TrimEnd(current)| + 1 + |exportLine| + 1
    ensures Trim(current) == [] ==> r == exportLine + "\n"
    ensures |r| > |exportLine| && r[|r| - |exportLine| - 1..] == exportLine + "\n"
  {
    if |Trim(current)| > 0 then TrimEnd(current) + "\n" + exportLine + "\n"
    else exportLine + "\n"
  }

  /** The name to use, or `None` when the argument is missing or blank (exit code 1, no write). */
  function ValidateName(arg: Option<string>): (r: Option<string>)
    ensures r.Some? <==> arg.Some? && Trim(arg.value) != []
    ensures r.Some? ==> r.value == Trim(arg.value)
  {
    if arg.None? || arg.value == [] then None
    else if Trim(arg.value) == [] then None
    else Some(Trim(arg.value))
  }

  /** The index content after a successful run: unchanged if the export line is present. */
  function Apply(content: string, name: string): (r: string)
    ensures AlreadyExists(content, ExportLine(name)) ==> r == content
    ensures !AlreadyExists(content, ExportLine(name)) ==> r == NewContent(content, ExportLine(name))
  {
    if AlreadyExists(content, ExportLine(name)) then content else NewContent(content, ExportLine(name))
  }

  /** After an append, the export line is one of the file's lines. */
  lemma NewContentHasLine(current: string, name: string)
    requires '\n' !in name
    ensures AlreadyExists(NewContent(current, ExportLine(name)), ExportLine(name))
  {
    var line := ExportLine(name);
    ExportLineShape(name);
    SingleLine(line);
    SplitAtLineFeed(line, "");
    assert line + "\n" + "" == line + "\n";
    assert SplitLines(line + "\n") == [line, ""];
    if |Trim(current)| > 0 {
      var t := TrimEnd(current);
      assert t == [] || t[|t| - 1] != '\r';
      SplitAtLineFeed(t, line + "\n");
      assert t + "\n" + line + "\n" == t + "\n" + (line + "\n");
      assert SplitLines(NewContent(current, line)) == SplitLines(t) + [line, ""];
      assert line in SplitLines(NewContent(current, line));
    } else {
      assert line in SplitLines(NewContent(current, line));
    }
  }

  /** Running the tool twice with the same name leaves what running it once left. */
  lemma ApplyIdempotent(content: string, name: string)
    requires '\n' !in name
    ensures Apply(Apply(content, name), name) == Apply(content, name)
  {
    if !AlreadyExists(content, ExportLine(name)) {
      NewContentHasLine(content, name);
    }
  }

  /** Trimming never introduces a line feed. */
  lemma TrimKeepsLineFeedOut(l: string)
    requires '\n' !in l
    ensures '\n' !in Trim(l)
  {
    var e, t := TrimEnd(l), Trim(l);
    forall i | 0 <= i < |t| ensures t[i] != '\n' {
      assert t[i] == e[|e| - |t| + i] == l[|e| - |t| + i];
    }
  }

  /** No line of any content can equal an export line that holds a line feed. */
  lemma NeverFoundWithLineFeed(content: string, name: string)
    requires '\n' in name
    ensures !AlreadyExists(content, ExportLine(name))
  {
    ExportLineShape(name);
    forall l | l in SplitLines(content) ensures Trim(l) != ExportLine(name) {
      TrimKeepsLineFeedOut(l);
    }
  }

  /** A name with a line feed inside is never found again: every run appends another copy. */
  lemma NameWithLineFeedNotIdempotent(content: string, name: string)
    requires '\n' in name
    ensures |Apply(Apply(content, name), name)| > |Apply(content, name)|
  {
    var line := ExportLine(name);
    ExportLineShape(name);
    NeverFoundWithLineFeed(content, name);
    var once := Apply(content, name);
    NeverFoundWithLineFeed(once, name);
    OnceEndsWithLine(content, line);
    TrimEndOfLineFeedTerminated(once, line);
  }

  /** After an append, the content ends with the export line and a line feed. */
  lemma OnceEndsWithLine(content: string, line: string)
    ensures var once := NewContent(content, line);
      |once| > |line| && once[|once| - |line| - 1..] == line + "\n"
  {
  }

  /** Trailing whitespace trimming of `…<line>\n` only removes the final line feed. */
  lemma TrimEndOfLineFeedTerminated(s: string, line: string)
    requires line != [] && line[|line| - 1] == ';'
    requires |s| > |line| && s[|s| - |line| - 1..] == line + "\n"
    ensures TrimEnd(s) == s[..|s| - 1]
    ensures Trim(s) != []
    ensures |NewContent(s, line)| > |s|
  {
    assert s[|s| - 1] == '\n';
    assert s[..|s| - 1][|s| - 2] == ';';
    TrimEmptyIffBlank(s);
    assert !IsJsWhitespace(s[|s| - 2]);
  }

  /** The reducers directory as the script sees it. */
  class ReducersDir {
    var index: Option<string>   // the content of `index.ts`; `None` when the file does not exist

    constructor (index: Option<string>)
      ensures this.index == index
    {
      this.index := index;
    }
  }

  /**
   * The script's run: validate the argument, read `index.ts` (a missing
   * file reads as empty), and write the new content unless the line is
   * present. `readFails` and `writeFails` stand for any other I/O error
   * of `readFile` and `writeFile`; the result is the process exit code.
   */
  method AddReducerToIndex(arg: Option<string>, dir: ReducersDir, readFails: bool, writeFails: bool)
    returns (exitCode: int)
    modifies dir
    ensures ValidateName(arg).None? ==> exitCode == 1 && dir.index == old(dir.index)
    ensures ValidateName(arg).Some? && old(dir.index).Some? && readFails ==>
      exitCode == 1 && dir.index == old(dir.index)
    ensures ValidateName(arg).Some? && (old(dir.index).None? || !readFails) ==>
      var content := old(dir.index).GetOr("");
      var name := ValidateName(arg).value;
      if AlreadyExists(content, ExportLine(name)) then exitCode == 0 && dir.index == old(dir.index)
      else if writeFails then exitCode == 1 && dir.index == old(dir.index)
      else exitCode == 0 && dir.index == Some(Apply(content, name))
  {
    var name := ValidateName(arg);
    if name.None? {
      return 1;
    }
    var content := "";
    match dir.index {
      case None =>
      case Some(text) =>
        if readFails {
          return 1;
        }
        content := text;
    }
    var line := ExportLine(name.value);
    if AlreadyExists(content, line) {
      return 0;
    }
    if writeFails {
      return 1;
    }
    dir.index := Some(NewContent(content, line));
    exitCode := 0;
  }
}
