/**
 * get_version in setup.py: the version string is read from the first line of
 * the package's __init__.py that starts with __version__. The file's text is
 * an input; reading it is not modelled.
 */
module SetupVersion {
  import opened Wrappers
  import opened Text

  /** The characters str.splitlines() breaks lines at ("\r\n" counts as one break). */
  predicate IsLineBreak(c: char)
  {
    c == '\n' || c == '\r' || c == '\U{000B}' || c == '\U{000C}' ||
    c == '\U{001C}' || c == '\U{001D}' || c == '\U{001E}' || c == '\U{0085}' ||
    c == '\U{2028}' || c == '\U{2029}'
  }

  predicate NoLineBreak(s: string)
  {
    forall i :: 0 <= i < |s| ==> !IsLineBreak(s[i])
  }

  /** The text after a line break at the start of s: "\r\n" is one break. */
  function AfterBreak(s: string): (r: string)
    requires |s| > 0 && IsLineBreak(s[0])
    ensures |r| < |s|
  {
    if s[0] == '\r' && |s| > 1 && s[1] == '\n' then s[2..] else s[1..]
  }

  /**
   * Python's str.splitlines(): the lines without their breaks, and no empty
   * last line after a final break.
   */
  function SplitLines(s: string): (lines: seq<string>)
    ensures forall k :: 0 <= k < |lines| ==> NoLineBreak(lines[k])
    ensures s == [] <==> lines == []
    decreases |s|
  {
    if s == [] then []
    else if IsLineBreak(s[0]) then [""] + SplitLines(AfterBreak(s))
    else
      var rest := SplitLines(s[1..]);
      if rest == [] then [[s[0]]] else [[s[0]] + rest[0]] + rest[1..]
  }

  /** A text without line breaks is one line. */
  lemma {:induction false} SplitLinesOneLine(line: string)
    requires line != [] && NoLineBreak(line)
    ensures SplitLines(line) == [line]
    decreases |line|
  {
    assert !IsLineBreak(line[0]);
    if |line| > 1 {
      SplitLinesOneLine(line[1..]);
      assert [line[0]] + line[1..] == line;
    } else {
      assert line == [line[0]];
    }
  }

  /** A line followed by a break: splitlines yields that line, then the lines of the rest. */
  lemma {:induction false} SplitLinesCons(line: string, br: string, rest: string)
    requires NoLineBreak(line)
    requires br == "\n" || br == "\r" || (br == "\r\n")
    requires br == "\r" ==> rest == [] || rest[0] != '\n'
    ensures SplitLines(line + br + rest) == [line] + SplitLines(rest)
    decreases |line|
  {
    var s := line + br + rest;
    if line == [] {
      assert s == br + rest;
      assert AfterBreak(s) == rest;
    } else {
      SplitLinesCons(line[1..], br, rest);
      assert s[1..] == line[1..] + br + rest;
      assert [line[0]] + line[1..] == line;
    }
  }

  /** The delimiter get_version splits on: a double quote if the line has one, otherwise a single quote. */
  function Delim(line: string): (d: char)
    ensures d == '"' <==> '"' in line
    ensures d != '"' ==> d == '\''
  {
    if '"' in line then '"' else '\''
  }

  /** line.split(delim)[1]: IndexError when the delimiter does not occur. */
  function VersionFromLine(line: string): (r: Result<string, Error>)
    ensures r.Failure? ==> r.error == IndexError
  {
    var parts := SplitOn(line, Delim(line));
    if |parts| > 1 then Success(parts[1]) else Failure(IndexError)
  }

  /** The for loop with its else clause: the first line starting with __version__ decides, RuntimeError when none does. */
  function FindVersion(lines: seq<string>): (r: Result<string, Error>)
    ensures r.Failure? ==> r.error == IndexError || r.error == RuntimeError
    decreases |lines|
  {
    if lines == [] then Failure(RuntimeError)
    else if StartsWith(lines[0], "__version__") then VersionFromLine(lines[0])
    else FindVersion(lines[1..])
  }

  /** get_version on the file's text. */
  function GetVersion(text: string): Result<string, Error>
  {
    FindVersion(SplitLines(text))
  }

  // ---------------------------------------------------------------- properties

  /** Line i is the first that starts with __version__. */
  predicate FirstVersionLine(lines: seq<string>, i: int)
  {
    0 <= i < |lines| && StartsWith(lines[i], "__version__") &&
    forall j :: 0 <= j < i ==> !StartsWith(lines[j], "__version__")
  }

  /**
   * The first __version__ line decides and later ones are ignored; RuntimeError
   * is raised exactly when no line starts with __version__.
   */
  lemma {:induction false} FindVersionFirst(lines: seq<string>)
    ensures forall i :: FirstVersionLine(lines, i) ==> FindVersion(lines) == VersionFromLine(lines[i])
    ensures FindVersion(lines) == Failure(RuntimeError) <==>
      forall j :: 0 <= j < |lines| ==> !StartsWith(lines[j], "__version__")
    decreases |lines|
  {
    if lines != [] && !StartsWith(lines[0], "__version__") {
      var rest := lines[1..];
      FindVersionFirst(rest);
      assert forall j :: 0 <= j < |rest| ==> rest[j] == lines[j + 1];
      assert forall i :: FirstVersionLine(lines, i) ==> i > 0 && FirstVersionLine(rest, i - 1);
    }
  }

  /**
   * The version is the text between the first and the second occurrence of
   * the delimiter (or the end of the line), and it exists exactly when the
   * delimiter occurs.
   */
  lemma VersionBetweenDelims(line: string)
    ensures VersionFromLine(line).Success? <==> Delim(line) in line
    ensures VersionFromLine(line).Success? ==> SecondPiece(line, Delim(line), VersionFromLine(line).value)
  {
    SplitOnSecondPiece(line, Delim(line));
  }

  lemma NoLineBreakAppend(a: string, b: string)
    requires NoLineBreak(a) && NoLineBreak(b)
    ensures NoLineBreak(a + b)
  {
    forall i | 0 <= i < |a + b| ensures !IsLineBreak((a + b)[i]) {
      if i < |a| { assert (a + b)[i] == a[i]; } else { assert (a + b)[i] == b[i - |a|]; }
    }
  }

  /**
   * A first line of the form  __version__ ... '<v>' ...  with no double quote
   * and no other single quote, followed by a line break, gives v whatever
   * follows.
   */
  lemma SingleQuotedVersion(key: string, v: string, post: string, br: string, rest: string)
    requires StartsWith(key, "__version__")
    requires NoLineBreak(key) && NoLineBreak(v) && NoLineBreak(post)
    requires '\'' !in key && '\'' !in v && '"' !in key && '"' !in v && '"' !in post
    requires br == "\n" || br == "\r\n"
    ensures GetVersion(key + "'" + v + "'" + post + br + rest) == Success(v)
  {
    var q := ['\''];
    var line := key + q + v + q + post;
    assert NoLineBreak(q);
    NoLineBreakAppend(key, q);
    NoLineBreakAppend(key + q, v);
    NoLineBreakAppend(key + q + v, q);
    NoLineBreakAppend(key + q + v + q, post);
    assert key + "'" + v + "'" + post + br + rest == line + br + rest;
    SplitLinesCons(line, br, rest);
    assert line[..11] == key[..11];
    assert '"' !in line;
    SplitOnIsolated(key, v, post, '\'');
  }

  /** pre + c + piece + c + post, with c in neither pre nor piece, splits on c with piece second. */
  lemma SplitOnIsolated(pre: string, piece: string, post: string, c: char)
    requires c !in pre && c !in piece
    ensures var parts := SplitOn(pre + [c] + piece + [c] + post, c);
      |parts| > 1 && parts[1] == piece
  {
    SplitOnPrefix(pre, piece + [c] + post, c);
    assert pre + [c] + piece + [c] + post == pre + [c] + (piece + [c] + post);
    SplitOnPrefix(piece, post, c);
  }
}
