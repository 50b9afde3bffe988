/**
 * The string operations of Python that the modelled code relies on:
 * str(int), int(str), str.split(c), re.split(' +', s), str.rstrip(chars),
 * str.startswith and the membership test `c in s`.
 */
module Text {
  import opened Wrappers

  predicate IsDigit(c: char) { '0' <= c <= '9' }

  predicate AllDigits(s: string) { forall i :: 0 <= i < |s| ==> IsDigit(s[i]) }

  function DigitValue(c: char): (d: nat)
    requires IsDigit(c)
    ensures d < 10
  {
    c as int - '0' as int
  }

  function DigitChar(d: nat): (c: char)
    requires d < 10
    ensures IsDigit(c) && DigitValue(c) == d
  {
    ('0' as int + d) as char
  }

  /** The value of a run of decimal digits, most significant first. */
  function DigitsValue(s: string): nat
    requires AllDigits(s)
    decreases |s|
  {
    if s == [] then 0 else DigitsValue(s[..|s| - 1]) * 10 + DigitValue(s[|s| - 1])
  }

  /** Python's str(n) for a non-negative int: decimal digits without leading zeros. */
  function NatToString(n: nat): (s: string)
    ensures |s| > 0 && AllDigits(s)
    ensures |s| > 1 ==> s[0] != '0'
    ensures n < 10 <==> |s| == 1
    decreases n
  {
    if n < 10 then [DigitChar(n)] else NatToString(n / 10) + [DigitChar(n % 10)]
  }

  lemma {:induction false} DigitsValueOfNatToString(n: nat)
    ensures DigitsValue(NatToString(n)) == n
    decreases n
  {
    var s := NatToString(n);
    if n >= 10 {
      DigitsValueOfNatToString(n / 10);
      assert s[..|s| - 1] == NatToString(n / 10);
    }
  }

  /** str(n) determines n: different numbers print differently. */
  lemma NatToStringInjective(m: nat, n: nat)
    requires NatToString(m) == NatToString(n)
    ensures m == n
  {
    DigitsValueOfNatToString(m);
    DigitsValueOfNatToString(n);
  }

  /** Python's str(n) for any int. */
  function IntToString(n: int): (s: string)
    ensures |s| > 0 && IsDigit(s[|s| - 1])
  {
    if n < 0 then "-" + NatToString(-n) else NatToString(n)
  }

  /** The ASCII characters for which Python's str.isspace() holds. */
  predicate IsSpace(c: char)
  {
    ('\t' <= c <= '\r') || ('\U{1C}' <= c <= '\U{1F}') || c == ' '
  }

  /** The index of the first character of s at or after i that is not whitespace, or |s|. */
  function SkipSpaces(s: string, i: nat): (k: nat)
    requires i <= |s|
    ensures i <= k <= |s| && (k == |s| || !IsSpace(s[k]))
    decreases |s| - i
  {
    if i < |s| && IsSpace(s[i]) then SkipSpaces(s, i + 1) else i
  }

  /** The index just past the last character of s[lo..j] that is not whitespace, or lo. */
  function SkipSpacesBack(s: string, lo: nat, j: nat): (k: nat)
    requires lo <= j <= |s|
    ensures lo <= k <= j && (k == lo || !IsSpace(s[k - 1]))
    decreases j
  {
    if lo < j && IsSpace(s[j - 1]) then SkipSpacesBack(s, lo, j - 1) else j
  }

  /** Python's str.strip() restricted to ASCII whitespace. */
  function Trim(s: string): (r: string)
    ensures r == [] || (!IsSpace(r[0]) && !IsSpace(r[|r| - 1]))
  {
    var a := SkipSpaces(s, 0);
    s[a..SkipSpacesBack(s, a, |s|)]
  }

  /** Some character of s is a decimal digit. */
  predicate HasDigit(s: string)
  {
    exists i :: 0 <= i < |s| && IsDigit(s[i])
  }

  /**
   * Python's int(s) for a string: surrounding whitespace, an optional sign,
   * then one or more decimal digits. None stands for the ValueError.
   */
  function ParseInt(s: string): (r: Option<int>)
    ensures r.Some? ==> HasDigit(s)
  {
    var t := Trim(s);
    var r := ParseStripped(t);
    if r.Some? then
      assert forall i :: 0 <= i < |t| ==> t[i] == s[SkipSpaces(s, 0) + i];
      r
    else
      None
  }

  /** int() once the surrounding whitespace is stripped: an optional sign, then one or more digits. */
  function ParseStripped(t: string): (r: Option<int>)
    ensures r.Some? ==> HasDigit(t)
  {
    if |t| > 1 && (t[0] == '-' || t[0] == '+') && AllDigits(t[1..]) then
      assert IsDigit(t[1]);
      Some(if t[0] == '-' then 0 - DigitsValue(t[1..]) else DigitsValue(t[1..]) as int)
    else if |t| > 0 && AllDigits(t) then
      assert IsDigit(t[0]);
      Some(DigitsValue(t))
    else
      None
  }

  /** A text that neither starts nor ends with whitespace is its own strip(). */
  lemma TrimUnspaced(s: string)
    requires s != [] && !IsSpace(s[0]) && !IsSpace(s[|s| - 1])
    ensures Trim(s) == s
  {
    assert SkipSpaces(s, 0) == 0;
    assert SkipSpacesBack(s, 0, |s|) == |s|;
  }

  /** int() of a text that neither starts nor ends with whitespace reads it as it is. */
  lemma ParseIntUnspaced(s: string)
    requires s != [] && !IsSpace(s[0]) && !IsSpace(s[|s| - 1])
    ensures ParseInt(s) == ParseStripped(s)
  {
    TrimUnspaced(s);
  }

  /** int() of a run of digits is its value. */
  lemma ParseIntOfDigits(d: string)
    requires |d| > 0 && AllDigits(d)
    ensures ParseInt(d) == Some(DigitsValue(d) as int)
  {
    assert IsDigit(d[0]) && IsDigit(d[|d| - 1]);
    ParseIntUnspaced(d);
  }

  /** int() of a non-negative number's digits is that number. */
  lemma ParseIntOfNatToString(n: nat)
    ensures ParseInt(NatToString(n)) == Some(n)
  {
    ParseIntOfDigits(NatToString(n));
    DigitsValueOfNatToString(n);
  }

  /** A minus sign put before d: the sign first, then d. */
  lemma MinusPrefix(d: string)
    requires |d| > 0
    ensures var s := "-" + d; |s| > 1 && s[0] == '-' && s[1..] == d && s[|s| - 1] == d[|d| - 1]
  {
  }

  /** The stripped text "-" followed by digits d reads as minus their value. */
  lemma ParseStrippedMinus(s: string, d: string)
    requires |d| > 0 && AllDigits(d) && |s| > 1 && s[0] == '-' && s[1..] == d
    ensures ParseStripped(s) == Some(0 - DigitsValue(d))
  {
  }

  /** int() of a minus sign followed by digits worth m is -m. */
  lemma ParseIntOfMinusDigits(d: string, m: nat)
    requires |d| > 0 && AllDigits(d) && DigitsValue(d) == m
    ensures ParseInt("-" + d) == Some(0 - m)
  {
    MinusPrefix(d);
    assert IsDigit(d[|d| - 1]);
    ParseStrippedMinus("-" + d, d);
    ParseIntUnspaced("-" + d);
  }

  /** int(str(n)) == n for a negative n: the sign, then the digits of -n. */
  lemma ParseIntOfNegative(n: int)
    requires n < 0
    ensures ParseInt(IntToString(n)) == Some(n)
  {
    var d := NatToString(-n);
    assert IntToString(n) == "-" + d;
    DigitsValueOfNatToString(-n);
    ParseIntOfMinusDigits(d, -n);
  }

  /** int(str(n)) == n for every int n. */
  lemma ParseIntOfIntToString(n: int)
    ensures ParseInt(IntToString(n)) == Some(n)
  {
    if n < 0 {
      ParseIntOfNegative(n);
    } else {
      ParseIntOfNatToString(n);
    }
  }

  /** Python's s.rstrip(chars): drop every trailing character that is in `chars`. */
  function RStrip(s: string, chars: set<char>): (r: string)
    ensures |r| <= |s| && r == s[..|r|]
    ensures r == [] || r[|r| - 1] !in chars
    ensures forall i :: |r| <= i < |s| ==> s[i] in chars
    decreases |s|
  {
    if s != [] && s[|s| - 1] in chars then RStrip(s[..|s| - 1], chars) else s
  }

  /** Stripping a suffix made only of `chars` from a string that does not end in one gives that string back. */
  lemma {:induction false} RStripSuffix(s: string, u: string, chars: set<char>)
    requires s == [] || s[|s| - 1] !in chars
    requires forall i :: 0 <= i < |u| ==> u[i] in chars
    ensures RStrip(s + u, chars) == s
    decreases |u|
  {
    if u != [] {
      assert (s + u)[..|s + u| - 1] == s + u[..|u| - 1];
      RStripSuffix(s, u[..|u| - 1], chars);
    } else {
      assert s + u == s;
    }
  }

  predicate StartsWith(s: string, prefix: string)
  {
    |prefix| <= |s| && s[..|prefix|] == prefix
  }

  /** Python's sep.join(parts). */
  function Join(parts: seq<string>, sep: string): string
    decreases |parts|
  {
    if parts == [] then "" else if |parts| == 1 then parts[0] else parts[0] + sep + Join(parts[1..], sep)
  }

  lemma JoinConsHead(c: char, parts: seq<string>, sep: string)
    requires |parts| > 0
    ensures Join([[c] + parts[0]] + parts[1..], sep) == [c] + Join(parts, sep)
  {
    var q := [[c] + parts[0]] + parts[1..];
    assert q[1..] == parts[1..];
  }

  /** Python's s.split(c) for a one-character separator. */
  function SplitOn(s: string, c: char): (parts: seq<string>)
    ensures |parts| > 0
    decreases |s|
  {
    if s == [] then [""]
    else
      var rest := SplitOn(s[1..], c);
      if s[0] == c then [""] + rest else [[s[0]] + rest[0]] + rest[1..]
  }

  /** Joined with c, the pieces of s.split(c) give s back. */
  lemma {:induction false} SplitOnRejoin(s: string, c: char)
    ensures Join(SplitOn(s, c), [c]) == s
    decreases |s|
  {
    if s != [] {
      var rest := SplitOn(s[1..], c);
      SplitOnRejoin(s[1..], c);
      if s[0] == c {
        assert ([""] + rest)[1..] == rest;
      } else {
        JoinConsHead(s[0], rest, [c]);
      }
    }
  }

  /** No piece of s.split(c) contains c. */
  lemma {:induction false} SplitOnPiecesFree(s: string, c: char)
    ensures forall k, i :: 0 <= k < |SplitOn(s, c)| && 0 <= i < |SplitOn(s, c)[k]| ==> SplitOn(s, c)[k][i] != c
    decreases |s|
  {
    if s != [] {
      var rest := SplitOn(s[1..], c);
      SplitOnPiecesFree(s[1..], c);
      if s[0] != c {
        var parts := SplitOn(s, c);
        forall k, i | 0 <= k < |parts| && 0 <= i < |parts[k]|
          ensures parts[k][i] != c
        {
          if k == 0 {
            if i > 0 { assert parts[0][i] == rest[0][i - 1]; }
          } else {
            assert parts[k] == rest[k];
          }
        }
      }
    }
  }

  /** The pieces of s.split(c) contain no c and, joined with c, give s back. */
  lemma SplitOnJoin(s: string, c: char)
    ensures Join(SplitOn(s, c), [c]) == s
    ensures forall k, i :: 0 <= k < |SplitOn(s, c)| && 0 <= i < |SplitOn(s, c)[k]| ==> SplitOn(s, c)[k][i] != c
  {
    SplitOnRejoin(s, c);
    SplitOnPiecesFree(s, c);
  }

  /** v occurs in s from index j up to the next c or the end of s. */
  predicate PieceAt(s: string, c: char, j: int, v: string)
  {
    0 <= j && j + |v| <= |s| && s[j..j + |v|] == v && c !in v && (j + |v| == |s| || s[j + |v|] == c)
  }

  /** v is the text between the first and the second occurrence of c in s (or the end of s). */
  ghost predicate SecondPiece(s: string, c: char, v: string)
  {
    exists i :: 0 <= i < |s| && s[i] == c && c !in s[..i] && PieceAt(s, c, i + 1, v)
  }

  /** The first piece of s.split(c) is the text before the first c; a second piece exists exactly when c occurs. */
  lemma {:induction false} SplitOnFirstPiece(s: string, c: char)
    ensures var p := SplitOn(s, c)[0]; |p| <= |s| && s[..|p|] == p && c !in p && (|p| == |s| || s[|p|] == c)
    ensures |SplitOn(s, c)| > 1 <==> c in s
    decreases |s|
  {
    if s != [] {
      SplitOnFirstPiece(s[1..], c);
      assert s == [s[0]] + s[1..];
      if s[0] != c {
        var q := SplitOn(s[1..], c)[0];
        assert SplitOn(s, c)[0] == [s[0]] + q;
        assert s[..|q| + 1] == [s[0]] + s[1..][..|q|];
      }
    }
  }

  /** Text before the first c is the first piece; the pieces of what follows come next. */
  lemma {:induction false} SplitOnPrefix(pre: string, post: string, c: char)
    requires c !in pre
    ensures SplitOn(pre + [c] + post, c) == [pre] + SplitOn(post, c)
    decreases |pre|
  {
    var s := pre + [c] + post;
    if pre == [] {
      assert s[1..] == post;
    } else {
      SplitOnPrefix(pre[1..], post, c);
      assert s[1..] == pre[1..] + [c] + post;
      assert [pre[0]] + pre[1..] == pre;
    }
  }

  /** In pre + c + post with no c in pre, the second piece of the split is the SecondPiece. */
  lemma SecondPieceAfter(pre: string, post: string, c: char)
    requires c !in pre
    ensures var s := pre + [c] + post; |SplitOn(s, c)| > 1 && SecondPiece(s, c, SplitOn(s, c)[1])
  {
    var s := pre + [c] + post;
    var i := |pre|;
    SplitOnPrefix(pre, post, c);
    SplitOnFirstPiece(post, c);
    var v := SplitOn(post, c)[0];
    assert s[i + 1..] == post;
    assert s[i + 1..i + 1 + |v|] == post[..|v|];
    assert s[..i] == pre;
    assert PieceAt(s, c, i + 1, v);
  }

  /** s.split(c) has a second piece exactly when c occurs in s, and that piece is the SecondPiece. */
  lemma SplitOnSecondPiece(s: string, c: char)
    ensures |SplitOn(s, c)| > 1 <==> c in s
    ensures |SplitOn(s, c)| > 1 ==> SecondPiece(s, c, SplitOn(s, c)[1])
  {
    SplitOnFirstPiece(s, c);
    if |SplitOn(s, c)| > 1 {
      var p := SplitOn(s, c)[0];
      var post := s[|p| + 1..];
      assert s == p + [c] + post;
      SecondPieceAfter(p, post, c);
    }
  }

  /** Python's re.split(' +', s): the fields between maximal runs of spaces. */
  function SplitSpaces(s: string): (fields: seq<string>)
    ensures |fields| > 0
    decreases |s|
  {
    if s == [] then [""]
    else
      var rest := SplitSpaces(s[1..]);
      if s[0] == ' ' then
        (if |s| > 1 && s[1] == ' ' then rest else [""] + rest)
      else [[s[0]] + rest[0]] + rest[1..]
  }

  /** s with every maximal run of spaces replaced by a single space. */
  function Squeeze(s: string): string
    decreases |s|
  {
    if s == [] then ""
    else if s[0] == ' ' && |s| > 1 && s[1] == ' ' then Squeeze(s[1..])
    else [s[0]] + Squeeze(s[1..])
  }

  /**
   * The fields of re.split(' +', s) joined with single spaces give s with its
   * runs of spaces squeezed.
   */
  lemma {:induction false} SplitSpacesJoin(s: string)
    ensures Join(SplitSpaces(s), " ") == Squeeze(s)
    decreases |s|
  {
    if s != [] {
      var rest := SplitSpaces(s[1..]);
      SplitSpacesJoin(s[1..]);
      if s[0] == ' ' {
        if !(|s| > 1 && s[1] == ' ') {
          assert ([""] + rest)[1..] == rest;
        }
      } else {
        JoinConsHead(s[0], rest, " ");
      }
    }
  }

  /** The fields of re.split(' +', s) contain no space: with SplitSpacesJoin, they are exactly the space-free stretches of s, in order. */
  lemma {:induction false} SplitSpacesNoSpace(s: string)
    ensures forall k, i :: 0 <= k < |SplitSpaces(s)| && 0 <= i < |SplitSpaces(s)[k]| ==> SplitSpaces(s)[k][i] != ' '
    decreases |s|
  {
    if s != [] {
      var rest := SplitSpaces(s[1..]);
      SplitSpacesNoSpace(s[1..]);
      if s[0] != ' ' {
        var fields := SplitSpaces(s);
        forall k, i | 0 <= k < |fields| && 0 <= i < |fields[k]|
          ensures fields[k][i] != ' '
        {
          if k == 0 {
            if i > 0 { assert fields[0][i] == rest[0][i - 1]; }
          } else {
            assert fields[k] == rest[k];
          }
        }
      }
    }
  }
}
