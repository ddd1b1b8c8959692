/** Reading the uploaded ticker list: split the text into lines, strip each
    line, drop the blank ones, keep the order. */
module Tickers {

  /** Python's `str.isspace` for a single character: the characters
      `str.strip()` removes. Blanks, tabs and every line break are
      whitespace; the letters, digits, dots and dashes of ticker symbols are
      not. */
  predicate IsSpace(c: char)
    ensures c == ' ' || c == '\t' || IsLineBreak(c) ==> IsSpace(c)
    ensures ('0' <= c <= '9') || ('A' <= c <= 'Z') || ('a' <= c <= 'z') || c == '.' || c == '-' ==> !IsSpace(c)
  {
    var n := c as int;
    (9 <= n <= 13) || (28 <= n <= 32) || n == 0x85 || n == 0xA0 || n == 0x1680 ||
    (0x2000 <= n <= 0x200A) || n == 0x2028 || n == 0x2029 || n == 0x202F ||
    n == 0x205F || n == 0x3000
  }

  /** The line boundaries of `str.splitlines`. A `\r\n` pair is one boundary
      there and two here; the empty piece in between is blank and dropped,
      so the parsed list is the same. */
  predicate IsLineBreak(c: char)
  {
    var n := c as int;
    (10 <= n <= 13) || (28 <= n <= 30) || n == 0x85 || n == 0x2028 || n == 0x2029
  }

  predicate NoLineBreak(s: string)
  {
    forall k :: 0 <= k < |s| ==> !IsLineBreak(s[k])
  }

  /** A non-empty entry with no surrounding whitespace and no line break. */
  predicate IsTicker(t: string)
  {
    |t| > 0 && !IsSpace(t[0]) && !IsSpace(t[|t| - 1]) && NoLineBreak(t)
  }

  /** `lstrip()`: drop the leading whitespace. */
  function TrimStart(s: string): (r: string)
    ensures |r| <= |s| && r == s[|s| - |r|..]
    ensures forall k :: 0 <= k < |s| - |r| ==> IsSpace(s[k])
    ensures |r| == 0 || !IsSpace(r[0])
  {
    if |s| > 0 && IsSpace(s[0]) then TrimStart(s[1..]) else s
  }

  /** `rstrip()`: drop the trailing whitespace. */
  function TrimEnd(s: string): (r: string)
    ensures |r| <= |s| && r == s[..|r|]
    ensures forall k :: |r| <= k < |s| ==> IsSpace(s[k])
    ensures |r| == 0 || !IsSpace(r[|r| - 1])
  {
    if |s| > 0 && IsSpace(s[|s| - 1]) then TrimEnd(s[..|s| - 1]) else s
  }

  /** `strip()`: the part of `s` between its leading and trailing
      whitespace. */
  function Strip(s: string): (r: string)
    ensures |r| == 0 || (!IsSpace(r[0]) && !IsSpace(r[|r| - 1]))
    ensures |s| - |TrimStart(s)| + |r| <= |s|
    ensures r == s[|s| - |TrimStart(s)|..|s| - |TrimStart(s)| + |r|]
    ensures forall k :: 0 <= k < |s| - |TrimStart(s)| ==> IsSpace(s[k])
    ensures forall k :: |s| - |TrimStart(s)| + |r| <= k < |s| ==> IsSpace(s[k])
  {
    var t := TrimStart(s);
    var r := TrimEnd(t);
    StripParts(s, t, r, |s| - |t|);
    r
  }

  /** The trailing whitespace `rstrip` removes after `lstrip` is trailing
      whitespace of the original text. */
  lemma StripParts(s: string, t: string, r: string, i: nat)
    requires i <= |s| && t == s[i..] && |r| <= |t| && r == t[..|r|]
    requires forall k :: |r| <= k < |t| ==> IsSpace(t[k])
    ensures i + |r| <= |s| && r == s[i..i + |r|]
    ensures forall k :: i + |r| <= k < |s| ==> IsSpace(s[k])
  {
    PrefixOfSuffix(s, i, |r|);
    forall k | i + |r| <= k < |s| ensures IsSpace(s[k]) {
      assert s[k] == t[k - i];
    }
  }

  lemma PrefixOfSuffix(s: string, i: nat, n: nat)
    requires i + n <= |s|
    ensures s[i..][..n] == s[i..i + n]
  {
  }

  /** The text cut at every line break; there is always at least one piece,
      and no piece holds a line break. */
  function Lines(s: string): (pieces: seq<string>)
    ensures |pieces| >= 1
    ensures forall i :: 0 <= i < |pieces| ==> NoLineBreak(pieces[i])
  {
    if |s| == 0 then [""]
    else if IsLineBreak(s[0]) then [""] + Lines(s[1..])
    else
      var rest := Lines(s[1..]);
      [[s[0]] + rest[0]] + rest[1..]
  }

  /** `[line.strip() for line in lines if line.strip()]`. */
  function NonBlank(lines: seq<string>): (ts: seq<string>)
    ensures |ts| <= |lines|
  {
    if |lines| == 0 then []
    else
      var t := Strip(lines[0]);
      if t == "" then NonBlank(lines[1..]) else [t] + NonBlank(lines[1..])
  }

  /** A stripped line with no line break is blank or a ticker. */
  lemma StrippedLine(s: string)
    requires NoLineBreak(s)
    ensures Strip(s) == "" || IsTicker(Strip(s))
  {
    var r := Strip(s);
    var i := |s| - |TrimStart(s)|;
    forall k | 0 <= k < |r| ensures !IsLineBreak(r[k]) {
      assert r[k] == s[i + k];
    }
  }

  /** Every entry kept from lines without line breaks is a ticker. */
  lemma {:induction false} NonBlankTickers(lines: seq<string>)
    requires forall i :: 0 <= i < |lines| ==> NoLineBreak(lines[i])
    ensures forall j :: 0 <= j < |NonBlank(lines)| ==> IsTicker(NonBlank(lines)[j])
  {
    if |lines| > 0 {
      assert forall i :: 0 <= i < |lines| - 1 ==> lines[1..][i] == lines[i + 1];
      NonBlankTickers(lines[1..]);
      StrippedLine(lines[0]);
    }
  }

  /** The ticker list of an uploaded file's text: every entry is non-empty,
      has no surrounding whitespace and no line break. */
  function ParseTickers(content: string): (ts: seq<string>)
    ensures forall j :: 0 <= j < |ts| ==> IsTicker(ts[j])
  {
    NonBlankTickers(Lines(content));
    NonBlank(Lines(content))
  }

  /** Cutting at a line break splits the pieces in two, in order. */
  lemma {:induction false} LinesAtBreak(a: string, c: char, b: string)
    requires IsLineBreak(c)
    ensures Lines(a + [c] + b) == Lines(a) + Lines(b)
  {
    if |a| == 0 {
      assert a + [c] + b == [c] + b;
      assert ([c] + b)[1..] == b;
    } else {
      assert (a + [c] + b)[0] == a[0];
      assert (a + [c] + b)[1..] == a[1..] + [c] + b;
      LinesAtBreak(a[1..], c, b);
    }
  }

  /** Filtering blank lines distributes over concatenation. */
  lemma {:induction false} NonBlankConcat(a: seq<string>, b: seq<string>)
    ensures NonBlank(a + b) == NonBlank(a) + NonBlank(b)
  {
    if |a| == 0 {
      assert a + b == b;
    } else {
      assert (a + b)[0] == a[0];
      assert (a + b)[1..] == a[1..] + b;
      NonBlankConcat(a[1..], b);
    }
  }

  /** Lines are parsed independently and their tickers kept in file order. */
  lemma ParseConcat(a: string, c: char, b: string)
    requires IsLineBreak(c)
    ensures ParseTickers(a + [c] + b) == ParseTickers(a) + ParseTickers(b)
  {
    LinesAtBreak(a, c, b);
    NonBlankConcat(Lines(a), Lines(b));
  }

  /** Text without a line break is one piece. */
  lemma {:induction false} LinesOfOneLine(s: string)
    requires NoLineBreak(s)
    ensures Lines(s) == [s]
  {
    if |s| > 0 {
      assert NoLineBreak(s[1..]) by {
        assert forall k :: 0 <= k < |s| - 1 ==> s[1..][k] == s[k + 1];
      }
      LinesOfOneLine(s[1..]);
      assert [s[0]] + s[1..] == s;
    }
  }

  /** Where the pieces differ from `splitlines`: empty text is one empty
      piece, and a trailing break leaves an empty last piece. Both are
      blank, so the parsed list is as `splitlines` would give it. */
  lemma LinesEdgeCases()
    ensures Lines("") == [""] && ParseTickers("") == []
    ensures Lines("A\n") == ["A", ""] && ParseTickers("A\n") == ["A"]
  {
    assert "A\n"[1..] == "\n";
    assert "\n"[1..] == "";
    assert IsLineBreak('\n') && !IsLineBreak('A');
    assert Lines("\n") == [""] + Lines("");
    var rest := Lines("\n");
    assert rest == ["", ""];
    assert Lines("A\n") == [['A'] + rest[0]] + rest[1..];
    assert ['A'] + rest[0] == "A";
    assert Strip("") == "";
    assert Strip("A") == "A" by { StripTicker("A"); }
    var ls: seq<string> := ["A", ""];
    assert ls[1..][1..] == [];
    assert NonBlank(ls[1..]) == [];
    assert NonBlank(ls) == ["A"];
  }

  /** Stripping leaves a ticker unchanged. */
  lemma StripTicker(t: string)
    requires IsTicker(t)
    ensures Strip(t) == t
  {
    assert TrimStart(t) == t;
    assert TrimEnd(t) == t;
  }

  /** The list written one ticker per line. */
  function JoinLines(ts: seq<string>): string
  {
    if |ts| == 0 then ""
    else if |ts| == 1 then ts[0]
    else ts[0] + "\n" + JoinLines(ts[1..])
  }

  /** Writing tickers one per line and reading the file back gives the same
      list, in the same order, duplicates included. */
  lemma {:induction false} ParseJoinLines(ts: seq<string>)
    requires forall j :: 0 <= j < |ts| ==> IsTicker(ts[j])
    ensures ParseTickers(JoinLines(ts)) == ts
  {
    if |ts| == 0 {
      assert Strip("") == "";
    } else {
      var t := ts[0];
      LinesOfOneLine(t);
      StripTicker(t);
      assert NonBlank([t]) == [t];
      if |ts| > 1 {
        ParseJoinLines(ts[1..]);
        assert JoinLines(ts) == t + ['\n'] + JoinLines(ts[1..]);
        ParseConcat(t, '\n', JoinLines(ts[1..]));
        assert [t] + ts[1..] == ts;
      }
    }
  }
}
