/** The string operations the services lean on, over characters as Python classes them. */
module Text {
  import opened Common

  /** Characters `splitlines` breaks at. */
  predicate IsBreak(c: char) {
    || '\n' <= c <= '\r'  // newline, vertical tab, form feed, return
    || '\U{001C}' <= c <= '\U{001E}'
    || c == '\U{0085}' || c == '\U{2028}' || c == '\U{2029}'
  }

  /** Characters `strip` and `\s` take for white space. */
  predicate IsSpace(c: char) {
    || IsBreak(c)
    || c == ' ' || c == '\t' || c == '\U{001F}' || c == '\U{00A0}' || c == '\U{1680}'
    || '\U{2000}' <= c <= '\U{200A}'
    || c == '\U{202F}' || c == '\U{205F}' || c == '\U{3000}'
  }

  /** Line breaks and white space by their code points. */
  lemma CodePoints(c: char)
    ensures IsBreak(c) <==> c as int in {10, 11, 12, 13, 28, 29, 30, 133, 8232, 8233}
    ensures IsSpace(c) <==>
              || 9 <= c as int <= 13 || 28 <= c as int <= 32 || 8192 <= c as int <= 8202
              || c as int in {133, 160, 5760, 8232, 8233, 8239, 8287, 12288}
  {
  }

  function TrimLeft(s: string): (r: string)
    ensures r != "" ==> !IsSpace(r[0])
    ensures |r| <= |s| && r == s[|s| - |r|..]
  {
    if s != "" && IsSpace(s[0]) then TrimLeft(s[1..]) else s
  }

  function TrimRight(s: string): (r: string)
    ensures r != "" ==> !IsSpace(r[|r| - 1])
    ensures r <= s
  {
    if s != "" && IsSpace(s[|s| - 1]) then TrimRight(s[..|s| - 1]) else s
  }

  function Strip(s: string): string {
    TrimRight(TrimLeft(s))
  }

  /** Nothing for `strip` to take off. */
  predicate Trimmed(s: string) {
    s != "" ==> !IsSpace(s[0]) && !IsSpace(s[|s| - 1])
  }

  predicate OneLine(s: string) {
    forall i :: 0 <= i < |s| ==> !IsBreak(s[i])
  }

  /** A field as a person would write it: something, on one line, without blank ends. */
  predicate Clean(s: string) {
    s != "" && Trimmed(s) && OneLine(s)
  }

  lemma StripTrimmed(s: string)
    requires Trimmed(s)
    ensures Strip(s) == s
  {
  }

  lemma StripLeadingSpace(s: string)
    requires Trimmed(s)
    ensures Strip(" " + s) == s
  {
    assert IsSpace(' ');
    hide IsSpace;
    assert (" " + s)[1..] == s;
    assert TrimLeft(" " + s) == TrimLeft(s);
    hide TrimLeft, TrimRight;
    StripTrimmed(s);
  }

  /** `s.split(sep)` for a class of separating characters. */
  function SplitLines(s: string): (r: seq<string>)
    ensures r != []
  {
    if s == "" then [""]
    else if IsBreak(s[0]) then [""] + SplitLines(s[1..])
    else
      var rest := SplitLines(s[1..]);
      [[s[0]] + rest[0]] + rest[1..]
  }

  function SplitCommas(s: string): (r: seq<string>)
    ensures r != []
  {
    if s == "" then [""]
    else if s[0] == ',' then [""] + SplitCommas(s[1..])
    else
      var rest := SplitCommas(s[1..]);
      [[s[0]] + rest[0]] + rest[1..]
  }

  lemma {:induction false} SplitLinesCut(x: string, rest: string)
    requires OneLine(x)
    ensures SplitLines(x) == [x]
    ensures SplitLines(x + "\n" + rest) == [x] + SplitLines(rest)
  {
    if x == "" {
      assert x + "\n" + rest == "\n" + rest;
      assert ("\n" + rest)[1..] == rest;
    } else {
      assert (x + "\n" + rest)[1..] == x[1..] + "\n" + rest;
      SplitLinesCut(x[1..], rest);
      assert [x[0]] + x[1..] == x;
    }
  }

  predicate NoComma(s: string) {
    forall i :: 0 <= i < |s| ==> s[i] != ','
  }

  lemma {:induction false} SplitCommasCut(x: string, rest: string)
    requires NoComma(x)
    ensures SplitCommas(x) == [x]
    ensures SplitCommas(x + "," + rest) == [x] + SplitCommas(rest)
  {
    if x == "" {
      assert x + "," + rest == "," + rest;
      assert ("," + rest)[1..] == rest;
    } else {
      assert (x + "," + rest)[1..] == x[1..] + "," + rest;
      SplitCommasCut(x[1..], rest);
      assert [x[0]] + x[1..] == x;
    }
  }

  /** Strips every line and drops the empty ones. */
  function Tidy(lines: seq<string>): seq<string> {
    if lines == [] then []
    else
      var line := Strip(lines[0]);
      (if line == "" then [] else [line]) + Tidy(lines[1..])
  }

  /** The non-blank lines of a block, stripped. */
  function Lines(s: string): seq<string> {
    Tidy(SplitLines(s))
  }

  /** Length of the blank gap - newline, white space, newline - that starts `s`; zero if none does. */
  function Gap(s: string): (n: nat)
    ensures n <= |s|
    ensures n > 0 ==> n >= 2
  {
    if s == "" || s[0] != '\n' then 0
    else
      var run := s[1..][..|s| - 1 - |TrimLeft(s[1..])|];
      var last := LastNewline(run);
      if last.Some? then last.value + 2 else 0
  }

  function LastNewline(s: string): (r: Option<nat>)
    ensures r.Some? ==> r.value < |s|
  {
    if s == "" then None
    else if s[|s| - 1] == '\n' then Some(|s| - 1)
    else LastNewline(s[..|s| - 1])
  }

  /** The pieces between blank gaps. */
  function Blocks(s: string): (r: seq<string>)
    ensures r != []
    decreases |s|
  {
    if s == "" then [""]
    else if Gap(s) > 0 then [""] + Blocks(s[Gap(s)..])
    else
      var rest := Blocks(s[1..]);
      [[s[0]] + rest[0]] + rest[1..]
  }

  /** Every newline is followed by something visible, so there is no gap inside or at the end. */
  predicate Tight(s: string) {
    forall i :: 0 <= i < |s| && s[i] == '\n' ==> i + 1 < |s| && !IsSpace(s[i + 1])
  }

  lemma NoGap(c: char, rest: string)
    requires c == '\n' ==> rest != "" && !IsSpace(rest[0])
    ensures Gap([c] + rest) == 0
    ensures Blocks([c] + rest) == [[c] + Blocks(rest)[0]] + Blocks(rest)[1..]
  {
    hide IsSpace;
    assert ([c] + rest)[1..] == rest;
    assert c == '\n' ==> rest[..|rest| - |TrimLeft(rest)|] == "";
  }

  lemma TrimOneNewline(rest: string)
    requires rest != "" && !IsSpace(rest[0])
    ensures TrimLeft("\n" + rest) == rest
  {
    hide IsSpace;
    NewlineIsSpace();
    assert ("\n" + rest)[1..] == rest;
  }

  lemma NewlineIsSpace()
    ensures IsSpace('\n')
  {
  }

  lemma GapOfTwo(rest: string)
    requires rest != "" && !IsSpace(rest[0])
    ensures Gap("\n\n" + rest) == 2
  {
    hide IsSpace, TrimLeft;
    var s := "\n\n" + rest;
    assert s[1..] == "\n" + rest;
    TrimOneNewline(rest);
    assert s[1..][..|s| - 1 - |rest|] == "\n";
    assert LastNewline("\n") == Some(0);
  }

  lemma GapFound(rest: string)
    requires rest != "" && !IsSpace(rest[0])
    ensures Blocks("\n\n" + rest) == [""] + Blocks(rest)
  {
    hide IsSpace, TrimLeft, Gap;
    GapOfTwo(rest);
    assert ("\n\n" + rest)[2..] == rest;
  }

  lemma TightTail(b: string)
    requires b != "" && Tight(b)
    ensures Tight(b[1..])
    ensures b[0] == '\n' ==> b[1..] != "" && !IsSpace(b[1..][0])
  {
    hide IsSpace;
    var tail := b[1..];
    forall i | 0 <= i < |tail| && tail[i] == '\n'
      ensures i + 1 < |tail| && !IsSpace(tail[i + 1])
    {
      assert b[i + 1] == '\n';
    }
  }

  lemma {:induction false} BlocksCut(b: string, rest: string)
    requires Tight(b)
    requires rest != "" && !IsSpace(rest[0])
    ensures Blocks(b) == [b]
    ensures Blocks(b + "\n\n" + rest) == [b] + Blocks(rest)
    decreases |b|
  {
    hide IsSpace, TrimLeft, Gap, Tight;
    if b == "" {
      GapFound(rest);
      assert b + "\n\n" + rest == "\n\n" + rest;
    } else {
      TightTail(b);
      BlocksCut(b[1..], rest);
      BlocksCutStep(b[0], b[1..], rest);
      assert [b[0]] + b[1..] == b;
    }
  }

  lemma BlocksCutStep(c: char, tail: string, rest: string)
    requires c == '\n' ==> tail != "" && !IsSpace(tail[0])
    requires Blocks(tail) == [tail]
    requires Blocks(tail + "\n\n" + rest) == [tail] + Blocks(rest)
    ensures Blocks([c] + tail) == [[c] + tail]
    ensures Blocks([c] + tail + "\n\n" + rest) == [[c] + tail] + Blocks(rest)
  {
    hide IsSpace, Gap, Blocks;
    NoGap(c, tail);
    NoGap(c, tail + "\n\n" + rest);
    assert [c] + tail + "\n\n" + rest == [c] + (tail + "\n\n" + rest);
  }

  function Join(parts: seq<string>, sep: string): string {
    if parts == [] then ""
    else if |parts| == 1 then parts[0]
    else parts[0] + sep + Join(parts[1..], sep)
  }

  /** A part that may be joined with blank lines and found again. */
  predicate BlockLike(b: string) {
    b != "" && Tight(b) && Trimmed(b)
  }

  lemma {:induction false} JoinTrimmed(parts: seq<string>, sep: string)
    requires parts != []
    requires forall k :: 0 <= k < |parts| ==> parts[k] != "" && Trimmed(parts[k])
    ensures Join(parts, sep) != "" && Join(parts, sep)[0] == parts[0][0] && Trimmed(Join(parts, sep))
  {
    hide IsSpace;
    if |parts| <= 1 {
    } else {
      JoinTrimmed(parts[1..], sep);
    }
  }

  /** Splitting at blank lines undoes joining with them. */
  lemma {:induction false} BlocksOfJoin(parts: seq<string>)
    requires parts != []
    requires forall k :: 0 <= k < |parts| ==> BlockLike(parts[k])
    ensures Blocks(Join(parts, "\n\n")) == parts
  {
    hide IsSpace, Tight, Blocks;
    if |parts| == 1 {
      BlocksCut(parts[0], parts[0]);
    } else {
      BlocksOfJoin(parts[1..]);
      JoinTrimmed(parts[1..], "\n\n");
      BlocksCut(parts[0], Join(parts[1..], "\n\n"));
    }
  }

  /** Splitting into lines undoes joining lines. */
  lemma {:induction false} LinesOfJoin(lines: seq<string>)
    requires lines != []
    requires forall k :: 0 <= k < |lines| ==> Clean(lines[k])
    ensures Lines(Join(lines, "\n")) == lines
    ensures BlockLike(Join(lines, "\n"))
  {
    SplitLinesOfJoin(lines);
    TidyClean(lines);
    JoinTrimmed(lines, "\n");
    JoinTight(lines);
  }

  lemma {:induction false} SplitLinesOfJoin(lines: seq<string>)
    requires lines != []
    requires forall k :: 0 <= k < |lines| ==> Clean(lines[k])
    ensures SplitLines(Join(lines, "\n")) == lines
  {
    hide IsSpace, IsBreak, SplitLines;
    if |lines| == 1 {
      SplitLinesCut(lines[0], "");
    } else {
      SplitLinesOfJoin(lines[1..]);
      SplitLinesCut(lines[0], Join(lines[1..], "\n"));
    }
  }

  lemma TidyKeeps(line: string, rest: seq<string>)
    requires line != "" && Trimmed(line)
    ensures Tidy([line] + rest) == [line] + Tidy(rest)
  {
    StripTrimmed(line);
    assert ([line] + rest)[1..] == rest;
  }

  lemma {:induction false} TidyClean(lines: seq<string>)
    requires forall k :: 0 <= k < |lines| ==> Clean(lines[k])
    ensures Tidy(lines) == lines
  {
    if lines == [] {
    } else {
      TidyClean(lines[1..]);
      TidyKeeps(lines[0], lines[1..]);
      assert [lines[0]] + lines[1..] == lines;
    }
  }

  lemma {:induction false} JoinTight(lines: seq<string>)
    requires lines != []
    requires forall k :: 0 <= k < |lines| ==> Clean(lines[k])
    ensures Tight(Join(lines, "\n"))
  {
    var s := Join(lines, "\n");
    if |lines| <= 1 {
    } else {
      var rest := Join(lines[1..], "\n");
      JoinTight(lines[1..]);
      JoinTrimmed(lines[1..], "\n");
      var n := |lines[0]|;
      assert forall k :: 0 <= k < n ==> s[k] == lines[0][k] && !IsBreak(lines[0][k]);
      forall i | 0 <= i < |s| && s[i] == '\n'
        ensures i + 1 < |s| && !IsSpace(s[i + 1])
      {
        if i > n {
          assert rest[i - n - 1] == '\n';
        }
      }
    }
  }
}
