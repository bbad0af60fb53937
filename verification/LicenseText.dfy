/** Parsing of pasted licence text: `EMAIL:`/`PASSWORD:`/`NOTE:` blocks or comma-separated lines. */
module LicenseText {
  import opened Common
  import opened Text

  datatype Key = Email | Password | Note

  datatype Fields = Fields(email: string, password: string, note: Option<string>)

  datatype Item = Item(fields: Fields, block: nat)

  datatype Fault = Unrecognized(lines: seq<string>) | MissingFields | MalformedLine

  datatype Error = Error(block: nat, fault: Fault, raw: string)

  datatype Parsed = Parsed(items: seq<Item>, errors: seq<Error>) {
    function Then(more: Parsed): Parsed {
      Parsed(items + more.items, errors + more.errors)
    }
  }

  function LowerAscii(c: char): char {
    if 'A' <= c <= 'Z' then c - 'A' + 'a' else c
  }

  function Lower(s: string): (r: string)
    ensures |r| == |s|
    ensures forall i :: 0 <= i < |s| ==> r[i] == LowerAscii(s[i])
  {
    seq(|s|, i requires 0 <= i < |s| => LowerAscii(s[i]))
  }

  function NameOf(k: Key): string {
    match k
    case Email => "email"
    case Password => "password"
    case Note => "note"
  }

  /** The value of a line that starts with the key, blanks and a colon. */
  function ValueAfter(k: Key, line: string): Option<string> {
    var n := |NameOf(k)|;
    if |line| < n || Lower(line[..n]) != NameOf(k) then None
    else
      var rest := TrimLeft(line[n..]);
      if rest != "" && rest[0] == ':' then Some(Strip(rest[1..])) else None
  }

  function KeyLine(line: string): Option<(Key, string)> {
    if ValueAfter(Email, line).Some? then Some((Email, ValueAfter(Email, line).value))
    else if ValueAfter(Password, line).Some? then Some((Password, ValueAfter(Password, line).value))
    else if ValueAfter(Note, line).Some? then Some((Note, ValueAfter(Note, line).value))
    else None
  }

  predicate HasKeyLine(lines: seq<string>) {
    exists k :: 0 <= k < |lines| && KeyLine(lines[k]).Some?
  }

  function Stray(lines: seq<string>): seq<string> {
    if lines == [] then []
    else Stray(lines[..|lines| - 1]) + (if KeyLine(lines[|lines| - 1]).None? then [lines[|lines| - 1]] else [])
  }

  /** The last value given for a key, or the empty string. */
  function Given(lines: seq<string>, k: Key): string {
    if lines == [] then ""
    else
      var last := KeyLine(lines[|lines| - 1]);
      if last.Some? && last.value.0 == k then last.value.1 else Given(lines[..|lines| - 1], k)
  }

  function Optional(s: string): Option<string> {
    if s == "" then None else Some(s)
  }

  /** A block of key lines: one item or one error. */
  function KeyBlock(lines: seq<string>, block: nat, raw: string): Parsed {
    if Stray(lines) != [] then Parsed([], [Error(block, Unrecognized(Stray(lines)), raw)])
    else if Given(lines, Email) == "" || Given(lines, Password) == "" then
      Parsed([], [Error(block, MissingFields, raw)])
    else Parsed([Item(Fields(Given(lines, Email), Given(lines, Password), Optional(Given(lines, Note))), block)], [])
  }

  function StripAll(parts: seq<string>): (r: seq<string>)
    ensures |r| == |parts|
    ensures forall k :: 0 <= k < |parts| ==> r[k] == Strip(parts[k])
  {
    seq(|parts|, k requires 0 <= k < |parts| => Strip(parts[k]))
  }

  /** One comma-separated line: one item or one error. */
  function CommaLine(line: string, block: nat): Parsed {
    var parts := StripAll(SplitCommas(line));
    if |parts| < 2 || parts[0] == "" || parts[1] == "" then Parsed([], [Error(block, MalformedLine, line)])
    else Parsed([Item(Fields(parts[0], parts[1], if |parts| > 2 then Optional(parts[2]) else None), block)], [])
  }

  function CommaBlock(lines: seq<string>, block: nat): Parsed {
    if lines == [] then Parsed([], [])
    else CommaBlock(lines[..|lines| - 1], block).Then(CommaLine(lines[|lines| - 1], block))
  }

  function ParseBlock(raw: string, block: nat): Parsed {
    var lines := Lines(raw);
    if HasKeyLine(lines) then KeyBlock(lines, block, raw) else CommaBlock(lines, block)
  }

  /** The blocks with something in them, stripped. */
  function FullBlocks(blocks: seq<string>): seq<string> {
    if blocks == [] then []
    else
      var last := Strip(blocks[|blocks| - 1]);
      FullBlocks(blocks[..|blocks| - 1]) + (if last == "" then [] else [last])
  }

  /** Parses blocks, numbering them from one. */
  function ParseBlocks(blocks: seq<string>): Parsed {
    if blocks == [] then Parsed([], [])
    else ParseBlocks(blocks[..|blocks| - 1]).Then(ParseBlock(blocks[|blocks| - 1], |blocks|))
  }

  function Parse(text: string): Parsed {
    ParseBlocks(FullBlocks(Blocks(Strip(text))))
  }

  // ---------------------------------------------------------------------------
  // The parsing loop
  // ---------------------------------------------------------------------------

  lemma EmptyBlocks()
    ensures FullBlocks([]) == [] && ParseBlocks([]) == Parsed([], [])
  {
  }

  lemma FullBlocksGrow(blocks: seq<string>, raw: string)
    ensures FullBlocks(blocks + [raw]) ==
            if Strip(raw) == "" then FullBlocks(blocks) else FullBlocks(blocks) + [Strip(raw)]
  {
    hide Strip;
    assert (blocks + [raw])[..|blocks|] == blocks;
  }

  lemma ParseBlocksGrow(blocks: seq<string>, block: string)
    ensures ParseBlocks(blocks + [block]) == ParseBlocks(blocks).Then(ParseBlock(block, |blocks| + 1))
  {
    hide ParseBlock;
    assert (blocks + [block])[..|blocks|] == blocks;
  }

  method ParseLicenseText(text: string) returns (items: seq<Item>, errors: seq<Error>)
    ensures Parsed(items, errors) == Parse(text)
  {
    hide Strip, Lines, Blocks, FullBlocks, ParseBlocks, HasKeyLine, KeyLine, Stray, Given, CommaBlock;
    EmptyBlocks();
    items, errors := [], [];
    var blocks := Blocks(Strip(text));
    var number := 0;
    for b := 0 to |blocks|
      invariant number == |FullBlocks(blocks[..b])|
      invariant Parsed(items, errors) == ParseBlocks(FullBlocks(blocks[..b]))
    {
      assert blocks[..b + 1] == blocks[..b] + [blocks[b]];
      FullBlocksGrow(blocks[..b], blocks[b]);
      var block := Strip(blocks[b]);
      if block == "" {
        continue;
      }
      number := number + 1;
      ParseBlocksGrow(FullBlocks(blocks[..b]), block);
      assert items + [] == items && errors + [] == errors;
      var lines := Lines(block);
      if HasKeyLine(lines) {
        var email, password, note, stray := ReadKeys(lines);
        if stray != [] {
          errors := errors + [Error(number, Unrecognized(stray), block)];
        } else if email == "" || password == "" {
          errors := errors + [Error(number, MissingFields, block)];
        } else {
          items := items + [Item(Fields(email, password, Optional(note)), number)];
        }
      } else {
        var moreItems, moreErrors := ReadCommaLines(lines, number);
        items, errors := items + moreItems, errors + moreErrors;
      }
    }
    assert blocks[..|blocks|] == blocks;
  }

  /** What one more line adds: a value for its key, or a stray line. */
  lemma OneMoreLine(lines: seq<string>, line: string)
    ensures Stray(lines + [line]) == if KeyLine(line).None? then Stray(lines) + [line] else Stray(lines)
    ensures forall k :: Given(lines + [line], k) ==
              if KeyLine(line).Some? && KeyLine(line).value.0 == k then KeyLine(line).value.1 else Given(lines, k)
  {
    hide KeyLine;
    assert (lines + [line])[..|lines|] == lines;
  }

  /** The inner loop over the lines of a key block. */
  method ReadKeys(lines: seq<string>) returns (email: string, password: string, note: string, stray: seq<string>)
    ensures email == Given(lines, Email) && password == Given(lines, Password) && note == Given(lines, Note)
    ensures stray == Stray(lines)
  {
    hide KeyLine, Stray, Given;
    NoLinesGiveNothing();
    email, password, note, stray := "", "", "", [];
    for i := 0 to |lines|
      invariant email == Given(lines[..i], Email)
      invariant password == Given(lines[..i], Password)
      invariant note == Given(lines[..i], Note)
      invariant stray == Stray(lines[..i])
    {
      assert lines[..i + 1] == lines[..i] + [lines[i]];
      OneMoreLine(lines[..i], lines[i]);
      var m := KeyLine(lines[i]);
      match m {
        case None => stray := stray + [lines[i]];
        case Some((Email, v)) => email := v;
        case Some((Password, v)) => password := v;
        case Some((Note, v)) => note := v;
      }
    }
    assert lines[..|lines|] == lines;
  }

  lemma NoLinesNoItems(block: nat)
    ensures CommaBlock([], block) == Parsed([], [])
  {
  }

  lemma CommaBlockGrow(lines: seq<string>, line: string, block: nat)
    ensures CommaBlock(lines + [line], block) == CommaBlock(lines, block).Then(CommaLine(line, block))
  {
    hide CommaLine;
    assert (lines + [line])[..|lines|] == lines;
  }

  /** The inner loop over the lines of a comma-separated block. */
  method ReadCommaLines(lines: seq<string>, block: nat) returns (items: seq<Item>, errors: seq<Error>)
    ensures Parsed(items, errors) == CommaBlock(lines, block)
    ensures |items| + |errors| == |lines|
  {
    hide Strip, SplitCommas, CommaBlock;
    NoLinesNoItems(block);
    items, errors := [], [];
    for i := 0 to |lines|
      invariant Parsed(items, errors) == CommaBlock(lines[..i], block)
      invariant |items| + |errors| == i
    {
      CommaBlockGrow(lines[..i], lines[i], block);
      assert lines[..i + 1] == lines[..i] + [lines[i]];
      var parts := StripAll(SplitCommas(lines[i]));
      if |parts| < 2 || parts[0] == "" || parts[1] == "" {
        errors := errors + [Error(block, MalformedLine, lines[i])];
        continue;
      }
      var note := if |parts| > 2 then Optional(parts[2]) else None;
      items := items + [Item(Fields(parts[0], parts[1], note), block)];
    }
    assert lines[..|lines|] == lines;
  }

  // ---------------------------------------------------------------------------
  // Nothing is dropped
  // ---------------------------------------------------------------------------

  /** How many items and errors a block must yield: one if it has key lines, else one a line. */
  function Expected(raw: string): nat {
    if HasKeyLine(Lines(raw)) then 1 else |Lines(raw)|
  }

  function ExpectedTotal(blocks: seq<string>): nat {
    if blocks == [] then 0 else ExpectedTotal(blocks[..|blocks| - 1]) + Expected(blocks[|blocks| - 1])
  }

  lemma {:induction false} CommaBlockCounts(lines: seq<string>, block: nat)
    ensures |CommaBlock(lines, block).items| + |CommaBlock(lines, block).errors| == |lines|
  {
    if lines == [] {
    } else {
      CommaBlockCounts(lines[..|lines| - 1], block);
    }
  }

  lemma BlockCounts(raw: string, block: nat)
    ensures |ParseBlock(raw, block).items| + |ParseBlock(raw, block).errors| == Expected(raw)
  {
    hide HasKeyLine, Lines, Stray, Given, CommaBlock;
    CommaBlockCounts(Lines(raw), block);
  }

  lemma {:induction false} BlocksCount(blocks: seq<string>)
    ensures |ParseBlocks(blocks).items| + |ParseBlocks(blocks).errors| == ExpectedTotal(blocks)
  {
    hide ParseBlock, Expected;
    if blocks == [] {
    } else {
      BlocksCount(blocks[..|blocks| - 1]);
      BlockCounts(blocks[|blocks| - 1], |blocks|);
    }
  }

  function ItemsIn(items: seq<Item>, n: nat): nat {
    if items == [] then 0
    else ItemsIn(items[..|items| - 1], n) + (if items[|items| - 1].block == n then 1 else 0)
  }

  function ErrorsIn(errors: seq<Error>, n: nat): nat {
    if errors == [] then 0
    else ErrorsIn(errors[..|errors| - 1], n) + (if errors[|errors| - 1].block == n then 1 else 0)
  }

  /** How many items and errors carry a block number. */
  function Yield(p: Parsed, n: nat): nat {
    ItemsIn(p.items, n) + ErrorsIn(p.errors, n)
  }

  lemma {:induction false} ItemsInAppend(a: seq<Item>, b: seq<Item>, n: nat)
    ensures ItemsIn(a + b, n) == ItemsIn(a, n) + ItemsIn(b, n)
  {
    if b == [] {
      assert a + b == a;
    } else {
      assert (a + b)[..|a + b| - 1] == a + b[..|b| - 1];
      ItemsInAppend(a, b[..|b| - 1], n);
    }
  }

  lemma {:induction false} ErrorsInAppend(a: seq<Error>, b: seq<Error>, n: nat)
    ensures ErrorsIn(a + b, n) == ErrorsIn(a, n) + ErrorsIn(b, n)
  {
    if b == [] {
      assert a + b == a;
    } else {
      assert (a + b)[..|a + b| - 1] == a + b[..|b| - 1];
      ErrorsInAppend(a, b[..|b| - 1], n);
    }
  }

  lemma {:induction false} ItemsAllIn(items: seq<Item>, block: nat, n: nat)
    requires forall k :: 0 <= k < |items| ==> items[k].block == block
    ensures ItemsIn(items, n) == if n == block then |items| else 0
  {
    if items == [] {
    } else {
      ItemsAllIn(items[..|items| - 1], block, n);
    }
  }

  lemma {:induction false} ErrorsAllIn(errors: seq<Error>, block: nat, n: nat)
    requires forall k :: 0 <= k < |errors| ==> errors[k].block == block
    ensures ErrorsIn(errors, n) == if n == block then |errors| else 0
  {
    if errors == [] {
    } else {
      ErrorsAllIn(errors[..|errors| - 1], block, n);
    }
  }

  /** Everything parsed from a block carries its number. */
  predicate AllIn(p: Parsed, block: nat) {
    && (forall k :: 0 <= k < |p.items| ==> p.items[k].block == block)
    && (forall k :: 0 <= k < |p.errors| ==> p.errors[k].block == block)
  }

  lemma {:induction false} CommaBlockAllIn(lines: seq<string>, block: nat)
    ensures AllIn(CommaBlock(lines, block), block)
  {
    hide Strip, SplitCommas;
    if lines == [] {
    } else {
      CommaBlockAllIn(lines[..|lines| - 1], block);
    }
  }

  lemma BlockAllIn(raw: string, block: nat)
    ensures AllIn(ParseBlock(raw, block), block)
  {
    hide HasKeyLine, Lines, Stray, Given, CommaBlock;
    CommaBlockAllIn(Lines(raw), block);
  }

  lemma BlockYields(raw: string, block: nat, n: nat)
    ensures Yield(ParseBlock(raw, block), n) == if n == block then Expected(raw) else 0
  {
    hide ParseBlock, Expected;
    BlockAllIn(raw, block);
    BlockCounts(raw, block);
    ItemsAllIn(ParseBlock(raw, block).items, block, n);
    ErrorsAllIn(ParseBlock(raw, block).errors, block, n);
  }

  lemma {:induction false} BlocksYield(blocks: seq<string>, n: nat)
    ensures Yield(ParseBlocks(blocks), n) == if 1 <= n <= |blocks| then Expected(blocks[n - 1]) else 0
  {
    hide ParseBlock, Expected, ItemsIn, ErrorsIn;
    if blocks == [] {
      NothingYields(n);
    } else {
      var last := |blocks| - 1;
      var p, q := ParseBlocks(blocks[..last]), ParseBlock(blocks[last], |blocks|);
      BlocksYield(blocks[..last], n);
      BlockYields(blocks[last], |blocks|, n);
      ItemsInAppend(p.items, q.items, n);
      ErrorsInAppend(p.errors, q.errors, n);
    }
  }

  lemma NothingYields(n: nat)
    ensures Yield(Parsed([], []), n) == 0
  {
  }

  /** On any text, each block yields its own share under its own number: one if it has key lines, else one a line. */
  lemma EveryBlockAnswered(text: string, n: nat)
    ensures var blocks := FullBlocks(Blocks(Strip(text)));
            Yield(Parse(text), n) == if 1 <= n <= |blocks| then Expected(blocks[n - 1]) else 0
  {
    hide Strip, Blocks, FullBlocks, ParseBlocks, Expected, Yield;
    BlocksYield(FullBlocks(Blocks(Strip(text))), n);
  }

  /** On any text, every block and every comma line ends up as exactly one item or one error. */
  lemma NothingDropped(text: string)
    ensures |Parse(text).items| + |Parse(text).errors| == ExpectedTotal(FullBlocks(Blocks(Strip(text))))
  {
    BlocksCount(FullBlocks(Blocks(Strip(text))));
  }

  // ---------------------------------------------------------------------------
  // Round trips
  // ---------------------------------------------------------------------------

  /** Fields as documented: visible text on one line, the note optional. */
  predicate Proper(f: Fields) {
    Clean(f.email) && Clean(f.password) && (f.note.Some? ==> Clean(f.note.value))
  }

  function BlockLines(f: Fields): seq<string> {
    [Label(Email) + ": " + f.email, Label(Password) + ": " + f.password]
    + (if f.note.Some? then [Label(Note) + ": " + f.note.value] else [])
  }

  function PrintBlocks(fs: seq<Fields>): (r: seq<string>)
    ensures |r| == |fs|
    ensures forall k :: 0 <= k < |fs| ==> r[k] == Join(BlockLines(fs[k]), "\n")
  {
    seq(|fs|, k requires 0 <= k < |fs| => Join(BlockLines(fs[k]), "\n"))
  }

  /** The documented block format. */
  function Print(fs: seq<Fields>): string {
    Join(PrintBlocks(fs), "\n\n")
  }

  function Numbered(fs: seq<Fields>): (r: seq<Item>)
    ensures |r| == |fs|
    ensures forall k :: 0 <= k < |fs| ==> r[k] == Item(fs[k], k + 1)
  {
    seq(|fs|, k requires 0 <= k < |fs| => Item(fs[k], k + 1))
  }

  function Label(k: Key): string {
    match k
    case Email => "EMAIL"
    case Password => "PASSWORD"
    case Note => "NOTE"
  }

  lemma LabelIsName(k: Key)
    ensures |Label(k)| == |NameOf(k)| && Lower(Label(k)) == NameOf(k)
  {
  }

  lemma LabelMatches(k: Key, v: string)
    requires Clean(v)
    ensures ValueAfter(k, Label(k) + ": " + v) == Some(v)
  {
    hide IsBreak, IsSpace, OneLine, TrimRight;
    LabelIsName(k);
    hide Label, NameOf, Lower;
    var line := Label(k) + ": " + v;
    var n := |NameOf(k)|;
    assert line[..n] == Label(k);
    assert line[n..] == ": " + v;
    ColonVisible();
    TrimKeepsVisible(": " + v);
    hide TrimLeft, Clean, Trimmed;
    assert (": " + v)[1..] == " " + v;
    StripLeadingSpace(v);
  }

  lemma TrimKeepsVisible(s: string)
    requires s != "" && !IsSpace(s[0])
    ensures TrimLeft(s) == s
  {
  }

  lemma ColonVisible()
    ensures !IsSpace(':')
  {
  }

  /** A line labelled with one key is no line of another. */
  lemma OtherLabelsFail(k: Key, other: Key, rest: string)
    requires k != other
    ensures ValueAfter(other, Label(k) + rest).None?
  {
    hide IsSpace, Strip, TrimLeft;
    var line := Label(k) + rest;
    var n := |NameOf(other)|;
    if |line| >= n {
      assert Lower(line[..n])[0] == LowerAscii(Label(k)[0]);
      assert NameOf(other)[0] != LowerAscii(Label(k)[0]);
    }
  }

  lemma LabelledLine(k: Key, v: string)
    requires Clean(v)
    ensures KeyLine(Label(k) + ": " + v) == Some((k, v))
  {
    hide ValueAfter, Clean, Label;
    LabelMatches(k, v);
    assert Label(k) + ": " + v == Label(k) + (": " + v);
    forall other | other != k
      ensures ValueAfter(other, Label(k) + ": " + v).None?
    {
      OtherLabelsFail(k, other, ": " + v);
    }
  }

  lemma LabelClean(k: Key, v: string)
    requires Clean(v)
    ensures Clean(Label(k) + ": " + v)
  {
  }

  lemma LinesAreClean(f: Fields)
    requires Proper(f)
    ensures forall k :: 0 <= k < |BlockLines(f)| ==> Clean(BlockLines(f)[k])
  {
    hide Clean, Label;
    LabelClean(Email, f.email);
    LabelClean(Password, f.password);
    if f.note.Some? {
      LabelClean(Note, f.note.value);
    }
  }

  lemma KeysGrow(lines: seq<string>, line: string, k: Key, v: string)
    requires KeyLine(line) == Some((k, v)) && Stray(lines) == []
    ensures Stray(lines + [line]) == []
    ensures forall other :: Given(lines + [line], other) == if other == k then v else Given(lines, other)
  {
    hide KeyLine, Stray, Given;
    OneMoreLine(lines, line);
  }

  lemma KeyLinesOf(f: Fields)
    requires Proper(f)
    ensures var lines := BlockLines(f);
            && HasKeyLine(lines) && Stray(lines) == []
            && Given(lines, Email) == f.email && Given(lines, Password) == f.password
            && Optional(Given(lines, Note)) == f.note
  {
    hide Clean, Label, KeyLine, Stray, Given;
    LabelledLine(Email, f.email);
    LabelledLine(Password, f.password);
    ProperIsVisible(f);
    NoLinesGiveNothing();
    var first, second := Label(Email) + ": " + f.email, Label(Password) + ": " + f.password;
    KeysGrow([], first, Email, f.email);
    assert [] + [first] == [first];
    KeysGrow([first], second, Password, f.password);
    assert [first] + [second] == [first, second];
    assert BlockLines(f)[0] == first;
    if f.note.Some? {
      LabelledLine(Note, f.note.value);
      KeysGrow([first, second], Label(Note) + ": " + f.note.value, Note, f.note.value);
    } else {
      assert BlockLines(f) == [first, second];
    }
  }

  lemma NoLinesGiveNothing()
    ensures Stray([]) == [] && forall k :: Given([], k) == ""
  {
  }

  lemma ProperIsVisible(f: Fields)
    requires Proper(f)
    ensures f.email != "" && f.password != "" && f.note != Some("")
  {
  }

  lemma BlockParses(f: Fields, block: nat)
    requires Proper(f)
    ensures ParseBlock(Join(BlockLines(f), "\n"), block) == Parsed([Item(f, block)], [])
  {
    hide Clean, BlockLines, Stray, Given, HasKeyLine, Join, Lines, CommaBlock, Proper;
    LinesAreClean(f);
    assert BlockLines(f) != [] by { LinesExist(f); }
    LinesOfJoin(BlockLines(f));
    KeyLinesOf(f);
    ProperIsVisible(f);
  }

  lemma LinesExist(f: Fields)
    ensures BlockLines(f) != []
  {
  }

  lemma {:induction false} BlocksParse(fs: seq<Fields>)
    requires forall k :: 0 <= k < |fs| ==> Proper(fs[k])
    ensures ParseBlocks(PrintBlocks(fs)) == Parsed(Numbered(fs), [])
  {
    hide Proper, Join, BlockLines, ParseBlock;
    if fs == [] {
    } else {
      var n := |fs| - 1;
      BlocksParse(fs[..n]);
      assert PrintBlocks(fs)[..n] == PrintBlocks(fs[..n]);
      BlockParses(fs[n], |fs|);
      assert Numbered(fs) == Numbered(fs[..n]) + [Item(fs[n], |fs|)];
    }
  }

  lemma {:induction false} FullBlocksKeep(blocks: seq<string>)
    requires forall k :: 0 <= k < |blocks| ==> blocks[k] != "" && Trimmed(blocks[k])
    ensures FullBlocks(blocks) == blocks
  {
    hide Strip, Trimmed;
    if blocks == [] {
    } else {
      FullBlocksKeep(blocks[..|blocks| - 1]);
      StripTrimmed(blocks[|blocks| - 1]);
    }
  }

  /** Printing items in the documented format and parsing the text gives them back, in order. */
  lemma BlockRoundTrip(fs: seq<Fields>)
    requires forall k :: 0 <= k < |fs| ==> Proper(fs[k])
    ensures Parse(Print(fs)) == Parsed(Numbered(fs), [])
  {
    hide Proper, BlockLines, Join, Trimmed, BlockLike, Strip, Blocks, FullBlocks, ParseBlocks;
    if fs == [] {
      EmptyTextParses();
      NoCommaLines();
      assert Numbered(fs) == [];
    } else {
      var parts := PrintBlocks(fs);
      forall k | 0 <= k < |parts|
        ensures BlockLike(parts[k]) && parts[k] != "" && Trimmed(parts[k])
      {
        BlockIsBlockLike(fs[k]);
      }
      JoinTrimmed(parts, "\n\n");
      StripTrimmed(Print(fs));
      BlocksOfJoin(parts);
      FullBlocksKeep(parts);
      BlocksParse(fs);
    }
  }

  lemma BlockIsBlockLike(f: Fields)
    requires Proper(f)
    ensures var b := Join(BlockLines(f), "\n");
            BlockLike(b) && b != "" && Trimmed(b)
  {
    hide Clean, Join, Tight;
    LinesAreClean(f);
    LinesExist(f);
    LinesOfJoin(BlockLines(f));
  }

  function CommaText(f: Fields): string {
    f.email + "," + (if f.note.Some? then f.password + "," + f.note.value else f.password)
  }

  function CommaTexts(fs: seq<Fields>): (r: seq<string>)
    ensures |r| == |fs|
    ensures forall k :: 0 <= k < |fs| ==> r[k] == CommaText(fs[k])
  {
    seq(|fs|, k requires 0 <= k < |fs| => CommaText(fs[k]))
  }

  function PrintCommas(fs: seq<Fields>): string {
    Join(CommaTexts(fs), "\n")
  }

  /** Fields that survive a comma-separated line. */
  predicate CommaProper(f: Fields) {
    && Proper(f) && NoComma(f.email) && NoComma(f.password)
    && (f.note.Some? ==> NoComma(f.note.value))
    && KeyLine(CommaText(f)).None?
  }

  function InBlockOne(fs: seq<Fields>): (r: seq<Item>)
    ensures |r| == |fs|
    ensures forall k :: 0 <= k < |fs| ==> r[k] == Item(fs[k], 1)
  {
    seq(|fs|, k requires 0 <= k < |fs| => Item(fs[k], 1))
  }

  lemma CommaJoinClean(x: string, y: string)
    requires Clean(x) && Clean(y)
    ensures Clean(x + "," + y)
  {
    hide IsSpace;
    assert !IsBreak(',');
  }

  lemma CommaTextClean(f: Fields)
    requires CommaProper(f)
    ensures Clean(CommaText(f))
  {
    hide Clean, KeyLine, NoComma;
    if f.note.Some? {
      CommaJoinClean(f.password, f.note.value);
      CommaJoinClean(f.email, f.password + "," + f.note.value);
    } else {
      CommaJoinClean(f.email, f.password);
    }
  }

  lemma CommaParts(f: Fields)
    requires CommaProper(f)
    ensures SplitCommas(CommaText(f)) ==
            [f.email, f.password] + (if f.note.Some? then [f.note.value] else [])
  {
    hide Clean, KeyLine, NoComma, SplitCommas;
    if f.note.Some? {
      SplitCommasCut(f.email, f.password + "," + f.note.value);
      SplitCommasCut(f.password, f.note.value);
      SplitCommasCut(f.note.value, "");
    } else {
      SplitCommasCut(f.email, f.password);
      SplitCommasCut(f.password, "");
    }
  }

  lemma CleanIsTrimmed(x: string)
    requires Clean(x)
    ensures x != "" && Trimmed(x)
  {
  }

  lemma CommaLineParses(f: Fields, block: nat)
    requires CommaProper(f)
    ensures CommaLine(CommaText(f), block) == Parsed([Item(f, block)], [])
  {
    hide Clean, Trimmed, KeyLine, NoComma, SplitCommas, Strip, CommaText;
    CommaParts(f);
    CleanIsTrimmed(f.email);
    CleanIsTrimmed(f.password);
    StripTrimmed(f.email);
    StripTrimmed(f.password);
    if f.note.Some? {
      CleanIsTrimmed(f.note.value);
      StripTrimmed(f.note.value);
    }
  }

  lemma {:induction false} CommaLinesParse(fs: seq<Fields>)
    requires forall k :: 0 <= k < |fs| ==> CommaProper(fs[k])
    ensures CommaBlock(CommaTexts(fs), 1) == Parsed(InBlockOne(fs), [])
  {
    hide CommaProper, CommaText, CommaLine;
    if fs == [] {
    } else {
      var n := |fs| - 1;
      CommaLinesParse(fs[..n]);
      assert CommaTexts(fs)[..n] == CommaTexts(fs[..n]);
      CommaLineParses(fs[n], 1);
      assert InBlockOne(fs) == InBlockOne(fs[..n]) + [Item(fs[n], 1)];
    }
  }

  /** Likewise one comma-separated line an item, as long as no line reads like a key line. */
  lemma CommaRoundTrip(fs: seq<Fields>)
    requires forall k :: 0 <= k < |fs| ==> CommaProper(fs[k])
    ensures Parse(PrintCommas(fs)) == Parsed(InBlockOne(fs), [])
  {
    hide Clean, Trimmed, BlockLike, Strip, Join, Lines, CommaText, CommaBlock;
    hide KeyBlock, KeyLine, CommaProper, Blocks, FullBlocks;
    if fs == [] {
      EmptyTextParses();
      NoCommaLines();
    } else {
      var lines := CommaTexts(fs);
      forall k | 0 <= k < |lines|
        ensures Clean(lines[k]) && KeyLine(lines[k]).None?
      {
        CommaTextClean(fs[k]);
        NoKeyInComma(fs[k]);
      }
      LinesOfJoin(lines);
      var text := PrintCommas(fs);
      BlockAlone(text);
      CommaLinesParse(fs);
    }
  }

  lemma NoCommaLines()
    ensures PrintCommas([]) == "" && Print([]) == ""
  {
  }

  lemma NoKeyInComma(f: Fields)
    requires CommaProper(f)
    ensures KeyLine(CommaText(f)).None?
  {
  }

  lemma BlockLikeTrimmed(text: string)
    requires BlockLike(text)
    ensures text != "" && Trimmed(text)
  {
  }

  /** A text of one block parses as that block. */
  lemma BlockAlone(text: string)
    requires BlockLike(text)
    ensures Parse(text) == ParseBlock(text, 1)
  {
    hide ParseBlock, Strip, Blocks, FullBlocks, BlockLike, Trimmed;
    BlockLikeTrimmed(text);
    StripTrimmed(text);
    BlocksOfJoin([text]);
    FullBlocksKeep([text]);
    assert [text][..0] == [];
    assert ParseBlocks([text]) == Parsed([], []).Then(ParseBlock(text, 1));
  }

  lemma EmptyTextParses()
    ensures Parse("") == Parsed([], [])
  {
    hide ParseBlock;
    assert Blocks("") == [""];
    assert [""][..0] == [];
  }

  // ---------------------------------------------------------------------------
  // What a block says
  // ---------------------------------------------------------------------------

  predicate Blank(s: string) {
    forall i :: 0 <= i < |s| ==> IsSpace(s[i])
  }

  /** A key may be written in any case and with blanks before the colon; the value is what follows, stripped. */
  lemma AnyCaseMatches(k: Key, spelt: string, gap: string, rest: string)
    requires Lower(spelt) == NameOf(k) && Blank(gap)
    ensures KeyLine(spelt + gap + ":" + rest) == Some((k, Strip(rest)))
  {
    hide IsSpace, Strip, Lower, NameOf, ValueAfter, TrimLeft;
    var line := spelt + gap + ":" + rest;
    ValueFollows(k, spelt, gap, rest);
    forall other | other != k
      ensures ValueAfter(other, line).None?
    {
      OtherKeyFails(k, other, spelt, gap + ":" + rest);
      assert spelt + (gap + ":" + rest) == line;
    }
  }

  lemma ValueFollows(k: Key, spelt: string, gap: string, rest: string)
    requires Lower(spelt) == NameOf(k) && Blank(gap)
    ensures ValueAfter(k, spelt + gap + ":" + rest) == Some(Strip(rest))
  {
    hide IsSpace, Strip, Lower, NameOf, TrimLeft, Blank;
    var line := spelt + gap + ":" + rest;
    SkipGap(gap, rest);
    assert line[..|spelt|] == spelt;
    assert line[|spelt|..] == gap + (":" + rest);
    assert (":" + rest)[1..] == rest;
  }

  lemma {:induction false} SkipGap(gap: string, rest: string)
    requires Blank(gap)
    ensures TrimLeft(gap + (":" + rest)) == ":" + rest
  {
    if gap == "" {
      ColonVisible();
      assert gap + (":" + rest) == ":" + rest;
    } else {
      assert (gap + (":" + rest))[1..] == gap[1..] + (":" + rest);
      SkipGap(gap[1..], rest);
    }
  }

  /** A line that starts with one key starts with no other. */
  lemma OtherKeyFails(k: Key, other: Key, spelt: string, rest: string)
    requires k != other && Lower(spelt) == NameOf(k)
    ensures ValueAfter(other, spelt + rest).None?
  {
    hide IsSpace, Strip, TrimLeft;
    var line := spelt + rest;
    var n := |NameOf(other)|;
    if |line| >= n {
      assert Lower(line[..n])[0] == LowerAscii(line[0]) == LowerAscii(spelt[0]) == Lower(spelt)[0];
      assert NameOf(other)[0] != NameOf(k)[0];
    }
  }

  predicate Names(line: string, k: Key) {
    KeyLine(line).Some? && KeyLine(line).value.0 == k
  }

  /** What the lines say for a key: the value of the last line that names it, or nothing. */
  ghost predicate Says(lines: seq<string>, k: Key, v: string) {
    || (v == "" && forall i :: 0 <= i < |lines| ==> !Names(lines[i], k))
    || exists i :: 0 <= i < |lines| && SaysAt(lines, i, k, v)
  }

  predicate SaysAt(lines: seq<string>, i: nat, k: Key, v: string)
    requires i < |lines|
  {
    KeyLine(lines[i]) == Some((k, v)) && forall j :: i < j < |lines| ==> !Names(lines[j], k)
  }

  lemma {:induction false} GivenIsSaid(lines: seq<string>, k: Key)
    ensures Says(lines, k, Given(lines, k))
  {
    hide KeyLine;
    if lines == [] {
    } else {
      var n := |lines| - 1;
      if Names(lines[n], k) {
        assert SaysAt(lines, n, k, Given(lines, k));
      } else {
        GivenIsSaid(lines[..n], k);
        if i :| 0 <= i < n && SaysAt(lines[..n], i, k, Given(lines, k)) {
          assert forall j :: i < j < n ==> lines[..n][j] == lines[j];
          assert SaysAt(lines, i, k, Given(lines, k));
        } else {
          assert forall j :: 0 <= j < n ==> lines[..n][j] == lines[j];
        }
      }
    }
  }

  lemma {:induction false} StrayLines(lines: seq<string>, line: string)
    ensures line in Stray(lines) <==> line in lines && KeyLine(line).None?
  {
    hide KeyLine;
    if lines == [] {
    } else {
      var n := |lines| - 1;
      StrayLines(lines[..n], line);
      assert lines == lines[..n] + [lines[n]];
    }
  }

  /**
   A key block yields one item exactly if all its lines name a key and it says an e-mail and a
   password; else one error, which lists the stray lines, or says what is missing.
   */
  lemma KeyBlockMeans(lines: seq<string>, block: nat, raw: string)
    ensures var p := KeyBlock(lines, block, raw);
            var email, password, note := Given(lines, Email), Given(lines, Password), Given(lines, Note);
            var allNamed := forall i :: 0 <= i < |lines| ==> KeyLine(lines[i]).Some?;
            && Says(lines, Email, email) && Says(lines, Password, password) && Says(lines, Note, note)
            && (if allNamed && email != "" && password != "" then
                  p == Parsed([Item(Fields(email, password, if note == "" then None else Some(note)), block)], [])
                else if allNamed then p == Parsed([], [Error(block, MissingFields, raw)])
                else p == Parsed([], [Error(block, Unrecognized(Stray(lines)), raw)]))
  {
    hide KeyLine, Given, Says;
    GivenIsSaid(lines, Email);
    GivenIsSaid(lines, Password);
    GivenIsSaid(lines, Note);
    forall line: string
      ensures line in Stray(lines) <==> line in lines && KeyLine(line).None?
    {
      StrayLines(lines, line);
    }
    hide Stray;
    if Stray(lines) == [] {
      assert forall i :: 0 <= i < |lines| ==> lines[i] in lines;
    } else {
      assert Stray(lines)[0] in Stray(lines);
    }
  }

  /** A comma-separated line yields an item exactly if its first two parts are not blank; a third part is the note. */
  lemma CommaLineMeans(line: string, block: nat)
    ensures var p := CommaLine(line, block);
            var parts := SplitCommas(line);
            if |parts| >= 2 && Strip(parts[0]) != "" && Strip(parts[1]) != "" then
              var note := if |parts| == 2 || Strip(parts[2]) == "" then None else Some(Strip(parts[2]));
              p == Parsed([Item(Fields(Strip(parts[0]), Strip(parts[1]), note), block)], [])
            else p == Parsed([], [Error(block, MalformedLine, line)])
  {
    hide Strip, SplitCommas;
  }

  /** A block is read by its keys as soon as one of its lines names one. */
  lemma BlockKind(raw: string, block: nat)
    ensures var lines := Lines(raw);
            ParseBlock(raw, block) ==
            if exists i :: 0 <= i < |lines| && KeyLine(lines[i]).Some? then KeyBlock(lines, block, raw)
            else CommaBlock(lines, block)
  {
    hide Lines, KeyLine, KeyBlock, CommaBlock;
  }
}
