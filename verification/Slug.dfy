/** Category slugs: turning a title into one, and finding one nobody has. */
module Slug {
  import opened Text

  /**
   What Unicode says about characters: which ones `\w` matches, and their lower case. Nothing
   below depends on the table beyond `Sane`.
   */
  datatype CharTable = CharTable(word: char -> bool, lower: char -> string) {
    ghost predicate Sane() {
      && (forall c :: word(c) ==> !IsSpace(c))
      && !word('-') && lower('-') == "-"
      && (forall c, i :: 0 <= i < |lower(c)| ==> lower(lower(c)[i]) == [lower(c)[i]])
      && (forall i :: 0 <= i < |FALLBACK| ==> word(FALLBACK[i]) && lower(FALLBACK[i]) == [FALLBACK[i]])
    }
  }

  const FALLBACK := "category"

  predicate IsBlank(c: char) {
    IsSpace(c) || c == '_'
  }

  function LowerAll(t: CharTable, s: string): string {
    if s == "" then "" else t.lower(s[0]) + LowerAll(t, s[1..])
  }

  function SkipBlanks(s: string): (r: string)
    ensures |r| <= |s|
    ensures s != "" && IsBlank(s[0]) ==> |r| < |s|
  {
    if s != "" && IsBlank(s[0]) then SkipBlanks(s[1..]) else s
  }

  /** Every run of blanks and underscores becomes one hyphen. */
  function DashBlanks(s: string): string
    decreases |s|
  {
    if s == "" then ""
    else if IsBlank(s[0]) then "-" + DashBlanks(SkipBlanks(s))
    else [s[0]] + DashBlanks(s[1..])
  }

  function KeepWords(t: CharTable, s: string): string {
    if s == "" then ""
    else (if t.word(s[0]) || s[0] == '-' then [s[0]] else "") + KeepWords(t, s[1..])
  }

  /** Every run of hyphens becomes one. */
  function Collapse(s: string): string {
    if s == "" then ""
    else if s[0] == '-' && |s| > 1 && s[1] == '-' then Collapse(s[1..])
    else [s[0]] + Collapse(s[1..])
  }

  function DropFirstDashes(s: string): string {
    if s != "" && s[0] == '-' then DropFirstDashes(s[1..]) else s
  }

  function DropLastDashes(s: string): string {
    if s != "" && s[|s| - 1] == '-' then DropLastDashes(s[..|s| - 1]) else s
  }

  function Slugify(t: CharTable, text: string): string {
    var dashed := DashBlanks(LowerAll(t, Strip(text)));
    var s := DropLastDashes(DropFirstDashes(Collapse(KeepWords(t, dashed))));
    if s == "" then FALLBACK else s
  }

  // ---------------------------------------------------------------------------
  // What a slug looks like
  // ---------------------------------------------------------------------------

  /** A hyphen, or a lower-case word character other than the underscore. */
  predicate SlugChar(t: CharTable, c: char) {
    (c == '-' || (t.word(c) && c != '_')) && t.lower(c) == [c]
  }

  predicate SlugChars(t: CharTable, s: string) {
    forall i :: 0 <= i < |s| ==> SlugChar(t, s[i])
  }

  predicate NoDoubles(s: string) {
    forall i :: 0 < i < |s| ==> !(s[i - 1] == '-' && s[i] == '-')
  }

  predicate IsSlug(t: CharTable, s: string) {
    && s != "" && s[0] != '-' && s[|s| - 1] != '-'
    && NoDoubles(s) && SlugChars(t, s)
  }

  predicate AllLower(t: CharTable, s: string) {
    forall i :: 0 <= i < |s| ==> t.lower(s[i]) == [s[i]]
  }

  predicate NoBlanks(s: string) {
    forall i :: 0 <= i < |s| ==> !IsBlank(s[i])
  }

  lemma {:induction false} LowerAllIsLower(t: CharTable, s: string)
    requires t.Sane()
    ensures AllLower(t, LowerAll(t, s))
  {
    if s == "" {
    } else {
      LowerAllIsLower(t, s[1..]);
    }
  }

  lemma {:induction false} SkipKeepsLower(t: CharTable, s: string)
    requires AllLower(t, s)
    ensures AllLower(t, SkipBlanks(s))
  {
    if s == "" || !IsBlank(s[0]) {
    } else {
      SkipKeepsLower(t, s[1..]);
    }
  }

  lemma {:induction false} DashedIsClean(t: CharTable, s: string)
    requires t.Sane() && AllLower(t, s)
    ensures AllLower(t, DashBlanks(s)) && NoBlanks(DashBlanks(s))
    decreases |s|
  {
    if s == "" {
    } else if IsBlank(s[0]) {
      SkipKeepsLower(t, s);
      DashedIsClean(t, SkipBlanks(s));
    } else {
      DashedIsClean(t, s[1..]);
    }
  }

  lemma {:induction false} KeptIsSlugChars(t: CharTable, s: string)
    requires AllLower(t, s) && NoBlanks(s)
    ensures SlugChars(t, KeepWords(t, s))
  {
    if s == "" {
    } else {
      KeptIsSlugChars(t, s[1..]);
    }
  }

  lemma {:induction false} CollapsedHasNoDoubles(t: CharTable, s: string)
    requires SlugChars(t, s)
    ensures SlugChars(t, Collapse(s))
    ensures NoDoubles(Collapse(s))
    ensures s != "" ==> Collapse(s) != "" && Collapse(s)[0] == s[0]
  {
    if s == "" {
    } else {
      CollapsedHasNoDoubles(t, s[1..]);
    }
  }

  lemma {:induction false} DroppedFirst(s: string) returns (k: nat)
    ensures k <= |s| && DropFirstDashes(s) == s[k..]
    ensures DropFirstDashes(s) != "" ==> DropFirstDashes(s)[0] != '-'
  {
    if s == "" || s[0] != '-' {
      k := 0;
    } else {
      var j := DroppedFirst(s[1..]);
      k := j + 1;
      assert s[1..][j..] == s[k..];
    }
  }

  lemma {:induction false} DroppedLast(s: string)
    ensures DropLastDashes(s) <= s
    ensures DropLastDashes(s) != "" ==> DropLastDashes(s)[|DropLastDashes(s)| - 1] != '-'
  {
    if s == "" || s[|s| - 1] != '-' {
    } else {
      DroppedLast(s[..|s| - 1]);
    }
  }

  /** Whatever the title, the slug is non-empty, in slug characters, without double or edge hyphens. */
  lemma SlugifyGivesSlug(t: CharTable, text: string)
    requires t.Sane()
    ensures IsSlug(t, Slugify(t, text))
  {
    hide LowerAll, DashBlanks, KeepWords, Collapse, DropFirstDashes, DropLastDashes, Strip;
    hide SlugChars, IsSlug, NoDoubles, AllLower, NoBlanks;
    var lowered := LowerAll(t, Strip(text));
    LowerAllIsLower(t, Strip(text));
    DashedIsClean(t, lowered);
    KeptIsSlugChars(t, DashBlanks(lowered));
    var collapsed := Collapse(KeepWords(t, DashBlanks(lowered)));
    CollapsedHasNoDoubles(t, KeepWords(t, DashBlanks(lowered)));
    TrimmedIsSlug(t, collapsed);
    FallbackIsSlug(t);
  }

  lemma SuffixKeeps(t: CharTable, s: string, k: nat)
    requires NoDoubles(s) && SlugChars(t, s) && k <= |s|
    ensures NoDoubles(s[k..]) && SlugChars(t, s[k..])
  {
    hide SlugChar;
    forall i | 0 < i < |s| - k
      ensures !(s[k..][i - 1] == '-' && s[k..][i] == '-')
    {
      assert !(s[k + i - 1] == '-' && s[k + i] == '-');
    }
  }

  lemma PrefixKeeps(t: CharTable, s: string, r: string)
    requires NoDoubles(s) && SlugChars(t, s) && r <= s
    ensures NoDoubles(r) && SlugChars(t, r)
  {
    hide SlugChar;
  }

  /** What is left of collapsed slug characters without the edge hyphens is nothing, or a slug. */
  lemma TrimmedIsSlug(t: CharTable, s: string)
    requires NoDoubles(s) && SlugChars(t, s)
    ensures var r := DropLastDashes(DropFirstDashes(s));
            r == "" || IsSlug(t, r)
  {
    hide SlugChars, NoDoubles, DropFirstDashes, DropLastDashes;
    var d := DropFirstDashes(s);
    var k := DroppedFirst(s);
    SuffixKeeps(t, s, k);
    DroppedLast(d);
    PrefixKeeps(t, d, DropLastDashes(d));
  }

  lemma FallbackIsSlug(t: CharTable)
    requires t.Sane()
    ensures IsSlug(t, FALLBACK)
  {
  }

  lemma {:induction false} LowerKeeps(t: CharTable, s: string)
    requires AllLower(t, s)
    ensures LowerAll(t, s) == s
  {
    if s == "" {
    } else {
      LowerKeeps(t, s[1..]);
    }
  }

  lemma {:induction false} DashKeeps(s: string)
    requires NoBlanks(s)
    ensures DashBlanks(s) == s
  {
    if s == "" {
    } else {
      DashKeeps(s[1..]);
    }
  }

  lemma {:induction false} WordsKeep(t: CharTable, s: string)
    requires SlugChars(t, s)
    ensures KeepWords(t, s) == s
  {
    if s == "" {
    } else {
      WordsKeep(t, s[1..]);
    }
  }

  lemma {:induction false} CollapseKeeps(s: string)
    requires NoDoubles(s)
    ensures Collapse(s) == s
  {
    if s == "" {
    } else {
      TailHasNoDoubles(s);
      CollapseKeeps(s[1..]);
    }
  }

  lemma SlugHasNoBlanks(t: CharTable, s: string)
    requires t.Sane() && IsSlug(t, s)
    ensures NoBlanks(s) && Trimmed(s)
  {
    forall i | 0 <= i < |s|
      ensures !IsBlank(s[i])
    {
      assert SlugChar(t, s[i]);
    }
  }

  /** Slugs are exactly the texts that slugify leaves alone; so slugifying twice is slugifying once. */
  lemma SlugsAreFixed(t: CharTable, s: string)
    requires t.Sane()
    ensures IsSlug(t, s) <==> Slugify(t, s) == s
    ensures Slugify(t, Slugify(t, s)) == Slugify(t, s)
  {
    SlugifyGivesSlug(t, s);
    SlugIsFixed(t, Slugify(t, s));
    if IsSlug(t, s) {
      SlugIsFixed(t, s);
    }
  }

  lemma SlugIsFixed(t: CharTable, s: string)
    requires t.Sane() && IsSlug(t, s)
    ensures Slugify(t, s) == s
  {
    hide LowerAll, DashBlanks, KeepWords, Collapse, IsSpace, Strip;
    SlugHasNoBlanks(t, s);
    StripTrimmed(s);
    LowerKeeps(t, s);
    DashKeeps(s);
    WordsKeep(t, s);
    CollapseKeeps(s);
  }

  /** The ASCII part of the table: a sane one, so what is proved of sane tables is not empty. */
  function Ascii(): CharTable {
    CharTable(
      c => 'a' <= c <= 'z' || 'A' <= c <= 'Z' || '0' <= c <= '9' || c == '_',
      c => [if 'A' <= c <= 'Z' then c - 'A' + 'a' else c])
  }

  lemma AsciiIsSane()
    ensures Ascii().Sane()
  {
    assert FALLBACK == ['c', 'a', 't', 'e', 'g', 'o', 'r', 'y'];
  }

  // ---------------------------------------------------------------------------
  // A slug is the words of its title
  // ---------------------------------------------------------------------------

  function Flush(word: string): seq<string> {
    if word == "" then [] else [word]
  }

  /**
   The words of a text, `word` being the one begun: blanks, underscores and hyphens end a word,
   other characters that are no word characters are as if they were not there.
   */
  function Words(t: CharTable, word: string, s: string): seq<string>
    decreases |s|
  {
    if s == "" then Flush(word)
    else if IsSpace(s[0]) || s[0] == '_' || s[0] == '-' then Flush(word) + Words(t, "", s[1..])
    else if t.word(s[0]) then Words(t, word + [s[0]], s[1..])
    else Words(t, word, s[1..])
  }

  /** The pieces between hyphens, `piece` being the one begun; empty ones do not count. */
  function Pieces(piece: string, s: string): seq<string>
    decreases |s|
  {
    if s == "" then Flush(piece)
    else if s[0] == '-' then Flush(piece) + Pieces("", s[1..])
    else Pieces(piece + [s[0]], s[1..])
  }

  lemma {:induction false} SkippedWords(t: CharTable, s: string)
    ensures Words(t, "", SkipBlanks(s)) == Words(t, "", s)
  {
    if s == "" || !IsBlank(s[0]) {
    } else {
      SkippedWords(t, s[1..]);
    }
  }

  /** Dashing the blanks and keeping the words turns words into pieces. */
  lemma {:induction false} WordsArePieces(t: CharTable, word: string, s: string)
    requires t.Sane()
    ensures Pieces(word, KeepWords(t, DashBlanks(s))) == Words(t, word, s)
    decreases |s|
  {
    hide IsSpace;
    if s == "" {
    } else if IsBlank(s[0]) {
      WordsArePieces(t, "", SkipBlanks(s));
      SkippedWords(t, s);
      DashedBlank(t, SkipBlanks(s));
    } else {
      var c, rest := s[0], KeepWords(t, DashBlanks(s[1..]));
      assert DashBlanks(s) == [c] + DashBlanks(s[1..]);
      KeptChar(t, c, DashBlanks(s[1..]));
      hide DashBlanks, KeepWords;
      PiecesStep(word, c, rest);
      WordsArePieces(t, if c == '-' then "" else if t.word(c) then word + [c] else word, s[1..]);
      assert "" + rest == rest;
    }
  }

  lemma PiecesStep(piece: string, c: char, rest: string)
    ensures Pieces(piece, [c] + rest) == if c == '-' then Flush(piece) + Pieces("", rest) else Pieces(piece + [c], rest)
  {
    assert ([c] + rest)[1..] == rest;
  }

  lemma KeptChar(t: CharTable, c: char, rest: string)
    ensures KeepWords(t, [c] + rest) == (if t.word(c) || c == '-' then [c] else "") + KeepWords(t, rest)
  {
    assert ([c] + rest)[1..] == rest;
  }

  lemma DashedBlank(t: CharTable, s: string)
    ensures KeepWords(t, "-" + DashBlanks(s)) == "-" + KeepWords(t, DashBlanks(s))
  {
    assert ("-" + DashBlanks(s))[1..] == DashBlanks(s);
  }

  lemma {:induction false} CollapsedPieces(piece: string, s: string)
    ensures Pieces(piece, Collapse(s)) == Pieces(piece, s)
    decreases |s|
  {
    if s == "" {
    } else if s[0] == '-' && |s| > 1 && s[1] == '-' {
      CollapsedPieces(piece, s[1..]);
      assert Pieces("", s[1..]) == Pieces("", s[1..][1..]);
    } else if s[0] == '-' {
      CollapsedPieces("", s[1..]);
    } else {
      CollapsedPieces(piece + [s[0]], s[1..]);
    }
  }

  lemma {:induction false} PiecesAfterDashes(s: string)
    ensures Pieces("", DropFirstDashes(s)) == Pieces("", s)
  {
    if s == "" || s[0] != '-' {
    } else {
      PiecesAfterDashes(s[1..]);
    }
  }

  lemma {:induction false} PiecesBeforeDash(piece: string, s: string)
    ensures Pieces(piece, s + "-") == Pieces(piece, s)
    decreases |s|
  {
    if s == "" {
      assert s + "-" == "-";
    } else {
      assert (s + "-")[1..] == s[1..] + "-";
      PiecesBeforeDash(if s[0] == '-' then "" else piece + [s[0]], s[1..]);
    }
  }

  lemma {:induction false} PiecesBeforeDashes(s: string)
    ensures Pieces("", DropLastDashes(s)) == Pieces("", s)
  {
    if s == "" || s[|s| - 1] != '-' {
    } else {
      PiecesBeforeDashes(s[..|s| - 1]);
      PiecesBeforeDash("", s[..|s| - 1]);
      assert s[..|s| - 1] + "-" == s;
    }
  }

  lemma JoinOne(piece: string, rest: seq<string>)
    requires rest != []
    ensures Join([piece] + rest, "-") == piece + "-" + Join(rest, "-")
  {
    assert ([piece] + rest)[1..] == rest;
  }

  /** Joining the pieces of a text without double or edge hyphens gives it back. */
  lemma {:induction false} JoinedPieces(piece: string, s: string)
    requires NoDoubles(s) && (s != "" ==> s[|s| - 1] != '-') && (piece == "" && s != "" ==> s[0] != '-')
    ensures Join(Pieces(piece, s), "-") == piece + s
    decreases |s|
  {
    if s == "" {
    } else {
      var c, rest := s[0], s[1..];
      TailHasNoDoubles(s);
      PiecesStep(piece, c, rest);
      assert [c] + rest == s;
      hide NoDoubles, Pieces;
      if c == '-' {
        JoinedPieces("", rest);
        JoinOne(piece, Pieces("", rest));
      } else {
        JoinedPieces(piece + [c], rest);
        assert piece + [c] + rest == piece + s;
      }
    }
  }

  lemma TailHasNoDoubles(s: string)
    requires s != "" && NoDoubles(s)
    ensures NoDoubles(s[1..])
    ensures s[0] == '-' && |s| > 1 ==> s[1] != '-'
  {
    assert |s| > 1 ==> !(s[1 - 1] == '-' && s[1] == '-');
    forall i | 0 < i < |s[1..]|
      ensures !(s[1..][i - 1] == '-' && s[1..][i] == '-')
    {
      assert !(s[(i + 1) - 1] == '-' && s[i + 1] == '-');
    }
  }

  /** A slug is the words of the lower-cased title, joined by single hyphens; without a word it is the fallback. */
  lemma SlugIsItsWords(t: CharTable, text: string)
    requires t.Sane()
    ensures var words := Words(t, "", LowerAll(t, Strip(text)));
            Slugify(t, text) == if words == [] then "category" else Join(words, "-")
  {
    hide LowerAll, DashBlanks, KeepWords, Collapse, DropFirstDashes, DropLastDashes, Strip, IsBlank, NoDoubles;
    var lowered := LowerAll(t, Strip(text));
    var kept := KeepWords(t, DashBlanks(lowered));
    WordsArePieces(t, "", lowered);
    CollapsedPieces("", kept);
    PiecesAfterDashes(Collapse(kept));
    PiecesBeforeDashes(DropFirstDashes(Collapse(kept)));
    var slug := DropLastDashes(DropFirstDashes(Collapse(kept)));
    SlugifyGivesSlug(t, text);
    assert Pieces("", slug) == Words(t, "", lowered);
    if slug != "" {
      JoinedPieces("", slug);
    }
  }

  /** Lower-casing goes character by character. */
  lemma {:induction false} LoweredAt(t: CharTable, s: string, i: nat)
    requires i < |s| && forall k :: 0 <= k < |s| ==> |t.lower(s[k])| == 1
    ensures |LowerAll(t, s)| == |s| && LowerAll(t, s)[i] == t.lower(s[i])[0]
  {
    if |s| == 1 {
    } else {
      LoweredAt(t, s[1..], if i == 0 then 0 else i - 1);
    }
  }

  // ---------------------------------------------------------------------------
  // Finding a free slug
  // ---------------------------------------------------------------------------

  function Digit(d: nat): char
    requires d < 10
  {
    "0123456789"[d]
  }

  function Decimal(n: nat): (r: string)
    ensures r != ""
  {
    if n < 10 then [Digit(n)] else Decimal(n / 10) + [Digit(n % 10)]
  }

  /** The number a string of digits stands for. */
  function Value(s: string): int {
    if s == "" then 0 else 10 * Value(s[..|s| - 1]) + (s[|s| - 1] as int - '0' as int)
  }

  lemma {:induction false} DecimalReadsBack(n: nat)
    ensures Value(Decimal(n)) == n
  {
    if n < 10 {
      assert Decimal(n)[..0] == "";
    } else {
      DecimalReadsBack(n / 10);
      assert Decimal(n)[..|Decimal(n)| - 1] == Decimal(n / 10);
    }
  }

  lemma {:induction false} DecimalIsInjective(a: nat, b: nat)
    requires Decimal(a) == Decimal(b)
    ensures a == b
  {
    var d := Decimal(a);
    assert d[|d| - 1] == Digit(a % 10) == Digit(b % 10);
    assert a % 10 == b % 10;
    if a < 10 || b < 10 {
    } else {
      assert Decimal(a / 10) == d[..|d| - 1] == Decimal(b / 10);
      DecimalIsInjective(a / 10, b / 10);
    }
  }

  /** The n-th slug tried: the base itself, then base-2, base-3, and so on. */
  function Candidate(base: string, n: nat): string {
    if n <= 1 then base else base + "-" + Decimal(n)
  }

  lemma CandidatesDiffer(base: string, m: nat, n: nat)
    requires 1 <= m < n
    ensures Candidate(base, m) != Candidate(base, n)
  {
    if m > 1 && Candidate(base, m) == Candidate(base, n) {
      var prefix := |base| + 1;
      assert Candidate(base, m)[prefix..] == Decimal(m);
      assert Candidate(base, n)[prefix..] == Decimal(n);
      DecimalIsInjective(m, n);
    }
  }

  /** If the first `n` candidates are all taken, at least `n` slugs are. */
  lemma {:induction false} ProbesBounded(base: string, taken: set<string>, n: nat)
    requires forall k: nat :: 1 <= k <= n ==> Candidate(base, k) in taken
    ensures n <= |taken|
  {
    if n == 0 {
    } else {
      forall k: nat | 1 <= k <= n - 1
        ensures Candidate(base, k) in taken - {Candidate(base, n)}
      {
        CandidatesDiffer(base, k, n);
      }
      ProbesBounded(base, taken - {Candidate(base, n)}, n - 1);
    }
  }

  /** The search ends after at most one probe more than there are slugs, at the first free candidate. */
  method UniqueSlug(base: string, taken: set<string>) returns (slug: string, n: nat)
    ensures slug !in taken
    ensures 1 <= n <= |taken| + 1 && slug == Candidate(base, n)
    ensures forall k: nat :: 1 <= k < n ==> Candidate(base, k) in taken
  {
    slug, n := base, 1;
    ProbesBounded(base, taken, 0);
    while slug in taken
      invariant n >= 1 && slug == Candidate(base, n)
      invariant forall k: nat :: 1 <= k < n ==> Candidate(base, k) in taken
      invariant n <= |taken| + 1
      decreases |taken| + 1 - n
    {
      ProbesBounded(base, taken, n);
      n := n + 1;
      slug := base + "-" + Decimal(n);
    }
  }
}
