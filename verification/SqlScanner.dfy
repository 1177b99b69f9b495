/**
 The quote-aware SQL scanners of dblift/db/dml_analysis.py.

 An independent segment grammar says what comments, dollar quotes, quoted text and code are.
 The index loops of the source are proved to compute what the grammar defines; the clamping
 and the refusing scanner are proved to agree on every text the refusing one accepts.
 */
module SqlScanner {
  import opened Basics

  /** Python's character classes and `str.upper`, left open: the results hold for any of them. */
  datatype CharTable = CharTable(alnum: char -> bool, upper: char -> string, space: char -> bool)

  /** Opening delimiter to closing delimiter. */
  type QuotePairs = map<char, char>

  const DEFAULT_QUOTE_PAIRS: QuotePairs := map['\'' := '\'', '"' := '"', '`' := '`', '[' := ']']

  // ---------------------------------------------------------------- substring search

  /** The characters `a` and `b` stand at `i` and after it. */
  predicate Pair(text: string, i: int, a: char, b: char) {
    0 <= i && i + 1 < |text| && text[i] == a && text[i + 1] == b
  }

  predicate Occurs(text: string, pat: string, i: int) {
    0 <= i && i + |pat| <= |text| && text[i..i + |pat|] == pat
  }

  lemma PairMeans(text: string, i: int, a: char, b: char)
    ensures Pair(text, i, a, b) <==> Occurs(text, [a, b], i)
  {
    if 0 <= i && i + 2 <= |text| {
      assert text[i..i + 2] == [text[i], text[i + 1]];
    }
  }

  /** `text.find(c, from)` for one character. */
  function FindChar(text: string, c: char, from: nat): (r: int)
    ensures r == -1 || from <= r < |text|
    decreases |text| - from
  {
    if from >= |text| then -1
    else if text[from] == c then from
    else FindChar(text, c, from + 1)
  }

  /** `text.find(ab, from, end)` for a pair of characters. */
  function FindPair(text: string, a: char, b: char, from: nat, end: nat): (r: int)
    requires end <= |text|
    ensures r == -1 || from <= r <= end - 2
    decreases |text| - from
  {
    if from + 2 > end then -1
    else if Pair(text, from, a, b) then from
    else FindPair(text, a, b, from + 1, end)
  }

  /** `text.find(pat, from)`. */
  function Find(text: string, pat: string, from: nat): (r: int)
    ensures r == -1 || from <= r <= |text| - |pat|
    decreases |text| - from
  {
    if from + |pat| > |text| then -1
    else if Occurs(text, pat, from) then from
    else Find(text, pat, from + 1)
  }

  /** Each finds the first occurrence, and -1 means there is none. */
  lemma {:induction false} FindCharIsFirst(text: string, c: char, from: nat)
    ensures FindChar(text, c, from) != -1 ==> text[FindChar(text, c, from)] == c
    ensures forall k :: from <= k < |text| && (FindChar(text, c, from) == -1 || k < FindChar(text, c, from)) ==>
      text[k] != c
    decreases |text| - from
  {
    if from < |text| && text[from] != c {
      FindCharIsFirst(text, c, from + 1);
    }
  }

  lemma {:induction false} FindPairIsFirst(text: string, a: char, b: char, from: nat, end: nat)
    requires end <= |text|
    ensures var r := FindPair(text, a, b, from, end);
      && (r != -1 ==> Pair(text, r, a, b))
      && forall k :: from <= k <= end - 2 && (r == -1 || k < r) ==> !Pair(text, k, a, b)
    decreases |text| - from
  {
    if from + 2 <= end && !Pair(text, from, a, b) {
      FindPairIsFirst(text, a, b, from + 1, end);
    }
  }

  lemma {:induction false} FindIsFirst(text: string, pat: string, from: nat)
    ensures Find(text, pat, from) != -1 ==> Occurs(text, pat, Find(text, pat, from))
    ensures forall k :: from <= k && (Find(text, pat, from) == -1 || k < Find(text, pat, from)) ==>
      !Occurs(text, pat, k)
    decreases |text| - from
  {
    if from + |pat| <= |text| && !Occurs(text, pat, from) {
      FindIsFirst(text, pat, from + 1);
    }
  }

  // ---------------------------------------------------------------- segment grammar

  datatype Kind = Code | LineComment | BlockComment | DollarQuote | Quoted

  /** Text positions `lo` to `hi`; `closed` unless the text ends before its closing mark. */
  datatype Segment = Segment(kind: Kind, lo: nat, hi: nat, closed: bool)

  predicate TagStart(c: char) {
    'A' <= c <= 'Z' || 'a' <= c <= 'z' || c == '_'
  }

  predicate TagChar(c: char) {
    TagStart(c) || '0' <= c <= '9'
  }

  /** `$$` or `$tag$`. */
  predicate IsDollarTag(s: string) {
    && |s| >= 2 && s[0] == '$' && s[|s| - 1] == '$'
    && (|s| > 2 ==> TagStart(s[1]))
    && forall k :: 1 <= k < |s| - 1 ==> TagChar(s[k])
  }

  predicate StartsComment(text: string, i: int) {
    Pair(text, i, '-', '-') || Pair(text, i, '/', '*')
  }

  /** An opening tag stands at `lo`, ending before `m`. */
  predicate TagAt(text: string, lo: int, m: int) {
    0 <= lo <= m <= |text| && IsDollarTag(text[lo..m])
  }

  /** An identifier in ASCII. */
  predicate IsName(name: string) {
    && name != "" && !('0' <= name[0] <= '9')
    && forall c :: c in name ==> c == '_' || '0' <= c <= '9' || 'A' <= c <= 'Z' || 'a' <= c <= 'z'
  }

  /** A tag is two dollar signs with nothing or an identifier between them. */
  lemma TagMeans(name: string)
    ensures IsDollarTag("$" + name + "$") <==> name == "" || IsName(name)
  {
    var tag := "$" + name + "$";
    assert forall k :: 1 <= k < |tag| - 1 ==> tag[k] == name[k - 1];
    assert name != "" ==> tag[1] == name[0] && name[0] in name;
    if IsDollarTag(tag) {
      forall c | c in name ensures TagChar(c) {
        var k :| 0 <= k < |name| && name[k] == c;
        assert tag[k + 1] == c;
      }
    } else if IsName(name) {
      forall k | 1 <= k < |tag| - 1 ensures TagChar(tag[k]) {
        assert name[k - 1] in name;
      }
    }
  }

  lemma TagHasDollars(s: string)
    requires IsDollarTag(s)
    ensures s == "$" + s[1..|s| - 1] + "$"
  {
  }

  /** What may stand between single quotes: any other character, or a doubled quote. */
  predicate QuoteBody(s: string, close: char) {
    if s == "" then true
    else if s[0] != close then QuoteBody(s[1..], close)
    else close == '\'' && |s| >= 2 && s[1] == close && QuoteBody(s[2..], close)
  }

  /** The grammar: what text a segment of each kind is allowed to span. */
  ghost predicate IsSegment(text: string, quotes: QuotePairs, s: Segment) {
    && s.lo < s.hi <= |text|
    && (!s.closed ==> s.hi == |text|)
    && match s.kind {
      case LineComment =>
        && Pair(text, s.lo, '-', '-')
        && s.lo + 2 <= s.hi
        && (forall k :: s.lo + 2 <= k < s.hi - (if s.closed then 1 else 0) ==> text[k] != '\n')
        && (s.closed ==> s.lo + 2 < s.hi && text[s.hi - 1] == '\n')
      case BlockComment =>
        && Pair(text, s.lo, '/', '*')
        && s.lo + 2 <= s.hi
        && (forall k :: s.lo + 2 <= k && (s.closed ==> k < s.hi - 2) ==> !Pair(text, k, '*', '/'))
        && (s.closed ==> s.lo + 4 <= s.hi && Pair(text, s.hi - 2, '*', '/'))
      case DollarQuote =>
        exists m :: TagAt(text, s.lo, m) && DollarBody(text, s, m)
      case Quoted =>
        && !StartsComment(text, s.lo) && (forall m :: !TagAt(text, s.lo, m))
        && text[s.lo] in quotes
        && QuotedBody(text, quotes[text[s.lo]], s)
      case Code =>
        && s.hi == s.lo + 1 && s.closed
        && !StartsComment(text, s.lo) && (forall m :: !TagAt(text, s.lo, m))
        && text[s.lo] !in quotes
    }
  }

  /** After the tag ending at `m`, the segment runs to the first repetition of that tag. */
  ghost predicate DollarBody(text: string, s: Segment, m: int)
    requires 0 <= s.lo <= m <= |text|
  {
    var tag := text[s.lo..m];
    && (forall k :: m <= k && (s.closed ==> k < s.hi - |tag|) ==> !Occurs(text, tag, k))
    && (s.closed ==> m <= s.hi - |tag| && Occurs(text, tag, s.hi - |tag|))
  }

  /** A quoted body ended by the first delimiter that is not the first half of a doubled quote. */
  ghost predicate QuotedBody(text: string, close: char, s: Segment)
    requires s.lo < s.hi <= |text|
  {
    if s.closed then
      && s.lo + 2 <= s.hi && text[s.hi - 1] == close
      && QuoteBody(text[s.lo + 1..s.hi - 1], close)
      && !(close == '\'' && s.hi < |text| && text[s.hi] == close)
    else
      QuoteBody(text[s.lo + 1..], close)
  }

  /** `segs` cuts the text from `start` on into segments of the grammar, without a gap. */
  ghost predicate IsSegmentation(
    text: string, quotes: QuotePairs, start: nat, segs: seq<Segment>)
    decreases |segs|
  {
    if segs == [] then start >= |text|
    else
      && segs[0].lo == start && IsSegment(text, quotes, segs[0])
      && IsSegmentation(text, quotes, segs[0].hi, segs[1..])
  }

  // ---------------------------------------------------------------- the skipping helpers

  /** `_skip_comment`: index just past a comment starting at `i`, or -1. */
  function SkipComment(text: string, i: nat): (r: int)
    ensures r != -1 <==> StartsComment(text, i)
    ensures r != -1 ==> i + 2 <= r <= |text|
  {
    if Pair(text, i, '-', '-') then
      var end := FindChar(text, '\n', i + 2);
      if end == -1 then |text| else end + 1
    else if Pair(text, i, '/', '*') then
      var end := FindPair(text, '*', '/', i + 2, |text|);
      if end == -1 then |text| else end + 2
    else -1
  }

  /** Index of the first character from `i` on that cannot belong to a tag. */
  function TagRun(text: string, i: nat): (r: nat)
    requires i <= |text|
    ensures i <= r <= |text| && (r < |text| ==> !TagChar(text[r]))
    ensures forall k :: i <= k < r ==> TagChar(text[k])
    decreases |text| - i
  {
    if i < |text| && TagChar(text[i]) then TagRun(text, i + 1) else i
  }

  /** `_DOLLAR_QUOTE_OPEN_RE.match(text, i)`: the end of the opening tag at `i`, or -1. */
  function MatchTag(text: string, i: nat): (m: int)
    ensures m == -1 || i + 2 <= m <= |text|
  {
    if i >= |text| || text[i] != '$' then
      -1
    else if i + 1 < |text| && (text[i + 1] == '$' || TagStart(text[i + 1])) then
      var j := TagRun(text, i + 1);
      if j < |text| && text[j] == '$' then j + 1 else -1
    else
      -1
  }

  /** A tag at `i` ends just past the first character that cannot belong to it. */
  lemma TagEnds(text: string, i: nat, m: nat)
    requires TagAt(text, i, m)
    ensures i + 2 <= m && text[i] == '$' && (text[i + 1] == '$' || TagStart(text[i + 1]))
    ensures TagRun(text, i + 1) == m - 1 && text[m - 1] == '$'
  {
    var tag := text[i..m];
    assert text[m - 1] == tag[|tag| - 1];
    forall k | i + 1 <= k < m - 1 ensures TagChar(text[k]) {
      assert text[k] == tag[k - i];
    }
  }

  /** It finds the one opening tag at `i`, if there is any. */
  lemma MatchTagIsTag(text: string, i: nat)
    ensures MatchTag(text, i) == -1 ==> forall m :: !TagAt(text, i, m)
    ensures MatchTag(text, i) != -1 ==>
      TagAt(text, i, MatchTag(text, i)) && forall m :: TagAt(text, i, m) ==> m == MatchTag(text, i)
  {
    forall m | TagAt(text, i, m) ensures m == MatchTag(text, i) {
      TagEnds(text, i, m);
    }
    var m := MatchTag(text, i);
    if m != -1 {
      var tag := text[i..m];
      assert forall k :: 1 <= k < |tag| - 1 ==> tag[k] == text[i + k];
      assert TagAt(text, i, m);
    }
  }

  /** `_skip_dollar_quote`: index just past a dollar-quoted region starting at `i`, or -1. */
  function SkipDollarQuote(text: string, i: nat): (r: int)
    ensures r != -1 <==> MatchTag(text, i) != -1
    ensures r != -1 ==> i + 2 <= r <= |text|
  {
    var m := MatchTag(text, i);
    if m == -1 then -1
    else
      var tag := text[i..m];
      var end := Find(text, tag, m);
      if end == -1 then |text| else end + |tag|
  }

  /** `_skip_quote`: one step inside an open quote; `None` when the quote has closed. */
  function SkipQuote(text: string, i: nat, quote: char): (r: (nat, Option<char>))
    requires i < |text|
    ensures i < r.0 <= |text|
  {
    if text[i] == quote then
      if quote == '\'' && i + 1 < |text| && text[i + 1] == '\'' then (i + 2, Some(quote))
      else (i + 1, None)
    else (i + 1, Some(quote))
  }

  /** Where the quote open at `i` ends, by running `_skip_quote` until it closes. */
  function QuoteEnd(text: string, i: nat, quote: char): (r: (nat, bool))
    requires i <= |text|
    ensures i <= r.0 <= |text| && (!r.1 ==> r.0 == |text|)
    decreases |text| - i
  {
    if i == |text| then (i, false)
    else
      var (next, still) := SkipQuote(text, i, quote);
      if still.None? then (next, true) else QuoteEnd(text, next, quote)
  }

  /** Where code resumes when the scan is at `i`, inside `quote` if there is one. */
  function Resume(text: string, i: nat, quote: Option<char>): nat
    requires quote.Some? ==> i <= |text|
  {
    if quote.Some? then QuoteEnd(text, i, quote.value).0 else i
  }

  /** Whether the quote the scan is in, if any, is closed before the text ends. */
  predicate Closes(text: string, i: nat, quote: Option<char>)
    requires quote.Some? ==> i <= |text|
  {
    quote.Some? ==> QuoteEnd(text, i, quote.value).1
  }

  /** One step inside a quote moves neither its end nor whether it closes. */
  lemma QuoteStep(text: string, i: nat, quote: char)
    requires i < |text|
    ensures var (next, still) := SkipQuote(text, i, quote);
      && Resume(text, i, Some(quote)) == Resume(text, next, still)
      && Closes(text, i, Some(quote)) == Closes(text, next, still)
  {
  }

  // ---------------------------------------------------------------- the canonical segmentation

  /** The segment the helpers find at `i`. */
  function Next(text: string, quotes: QuotePairs, i: nat): (s: Segment)
    requires i < |text|
    ensures s.lo == i < s.hi <= |text|
  {
    if Pair(text, i, '-', '-') then
      Segment(LineComment, i, SkipComment(text, i), FindChar(text, '\n', i + 2) != -1)
    else if Pair(text, i, '/', '*') then
      Segment(BlockComment, i, SkipComment(text, i), FindPair(text, '*', '/', i + 2, |text|) != -1)
    else if MatchTag(text, i) != -1 then
      var m := MatchTag(text, i);
      Segment(DollarQuote, i, SkipDollarQuote(text, i), Find(text, text[i..m], m) != -1)
    else if text[i] in quotes then
      var (end, closed) := QuoteEnd(text, i + 1, quotes[text[i]]);
      Segment(Quoted, i, end, closed)
    else
      Segment(Code, i, i + 1, true)
  }

  predicate InText(text: string, segs: seq<Segment>) {
    forall s :: s in segs ==> s.lo < s.hi <= |text|
  }

  function Segments(text: string, quotes: QuotePairs, i: nat): (segs: seq<Segment>)
    ensures InText(text, segs)
    decreases |text| - i
  {
    if i >= |text| then []
    else
      var s := Next(text, quotes, i);
      [s] + Segments(text, quotes, s.hi)
  }

  /** The helpers find exactly the segment the grammar allows: it exists and is unique. */
  lemma NextIsTheSegment(text: string, quotes: QuotePairs, s: Segment)
    requires s.lo < |text|
    ensures IsSegment(text, quotes, s) <==> s == Next(text, quotes, s.lo)
  {
    var n := Next(text, quotes, s.lo);
    MatchTagIsTag(text, s.lo);
    match n.kind {
      case LineComment => LineCommentUnique(text, quotes, s);
      case BlockComment => BlockCommentUnique(text, quotes, s);
      case DollarQuote => DollarQuoteUnique(text, quotes, s);
      case Quoted => QuotedUnique(text, quotes, s);
      case Code =>
    }
  }

  lemma LineCommentUnique(text: string, quotes: QuotePairs, s: Segment)
    requires s.lo < |text| && Next(text, quotes, s.lo).kind == LineComment
    ensures IsSegment(text, quotes, s) <==> s == Next(text, quotes, s.lo)
  {
    FindCharIsFirst(text, '\n', s.lo + 2);
    MatchTagIsTag(text, s.lo);
    assert !Pair(text, s.lo, '/', '*');
  }

  lemma BlockCommentUnique(text: string, quotes: QuotePairs, s: Segment)
    requires s.lo < |text| && Next(text, quotes, s.lo).kind == BlockComment
    ensures IsSegment(text, quotes, s) <==> s == Next(text, quotes, s.lo)
  {
    FindPairIsFirst(text, '*', '/', s.lo + 2, |text|);
    MatchTagIsTag(text, s.lo);
  }

  lemma DollarQuoteUnique(text: string, quotes: QuotePairs, s: Segment)
    requires s.lo < |text| && Next(text, quotes, s.lo).kind == DollarQuote
    ensures IsSegment(text, quotes, s) <==> s == Next(text, quotes, s.lo)
  {
    var m := MatchTag(text, s.lo);
    var tag := text[s.lo..m];
    MatchTagIsTag(text, s.lo);
    assert TagAt(text, s.lo, m);
    FindIsFirst(text, tag, m);
  }

  lemma QuotedUnique(text: string, quotes: QuotePairs, s: Segment)
    requires s.lo < |text| && Next(text, quotes, s.lo).kind == Quoted
    ensures IsSegment(text, quotes, s) <==> s == Next(text, quotes, s.lo)
  {
    var close := quotes[text[s.lo]];
    MatchTagIsTag(text, s.lo);
    if s.lo < s.hi <= |text| && (if s.closed then s.lo + 2 <= s.hi else s.hi == |text|) {
      QuoteEndUnique(text, s.lo + 1, close, s.hi, s.closed);
    } else {
      QuoteEndClosed(text, s.lo + 1, close);
    }
  }

  lemma {:induction false} QuoteEndClosed(text: string, i: nat, close: char)
    requires i <= |text|
    ensures QuoteEnd(text, i, close).1 ==> i < QuoteEnd(text, i, close).0
    decreases |text| - i
  {
  }

  /** `QuoteEnd` is the one end that leaves a well-formed body before it. */
  lemma {:induction false} QuoteEndUnique(text: string, i: nat, close: char, hi: nat, closed: bool)
    requires i <= |text| && hi <= |text| && (if closed then i + 1 <= hi else hi == |text|)
    ensures QuoteEnd(text, i, close) == (hi, closed) <==>
      if closed then
        && text[hi - 1] == close && QuoteBody(text[i..hi - 1], close)
        && !(close == '\'' && hi < |text| && text[hi] == close)
      else QuoteBody(text[i..], close)
    decreases |text| - i
  {
    if i < |text| {
      var (next, still) := SkipQuote(text, i, close);
      var body := if closed then text[i..hi - 1] else text[i..];
      if still.Some? {
        QuoteEndClosed(text, next, close);
        if closed && next + 1 > hi {
        } else if closed {
          QuoteEndUnique(text, next, close, hi, closed);
          assert body[next - i..] == text[next..hi - 1];
        } else {
          QuoteEndUnique(text, next, close, hi, closed);
          assert body[next - i..] == text[next..];
        }
      }
    }
  }

  /** Every text has exactly one segmentation, the one the helpers build. */
  lemma {:induction false} SegmentationUnique(
    text: string, quotes: QuotePairs, start: nat, segs: seq<Segment>)
    ensures IsSegmentation(text, quotes, start, segs) <==> segs == Segments(text, quotes, start)
    decreases |segs|
  {
    if segs != [] && start < |text| {
      if segs[0].lo == start {
        NextIsTheSegment(text, quotes, segs[0]);
        if segs[0] == Next(text, quotes, start) {
          SegmentationUnique(text, quotes, segs[0].hi, segs[1..]);
          assert segs == [segs[0]] + segs[1..];
        }
      }
    }
  }

  // ---------------------------------------------------------------- keyword positions

  function UpperAll(table: CharTable, s: string): string {
    if s == "" then "" else table.upper(s[0]) + UpperAll(table, s[1..])
  }

  /** `text[lo:hi]`, cut off at the end of the text. */
  function Slice(text: string, lo: nat, hi: nat): string {
    if lo >= |text| || hi < lo then "" else text[lo..if hi < |text| then hi else |text|]
  }

  predicate WordChar(table: CharTable, c: char) {
    table.alnum(c) || c == '_'
  }

  /** The character before position `i`, or a space at the start of the text; likewise after. */
  function Before(text: string, i: nat): char
    requires i <= |text|
  {
    if i > 0 then text[i - 1] else ' '
  }

  function After(text: string, i: nat): char {
    if i < |text| then text[i] else ' '
  }

  /** `_matches_keyword_at`: the keyword stands at `i` as a whole word, in any letter case. */
  predicate MatchesKeywordAt(table: CharTable, text: string, i: nat, keyword: string)
    requires i < |text|
  {
    && UpperAll(table, Slice(text, i, i + |keyword|)) == UpperAll(table, keyword)
    && !WordChar(table, Before(text, i)) && !WordChar(table, After(text, i + |keyword|))
  }

  /** The positions at which a scan may stop. */
  type Hits = int -> bool

  /** Where the keyword stands as a whole word, whatever surrounds it. */
  function StandsAt(table: CharTable, text: string, keyword: string): Hits {
    i => 0 <= i < |text| && MatchesKeywordAt(table, text, i, keyword)
  }

  // ---------------------------------------------------------------- words

  /** `text[lo..hi]` is a word: letters, digits and underscores only, and no more of them on either side. */
  predicate IsWord(table: CharTable, text: string, lo: nat, hi: nat) {
    && lo < hi <= |text|
    && (forall k :: lo <= k < hi ==> table.alnum(text[k]) || text[k] == '_')
    && (lo > 0 ==> !table.alnum(text[lo - 1]) && text[lo - 1] != '_')
    && (hi < |text| ==> !table.alnum(text[hi]) && text[hi] != '_')
  }

  /** Where a word stands that is the keyword up to letter case. */
  predicate WordAt(table: CharTable, text: string, keyword: string, i: int) {
    && 0 <= i && IsWord(table, text, i, i + |keyword|)
    && forall j :: 0 <= j < |keyword| ==> table.upper(text[i + j]) == table.upper(keyword[j])
  }

  function Words(table: CharTable, text: string, keyword: string): Hits {
    i => WordAt(table, text, keyword, i)
  }

  ghost predicate PieceOf(s: string, piece: string) {
    exists i :: Occurs(s, piece, i)
  }

  /**
   Upper-casing keeps the keyword's length, and every character that upper-cases to a piece of it
   is a word character that upper-cases to a single one. Python's classes and all the keywords
   looked for meet this.
   */
  ghost predicate PlainKeyword(table: CharTable, keyword: string) {
    && keyword != "" && !table.alnum(' ')
    && (forall c :: c in keyword ==> |table.upper(c)| == 1)
    && (forall c :: PieceOf(UpperAll(table, keyword), table.upper(c)) ==>
          |table.upper(c)| == 1 && (table.alnum(c) || c == '_'))
  }

  lemma {:induction false} UpperPiece(table: CharTable, s: string, j: nat)
    requires j < |s|
    ensures PieceOf(UpperAll(table, s), table.upper(s[j]))
  {
    var first, rest, piece := table.upper(s[0]), UpperAll(table, s[1..]), table.upper(s[j]);
    if j == 0 {
      assert Occurs(first + rest, piece, 0);
    } else {
      UpperPiece(table, s[1..], j - 1);
      var i :| Occurs(rest, piece, i);
      assert (first + rest)[|first| + i..|first| + i + |piece|] == rest[i..i + |piece|];
      assert Occurs(first + rest, piece, |first| + i);
    }
  }

  lemma {:induction false} UpperSingles(table: CharTable, s: string)
    requires forall c :: c in s ==> |table.upper(c)| == 1
    ensures |UpperAll(table, s)| == |s|
    ensures forall j :: 0 <= j < |s| ==> table.upper(s[j]) == [UpperAll(table, s)[j]]
  {
    if s != "" {
      UpperSingles(table, s[1..]);
    }
  }

  lemma UpperIsPlain(table: CharTable, s: string, keyword: string)
    requires PlainKeyword(table, keyword) && UpperAll(table, s) == UpperAll(table, keyword)
    ensures forall c :: c in s ==> |table.upper(c)| == 1 && (table.alnum(c) || c == '_')
  {
    forall c | c in s ensures |table.upper(c)| == 1 && (table.alnum(c) || c == '_') {
      var j: nat :| j < |s| && s[j] == c;
      UpperPiece(table, s, j);
    }
  }

  lemma UpperEqual(table: CharTable, s: string, keyword: string)
    requires forall c :: c in s ==> |table.upper(c)| == 1
    requires forall c :: c in keyword ==> |table.upper(c)| == 1
    ensures UpperAll(table, s) == UpperAll(table, keyword) <==>
      |s| == |keyword| && forall j :: 0 <= j < |keyword| ==> table.upper(s[j]) == table.upper(keyword[j])
  {
    UpperSingles(table, s);
    UpperSingles(table, keyword);
    var a, b := UpperAll(table, s), UpperAll(table, keyword);
    if |s| == |keyword| {
      if forall j :: 0 <= j < |keyword| ==> table.upper(s[j]) == table.upper(keyword[j]) {
        forall j | 0 <= j < |a| ensures a[j] == b[j] {
          assert [a[j]] == table.upper(s[j]) == table.upper(keyword[j]) == [b[j]];
        }
        assert a == b;
      }
    }
  }

  /** A stretch of the text that upper-cases to the keyword has its length and its letters. */
  lemma SameUpper(table: CharTable, s: string, keyword: string)
    requires PlainKeyword(table, keyword)
    ensures UpperAll(table, s) == UpperAll(table, keyword) <==>
      |s| == |keyword| && forall j :: 0 <= j < |keyword| ==> table.upper(s[j]) == table.upper(keyword[j])
  {
    if UpperAll(table, s) == UpperAll(table, keyword) {
      UpperIsPlain(table, s, keyword);
      UpperEqual(table, s, keyword);
    } else if |s| == |keyword| && forall j :: 0 <= j < |keyword| ==> table.upper(s[j]) == table.upper(keyword[j]) {
      forall c | c in s ensures |table.upper(c)| == 1 {
        var j: nat :| j < |s| && s[j] == c;
        assert keyword[j] in keyword;
      }
      UpperEqual(table, s, keyword);
    }
  }

  /** The match at a position is that of a whole word that is the keyword up to letter case. */
  lemma MatchIsWord(table: CharTable, text: string, keyword: string, i: nat)
    requires i < |text| && PlainKeyword(table, keyword)
    ensures MatchesKeywordAt(table, text, i, keyword) <==> WordAt(table, text, keyword, i)
  {
    var s := Slice(text, i, i + |keyword|);
    SameUpper(table, s, keyword);
    if i + |keyword| <= |text| {
      assert s == text[i..i + |keyword|];
      assert forall j :: 0 <= j < |keyword| ==> s[j] == text[i + j];
      if UpperAll(table, s) == UpperAll(table, keyword) {
        UpperIsPlain(table, s, keyword);
        forall k | i <= k < i + |keyword| ensures table.alnum(text[k]) || text[k] == '_' {
          assert text[k] == s[k - i] && s[k - i] in s;
        }
      }
    }
  }

  lemma StandsAtIsWord(table: CharTable, text: string, keyword: string, i: int)
    requires PlainKeyword(table, keyword)
    ensures StandsAt(table, text, keyword)(i) <==> Words(table, text, keyword)(i)
  {
    if 0 <= i < |text| {
      MatchIsWord(table, text, keyword, i);
    }
  }

  // ---------------------------------------------------------------- depth

  /** The clamping depth count of `_find_top_level_keyword`. */
  function Clamped(c: char, depth: nat): nat {
    if c == '(' then depth + 1
    else if c == ')' then if depth == 0 then 0 else depth - 1
    else depth
  }

  /** The honest depth count of `_cte_scan_is_balanced`. */
  function Nested(c: char, depth: int): int {
    if c == '(' then depth + 1 else if c == ')' then depth - 1 else depth
  }

  function ClampedDepth(text: string, segs: seq<Segment>): nat
    requires InText(text, segs)
  {
    if segs == [] then 0
    else
      DepthAfter(text, segs[|segs| - 1], ClampedDepth(text, segs[..|segs| - 1]))
  }

  function TrueDepth(text: string, segs: seq<Segment>): int
    requires InText(text, segs)
  {
    if segs == [] then 0
    else
      NestedAfter(text, segs[|segs| - 1], TrueDepth(text, segs[..|segs| - 1]))
  }

  /** The true depth after segment `s`. */
  function NestedAfter(text: string, s: Segment, depth: int): int
    requires s.lo < |text|
  {
    if s.kind == Code then Nested(text[s.lo], depth) else depth
  }

  /** The clamped depth after segment `s`. */
  function DepthAfter(text: string, s: Segment, depth: nat): nat
    requires s.lo < |text|
  {
    if s.kind == Code then Clamped(text[s.lo], depth) else depth
  }

  /** Reached at `depth`, segment `s` is where the keyword stands. */
  predicate StopsAt(text: string, s: Segment, depth: nat, hit: Hits)
    requires s.lo < |text|
  {
    && s.kind == Code && text[s.lo] != '(' && text[s.lo] != ')'
    && depth == 0 && hit(s.lo)
  }

  /** No parenthesis opened in the first `n` segments is still open: the true depth was never lower. */
  predicate NoneOpen(text: string, segs: seq<Segment>, n: nat)
    requires InText(text, segs) && n <= |segs|
  {
    forall i :: 0 <= i <= n ==> TrueDepth(text, segs[..n]) <= TrueDepth(text, segs[..i])
  }

  /** The lowest true depth reached within the segments. */
  function LowestDepth(text: string, segs: seq<Segment>): int
    requires InText(text, segs)
  {
    if segs == [] then 0
    else
      var before, here := LowestDepth(text, segs[..|segs| - 1]), TrueDepth(text, segs);
      if here < before then here else before
  }

  /** The clamped count is the true depth above the lowest so far. */
  lemma {:induction false} ClampedIsAboveLowest(text: string, segs: seq<Segment>)
    requires InText(text, segs)
    ensures ClampedDepth(text, segs) == TrueDepth(text, segs) - LowestDepth(text, segs)
  {
    if segs != [] {
      ClampedIsAboveLowest(text, segs[..|segs| - 1]);
    }
  }

  lemma {:induction false} LowestMeans(text: string, segs: seq<Segment>, i: nat)
    requires InText(text, segs) && i <= |segs|
    ensures LowestDepth(text, segs) <= TrueDepth(text, segs[..i])
  {
    if i < |segs| {
      var front := segs[..|segs| - 1];
      LowestMeans(text, front, i);
      assert front[..i] == segs[..i];
    } else {
      assert segs[..i] == segs;
    }
  }

  lemma {:induction false} LowestReached(text: string, segs: seq<Segment>) returns (i: nat)
    requires InText(text, segs)
    ensures i <= |segs| && TrueDepth(text, segs[..i]) == LowestDepth(text, segs)
  {
    assert segs[..|segs|] == segs;
    if segs == [] || TrueDepth(text, segs) == LowestDepth(text, segs) {
      i := |segs|;
    } else {
      var front := segs[..|segs| - 1];
      i := LowestReached(text, front);
      assert front[..i] == segs[..i];
    }
  }

  /** On any text, balanced or not, the clamped count is zero exactly where no parenthesis is open. */
  lemma ClampedDepthMeans(text: string, segs: seq<Segment>, n: nat)
    requires InText(text, segs) && n <= |segs|
    ensures ClampedDepth(text, segs[..n]) == 0 <==> NoneOpen(text, segs, n)
  {
    var front := segs[..n];
    ClampedIsAboveLowest(text, front);
    forall i | 0 <= i <= n ensures LowestDepth(text, front) <= TrueDepth(text, segs[..i]) {
      LowestMeans(text, front, i);
      assert front[..i] == segs[..i];
    }
    var i := LowestReached(text, front);
    assert front[..i] == segs[..i];
  }

  /** Segment `j` is a whole-word keyword outside quotes, comments, dollar quotes and parentheses. */
  predicate TopLevelHit(text: string, segs: seq<Segment>, j: nat, hit: Hits)
    requires InText(text, segs) && j < |segs|
  {
    && segs[j].kind == Code && text[segs[j].lo] != '(' && text[segs[j].lo] != ')'
    && NoneOpen(text, segs, j) && hit(segs[j].lo)
  }

  /** Start of the first hit in `segs`, reached at clamped depth `depth`, or -1. */
  function ScanFrom(text: string, segs: seq<Segment>, hit: Hits, depth: nat): (r: int)
    requires InText(text, segs)
    ensures -1 <= r < |text|
  {
    if segs == [] then -1
    else if StopsAt(text, segs[0], depth, hit) then segs[0].lo
    else ScanFrom(text, segs[1..], hit, DepthAfter(text, segs[0], depth))
  }

  function KeywordPosition(
    table: CharTable, text: string, keyword: string, quotes: QuotePairs, start: nat): (r: int)
    ensures -1 <= r < |text|
  {
    ScanFrom(text, Segments(text, quotes, start), StandsAt(table, text, keyword), 0)
  }

  /** Segment `j` or a later one is the first hit the scan finds, with `r` its start, or -1. */
  ghost predicate IsFirstHit(text: string, segs: seq<Segment>, hit: Hits, j: nat, r: int)
    requires InText(text, segs)
  {
    && (r == -1 ==> forall k: nat :: j <= k < |segs| ==> !TopLevelHit(text, segs, k, hit))
    && (r != -1 ==> exists k: nat :: j <= k < |segs| && HitAt(text, segs, hit, j, k) && segs[k].lo == r)
  }

  ghost predicate HitAt(text: string, segs: seq<Segment>, hit: Hits, j: nat, k: nat)
    requires InText(text, segs) && k < |segs|
  {
    TopLevelHit(text, segs, k, hit) && forall l: nat :: j <= l < k ==> !TopLevelHit(text, segs, l, hit)
  }

  lemma FirstHitHere(text: string, segs: seq<Segment>, hit: Hits, j: nat)
    requires InText(text, segs) && j < |segs| && TopLevelHit(text, segs, j, hit)
    ensures IsFirstHit(text, segs, hit, j, segs[j].lo)
  {
    assert HitAt(text, segs, hit, j, j);
  }

  lemma FirstHitLater(text: string, segs: seq<Segment>, hit: Hits, j: nat, r: int)
    requires InText(text, segs) && j < |segs| && !TopLevelHit(text, segs, j, hit)
    requires IsFirstHit(text, segs, hit, j + 1, r)
    ensures IsFirstHit(text, segs, hit, j, r)
  {
    if r != -1 {
      var k: nat :| j + 1 <= k < |segs| && HitAt(text, segs, hit, j + 1, k) && segs[k].lo == r;
      assert HitAt(text, segs, hit, j, k);
    }
  }

  /** One turn over segment `j`. */
  lemma ScanFromTurn(text: string, segs: seq<Segment>, hit: Hits, j: nat)
    requires InText(text, segs) && j < |segs|
    ensures ScanFrom(text, segs[j..], hit, ClampedDepth(text, segs[..j])) ==
      if TopLevelHit(text, segs, j, hit) then segs[j].lo
      else ScanFrom(text, segs[j + 1..], hit, ClampedDepth(text, segs[..j + 1]))
  {
    assert segs[j..][1..] == segs[j + 1..];
    assert segs[..j + 1][..j] == segs[..j];
    ClampedDepthMeans(text, segs, j);
  }

  lemma {:induction false} ScanIsFirstHit(text: string, segs: seq<Segment>, hit: Hits, j: nat)
    requires InText(text, segs) && j <= |segs|
    ensures IsFirstHit(text, segs, hit, j, ScanFrom(text, segs[j..], hit, ClampedDepth(text, segs[..j])))
    decreases |segs| - j
  {
    if j < |segs| {
      ScanFromTurn(text, segs, hit, j);
      if TopLevelHit(text, segs, j, hit) {
        FirstHitHere(text, segs, hit, j);
      } else {
        ScanIsFirstHit(text, segs, hit, j + 1);
        var r := ScanFrom(text, segs[j + 1..], hit, ClampedDepth(text, segs[..j + 1]));
        FirstHitLater(text, segs, hit, j, r);
      }
    }
  }

  /**
   What the keyword scan returns, over any segmentation of the grammar: the start of the first
   top-level hit, and -1 exactly when there is none.
   */
  lemma KeywordPositionIsFirst(
    table: CharTable, text: string, keyword: string, quotes: QuotePairs, start: nat,
    segs: seq<Segment>)
    requires IsSegmentation(text, quotes, start, segs)
    ensures InText(text, segs)
    ensures IsFirstHit(
      text, segs, StandsAt(table, text, keyword), 0, KeywordPosition(table, text, keyword, quotes, start))
  {
    SegmentationUnique(text, quotes, start, segs);
    assert segs[..0] == [] && segs[0..] == segs;
    ScanIsFirstHit(text, segs, StandsAt(table, text, keyword), 0);
  }

  /** The same in terms of words: the first top-level word that is the keyword up to letter case. */
  lemma KeywordPositionIsFirstWord(
    table: CharTable, text: string, keyword: string, quotes: QuotePairs, start: nat,
    segs: seq<Segment>)
    requires IsSegmentation(text, quotes, start, segs) && PlainKeyword(table, keyword)
    ensures InText(text, segs)
    ensures IsFirstHit(
      text, segs, Words(table, text, keyword), 0, KeywordPosition(table, text, keyword, quotes, start))
  {
    KeywordPositionIsFirst(table, text, keyword, quotes, start, segs);
    forall i ensures StandsAt(table, text, keyword)(i) <==> Words(table, text, keyword)(i) {
      StandsAtIsWord(table, text, keyword, i);
    }
    var r := KeywordPosition(table, text, keyword, quotes, start);
    SameFirstHit(text, segs, StandsAt(table, text, keyword), Words(table, text, keyword), r);
  }

  lemma SameFirstHit(text: string, segs: seq<Segment>, one: Hits, other: Hits, r: int)
    requires InText(text, segs) && (forall i :: one(i) == other(i)) && IsFirstHit(text, segs, one, 0, r)
    ensures IsFirstHit(text, segs, other, 0, r)
  {
    assert forall k: nat :: k < |segs| ==> TopLevelHit(text, segs, k, one) == TopLevelHit(text, segs, k, other);
    if r != -1 {
      var k: nat :| k < |segs| && HitAt(text, segs, one, 0, k) && segs[k].lo == r;
      assert HitAt(text, segs, other, 0, k);
    }
  }

  /** The scan going on in code at `i`. */
  function ScanAt(text: string, quotes: QuotePairs, hit: Hits, i: nat, depth: nat): int {
    ScanFrom(text, Segments(text, quotes, i), hit, depth)
  }

  /** One turn of the keyword scan. */
  lemma ScanTurn(text: string, quotes: QuotePairs, hit: Hits, i: nat, depth: nat)
    requires i < |text|
    ensures var s := Next(text, quotes, i);
      ScanAt(text, quotes, hit, i, depth) ==
        if StopsAt(text, s, depth, hit) then i else ScanAt(text, quotes, hit, s.hi, DepthAfter(text, s, depth))
  {
    var s := Next(text, quotes, i);
    assert Segments(text, quotes, i)[1..] == Segments(text, quotes, s.hi);
  }

  /** The scan going on at `i`, inside `quote` if there is one. */
  function ScanOn(text: string, quotes: QuotePairs, hit: Hits, i: nat, quote: Option<char>, depth: nat): int
    requires quote.Some? ==> i <= |text|
  {
    ScanAt(text, quotes, hit, Resume(text, i, quote), depth)
  }

  lemma ScanOnAtComment(text: string, quotes: QuotePairs, hit: Hits, i: nat, depth: nat)
    requires i < |text| && SkipComment(text, i) >= 0
    ensures ScanOn(text, quotes, hit, i, None, depth) ==
      ScanOn(text, quotes, hit, SkipComment(text, i), None, depth)
  {
    ScanTurn(text, quotes, hit, i, depth);
  }

  lemma ScanOnAtDollar(text: string, quotes: QuotePairs, hit: Hits, i: nat, depth: nat)
    requires i < |text| && SkipComment(text, i) < 0 && SkipDollarQuote(text, i) >= 0
    ensures ScanOn(text, quotes, hit, i, None, depth) ==
      ScanOn(text, quotes, hit, SkipDollarQuote(text, i), None, depth)
  {
    ScanTurn(text, quotes, hit, i, depth);
  }

  lemma ScanOnAtQuote(text: string, quotes: QuotePairs, hit: Hits, i: nat, depth: nat)
    requires i < |text| && SkipComment(text, i) < 0 && SkipDollarQuote(text, i) < 0 && text[i] in quotes
    ensures ScanOn(text, quotes, hit, i, None, depth) ==
      ScanOn(text, quotes, hit, i + 1, Some(quotes[text[i]]), depth)
  {
    ScanTurn(text, quotes, hit, i, depth);
  }

  lemma ScanOnInCode(text: string, quotes: QuotePairs, hit: Hits, i: nat, depth: nat)
    requires i < |text| && SkipComment(text, i) < 0 && SkipDollarQuote(text, i) < 0 && text[i] !in quotes
    ensures ScanOn(text, quotes, hit, i, None, depth) ==
      if text[i] != '(' && text[i] != ')' && depth == 0 && hit(i) then i
      else ScanOn(text, quotes, hit, i + 1, None, Clamped(text[i], depth))
  {
    ScanTurn(text, quotes, hit, i, depth);
  }

  lemma ScanOnInQuote(text: string, quotes: QuotePairs, hit: Hits, i: nat, quote: char, depth: nat)
    requires i < |text|
    ensures var (next, still) := SkipQuote(text, i, quote);
      ScanOn(text, quotes, hit, i, Some(quote), depth) == ScanOn(text, quotes, hit, next, still, depth)
  {
    QuoteStep(text, i, quote);
  }

  /** `_find_top_level_keyword`, with the loop of the source. */
  method FindTopLevelKeyword(
    table: CharTable, statement: string, keyword: string, quotes: QuotePairs, start: nat := 0)
    returns (r: int)
    ensures r == KeywordPosition(table, statement, keyword, quotes, start)
  {
    var depth: nat := 0;
    var quote: Option<char> := None;
    var i := start;
    ghost var hit := StandsAt(table, statement, keyword);
    while i < |statement|
      invariant quote.Some? ==> i <= |statement|
      invariant KeywordPosition(table, statement, keyword, quotes, start) ==
        ScanOn(statement, quotes, hit, i, quote, depth)
      decreases |statement| - i
    {
      if quote.Some? {
        ScanOnInQuote(statement, quotes, hit, i, quote.value, depth);
        var (next, still) := SkipQuote(statement, i, quote.value);
        i, quote := next, still;
        continue;
      }
      var found, next, inside, deeper := KeywordStep(table, statement, keyword, quotes, i, depth);
      if found {
        return i;
      }
      i, quote, depth := next, inside, deeper;
    }
    return -1;
  }

  /** The body of that loop outside quotes: whether the keyword stands here, and how the scan goes on. */
  method KeywordStep(
    table: CharTable, statement: string, keyword: string, quotes: QuotePairs, i: nat, depth: nat)
    returns (found: bool, next: nat, quote: Option<char>, deeper: nat)
    requires i < |statement|
    ensures i < next <= |statement|
    ensures var hit := StandsAt(table, statement, keyword);
      ScanOn(statement, quotes, hit, i, None, depth) ==
        if found then i else ScanOn(statement, quotes, hit, next, quote, deeper)
  {
    ghost var hit := StandsAt(table, statement, keyword);
    found, quote, deeper := false, None, depth;
    var commentEnd := SkipComment(statement, i);
    if commentEnd >= 0 {
      ScanOnAtComment(statement, quotes, hit, i, depth);
      next := commentEnd;
      return;
    }
    if statement[i] == '$' {
      var dollarEnd := SkipDollarQuote(statement, i);
      if dollarEnd >= 0 {
        ScanOnAtDollar(statement, quotes, hit, i, depth);
        next := dollarEnd;
        return;
      }
    }
    var ch := statement[i];
    next := i + 1;
    if ch in quotes {
      ScanOnAtQuote(statement, quotes, hit, i, depth);
      quote := Some(quotes[ch]);
      return;
    }
    ScanOnInCode(statement, quotes, hit, i, depth);
    found, deeper := CodeStep(table, statement, keyword, i, depth);
  }

  /** The end of that body: a parenthesis is counted, and anything else may start the keyword. */
  method CodeStep(table: CharTable, statement: string, keyword: string, i: nat, depth: nat)
    returns (found: bool, deeper: nat)
    requires i < |statement|
    ensures deeper == Clamped(statement[i], depth)
    ensures found <==>
      statement[i] != '(' && statement[i] != ')' && depth == 0 && StandsAt(table, statement, keyword)(i)
  {
    var ch := statement[i];
    found, deeper := false, depth;
    if ch == '(' {
      deeper := depth + 1;
    } else if ch == ')' {
      deeper := if depth == 0 then 0 else depth - 1;
    } else if depth == 0 && MatchesKeywordAt(table, statement, i, keyword) {
      found := true;
    }
  }

  // ---------------------------------------------------------------- the refusing scanner

  /** No block comment may be open or hold another opener; no quote of any kind may be open. */
  predicate Acceptable(text: string, s: Segment)
    requires s.hi <= |text|
  {
    && (s.kind != LineComment ==> s.closed)
    && (s.kind == BlockComment && s.hi >= s.lo + 4 ==> FindPair(text, '/', '*', s.lo + 2, s.hi - 2) == -1)
  }

  /** Segment `k` is acceptable and leaves no parenthesis closed too early. */
  predicate StaysBalanced(text: string, segs: seq<Segment>, k: nat)
    requires InText(text, segs) && k < |segs|
  {
    Acceptable(text, segs[k]) && TrueDepth(text, segs[..k + 1]) >= 0
  }

  /** From segment `j` on, all are acceptable, the true depth stays at or above zero and ends there. */
  predicate BalancedAfter(text: string, segs: seq<Segment>, j: nat)
    requires InText(text, segs)
  {
    && (forall k :: j <= k < |segs| ==> StaysBalanced(text, segs, k))
    && TrueDepth(text, segs) == 0
  }

  /** No open comment, quote or parenthesis, no nested comment, no parenthesis closed too early. */
  predicate Balanced(text: string, segs: seq<Segment>)
    requires InText(text, segs)
  {
    BalancedAfter(text, segs, 0)
  }

  /** The depth the refusing scan ends with after `segs`; `None` once it refuses. */
  function FinalDepth(text: string, segs: seq<Segment>, depth: nat): Option<nat>
    requires InText(text, segs)
  {
    if segs == [] then Some(depth)
    else if !Acceptable(text, segs[0]) || NestedAfter(text, segs[0], depth) < 0 then None
    else FinalDepth(text, segs[1..], NestedAfter(text, segs[0], depth))
  }

  lemma BalancedAfterStep(text: string, segs: seq<Segment>, j: nat)
    requires InText(text, segs) && j < |segs|
    ensures BalancedAfter(text, segs, j) <==> StaysBalanced(text, segs, j) && BalancedAfter(text, segs, j + 1)
  {
    if StaysBalanced(text, segs, j) && BalancedAfter(text, segs, j + 1) {
      forall k | j <= k < |segs|
        ensures StaysBalanced(text, segs, k)
      {
        assert k == j || j + 1 <= k;
      }
    }
  }

  lemma {:induction false} FinalDepthIsBalanced(text: string, segs: seq<Segment>, j: nat)
    requires InText(text, segs) && j <= |segs| && TrueDepth(text, segs[..j]) >= 0
    ensures FinalDepth(text, segs[j..], TrueDepth(text, segs[..j])) == Some(0) <==> BalancedAfter(text, segs, j)
    decreases |segs| - j
  {
    if j < |segs| {
      BalancedAfterStep(text, segs, j);
      assert segs[j..][1..] == segs[j + 1..];
      assert segs[..j + 1][..j] == segs[..j];
      if TrueDepth(text, segs[..j + 1]) >= 0 {
        FinalDepthIsBalanced(text, segs, j + 1);
      }
    } else {
      assert segs[..j] == segs;
    }
  }

  predicate IsBalanced(text: string, quotes: QuotePairs) {
    FinalDepth(text, Segments(text, quotes, 0), 0) == Some(0)
  }

  /** What the refusing scan accepts, over any segmentation of the grammar. */
  lemma IsBalancedMeans(text: string, quotes: QuotePairs, segs: seq<Segment>)
    requires IsSegmentation(text, quotes, 0, segs)
    ensures InText(text, segs)
    ensures IsBalanced(text, quotes) <==> Balanced(text, segs)
  {
    SegmentationUnique(text, quotes, 0, segs);
    assert segs[..0] == [] && segs[0..] == segs;
    FinalDepthIsBalanced(text, segs, 0);
  }

  /** The refusing scan going on at `i`, inside `quote` if there is one. */
  function DepthAt(text: string, quotes: QuotePairs, i: nat, quote: Option<char>, depth: nat): Option<nat>
    requires quote.Some? ==> i <= |text|
  {
    if Closes(text, i, quote) then FinalDepth(text, Segments(text, quotes, Resume(text, i, quote)), depth) else None
  }

  /**
   One turn of `_cte_scan_is_balanced` in code: where it goes on, inside which quote and at
   which depth; `None` when it refuses.
   */
  function BalanceTurn(text: string, quotes: QuotePairs, i: nat, depth: nat)
    : (r: Option<(nat, Option<char>, nat)>)
    requires i < |text|
    ensures r.Some? ==> i < r.value.0 <= |text|
  {
    if Pair(text, i, '/', '*') then
      var end := FindPair(text, '*', '/', i + 2, |text|);
      if end < 0 || FindPair(text, '/', '*', i + 2, end) >= 0 then None else Some((end + 2, None, depth))
    else if SkipComment(text, i) >= 0 then
      Some((SkipComment(text, i), None, depth))
    else if text[i] == '$' && MatchTag(text, i) >= 0 then
      var tagEnd := MatchTag(text, i);
      var end := Find(text, text[i..tagEnd], tagEnd);
      if end < 0 then None else Some((end + (tagEnd - i), None, depth))
    else if text[i] in quotes then
      Some((i + 1, Some(quotes[text[i]]), depth))
    else if Nested(text[i], depth) < 0 then None
    else Some((i + 1, None, Nested(text[i], depth)))
  }

  /** What a turn must give at segment `s`. */
  ghost predicate IsTurn(text: string, quotes: QuotePairs, s: Segment, depth: nat)
    requires s.lo < s.hi <= |text|
  {
    match BalanceTurn(text, quotes, s.lo, depth)
    case None => !Acceptable(text, s) || NestedAfter(text, s, depth) < 0
    case Some((next, quote, deeper)) =>
      && NestedAfter(text, s, depth) == deeper
      && Resume(text, next, quote) == s.hi && (Closes(text, next, quote) <==> Acceptable(text, s))
  }

  lemma BalanceTurnAtComment(text: string, quotes: QuotePairs, i: nat, depth: nat)
    requires i < |text| && StartsComment(text, i)
    ensures IsTurn(text, quotes, Next(text, quotes, i), depth)
  {
  }

  lemma BalanceTurnAtDollar(text: string, quotes: QuotePairs, i: nat, depth: nat)
    requires i < |text| && !StartsComment(text, i) && MatchTag(text, i) >= 0
    ensures IsTurn(text, quotes, Next(text, quotes, i), depth)
  {
  }

  lemma BalanceTurnAtCode(text: string, quotes: QuotePairs, i: nat, depth: nat)
    requires i < |text| && !StartsComment(text, i) && MatchTag(text, i) < 0
    ensures IsTurn(text, quotes, Next(text, quotes, i), depth)
  {
  }

  lemma BalanceTurnIsTurn(text: string, quotes: QuotePairs, i: nat, depth: nat)
    requires i < |text|
    ensures DepthAt(text, quotes, i, None, depth) ==
      match BalanceTurn(text, quotes, i, depth)
      case None => None
      case Some((next, quote, deeper)) => DepthAt(text, quotes, next, quote, deeper)
  {
    var s := Next(text, quotes, i);
    assert Segments(text, quotes, i)[1..] == Segments(text, quotes, s.hi);
    assert IsTurn(text, quotes, s, depth) by {
      if StartsComment(text, i) {
        BalanceTurnAtComment(text, quotes, i, depth);
      } else if MatchTag(text, i) >= 0 {
        BalanceTurnAtDollar(text, quotes, i, depth);
      } else {
        BalanceTurnAtCode(text, quotes, i, depth);
      }
    }
  }

  /** `_cte_scan_is_balanced`, with the loop of the source. */
  method CteScanIsBalanced(text: string, quotes: QuotePairs) returns (balanced: bool)
    ensures balanced <==> IsBalanced(text, quotes)
  {
    var depth: nat := 0;
    var quote: Option<char> := None;
    var i := 0;
    while i < |text|
      invariant i <= |text|
      invariant FinalDepth(text, Segments(text, quotes, 0), 0) == DepthAt(text, quotes, i, quote, depth)
      decreases |text| - i
    {
      if quote.Some? {
        QuoteStep(text, i, quote.value);
        var (next, still) := SkipQuote(text, i, quote.value);
        i, quote := next, still;
        continue;
      }
      BalanceTurnIsTurn(text, quotes, i, depth);
      match BalanceTurn(text, quotes, i, depth) {
        case None => return false;
        case Some((next, open, deeper)) => i, quote, depth := next, open, deeper;
      }
    }
    return quote.None? && depth == 0;
  }

  /** On an accepted text the two scanners count the same depth at every segment. */
  lemma {:induction false} ClampNeverFires(text: string, segs: seq<Segment>, j: nat)
    requires InText(text, segs) && Balanced(text, segs) && j <= |segs|
    ensures ClampedDepth(text, segs[..j]) == TrueDepth(text, segs[..j])
  {
    if j > 0 {
      ClampNeverFires(text, segs, j - 1);
      assert segs[..j][..j - 1] == segs[..j - 1];
      assert StaysBalanced(text, segs, j - 1);
    }
  }

  // ---------------------------------------------------------------- leading comments

  function SkipSpace(space: char -> bool, text: string, i: nat): (r: nat)
    requires i <= |text|
    ensures i <= r <= |text| && (r < |text| ==> !space(text[r]))
    ensures forall k :: i <= k < r ==> space(text[k])
    decreases |text| - i
  {
    if i < |text| && space(text[i]) then SkipSpace(space, text, i + 1) else i
  }

  /** Where the next turn starts, and whether this one passes over a nested comment. */
  function TurnEnd(space: char -> bool, text: string, k: nat): (r: Option<nat>)
    requires k <= |text|
    ensures r.Some? ==> k < r.value <= |text|
  {
    var end := SkipComment(text, SkipSpace(space, text, k));
    if end == -1 then None else Some(end)
  }

  predicate TurnNested(space: char -> bool, text: string, k: nat)
    requires k <= |text|
  {
    var a := SkipSpace(space, text, k);
    Pair(text, a, '/', '*') && FindPair(text, '*', '/', a + 2, |text|) != -1 &&
    FindPair(text, '/', '*', a + 2, FindPair(text, '*', '/', a + 2, |text|)) != -1
  }

  /** How much of the text, read from `i`, is leading white space and comments. */
  function StripPoint(space: char -> bool, text: string, i: nat): (k: nat)
    requires i <= |text|
    ensures i <= k <= |text|
    decreases |text| - i
  {
    var end := TurnEnd(space, text, i);
    if end.None? then SkipSpace(space, text, i) else StripPoint(space, text, end.value)
  }

  function Stripped(space: char -> bool, text: string): string {
    text[StripPoint(space, text, 0)..]
  }

  /** Whether stripping from `i` passes over a block comment with another opener in it. */
  predicate PassesNested(space: char -> bool, text: string, i: nat)
    requires i <= |text|
    decreases |text| - i
  {
    var end := TurnEnd(space, text, i);
    end.Some? && (TurnNested(space, text, i) || PassesNested(space, text, end.value))
  }

  datatype StripError = NestedLeadingComment

  /** A position found in the suffix from `k` on, as a position in the whole text. */
  function Plus(k: nat, r: int): int {
    if r == -1 then -1 else k + r
  }

  /** What `strip_leading_sql_comments` gives when it has got to position `k`. */
  function StripFrom(space: char -> bool, text: string, k: nat, strict: bool): Result<string, StripError>
    requires k <= |text|
    decreases |text| - k
  {
    var end := TurnEnd(space, text, k);
    if end.None? then Success(text[SkipSpace(space, text, k)..])
    else if strict && TurnNested(space, text, k) then Failure(NestedLeadingComment)
    else StripFrom(space, text, end.value, strict)
  }

  /** In strict mode it fails exactly when it passes a nested comment; else the rest is what is left. */
  lemma {:induction false} StripFromMeans(space: char -> bool, text: string, k: nat, strict: bool)
    requires k <= |text|
    ensures StripFrom(space, text, k, strict) ==
      if strict && PassesNested(space, text, k) then Failure(NestedLeadingComment)
      else Success(text[StripPoint(space, text, k)..])
    decreases |text| - k
  {
    var end := TurnEnd(space, text, k);
    if end.Some? {
      StripFromMeans(space, text, end.value, strict);
    }
  }

  lemma StripsAll(space: char -> bool, text: string, strict: bool)
    ensures StripFrom(space, text, |text|, strict) == Success("")
  {
    assert text[|text|..] == "";
  }

  /** A turn that meets a line comment; the two dashes hold no line end themselves. */
  lemma StripsLine(space: char -> bool, text: string, k: nat, strict: bool)
    requires k <= |text| && Pair(text, SkipSpace(space, text, k), '-', '-')
    ensures var end := FindChar(text, '\n', SkipSpace(space, text, k));
      StripFrom(space, text, k, strict) ==
        if end == -1 then Success("") else StripFrom(space, text, end + 1, strict)
  {
    var a := SkipSpace(space, text, k);
    assert FindChar(text, '\n', a) == FindChar(text, '\n', a + 1) == FindChar(text, '\n', a + 2);
    StripsAll(space, text, strict);
  }

  /** A turn that meets a block comment. */
  lemma StripsBlock(space: char -> bool, text: string, k: nat, strict: bool)
    requires k <= |text| && Pair(text, SkipSpace(space, text, k), '/', '*')
    ensures var end := FindPair(text, '*', '/', SkipSpace(space, text, k) + 2, |text|);
      StripFrom(space, text, k, strict) ==
        if end == -1 then Success("")
        else if strict && FindPair(text, '/', '*', SkipSpace(space, text, k) + 2, end) >= 0 then
          Failure(NestedLeadingComment)
        else StripFrom(space, text, end + 2, strict)
  {
    StripsAll(space, text, strict);
  }

  /**
   `strip_leading_sql_comments`, with the loop of the source. What is left of the statement is
   always a suffix of it, kept as the position `k` where it starts.
   */
  method StripLeadingSqlComments(space: char -> bool, statement: string, strict: bool)
    returns (r: Result<string, StripError>)
    ensures r == if strict && PassesNested(space, statement, 0) then Failure(NestedLeadingComment)
                 else Success(Stripped(space, statement))
  {
    StripFromMeans(space, statement, 0, strict);
    ghost var result := StripFrom(space, statement, 0, strict);
    var k := 0;
    while true
      invariant k <= |statement|
      invariant result == StripFrom(space, statement, k, strict)
      decreases |statement| - k
    {
      var next, over := StripStep(space, statement, k, strict);
      if over.Some? {
        return over.value;
      }
      k := next;
    }
  }

  /** The body of that loop: where the text goes on, or what the whole call gives. */
  method StripStep(space: char -> bool, statement: string, k: nat, strict: bool)
    returns (next: nat, over: Option<Result<string, StripError>>)
    requires k <= |statement|
    ensures over.None? ==> k < next <= |statement|
    ensures StripFrom(space, statement, k, strict) ==
      if over.Some? then over.value else StripFrom(space, statement, next, strict)
  {
    var a := SkipSpace(space, statement, k);
    if Pair(statement, a, '-', '-') {
      StripsLine(space, statement, k, strict);
      var end := FindChar(statement, '\n', a);
      if end < 0 {
        return 0, Some(Success(""));
      }
      return end + 1, None;
    }
    if Pair(statement, a, '/', '*') {
      StripsBlock(space, statement, k, strict);
      var end := FindPair(statement, '*', '/', a + 2, |statement|);
      if end < 0 {
        return 0, Some(Success(""));
      }
      if strict && FindPair(statement, '/', '*', a + 2, end) >= 0 {
        return 0, Some(Failure(NestedLeadingComment));
      }
      return end + 2, None;
    }
    return 0, Some(Success(statement[a..]));
  }

  /** What is left starts with neither white space nor a comment. */
  lemma {:induction false} StripEndsAtCode(space: char -> bool, text: string, i: nat)
    requires i <= |text|
    ensures var k := StripPoint(space, text, i);
      && !StartsComment(text, k)
      && (k < |text| ==> !space(text[k]))
    decreases |text| - i
  {
    var a := SkipSpace(space, text, i);
    var end := SkipComment(text, a);
    if end != -1 {
      StripEndsAtCode(space, text, end);
    }
  }

  /** Stripping twice is stripping once. */
  lemma StripIdempotent(space: char -> bool, text: string)
    ensures Stripped(space, Stripped(space, text)) == Stripped(space, text)
    ensures SkipSpace(space, Stripped(space, text), 0) == 0
  {
    StripEndsAtCode(space, text, 0);
    var k := StripPoint(space, text, 0);
  }

  /** From `i` to `k` there is nothing but white space and comments of the grammar. */
  ghost predicate OnlyComments(space: char -> bool, text: string, quotes: QuotePairs, i: nat, k: nat)
    requires i <= k <= |text|
    decreases k - i
  {
    || i == k
    || (space(text[i]) && OnlyComments(space, text, quotes, i + 1, k))
    || exists s: Segment ::
         i == s.lo < s.hi <= k && IsComment(text, quotes, s) && OnlyComments(space, text, quotes, s.hi, k)
  }

  ghost predicate IsComment(text: string, quotes: QuotePairs, s: Segment) {
    IsSegment(text, quotes, s) && (s.kind == LineComment || s.kind == BlockComment)
  }

  lemma {:induction false} SpaceBefore(
    space: char -> bool, text: string, quotes: QuotePairs, i: nat, a: nat, k: nat)
    requires i <= a <= k <= |text| && (forall j :: i <= j < a ==> space(text[j]))
    requires OnlyComments(space, text, quotes, a, k)
    ensures OnlyComments(space, text, quotes, i, k)
    decreases a - i
  {
    if i < a {
      SpaceBefore(space, text, quotes, i + 1, a, k);
    }
  }

  /** Stripping drops nothing else. */
  lemma {:induction false} StripDropsComments(space: char -> bool, text: string, quotes: QuotePairs, i: nat)
    requires i <= |text|
    ensures OnlyComments(space, text, quotes, i, StripPoint(space, text, i))
    decreases |text| - i
  {
    var a, k := SkipSpace(space, text, i), StripPoint(space, text, i);
    var end := TurnEnd(space, text, i);
    if end.Some? {
      StripDropsComments(space, text, quotes, end.value);
      var s := Next(text, quotes, a);
      NextIsTheSegment(text, quotes, s);
      assert IsComment(text, quotes, s) && s.hi == end.value;
      assert OnlyComments(space, text, quotes, a, k);
    }
    SpaceBefore(space, text, quotes, i, a, k);
  }

  // ---------------------------------------------------------------- stripping and scanning commute

  /** What the commutation needs of the characters: white space stands for nothing else. */
  ghost predicate Sane(table: CharTable, quotes: QuotePairs) {
    && (forall c :: table.space(c) ==>
          !WordChar(table, c) && c !in quotes && c !in {'(', ')', '$', '-', '/'})
    && (forall c :: table.space(c) ==> table.upper(c) == [c])
    && !WordChar(table, ' ') && !WordChar(table, '\n') && !WordChar(table, '/')
  }

  /** A keyword whose upper-case form does not start with white space. */
  predicate IsKeyword(table: CharTable, keyword: string) {
    && keyword != "" && table.upper(keyword[0]) != ""
    && !table.space(table.upper(keyword[0])[0])
  }

  /** A keyword does not start at white space. */
  lemma NoHitAtSpace(table: CharTable, text: string, keyword: string, quotes: QuotePairs, i: nat)
    requires i < |text| && Sane(table, quotes) && IsKeyword(table, keyword) && table.space(text[i])
    ensures !MatchesKeywordAt(table, text, i, keyword)
  {
    var slice := Slice(text, i, i + |keyword|);
    assert slice[0] == text[i];
    assert UpperAll(table, slice)[0] == text[i];
    assert UpperAll(table, keyword)[0] == table.upper(keyword[0])[0];
  }

  /** The scan passes over leading white space. */
  lemma {:induction false} ScanSkipsSpace(
    table: CharTable, text: string, quotes: QuotePairs, hit: Hits, i: nat)
    requires i <= |text| && Sane(table, quotes)
    requires forall k :: 0 <= k < |text| && table.space(text[k]) ==> !hit(k)
    ensures ScanAt(text, quotes, hit, i, 0) == ScanAt(text, quotes, hit, SkipSpace(table.space, text, i), 0)
    decreases |text| - i
  {
    if i < |text| && table.space(text[i]) {
      ScanSkipsSpace(table, text, quotes, hit, i + 1);
      ScanTurn(text, quotes, hit, i, 0);
      assert Next(text, quotes, i) == Segment(Code, i, i + 1, true);
    }
  }

  /** The scan passes over everything stripping drops. */
  lemma {:induction false} ScanSkipsStripped(
    table: CharTable, text: string, quotes: QuotePairs, hit: Hits, i: nat)
    requires i <= |text| && Sane(table, quotes)
    requires forall k :: 0 <= k < |text| && table.space(text[k]) ==> !hit(k)
    ensures ScanAt(text, quotes, hit, i, 0) == ScanAt(text, quotes, hit, StripPoint(table.space, text, i), 0)
    decreases |text| - i
  {
    ScanSkipsSpace(table, text, quotes, hit, i);
    var end := TurnEnd(table.space, text, i);
    if end.Some? {
      ScanTurn(text, quotes, hit, SkipSpace(table.space, text, i), 0);
      ScanSkipsStripped(table, text, quotes, hit, end.value);
    }
  }

  /** A comment that ends before the text does ends with no word character. */
  lemma CommentEndIsBoundary(table: CharTable, quotes: QuotePairs, text: string, a: nat)
    requires Sane(table, quotes) && StartsComment(text, a) && SkipComment(text, a) < |text|
    ensures !WordChar(table, text[SkipComment(text, a) - 1])
  {
    if Pair(text, a, '-', '-') {
      FindCharIsFirst(text, '\n', a + 2);
    } else {
      FindPairIsFirst(text, '*', '/', a + 2, |text|);
    }
  }

  lemma TurnEndIsBoundary(table: CharTable, quotes: QuotePairs, text: string, i: nat)
    requires i <= |text| && Sane(table, quotes)
    ensures var end := TurnEnd(table.space, text, i);
      end.Some? && end.value < |text| ==> !WordChar(table, text[end.value - 1])
  {
    var a := SkipSpace(table.space, text, i);
    if StartsComment(text, a) && SkipComment(text, a) < |text| {
      CommentEndIsBoundary(table, quotes, text, a);
    }
  }

  /** What stands before the strip point is no word character. */
  lemma {:induction false} StripPointIsBoundary(table: CharTable, quotes: QuotePairs, text: string, i: nat)
    requires i <= |text| && Sane(table, quotes)
    requires 0 < i < |text| ==> !WordChar(table, text[i - 1])
    ensures var k := StripPoint(table.space, text, i);
      0 < k < |text| ==> !WordChar(table, text[k - 1])
    decreases |text| - i
  {
    var end := TurnEnd(table.space, text, i);
    if end.Some? {
      TurnEndIsBoundary(table, quotes, text, i);
      StripPointIsBoundary(table, quotes, text, end.value);
    } else {
      SpaceIsBoundary(table, quotes, text, i);
    }
  }

  lemma SpaceIsBoundary(table: CharTable, quotes: QuotePairs, text: string, i: nat)
    requires i <= |text| && Sane(table, quotes)
    requires 0 < i < |text| ==> !WordChar(table, text[i - 1])
    ensures var a := SkipSpace(table.space, text, i);
      0 < a < |text| ==> !WordChar(table, text[a - 1])
  {
    var a := SkipSpace(table.space, text, i);
    if a > i {
      assert table.space(text[a - 1]);
    }
  }

  function Shifted(s: Segment, k: nat): Segment {
    s.(lo := s.lo + k, hi := s.hi + k)
  }

  lemma TagAtShift(text: string, k: nat, lo: int, m: int)
    requires k <= |text| && 0 <= lo
    ensures TagAt(text[k..], lo, m) <==> TagAt(text, k + lo, k + m)
  {
    if lo <= m <= |text| - k {
      assert text[k..][lo..m] == text[k + lo..k + m];
    }
  }

  lemma OccursShift(text: string, pat: string, k: nat, j: nat)
    requires k <= |text|
    ensures Occurs(text[k..], pat, j) <==> Occurs(text, pat, k + j)
  {
    if j + |pat| <= |text| - k {
      assert text[k..][j..j + |pat|] == text[k + j..k + j + |pat|];
    }
  }

  /** No repetition of the tag between `from` and, if closed, `end`. */
  lemma NoneOccursShift(text: string, tag: string, k: nat, from: nat, closed: bool, end: int)
    requires k <= |text| && forall j :: from <= j && (closed ==> j < end) ==> !Occurs(text[k..], tag, j)
    ensures forall j :: k + from <= j && (closed ==> j < k + end) ==> !Occurs(text, tag, j)
  {
    forall j | k + from <= j && (closed ==> j < k + end) ensures !Occurs(text, tag, j) {
      OccursShift(text, tag, k, j - k);
    }
  }

  lemma DollarBodyShift(text: string, k: nat, s: Segment, m: nat)
    requires k <= |text| && s.lo < s.hi <= |text| - k && s.lo <= m <= |text| - k
    requires DollarBody(text[k..], s, m)
    ensures DollarBody(text, Shifted(s, k), k + m)
  {
    var tag := text[k..][s.lo..m];
    assert tag == text[k + s.lo..k + m];
    NoneOccursShift(text, tag, k, m, s.closed, s.hi - |tag|);
    if s.closed {
      OccursShift(text, tag, k, s.hi - |tag|);
    }
  }

  lemma NoTagShift(text: string, k: nat, lo: nat, at: nat)
    requires k <= |text| && at == k + lo && forall m :: !TagAt(text[k..], lo, m)
    ensures forall m :: !TagAt(text, at, m)
  {
    forall m ensures !TagAt(text, at, m) {
      TagAtShift(text, k, lo, m - k);
    }
  }

  lemma QuotedBodyShift(text: string, close: char, k: nat, s: Segment)
    requires k <= |text| && s.lo < s.hi <= |text| - k && QuotedBody(text[k..], close, s)
    ensures QuotedBody(text, close, Shifted(s, k))
  {
    var tail := text[k..];
    if s.closed {
      assert tail[s.lo + 1..s.hi - 1] == text[k + s.lo + 1..k + s.hi - 1];
    } else {
      assert tail[s.lo + 1..] == text[k + s.lo + 1..];
    }
  }

  lemma CommentShift(text: string, quotes: QuotePairs, k: nat, s: Segment)
    requires k <= |text| && IsSegment(text[k..], quotes, s) && (s.kind == LineComment || s.kind == BlockComment)
    ensures IsSegment(text, quotes, Shifted(s, k))
  {
    var tail := text[k..];
    forall j | k <= j < |text| ensures text[j] == tail[j - k] {
    }
    forall j | k + s.lo + 2 <= j && s.kind == BlockComment && (s.closed ==> j < k + s.hi - 2)
      ensures !Pair(text, j, '*', '/')
    {
      assert !Pair(tail, j - k, '*', '/');
    }
  }

  lemma DollarShift(text: string, quotes: QuotePairs, k: nat, s: Segment)
    requires k <= |text| && IsSegment(text[k..], quotes, s) && s.kind == DollarQuote
    ensures IsSegment(text, quotes, Shifted(s, k))
  {
    var m :| TagAt(text[k..], s.lo, m) && DollarBody(text[k..], s, m);
    DollarBodyShift(text, k, s, m);
    TagAtShift(text, k, s.lo, m);
  }

  lemma PlainShift(text: string, quotes: QuotePairs, k: nat, s: Segment)
    requires k <= |text| && IsSegment(text[k..], quotes, s) && (s.kind == Quoted || s.kind == Code)
    ensures IsSegment(text, quotes, Shifted(s, k))
  {
    var tail := text[k..];
    NoTagShift(text, k, s.lo, k + s.lo);
    if s.kind == Quoted {
      QuotedBodyShift(text, quotes[tail[s.lo]], k, s);
    }
  }

  /** A segment of a suffix is a segment of the whole: the grammar never looks back. */
  lemma SegmentShift(text: string, quotes: QuotePairs, k: nat, s: Segment)
    requires k <= |text| && IsSegment(text[k..], quotes, s)
    ensures IsSegment(text, quotes, Shifted(s, k))
  {
    match s.kind {
      case LineComment => CommentShift(text, quotes, k, s);
      case BlockComment => CommentShift(text, quotes, k, s);
      case DollarQuote => DollarShift(text, quotes, k, s);
      case Quoted => PlainShift(text, quotes, k, s);
      case Code => PlainShift(text, quotes, k, s);
    }
  }

  lemma SliceShift(text: string, k: nat, lo: nat, hi: nat)
    requires k <= |text|
    ensures Slice(text[k..], lo, hi) == Slice(text, k + lo, k + hi)
  {
  }

  lemma BeforeShift(table: CharTable, text: string, k: nat, j: nat)
    requires k + j < |text| && !WordChar(table, ' ')
    requires k > 0 ==> !WordChar(table, text[k - 1])
    ensures WordChar(table, Before(text, k + j)) <==> WordChar(table, Before(text[k..], j))
  {
  }

  lemma AfterShift(text: string, k: nat, i: nat)
    requires k <= |text|
    ensures After(text, k + i) == After(text[k..], i)
  {
  }

  lemma MatchesShift(table: CharTable, text: string, keyword: string, k: nat, j: nat)
    requires k + j < |text| && !WordChar(table, ' ')
    requires k > 0 ==> !WordChar(table, text[k - 1])
    ensures MatchesKeywordAt(table, text, k + j, keyword) <==> MatchesKeywordAt(table, text[k..], j, keyword)
  {
    SliceShift(text, k, j, j + |keyword|);
    BeforeShift(table, text, k, j);
    AfterShift(text, k, j + |keyword|);
  }

  lemma StandsAtMeans(table: CharTable, text: string, keyword: string, i: nat)
    requires i < |text|
    ensures StandsAt(table, text, keyword)(i) == MatchesKeywordAt(table, text, i, keyword)
  {
  }

  lemma HitShift(table: CharTable, text: string, keyword: string, k: nat, j: nat)
    requires k + j < |text| && !WordChar(table, ' ')
    requires k > 0 ==> !WordChar(table, text[k - 1])
    ensures StandsAt(table, text, keyword)(k + j) == StandsAt(table, text[k..], keyword)(j)
  {
    StandsAtMeans(table, text, keyword, k + j);
    StandsAtMeans(table, text[k..], keyword, j);
    MatchesShift(table, text, keyword, k, j);
  }

  ghost predicate HitsAgree(hit: Hits, tailHit: Hits, k: nat, j: nat) {
    hit(k + j) == tailHit(j)
  }

  lemma HitAgrees(table: CharTable, text: string, keyword: string, k: nat, j: nat)
    requires k + j < |text| && !WordChar(table, ' ')
    requires k > 0 ==> !WordChar(table, text[k - 1])
    ensures HitsAgree(StandsAt(table, text, keyword), StandsAt(table, text[k..], keyword), k, j)
  {
    HitShift(table, text, keyword, k, j);
  }

  /** The hits of a suffix that starts at a word boundary are those of the whole. */
  lemma HitsShift(table: CharTable, text: string, keyword: string, k: nat)
    requires k <= |text| && !WordChar(table, ' ')
    requires 0 < k < |text| ==> !WordChar(table, text[k - 1])
    ensures var hit, tailHit := StandsAt(table, text, keyword), StandsAt(table, text[k..], keyword);
      forall j: nat :: j < |text| - k ==> HitsAgree(hit, tailHit, k, j)
  {
    var hit, tailHit := StandsAt(table, text, keyword), StandsAt(table, text[k..], keyword);
    forall j: nat | j < |text| - k ensures HitsAgree(hit, tailHit, k, j) {
      HitAgrees(table, text, keyword, k, j);
    }
  }

  function ShiftAll(segs: seq<Segment>, k: nat): (r: seq<Segment>)
    ensures |r| == |segs| && forall j :: 0 <= j < |r| ==> r[j] == Shifted(segs[j], k)
  {
    if segs == [] then [] else [Shifted(segs[0], k)] + ShiftAll(segs[1..], k)
  }

  lemma {:induction false} SegmentationShift(
    text: string, quotes: QuotePairs, k: nat, i: nat, segs: seq<Segment>)
    requires k <= |text| && IsSegmentation(text[k..], quotes, i, segs)
    ensures IsSegmentation(text, quotes, k + i, ShiftAll(segs, k))
    decreases |segs|
  {
    if segs != [] {
      SegmentShift(text, quotes, k, segs[0]);
      SegmentationShift(text, quotes, k, segs[0].hi, segs[1..]);
      assert ShiftAll(segs, k)[1..] == ShiftAll(segs[1..], k);
    }
  }

  lemma SegmentsShift(text: string, quotes: QuotePairs, k: nat)
    requires k <= |text|
    ensures Segments(text, quotes, k) == ShiftAll(Segments(text[k..], quotes, 0), k)
  {
    var segs := Segments(text[k..], quotes, 0);
    SegmentationUnique(text[k..], quotes, 0, segs);
    SegmentationShift(text, quotes, k, 0, segs);
    SegmentationUnique(text, quotes, k, ShiftAll(segs, k));
  }

  /** A segment stops the scan of the suffix exactly if its shifted self stops that of the whole. */
  lemma StopShift(text: string, tail: string, s: Segment, hit: Hits, tailHit: Hits, k: nat, depth: nat)
    requires s.lo < |tail| && |text| == k + |tail| && text[k + s.lo] == tail[s.lo]
    requires HitsAgree(hit, tailHit, k, s.lo)
    ensures StopsAt(text, Shifted(s, k), depth, hit) <==> StopsAt(tail, s, depth, tailHit)
    ensures DepthAfter(text, Shifted(s, k), depth) == DepthAfter(tail, s, depth)
  {
  }

  /** The scan of a suffix finds what the scan of the whole finds from there on. */
  lemma {:induction false} ScanShift(
    text: string, tail: string, segs: seq<Segment>, hit: Hits, tailHit: Hits, k: nat, depth: nat)
    requires |text| == k + |tail| && InText(tail, segs) && InText(text, ShiftAll(segs, k))
    requires forall j: nat :: j < |tail| ==> text[k + j] == tail[j]
    requires forall j: nat :: j < |tail| ==> HitsAgree(hit, tailHit, k, j)
    ensures ScanFrom(text, ShiftAll(segs, k), hit, depth) == Plus(k, ScanFrom(tail, segs, tailHit, depth))
  {
    if segs != [] {
      var s := segs[0];
      assert s in segs;
      StopShift(text, tail, s, hit, tailHit, k, depth);
      assert ShiftAll(segs, k)[1..] == ShiftAll(segs[1..], k);
      if !StopsAt(tail, s, depth, tailHit) {
        ScanShift(text, tail, segs[1..], hit, tailHit, k, DepthAfter(tail, s, depth));
      }
    }
  }

  /** The same over the segmentations of the suffix and of the whole. */
  lemma ScanAtSuffix(text: string, quotes: QuotePairs, hit: Hits, tailHit: Hits, k: nat)
    requires k <= |text| && forall j: nat :: j < |text| - k ==> HitsAgree(hit, tailHit, k, j)
    ensures ScanAt(text, quotes, hit, k, 0) ==
      Plus(k, ScanFrom(text[k..], Segments(text[k..], quotes, 0), tailHit, 0))
  {
    var segs := Segments(text[k..], quotes, 0);
    SegmentsShift(text, quotes, k);
    ScanShift(text, text[k..], segs, hit, tailHit, k, 0);
  }

  /** Scanning a suffix that starts at a word boundary finds what scanning on from there finds. */
  lemma ScanOfSuffix(table: CharTable, text: string, keyword: string, quotes: QuotePairs, k: nat)
    requires k <= |text| && !WordChar(table, ' ')
    requires 0 < k < |text| ==> !WordChar(table, text[k - 1])
    ensures ScanAt(text, quotes, StandsAt(table, text, keyword), k, 0) ==
      Plus(k, KeywordPosition(table, text[k..], keyword, quotes, 0))
  {
    HitsShift(table, text, keyword, k);
    ScanAtSuffix(text, quotes, StandsAt(table, text, keyword), StandsAt(table, text[k..], keyword), k);
  }

  /**
   Stripping commutes with scanning: a keyword's position in the stripped text, plus what was
   dropped, is its position in the original, and it is missing from both or from neither.
   */
  lemma StripCommutesWithScan(table: CharTable, text: string, keyword: string, quotes: QuotePairs)
    requires Sane(table, quotes) && IsKeyword(table, keyword)
    ensures KeywordPosition(table, text, keyword, quotes, 0) ==
      Plus(StripPoint(table.space, text, 0), KeywordPosition(table, Stripped(table.space, text), keyword, quotes, 0))
  {
    var hit := StandsAt(table, text, keyword);
    forall j | 0 <= j < |text| && table.space(text[j]) ensures !hit(j) {
      NoHitAtSpace(table, text, keyword, quotes, j);
    }
    ScanSkipsStripped(table, text, quotes, hit, 0);
    StripPointIsBoundary(table, quotes, text, 0);
    ScanOfSuffix(table, text, keyword, quotes, StripPoint(table.space, text, 0));
  }

  // ---------------------------------------------------------------- the outer verb of a CTE

  datatype Outer = Query | Dml

  /** The modifying verbs come first. */
  const OUTER_VERBS := ["INSERT", "UPDATE", "DELETE", "MERGE", "SELECT", "VALUES", "TABLE"]
  const DML_VERBS: nat := 4

  predicate VerbStandsAt(table: CharTable, text: string, i: int, from: nat, to: nat)
    requires to <= |OUTER_VERBS|
  {
    exists k :: from <= k < to && StandsAt(table, text, OUTER_VERBS[k])(i)
  }

  /** Where any of the seven verbs stands as a whole word. */
  function AnyVerb(table: CharTable, text: string): Hits {
    i => VerbStandsAt(table, text, i, 0, |OUTER_VERBS|)
  }

  /** The kind of the verb at `p`; none when there is no such position. */
  function KindAt(table: CharTable, text: string, p: int): Option<Outer> {
    if p == -1 then None
    else if VerbStandsAt(table, text, p, 0, DML_VERBS) then Some(Dml)
    else Some(Query)
  }

  /** Start of the first hit at true parenthesis depth zero, or -1: one pass, no clamp. */
  function TrueScanFrom(text: string, segs: seq<Segment>, hit: Hits, depth: int): (r: int)
    requires InText(text, segs)
  {
    if segs == [] then -1
    else
      var s := segs[0];
      if s.kind == Code && text[s.lo] != '(' && text[s.lo] != ')' && depth == 0 && hit(s.lo) then s.lo
      else TrueScanFrom(text, segs[1..], hit, NestedAfter(text, s, depth))
  }

  /** Lock step: while the refusing scan goes on, clamping and honest counting stop together. */
  lemma {:induction false} LockStep(text: string, segs: seq<Segment>, hit: Hits, depth: nat)
    requires InText(text, segs) && FinalDepth(text, segs, depth).Some?
    ensures ScanFrom(text, segs, hit, depth) == TrueScanFrom(text, segs, hit, depth)
  {
    if segs != [] {
      LockStep(text, segs[1..], hit, NestedAfter(text, segs[0], depth));
    }
  }

  /** `r` is the first smallest of the positions found, as `min` over them picks it. */
  ghost predicate IsBest(positions: seq<int>, r: Option<nat>) {
    match r
    case None => forall k :: 0 <= k < |positions| ==> positions[k] == -1
    case Some(b) =>
      && b < |positions| && positions[b] != -1
      && forall k :: 0 <= k < |positions| && positions[k] != -1 ==>
        positions[b] <= positions[k] && (k < b ==> positions[b] < positions[k])
  }

  /** Later segments start later. */
  lemma {:induction false} SegmentsIncrease(text: string, quotes: QuotePairs, i: nat)
    ensures forall s :: s in Segments(text, quotes, i) ==> i <= s.lo
    ensures Increasing(Segments(text, quotes, i))
    decreases |text| - i
  {
    if i < |text| {
      SegmentsIncrease(text, quotes, Next(text, quotes, i).hi);
    }
  }

  predicate Increasing(segs: seq<Segment>) {
    segs != [] ==> (forall s :: s in segs[1..] ==> segs[0].lo < s.lo) && Increasing(segs[1..])
  }

  lemma {:induction false} ScanFindsStart(text: string, segs: seq<Segment>, hit: Hits, depth: nat)
    requires InText(text, segs)
    ensures var p := ScanFrom(text, segs, hit, depth);
      p != -1 ==> hit(p) && exists s :: s in segs && s.lo == p
  {
    if segs != [] && !StopsAt(text, segs[0], depth, hit) {
      ScanFindsStart(text, segs[1..], hit, DepthAfter(text, segs[0], depth));
    }
  }

  /** One verb against all: it is found nowhere before the pass over all verbs stops. */
  lemma {:induction false} OneAgainstAny(
    text: string, segs: seq<Segment>, one: Hits, any: Hits, depth: nat)
    requires InText(text, segs) && Increasing(segs)
    requires forall i :: one(i) ==> any(i)
    ensures var p, q := ScanFrom(text, segs, any, depth), ScanFrom(text, segs, one, depth);
      && (p == -1 ==> q == -1)
      && (p != -1 ==> q == -1 || p <= q)
      && (p != -1 ==> (q == p <==> one(p)))
  {
    if segs != [] {
      var rest, d := segs[1..], DepthAfter(text, segs[0], depth);
      if StopsAt(text, segs[0], depth, any) {
        ScanFindsStart(text, rest, one, d);
      } else {
        OneAgainstAny(text, rest, one, any, d);
      }
    }
  }

  /** The seven scans with a minimum and the one pass over any verb give the same kind. */
  lemma MinimumIsOnePass(
    table: CharTable, text: string, quotes: QuotePairs, positions: seq<int>, r: Option<nat>)
    requires |positions| == |OUTER_VERBS| && IsBest(positions, r)
    requires forall k :: 0 <= k < |positions| ==>
      positions[k] == KeywordPosition(table, text, OUTER_VERBS[k], quotes, 0)
    ensures KindAt(table, text, ScanAt(text, quotes, AnyVerb(table, text), 0, 0)) ==
      if r.None? then None else Some(if r.value < DML_VERBS then Dml else Query)
  {
    var segs, any := Segments(text, quotes, 0), AnyVerb(table, text);
    var p := ScanFrom(text, segs, any, 0);
    SegmentsIncrease(text, quotes, 0);
    ScanFindsStart(text, segs, any, 0);
    forall k | 0 <= k < |positions|
      ensures p == -1 ==> positions[k] == -1
      ensures p != -1 ==> positions[k] == -1 || p <= positions[k]
      ensures p != -1 ==> (positions[k] == p <==> StandsAt(table, text, OUTER_VERBS[k])(p))
    {
      OneAgainstAny(text, segs, StandsAt(table, text, OUTER_VERBS[k]), any, 0);
    }
    if p != -1 {
      var k :| 0 <= k < |OUTER_VERBS| && StandsAt(table, text, OUTER_VERBS[k])(p);
      assert positions[k] == p;
    }
  }

  /** The verb decision of one honest pass over the stripped statement. */
  function OnePass(table: CharTable, text: string, quotes: QuotePairs): Option<Outer> {
    KindAt(table, text, TrueScanFrom(text, Segments(text, quotes, 0), AnyVerb(table, text), 0))
  }

  /**
   `scan_cte_outer_statement_type`: in strict mode the honest one-pass decision on balanced
   texts and no decision on others; otherwise the decision of the clamping pass.
   */
  method ScanCteOuterStatementType(
    table: CharTable, statement: string, quotes: QuotePairs, strict: bool) returns (r: Option<Outer>)
    ensures var text := Stripped(table.space, statement);
      && (text == "" ==> r == None)
      && (text != "" && strict ==> r == if IsBalanced(text, quotes) then OnePass(table, text, quotes) else None)
      && (text != "" && !strict ==>
        r == KindAt(table, text, ScanAt(text, quotes, AnyVerb(table, text), 0, 0)))
  {
    var stripped := StripLeadingSqlComments(table.space, statement, false);
    StripIdempotent(table.space, statement);
    var text := stripped.value[SkipSpace(table.space, stripped.value, 0)..];
    assert text == Stripped(table.space, statement);
    if text == "" {
      return None;
    }
    if strict {
      var balanced := CteScanIsBalanced(text, quotes);
      if !balanced {
        return None;
      }
      LockStep(text, Segments(text, quotes, 0), AnyVerb(table, text), 0);
    }
    r := VerbByMinimum(table, text, quotes);
  }

  /** The seven keyword scans and the minimum over the positions found. */
  method VerbByMinimum(table: CharTable, text: string, quotes: QuotePairs) returns (r: Option<Outer>)
    ensures r == KindAt(table, text, ScanAt(text, quotes, AnyVerb(table, text), 0, 0))
  {
    var positions: seq<int> := [];
    for k := 0 to |OUTER_VERBS|
      invariant |positions| == k
      invariant forall j :: 0 <= j < k ==>
        positions[j] == KeywordPosition(table, text, OUTER_VERBS[j], quotes, 0)
    {
      var position := FindTopLevelKeyword(table, text, OUTER_VERBS[k], quotes);
      positions := positions + [position];
    }
    var best := FirstSmallest(positions);
    MinimumIsOnePass(table, text, quotes, positions, best);
    r := if best.None? then None else Some(if best.value < DML_VERBS then Dml else Query);
  }

  method FirstSmallest(positions: seq<int>) returns (best: Option<nat>)
    requires forall k :: 0 <= k < |positions| ==> positions[k] >= -1
    ensures IsBest(positions, best)
  {
    best := None;
    for k := 0 to |positions|
      invariant IsBest(positions[..k], best)
    {
      if positions[k] >= 0 && (best.None? || positions[k] < positions[best.value]) {
        best := Some(k);
      }
    }
    assert positions[..|positions|] == positions;
  }

  // ---------------------------------------------------------------- the outer verb in words

  /** A modifying verb stands at `i` as a word, in any letter case. */
  predicate ModifiesAt(table: CharTable, text: string, i: int) {
    || WordAt(table, text, "INSERT", i) || WordAt(table, text, "UPDATE", i)
    || WordAt(table, text, "DELETE", i) || WordAt(table, text, "MERGE", i)
  }

  predicate QueriesAt(table: CharTable, text: string, i: int) {
    WordAt(table, text, "SELECT", i) || WordAt(table, text, "VALUES", i) || WordAt(table, text, "TABLE", i)
  }

  function VerbWords(table: CharTable, text: string): Hits {
    i => ModifiesAt(table, text, i) || QueriesAt(table, text, i)
  }

  ghost predicate PlainVerbs(table: CharTable) {
    forall k :: 0 <= k < |OUTER_VERBS| ==> PlainKeyword(table, OUTER_VERBS[k])
  }

  /** The kind of statement is that of its first top-level verb; none when it has none. */
  ghost predicate IsOuterVerb(table: CharTable, text: string, segs: seq<Segment>, r: Option<Outer>)
    requires InText(text, segs)
  {
    var verbs := VerbWords(table, text);
    match r
    case None => forall k :: 0 <= k < |segs| ==> !TopLevelHit(text, segs, k, verbs)
    case Some(Dml) =>
      exists k: nat :: k < |segs| && HitAt(text, segs, verbs, 0, k) && ModifiesAt(table, text, segs[k].lo)
    case Some(Query) =>
      exists k: nat :: k < |segs| && HitAt(text, segs, verbs, 0, k) && !ModifiesAt(table, text, segs[k].lo)
  }

  lemma VerbsListed(stands: string -> bool)
    ensures (exists k :: 0 <= k < DML_VERBS && stands(OUTER_VERBS[k])) <==>
      stands("INSERT") || stands("UPDATE") || stands("DELETE") || stands("MERGE")
    ensures (exists k :: DML_VERBS <= k < |OUTER_VERBS| && stands(OUTER_VERBS[k])) <==>
      stands("SELECT") || stands("VALUES") || stands("TABLE")
  {
    assert OUTER_VERBS[0] == "INSERT" && OUTER_VERBS[1] == "UPDATE" && OUTER_VERBS[2] == "DELETE";
    assert OUTER_VERBS[3] == "MERGE" && OUTER_VERBS[4] == "SELECT" && OUTER_VERBS[5] == "VALUES";
    assert OUTER_VERBS[6] == "TABLE";
  }

  lemma VerbIsWord(table: CharTable, text: string, i: int, from: nat, to: nat)
    requires PlainVerbs(table) && to <= |OUTER_VERBS|
    ensures VerbStandsAt(table, text, i, from, to) <==>
      exists k :: from <= k < to && WordAt(table, text, OUTER_VERBS[k], i)
  {
    forall k | 0 <= k < |OUTER_VERBS|
      ensures StandsAt(table, text, OUTER_VERBS[k])(i) <==> WordAt(table, text, OUTER_VERBS[k], i)
    {
      StandsAtIsWord(table, text, OUTER_VERBS[k], i);
    }
  }

  lemma VerbsAreWords(table: CharTable, text: string, i: int)
    requires PlainVerbs(table)
    ensures VerbStandsAt(table, text, i, 0, DML_VERBS) <==> ModifiesAt(table, text, i)
    ensures AnyVerb(table, text)(i) <==> VerbWords(table, text)(i)
  {
    var stands := v => WordAt(table, text, v, i);
    VerbIsWord(table, text, i, 0, DML_VERBS);
    VerbIsWord(table, text, i, DML_VERBS, |OUTER_VERBS|);
    VerbIsWord(table, text, i, 0, |OUTER_VERBS|);
    VerbsListed(stands);
    assert (exists k :: 0 <= k < DML_VERBS && WordAt(table, text, OUTER_VERBS[k], i)) <==>
      exists k :: 0 <= k < DML_VERBS && stands(OUTER_VERBS[k]);
  }

  /** The clamping pass decides by the first top-level verb of any segmentation of the grammar. */
  lemma PassFindsOuterVerb(table: CharTable, text: string, quotes: QuotePairs, segs: seq<Segment>)
    requires PlainVerbs(table) && IsSegmentation(text, quotes, 0, segs)
    ensures InText(text, segs)
    ensures IsOuterVerb(table, text, segs, KindAt(table, text, ScanAt(text, quotes, AnyVerb(table, text), 0, 0)))
  {
    SegmentationUnique(text, quotes, 0, segs);
    assert segs[..0] == [] && segs[0..] == segs;
    ScanIsFirstHit(text, segs, AnyVerb(table, text), 0);
    forall i ensures AnyVerb(table, text)(i) <==> VerbWords(table, text)(i) {
      VerbsAreWords(table, text, i);
    }
    var p := ScanAt(text, quotes, AnyVerb(table, text), 0, 0);
    SameFirstHit(text, segs, AnyVerb(table, text), VerbWords(table, text), p);
    VerbsAreWords(table, text, p);
  }

  /** And on texts the refusing scan accepts, the pass at true depth decides the same. */
  lemma OnePassFindsOuterVerb(table: CharTable, text: string, quotes: QuotePairs, segs: seq<Segment>)
    requires PlainVerbs(table) && IsSegmentation(text, quotes, 0, segs) && IsBalanced(text, quotes)
    ensures InText(text, segs) && IsOuterVerb(table, text, segs, OnePass(table, text, quotes))
  {
    LockStep(text, Segments(text, quotes, 0), AnyVerb(table, text), 0);
    PassFindsOuterVerb(table, text, quotes, segs);
  }

  // ---------------------------------------------------------------- an instance

  /** Python's classes on ASCII characters. */
  const ASCII := CharTable(
    c => 'a' <= c <= 'z' || 'A' <= c <= 'Z' || '0' <= c <= '9',
    c => [if 'a' <= c <= 'z' then ((c as int) - 32) as char else c],
    c => c in {' ', '\t', '\n', '\r', 11 as char, 12 as char})

  /** The conditions of the commutation hold for ASCII and the default delimiters. */
  lemma AsciiIsSane()
    ensures Sane(ASCII, DEFAULT_QUOTE_PAIRS)
    ensures forall k :: 0 <= k < |OUTER_VERBS| ==> IsKeyword(ASCII, OUTER_VERBS[k])
  {
  }

  lemma {:induction false} AsciiUpper(s: string)
    requires forall c :: c in s ==> 'A' <= c <= 'Z'
    ensures UpperAll(ASCII, s) == s
  {
    if s != "" {
      assert s[0] in s && forall c :: c in s[1..] ==> c in s;
      AsciiUpper(s[1..]);
    }
  }

  /** So are those of the words. */
  lemma AsciiIsPlain(keyword: string)
    requires keyword != "" && forall c :: c in keyword ==> 'A' <= c <= 'Z'
    ensures PlainKeyword(ASCII, keyword)
  {
    AsciiUpper(keyword);
    forall c | PieceOf(keyword, ASCII.upper(c)) ensures ASCII.alnum(c) {
      var i :| Occurs(keyword, ASCII.upper(c), i);
      assert keyword[i..i + 1] == [keyword[i]] && keyword[i] in keyword;
    }
  }

  lemma AsciiVerbsArePlain()
    ensures PlainVerbs(ASCII) && PlainKeyword(ASCII, "WHERE")
  {
    forall k | 0 <= k < |OUTER_VERBS| ensures PlainKeyword(ASCII, OUTER_VERBS[k]) {
      AsciiIsPlain(OUTER_VERBS[k]);
    }
    AsciiIsPlain("WHERE");
  }

  /** The default delimiters. */
  lemma DefaultQuotes(c: char)
    requires c != '\'' && c != '"' && c != '`' && c != ']'
    ensures forall text :: text in [['\'', c, '\''], ['"', c, '"'], ['`', c, '`'], ['[', c, ']']] ==>
      IsSegment(text, DEFAULT_QUOTE_PAIRS, Segment(Quoted, 0, 3, true))
  {
    forall text | text in [['\'', c, '\''], ['"', c, '"'], ['`', c, '`'], ['[', c, ']']]
      ensures IsSegment(text, DEFAULT_QUOTE_PAIRS, Segment(Quoted, 0, 3, true))
    {
      assert text[1..2] == [c];
    }
  }
}
