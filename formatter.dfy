/**
 * `formatCodeReview` of the side panel (sidebar.js:167-232): the review text
 * is escaped, then a chain of global regular-expression replacements turns a
 * fixed subset of markdown into tags, groups list items, and wraps keywords
 * in tag spans.
 *
 * Each replacement is a left-to-right scan: at each index the pattern is
 * tried; on a match its replacement is written and the scan resumes after
 * the match, otherwise one character is copied. `MatchAt` decides, from the
 * characters alone, what the pattern matches at an index.
 *
 * The text is a sequence of `Sym`s: a character together with where it came
 * from, the escaped input or the markup of one pass. The origin never
 * influences a match; the HTML the panel receives is `Chars` of the result.
 * The origin only lets the model say which characters were inserted.
 */
module Formatter {
  import opened Text
  import opened Types
  import opened Escape

  /** The replacements, in the order `formatCodeReview` applies them. */
  datatype Pass =
    | Fence | InlineCode | Header | Bold | Numbered | Bullet
    | OlGroup | UlGroup | BugTag | SecurityTag | PerformanceTag

  const Passes: seq<Pass> :=
    [Fence, InlineCode, Header, Bold, Numbered, Bullet, OlGroup, UlGroup, BugTag, SecurityTag, PerformanceTag]

  datatype Origin = Input | Markup(pass: Pass)

  datatype Sym = Sym(c: char, origin: Origin)

  /** The characters of a symbol sequence: the HTML string itself. */
  function Chars(s: seq<Sym>): (t: string)
    ensures |t| == |s|
    ensures forall k :: 0 <= k < |s| ==> t[k] == s[k].c
  {
    seq(|s|, k requires 0 <= k < |s| => s[k].c)
  }

  /** Text coming from the (escaped) review. */
  function Lift(t: string): (s: seq<Sym>)
    ensures |s| == |t|
    ensures forall k :: 0 <= k < |t| ==> s[k] == Sym(t[k], Input)
  {
    seq(|t|, k requires 0 <= k < |t| => Sym(t[k], Input))
  }

  /** Markup inserted by pass `p`. */
  function Marks(p: Pass, t: string): (s: seq<Sym>)
    ensures |s| == |t|
    ensures forall k :: 0 <= k < |t| ==> s[k] == Sym(t[k], Markup(p))
  {
    seq(|t|, k requires 0 <= k < |t| => Sym(t[k], Markup(p)))
  }

  const DecimalItemOpen := "<li style=\"list-style-type: decimal;\">"
  const BulletItemOpen := "<li>"

  /** The tag a pass writes before the text it keeps. */
  function Open(p: Pass): string {
    match p
    case Fence => "<pre><code>"
    case InlineCode => "<code>"
    case Header => "<h3>"
    case Bold => "<strong>"
    case Numbered => DecimalItemOpen
    case Bullet => BulletItemOpen
    case OlGroup => "<ol>"
    case UlGroup => "<ul>"
    case BugTag => "<span class=\"tag bug\">"
    case SecurityTag => "<span class=\"tag security\">"
    case PerformanceTag => "<span class=\"tag performance\">"
  }

  /** The tag a pass writes after the text it keeps. */
  function Close(p: Pass): string {
    match p
    case Fence => "</code></pre>"
    case InlineCode => "</code>"
    case Header => "</h3>"
    case Bold => "</strong>"
    case Numbered => "</li>"
    case Bullet => "</li>"
    case OlGroup => "</ol>"
    case UlGroup => "</ul>"
    case BugTag => "</span>"
    case SecurityTag => "</span>"
    case PerformanceTag => "</span>"
  }

  // ---------------------------------------------------------------------------
  // Runs of characters

  /** End of the run of `\w` characters starting at `j`. */
  function WordEnd(t: string, j: nat): (r: nat)
    requires j <= |t|
    ensures j <= r <= |t|
    ensures forall k :: j <= k < r ==> IsWordChar(t[k])
    ensures r < |t| ==> !IsWordChar(t[r])
    decreases |t| - j
  {
    if j < |t| && IsWordChar(t[j]) then WordEnd(t, j + 1) else j
  }

  /** End of the run of `\d` characters starting at `j`. */
  function DigitEnd(t: string, j: nat): (r: nat)
    requires j <= |t|
    ensures j <= r <= |t|
    ensures forall k :: j <= k < r ==> IsDigit(t[k])
    ensures r < |t| ==> !IsDigit(t[r])
    decreases |t| - j
  {
    if j < |t| && IsDigit(t[j]) then DigitEnd(t, j + 1) else j
  }

  /** End of the run of `\s` characters starting at `j`. */
  function SpaceEnd(t: string, j: nat): (r: nat)
    requires j <= |t|
    ensures j <= r <= |t|
    ensures forall k :: j <= k < r ==> IsSpace(t[k])
    ensures r < |t| ==> !IsSpace(t[r])
    decreases |t| - j
  {
    if j < |t| && IsSpace(t[j]) then SpaceEnd(t, j + 1) else j
  }

  /** End of the line holding `j`: where a greedy `.+` started at `j` stops
      and `$` of a multiline pattern holds. */
  function LineEnd(t: string, j: nat): (r: nat)
    requires j <= |t|
    ensures j <= r <= |t|
    ensures forall k :: j <= k < r ==> !IsLineTerminator(t[k])
    ensures r < |t| ==> IsLineTerminator(t[r])
    decreases |t| - j
  {
    if j < |t| && !IsLineTerminator(t[j]) then LineEnd(t, j + 1) else j
  }

  /** The largest `k` with `lo <= k < hi` whose character is not a line
      terminator, or -1. */
  function LastOnLine(t: string, lo: nat, hi: nat): (r: int)
    requires lo <= hi <= |t|
    ensures r == -1 || (lo <= r < hi && !IsLineTerminator(t[r]))
    ensures forall k :: lo <= k < hi && r < k ==> IsLineTerminator(t[k])
    decreases hi - lo
  {
    if hi == lo then -1
    else if !IsLineTerminator(t[hi - 1]) then hi - 1
    else LastOnLine(t, lo, hi - 1)
  }

  /** `^` of a multiline pattern. */
  predicate LineStart(t: string, i: nat)
    requires i <= |t|
  {
    i == 0 || IsLineTerminator(t[i - 1])
  }

  // ---------------------------------------------------------------------------
  // What each pattern matches at index i

  /** A match at index `i`: the captured text is [from, to), the scan resumes
      at `end`, and `wrap` says whether the replacement wraps the captured
      text in the pass's tags or writes the match back unchanged. */
  datatype Match = Match(from: nat, to: nat, end: nat, wrap: bool)

  predicate WellFormed(t: string, i: nat, m: Match) {
    i <= m.from <= m.to <= m.end <= |t| && i < m.end
  }

  // Each pattern below is described twice: a predicate says which matches
  // the regular expression admits at `i`, and a function returns the one a
  // backtracking engine finds first, or `None` when it admits none.

  /** /```(\w*)\n([\s\S]*?)```/ admits `m` at `i`: three backticks, a word
      (the language, which is dropped), a newline, then the body up to three
      backticks. */
  predicate FenceMatch(t: string, i: nat, m: Match) {
    && Occurs(t, "```", i) && i + 3 < m.from <= m.to && m.end == m.to + 3 && m.wrap
    && Occurs(t, "```", m.to)
    && t[m.from - 1] == '\n' && (forall k :: i + 3 <= k < m.from - 1 ==> IsWordChar(t[k]))
  }

  /** The lazy body ends at the first three backticks after the newline. */
  function FenceAt(t: string, i: nat): (r: Option<Match>)
    requires i < |t|
    ensures r.Some? ==> WellFormed(t, i, r.value) && FenceMatch(t, i, r.value)
    ensures r.Some? ==> forall m :: FenceMatch(t, i, m) ==> m.from == r.value.from && r.value.to <= m.to
    ensures r.None? ==> forall m :: !FenceMatch(t, i, m)
  {
    if !Occurs(t, "```", i) then None
    else
      var w := WordEnd(t, i + 3);
      WordRunEnd(t, i + 3);
      if w < |t| && t[w] == '\n' then
        var close := IndexFrom(t, "```", w + 1);
        if close < 0 then None else Some(Match(w + 1, close, close + 3, true))
      else None
  }

  /** A word run that a newline ends stops where `WordEnd` stops. */
  lemma WordRunEnd(t: string, j: nat)
    requires j <= |t|
    ensures forall x :: j <= x < |t| && t[x] == '\n' && (forall k :: j <= k < x ==> IsWordChar(t[k])) ==> x == WordEnd(t, j)
  {
    var w := WordEnd(t, j);
    forall x | j <= x < |t| && t[x] == '\n' && (forall k :: j <= k < x ==> IsWordChar(t[k]))
      ensures x == w
    {

    }
  }

  /** /`([^`]+)`/ admits `m` at `i`: a backtick, one or more other
      characters, a backtick. */
  predicate InlineMatch(t: string, i: nat, m: Match) {
    && i < |t| && t[i] == '`' && m.from == i + 1 && m.from < m.to < |t| && m.end == m.to + 1 && m.wrap
    && t[m.to] == '`' && (forall k :: m.from <= k < m.to ==> t[k] != '`')
  }

  function InlineCodeAt(t: string, i: nat): (r: Option<Match>)
    requires i < |t|
    ensures r.Some? ==> WellFormed(t, i, r.value) && InlineMatch(t, i, r.value)
    ensures r.None? ==> forall m :: !InlineMatch(t, i, m)
  {
    if t[i] != '`' then None
    else
      var close := IndexFrom(t, "`", i + 1);
      OccursChar(t, '`');
      if close <= i + 1 then None else Some(Match(i + 1, close, close + 1, true))
  }

  /** /^## (.+)$/m admits `m` at `i`: a line that starts with "## ", and
      the rest of the line, not empty, as the heading. */
  predicate HeaderMatch(t: string, i: nat, m: Match) {
    && i <= |t| && LineStart(t, i) && Occurs(t, "## ", i)
    && m.from == i + 3 && m.from < m.to == m.end <= |t| && m.wrap
    && (forall k :: m.from <= k < m.to ==> !IsLineTerminator(t[k]))
    && (m.to < |t| ==> IsLineTerminator(t[m.to]))
  }

  /** The heading is the only match there is. */
  function HeaderAt(t: string, i: nat): (r: Option<Match>)
    requires i < |t|
    ensures r.Some? ==> WellFormed(t, i, r.value) && HeaderMatch(t, i, r.value)
    ensures r.Some? ==> forall m :: HeaderMatch(t, i, m) ==> m == r.value
    ensures r.None? ==> forall m :: !HeaderMatch(t, i, m)
  {
    if !LineStart(t, i) || !Occurs(t, "## ", i) then None
    else
      var e := LineEnd(t, i + 3);
      LineRunEnd(t, i + 3);
      if e == i + 3 then None else Some(Match(i + 3, e, e, true))
  }

  /** A run free of line terminators that a terminator or the end of the
      text closes stops where `LineEnd` stops. */
  lemma LineRunEnd(t: string, j: nat)
    requires j <= |t|
    ensures forall x :: j <= x <= |t| && (x < |t| ==> IsLineTerminator(t[x])) && (forall k :: j <= k < x ==> !IsLineTerminator(t[k])) ==>
      x == LineEnd(t, j)
  {
    var e := LineEnd(t, j);
    forall x | j <= x <= |t| && (x < |t| ==> IsLineTerminator(t[x])) && (forall k :: j <= k < x ==> !IsLineTerminator(t[k]))
      ensures x == e
    {

    }
  }

  // The closing "**" of the bold pattern `\*\*(.+?)\*\*` once the content
  // reaches `j`: the first "**" at or after `j` with no line terminator between.
  function BoldClose(t: string, j: nat): (r: Option<nat>)
    requires j <= |t|
    ensures r.Some? ==> j <= r.value && Occurs(t, "**", r.value)
    ensures r.Some? ==> forall k :: j <= k < r.value ==> !IsLineTerminator(t[k]) && !Occurs(t, "**", k)
    ensures r.None? ==> forall k :: j <= k && Occurs(t, "**", k) ==> !(forall x :: j <= x < k ==> !IsLineTerminator(t[x]))
    decreases |t| - j
  {
    if Occurs(t, "**", j) then Some(j)
    else if j < |t| && !IsLineTerminator(t[j]) then BoldClose(t, j + 1)
    else None
  }

  /** The bold pattern `\*\*(.+?)\*\*` admits `m` at `i`: two asterisks, text on one line
      that is not empty, two asterisks. */
  predicate BoldMatch(t: string, i: nat, m: Match) {
    && Occurs(t, "**", i) && m.from == i + 2 && m.from < m.to && m.end == m.to + 2 && m.wrap
    && Occurs(t, "**", m.to) && (forall k :: m.from <= k < m.to ==> !IsLineTerminator(t[k]))
  }

  /** The lazy `.+?` closes at the first "**" it can. */
  function BoldAt(t: string, i: nat): (r: Option<Match>)
    requires i < |t|
    ensures r.Some? ==> WellFormed(t, i, r.value) && BoldMatch(t, i, r.value)
    ensures r.Some? ==> forall m :: BoldMatch(t, i, m) ==> r.value.to <= m.to
    ensures r.None? ==> forall m :: !BoldMatch(t, i, m)
  {
    if !Occurs(t, "**", i) || i + 2 >= |t| || IsLineTerminator(t[i + 2]) then None
    else
      match BoldClose(t, i + 3)
      case None => None
      case Some(j) => Some(Match(i + 2, j, j + 2, true))
  }

  /** The tail `\s+(.+)$` of both list patterns admits `m` with the white
      space starting at `p`: at least one white space character (`\s` also
      matches line terminators), then the rest of a line, not empty. */
  predicate ItemTail(t: string, p: nat, m: Match) {
    && p < m.from < m.to == m.end <= |t| && m.wrap
    && (forall k :: p <= k < m.from ==> IsSpace(t[k]))
    && (forall k :: m.from <= k < m.to ==> !IsLineTerminator(t[k]))
    && (m.to < |t| ==> IsLineTerminator(t[m.to]))
  }

  /** The greedy `\s+` takes as much white space as it can. When the white
      space runs to the end of the text the engine gives it back one
      character at a time until `.` can match. */
  function ItemBody(t: string, i: nat, p: nat): (r: Option<Match>)
    requires i < p <= |t|
    ensures r.Some? ==> WellFormed(t, i, r.value) && ItemTail(t, p, r.value)
    ensures r.Some? ==> forall m :: ItemTail(t, p, m) ==> m.from <= r.value.from
    ensures r.None? ==> forall m :: !ItemTail(t, p, m)
  {
    var q := SpaceEnd(t, p);
    if q == p then NoTailWithoutSpace(t, p); None
    else
      var k := if q < |t| then q else LastOnLine(t, p + 1, q);
      if k < 0 then NoTailBeforeEnd(t, p); None
      else
        var e := LineEnd(t, k);
        if q < |t| then LongestSpaceAt(t, p, k); Some(Match(k, e, e, true))
        else LongestSpaceBeforeEnd(t, p, k); Some(Match(k, e, e, true))
  }

  lemma NoTailWithoutSpace(t: string, p: nat)
    requires p <= |t| && (p < |t| ==> !IsSpace(t[p]))
    ensures forall m :: !ItemTail(t, p, m)
  {
    forall m ensures !ItemTail(t, p, m) {
    }
  }

  lemma NoTailBeforeEnd(t: string, p: nat)
    requires forall k :: p < k < |t| ==> IsLineTerminator(t[k])
    ensures forall m :: !ItemTail(t, p, m)
  {
    forall m ensures !ItemTail(t, p, m) {
      TailStartsOnLine(t, p, m);
    }
  }

  lemma TailStartsOnLine(t: string, p: nat, m: Match)
    ensures ItemTail(t, p, m) ==> m.from < |t| && !IsLineTerminator(t[m.from])
  {
  }

  /** White space cannot reach past a character that is not white space. */
  lemma LongestSpaceAt(t: string, p: nat, k: nat)
    requires p <= k < |t| && !IsSpace(t[k])
    ensures forall m :: ItemTail(t, p, m) ==> m.from <= k
  {
  }

  /** Past `k` only line terminators are left, where `.` cannot start. */
  lemma LongestSpaceBeforeEnd(t: string, p: nat, k: nat)
    requires forall x :: k < x < |t| ==> IsLineTerminator(t[x])
    ensures forall m :: ItemTail(t, p, m) ==> m.from <= k
  {
    forall m ensures ItemTail(t, p, m) ==> m.from <= k {
      TailStartsOnLine(t, p, m);
    }
  }

  /** /^(\d+)\.\s+(.+)$/m admits `m` at `i` with the dot at `d`. */
  predicate NumberedMatch(t: string, i: nat, d: nat, m: Match) {
    && i < d < |t| && LineStart(t, i)
    && (forall k :: i <= k < d ==> IsDigit(t[k])) && t[d] == '.'
    && ItemTail(t, d + 1, m)
  }

  function NumberedAt(t: string, i: nat): (r: Option<Match>)
    requires i < |t|
    ensures r.Some? ==> WellFormed(t, i, r.value) && exists d :: NumberedMatch(t, i, d, r.value)
    ensures r.Some? ==> forall d, m :: NumberedMatch(t, i, d, m) ==> m.from <= r.value.from
    ensures r.None? ==> forall d, m :: !NumberedMatch(t, i, d, m)
  {
    if !LineStart(t, i) || !IsDigit(t[i]) then None
    else
      var d := DigitEnd(t, i);
      DigitRunEnd(t, i);
      if d < |t| && t[d] == '.' then
        var r := ItemBody(t, i, d + 1);
        assert r.Some? ==> NumberedMatch(t, i, d, r.value);
        r
      else None
  }

  /** A run of digits that a dot ends stops where `DigitEnd` stops. */
  lemma DigitRunEnd(t: string, j: nat)
    requires j <= |t|
    ensures forall x :: j <= x < |t| && t[x] == '.' && (forall k :: j <= k < x ==> IsDigit(t[k])) ==> x == DigitEnd(t, j)
  {
    var e := DigitEnd(t, j);
    forall x | j <= x < |t| && t[x] == '.' && (forall k :: j <= k < x ==> IsDigit(t[k]))
      ensures x == e
    {

    }
  }

  /** /^[•\-]\s+(.+)$/m admits `m` at `i`. */
  predicate BulletMatch(t: string, i: nat, m: Match) {
    && i < |t| && LineStart(t, i) && (t[i] == '\U{2022}' || t[i] == '-')
    && ItemTail(t, i + 1, m)
  }

  function BulletAt(t: string, i: nat): (r: Option<Match>)
    requires i < |t|
    ensures r.Some? ==> WellFormed(t, i, r.value) && BulletMatch(t, i, r.value)
    ensures r.Some? ==> forall m :: BulletMatch(t, i, m) ==> m.from <= r.value.from
    ensures r.None? ==> forall m :: !BulletMatch(t, i, m)
  {
    if !LineStart(t, i) || !(t[i] == '\U{2022}' || t[i] == '-') then None
    else ItemBody(t, i, i + 1)
  }

  /** One list item `open.*?<\/li>\s*` of a grouping pattern at `i`, as the
      index after it: the opening tag, the text up to the first `</li>`,
      that tag, and the white space after it. `open` is the opening tag the
      list pass inserted: escaping removes every `<` of the review, so the
      inserted items are the only `<li` the grouping patterns can meet. */
  function ItemEnd(t: string, i: nat, open: string): (r: Option<nat>)
    requires i <= |t| && open != ""
    ensures r.Some? <==> Occurs(t, open, i) && IndexFrom(t, "</li>", i + |open|) >= 0
    ensures r.Some? ==>
      var close := IndexFrom(t, "</li>", i + |open|);
      && close + 5 <= r.value <= |t|
      && (forall k :: close + 5 <= k < r.value ==> IsSpace(t[k]))
      && (r.value < |t| ==> !IsSpace(t[r.value]))
    ensures r.Some? ==> i < r.value
  {
    if !Occurs(t, open, i) then None
    else
      var close := IndexFrom(t, "</li>", i + |open|);
      if close < 0 then None else Some(SpaceEnd(t, close + 5))
  }

  /** [i, e) is a chain of items, each starting where the one before ends. */
  predicate ItemsFrom(t: string, i: nat, e: nat, open: string)
    requires i <= e <= |t| && open != ""
    decreases e - i
  {
    || i == e
    || (ItemEnd(t, i, open).Some? && ItemEnd(t, i, open).value <= e && ItemsFrom(t, ItemEnd(t, i, open).value, e, open))
  }

  /** The greedy `+` of a grouping pattern: the chain of items from `i` on
      that stops only where no further item starts. */
  function ItemsEnd(t: string, i: nat, open: string): (r: nat)
    requires i <= |t| && open != ""
    ensures i <= r <= |t|
    ensures ItemsFrom(t, i, r, open)
    ensures ItemEnd(t, r, open).None?
    decreases |t| - i
  {
    match ItemEnd(t, i, open)
    case None => i
    case Some(n) => ItemsEnd(t, n, open)
  }

  function GroupItemOpen(p: Pass): string
    requires p == OlGroup || p == UlGroup
  {
    if p == OlGroup then DecimalItemOpen else BulletItemOpen
  }

  /** /(<li…>.*?<\/li>\s*)+/s : a group starts exactly where an item of its
      kind starts, and wraps the longest chain of such items from there. */
  function GroupAt(p: Pass, t: string, i: nat): (r: Option<Match>)
    requires p == OlGroup || p == UlGroup
    requires i < |t|
    ensures r.Some? <==> ItemEnd(t, i, GroupItemOpen(p)).Some?
    ensures r.Some? ==> WellFormed(t, i, r.value) && r.value.wrap
    ensures r.Some? ==> r.value.from == i && r.value.to == r.value.end
    ensures r.Some? ==> ItemsFrom(t, i, r.value.end, GroupItemOpen(p)) && ItemEnd(t, r.value.end, GroupItemOpen(p)).None?
  {
    match ItemEnd(t, i, GroupItemOpen(p))
    case None => None
    case Some(n) =>
      var e := ItemsEnd(t, n, GroupItemOpen(p));
      Some(Match(i, e, e, true))
  }

  /** The three alternations of the keyword patterns, lower case. */
  function Keywords(p: Pass): seq<string>
    requires p.BugTag? || p.SecurityTag? || p.PerformanceTag?
  {
    match p
    case BugTag => ["bug", "bugs", "error", "errors", "issue", "issues"]
    case SecurityTag => ["security", "vulnerability", "vulnerabilities"]
    case PerformanceTag => ["performance", "optimization", "optimize"]
  }

  /** `\b` before index `i` when `t[i]` is a word character. */
  predicate WordStart(t: string, i: nat)
    requires i < |t|
  {
    IsWordChar(t[i]) && (i == 0 || !IsWordChar(t[i - 1]))
  }

  /** The keyword guard of sidebar.js:207-210: in the text before the
      match, an opening `<code` or `<pre` comes after the last matching
      closing tag. */
  predicate InCode(before: string) {
    || LastIndexOf(before, "<code") > LastIndexOf(before, "</code>")
    || LastIndexOf(before, "<pre") > LastIndexOf(before, "</pre>")
  }

  /** /\b(w1|w2|…)\b/gi : a whole word equal to a keyword up to ASCII case.
      Inside code the match is written back unchanged. */
  function KeywordAt(p: Pass, t: string, i: nat): (r: Option<Match>)
    requires p.BugTag? || p.SecurityTag? || p.PerformanceTag?
    requires i < |t|
    ensures r.Some? ==> WellFormed(t, i, r.value)
    ensures r.Some? ==> r.value.from == i && r.value.to == r.value.end
  {
    if !WordStart(t, i) then None
    else
      var e := WordEnd(t, i);
      if Lower(t[i..e]) in Keywords(p) then Some(Match(i, e, e, !InCode(t[..i]))) else None
  }

  function MatchAt(p: Pass, t: string, i: nat): (r: Option<Match>)
    requires i < |t|
    ensures r.Some? ==> WellFormed(t, i, r.value)
    ensures r.Some? && (p.OlGroup? || p.UlGroup? || p.BugTag? || p.SecurityTag? || p.PerformanceTag?) ==>
      r.value.from == i && r.value.to == r.value.end
  {
    match p
    case Fence => FenceAt(t, i)
    case InlineCode => InlineCodeAt(t, i)
    case Header => HeaderAt(t, i)
    case Bold => BoldAt(t, i)
    case Numbered => NumberedAt(t, i)
    case Bullet => BulletAt(t, i)
    case OlGroup => GroupAt(p, t, i)
    case UlGroup => GroupAt(p, t, i)
    case _ => KeywordAt(p, t, i)
  }

  /** What the pattern of `p` matches at each index of `t`. A match at an
      index depends on the characters alone, so the matches can be read off
      before the scan. */
  function Matches(p: Pass, t: string): (ms: seq<Option<Match>>)
    ensures |ms| == |t|
    ensures forall k :: 0 <= k < |t| ==> ms[k] == MatchAt(p, t, k)
  {
    seq(|t|, k requires 0 <= k < |t| => MatchAt(p, t, k))
  }

  /** Every entry of `ms` is a match that starts at its own index. */
  predicate Table(t: string, ms: seq<Option<Match>>) {
    |ms| == |t| && forall k :: 0 <= k < |t| && ms[k].Some? ==> WellFormed(t, k, ms[k].value)
  }

  lemma MatchesTable(p: Pass, t: string)
    ensures Table(t, Matches(p, t))
  {
  }

  /** The replacement written for a match at `i`, with opening tag `o` and
      closing tag `c`. */
  function Emit(s: seq<Sym>, i: nat, m: Match, o: seq<Sym>, c: seq<Sym>): seq<Sym>
    requires WellFormed(Chars(s), i, m)
  {
    if m.wrap then o + s[m.from..m.to] + c else s[i..m.end]
  }

  /** One global replacement from index `i` on, the matches read from `ms`:
      at a match its replacement is written and the scan resumes after it,
      otherwise one character is copied. */
  function ScanWith(s: seq<Sym>, ms: seq<Option<Match>>, o: seq<Sym>, c: seq<Sym>, i: nat): seq<Sym>
    requires Table(Chars(s), ms) && i <= |s|
    decreases |s| - i
  {
    if i == |s| then []
    else
      match ms[i]
      case None => [s[i]] + ScanWith(s, ms, o, c, i + 1)
      case Some(m) => Emit(s, i, m, o, c) + ScanWith(s, ms, o, c, m.end)
  }

  /** `text.replace(pattern, replacement)` of pass `p`. The replacement
      brings in no review text of its own. */
  function Scan(p: Pass, s: seq<Sym>): (r: seq<Sym>)
    ensures Clean(s) ==> Clean(r)
  {
    MatchesTable(p, Chars(s));
    var r := ScanWith(s, Matches(p, Chars(s)), Marks(p, Open(p)), Marks(p, Close(p)), 0);
    if Clean(s) then ScanKeepsClean(s, Matches(p, Chars(s)), Marks(p, Open(p)), Marks(p, Close(p)), 0); r
    else r
  }

  /** Up to the first index where the pattern matches, a replacement copies
      the text unchanged; where it matches nowhere, the text comes out as
      it went in. */
  lemma ScanCopiesUntilMatch(p: Pass, s: seq<Sym>, i: nat)
    requires i <= |s| && forall k :: 0 <= k < i ==> MatchAt(p, Chars(s), k).None?
    ensures i <= |Scan(p, s)| && Scan(p, s)[..i] == s[..i]
    ensures i == |s| ==> Scan(p, s) == s
  {
    var ms := Matches(p, Chars(s));
    MatchesTable(p, Chars(s));
    ScanWithUnmatched(s, ms, Marks(p, Open(p)), Marks(p, Close(p)), 0, i);
    assert s[0..i] == s[..i];
  }

  lemma {:induction false} ScanWithUnmatched(s: seq<Sym>, ms: seq<Option<Match>>, o: seq<Sym>, c: seq<Sym>, i: nat, j: nat)
    requires Table(Chars(s), ms) && i <= j <= |s|
    requires forall k :: i <= k < j ==> ms[k].None?
    ensures ScanWith(s, ms, o, c, i) == s[i..j] + ScanWith(s, ms, o, c, j)
    decreases j - i
  {
    if i < j {
      var rest := ScanWith(s, ms, o, c, j);
      var next := ScanWith(s, ms, o, c, i + 1);
      assert ms[i].None?;
      assert ScanWith(s, ms, o, c, i) == [s[i]] + next;
      ScanWithUnmatched(s, ms, o, c, i + 1, j);
      assert next == s[i + 1..j] + rest;
      Assoc([s[i]], s[i + 1..j], rest);
      assert s[i..j] == [s[i]] + s[i + 1..j];
    } else {
      assert s[i..j] == [];
    }
  }

  /** The passes applied one after the other. */
  function Run(ps: seq<Pass>, s: seq<Sym>): (r: seq<Sym>)
    ensures Clean(s) ==> Clean(r)
    decreases |ps|
  {
    if ps == [] then s else Run(ps[1..], Scan(ps[0], s))
  }

  /** The formatted review, each character with its origin: the escaped
      review run through every pass, in the order of the source. No
      character of the review itself is an angle bracket in it. */
  function Formatted(review: string): (r: seq<Sym>)
    ensures Clean(r)
  {
    EscapedIsClean(review, Lift(EscapeHtml(review)));
    Run(Passes, Lift(EscapeHtml(review)))
  }

  /** `formatCodeReview(reviewText)`. Escaping comes first, so every `<`
      and `>` of the HTML is markup that one of the passes inserted: the
      review cannot inject tags. */
  function FormatCodeReview(review: string): (html: string)
    ensures |html| == |Formatted(review)|
    ensures forall k :: 0 <= k < |html| ==> html[k] == Formatted(review)[k].c
    ensures forall k :: 0 <= k < |html| && html[k] in "<>" ==> Formatted(review)[k].origin.Markup?
  {
    CleanHasNoInput(Formatted(review));
    Chars(Formatted(review))
  }

  // ---------------------------------------------------------------------------
  // No injection: every angle bracket of the result is inserted markup

  /** No character of the review text is an angle bracket. */
  predicate Clean(s: seq<Sym>) {
    forall k :: 0 <= k < |s| && s[k].origin == Input ==> s[k].c != '<' && s[k].c != '>'
  }

  lemma CleanAppend(a: seq<Sym>, b: seq<Sym>)
    requires Clean(a) && Clean(b)
    ensures Clean(a + b)
  {
  }

  lemma {:induction false} ScanKeepsClean(s: seq<Sym>, ms: seq<Option<Match>>, o: seq<Sym>, c: seq<Sym>, i: nat)
    requires Table(Chars(s), ms) && i <= |s| && Clean(s) && Clean(o) && Clean(c)
    ensures Clean(ScanWith(s, ms, o, c, i))
    decreases |s| - i
  {
    if i < |s| {
      match ms[i]
      case None =>
        ScanKeepsClean(s, ms, o, c, i + 1);
        CleanAppend([s[i]], ScanWith(s, ms, o, c, i + 1));
      case Some(m) =>
        ScanKeepsClean(s, ms, o, c, m.end);
        EmitKeepsClean(s, i, m, o, c);
        CleanAppend(Emit(s, i, m, o, c), ScanWith(s, ms, o, c, m.end));
    }
  }

  /** The replacement holds review text only where it copies the input. */
  lemma EmitKeepsClean(s: seq<Sym>, i: nat, m: Match, o: seq<Sym>, c: seq<Sym>)
    requires WellFormed(Chars(s), i, m) && Clean(s) && Clean(o) && Clean(c)
    ensures Clean(Emit(s, i, m, o, c))
  {
    if m.wrap {
      CleanAppend(o, s[m.from..m.to]);
      CleanAppend(o + s[m.from..m.to], c);
    }
  }

  lemma EscapedIsClean(review: string, input: seq<Sym>)
    requires input == Lift(EscapeHtml(review))
    ensures Clean(input)
  {
  }

  lemma CleanHasNoInput(s: seq<Sym>)
    requires Clean(s)
    ensures forall k :: 0 <= k < |s| && s[k].c in "<>" ==> s[k].origin.Markup?
  {
  }

  // ---------------------------------------------------------------------------
  // Passes that only insert

  /** The text without the markup of pass `p`. */
  function Drop(s: seq<Sym>, p: Pass): (r: seq<Sym>)
    ensures |r| <= |s|
  {
    if s == [] then []
    else (if s[0].origin == Markup(p) then [] else [s[0]]) + Drop(s[1..], p)
  }

  lemma {:induction false} DropAppend(a: seq<Sym>, b: seq<Sym>, p: Pass)
    ensures Drop(a + b, p) == Drop(a, p) + Drop(b, p)
  {
    if a == [] {
      assert a + b == b;
    } else {
      assert (a + b)[1..] == a[1..] + b;
      DropAppend(a[1..], b, p);
    }
  }

  lemma {:induction false} DropMarks(p: Pass, t: string)
    ensures Drop(Marks(p, t), p) == []
  {
    if t != "" {
      assert Marks(p, t)[1..] == Marks(p, t[1..]);
      DropMarks(p, t[1..]);
    }
  }

  lemma {:induction false} DropNone(s: seq<Sym>, p: Pass)
    requires forall k :: 0 <= k < |s| ==> s[k].origin != Markup(p)
    ensures Drop(s, p) == s
  {
    if s != [] {
      DropNone(s[1..], p);
    }
  }

  /** Every match in `ms` wraps exactly what it matched. */
  predicate InsertOnly(ms: seq<Option<Match>>) {
    forall k :: 0 <= k < |ms| && ms[k].Some? ==> ms[k].value.from == k && ms[k].value.to == ms[k].value.end
  }

  lemma {:induction false} ScanKeepsText(p: Pass, s: seq<Sym>, ms: seq<Option<Match>>, o: seq<Sym>, c: seq<Sym>, i: nat)
    requires Table(Chars(s), ms) && InsertOnly(ms) && i <= |s|
    requires forall k :: 0 <= k < |s| ==> s[k].origin != Markup(p)
    requires Drop(o, p) == [] && Drop(c, p) == []
    ensures Drop(ScanWith(s, ms, o, c, i), p) == s[i..]
    decreases |s| - i
  {
    if i < |s| {
      match ms[i]
      case None =>
        ScanKeepsText(p, s, ms, o, c, i + 1);
        KeepsTextAtCopy(p, s, i, ScanWith(s, ms, o, c, i + 1));
      case Some(m) =>
        ScanKeepsText(p, s, ms, o, c, m.end);
        DropEmit(p, s, i, m, o, c);
        KeepsTextAtMatch(p, s, i, m.end, Emit(s, i, m, o, c), ScanWith(s, ms, o, c, m.end));
    }
  }

  /** The grouping and keyword passes only add tags: removing what they
      inserted gives back their input. */
  lemma InsertingPassKeepsText(p: Pass, s: seq<Sym>)
    requires p.OlGroup? || p.UlGroup? || p.BugTag? || p.SecurityTag? || p.PerformanceTag?
    requires forall k :: 0 <= k < |s| ==> s[k].origin != Markup(p)
    ensures Drop(Scan(p, s), p) == s
  {
    var ms := Matches(p, Chars(s));
    MatchesTable(p, Chars(s));
    DropMarks(p, Open(p));
    DropMarks(p, Close(p));
    ScanKeepsText(p, s, ms, Marks(p, Open(p)), Marks(p, Close(p)), 0);
    assert s[0..] == s;
  }

  lemma KeepsTextAtCopy(p: Pass, s: seq<Sym>, i: nat, rest: seq<Sym>)
    requires i < |s| && s[i].origin != Markup(p)
    requires Drop(rest, p) == s[i + 1..]
    ensures Drop([s[i]] + rest, p) == s[i..]
  {
    DropAppend([s[i]], rest, p);
    assert s[i..] == [s[i]] + s[i + 1..];
  }

  lemma KeepsTextAtMatch(p: Pass, s: seq<Sym>, i: nat, j: nat, e: seq<Sym>, rest: seq<Sym>)
    requires i <= j <= |s|
    requires Drop(e, p) == s[i..j] && Drop(rest, p) == s[j..]
    ensures Drop(e + rest, p) == s[i..]
  {
    DropJoin(p, e, rest, s[i..j], s[j..]);
    assert s[i..] == s[i..j] + s[j..];
  }

  lemma DropJoin(p: Pass, a: seq<Sym>, b: seq<Sym>, x: seq<Sym>, y: seq<Sym>)
    requires Drop(a, p) == x && Drop(b, p) == y
    ensures Drop(a + b, p) == x + y
  {
    DropAppend(a, b, p);
  }

  lemma DropEmit(p: Pass, s: seq<Sym>, i: nat, m: Match, o: seq<Sym>, c: seq<Sym>)
    requires WellFormed(Chars(s), i, m) && m.from == i && m.to == m.end
    requires forall k :: 0 <= k < |s| ==> s[k].origin != Markup(p)
    requires Drop(o, p) == [] && Drop(c, p) == []
    ensures Drop(Emit(s, i, m, o, c), p) == s[i..m.end]
  {
    var x := s[i..m.end];
    DropNone(x, p);
    if m.wrap {
      DropWrapped(p, o, x, c);
    }
  }

  /** Removing the tags around text the pass did not write leaves the text. */
  lemma DropWrapped(p: Pass, o: seq<Sym>, x: seq<Sym>, c: seq<Sym>)
    requires Drop(o, p) == [] && Drop(c, p) == [] && Drop(x, p) == x
    ensures Drop(o + x + c, p) == x
  {
    DropAppend(o, x, p);
    DropAppend(o + x, c, p);
  }
}
