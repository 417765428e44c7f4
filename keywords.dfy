/**
 * The three keyword passes of `formatCodeReview` (sidebar.js:204-229),
 * stated a second way: character by character, with no scanning. Each
 * character of the input is copied; a tag span opens before the first
 * character of every keyword that is not inside code and closes after its
 * last character. The scan of `Formatter` computes exactly this.
 */
module KeywordTags {
  import opened Text
  import opened Types
  import opened Formatter

  predicate IsKeywordPass(p: Pass) {
    p.BugTag? || p.SecurityTag? || p.PerformanceTag?
  }

  // ---------------------------------------------------------------------------
  // The alternation with word boundaries

  /** The alternative `w` of `\b(w1|w2|…)\b` with flag i matches at `i`: the
      text there equals `w` up to ASCII case, and there is a word boundary
      before and after it. */
  predicate AlternativeAt(t: string, i: nat, w: string) {
    && i + |w| <= |t|
    && Lower(t[i..i + |w|]) == w
    && (i == 0 || !IsWordChar(t[i - 1]))
    && (i + |w| == |t| || !IsWordChar(t[i + |w|]))
  }

  predicate IsWord(w: string) {
    |w| > 0 && forall k :: 0 <= k < |w| ==> IsWordChar(w[k])
  }

  lemma BugWords()
    ensures forall w :: w in Keywords(BugTag) ==> IsWord(w)
  {
    forall w | w in Keywords(BugTag) ensures IsWord(w) {
      assert w in ["bug", "bugs", "error", "errors", "issue", "issues"];
    }
  }

  lemma SecurityWords()
    ensures forall w :: w in Keywords(SecurityTag) ==> IsWord(w)
  {
    forall w | w in Keywords(SecurityTag) ensures IsWord(w) {
      assert w == "security" || w == "vulnerability" || w == "vulnerabilities";
    }
  }

  lemma PerformanceWords()
    ensures forall w :: w in Keywords(PerformanceTag) ==> IsWord(w)
  {
    forall w | w in Keywords(PerformanceTag) ensures IsWord(w) {
      assert w == "performance" || w == "optimization" || w == "optimize";
    }
  }

  /** Every alternative of the three patterns is a word. */
  lemma KeywordsAreWords(p: Pass)
    requires IsKeywordPass(p)
    ensures forall w :: w in Keywords(p) ==> IsWord(w)
  {
    match p
    case BugTag => BugWords();
    case SecurityTag => SecurityWords();
    case PerformanceTag => PerformanceWords();
  }

  /** A whole word is the run of word characters from a word start. */
  lemma WordEndAt(t: string, i: nat, e: nat)
    requires i <= e <= |t|
    requires forall k :: i <= k < e ==> IsWordChar(t[k])
    requires e == |t| || !IsWordChar(t[e])
    ensures WordEnd(t, i) == e
  {
  }

  /** A whole word matches itself, folded, as an alternative. */
  lemma WholeWordIsAlternative(t: string, i: nat)
    requires i < |t| && WordStart(t, i)
    ensures AlternativeAt(t, i, Lower(t[i..WordEnd(t, i)]))
  {
  }

  /** An alternative that is a word, matched with boundaries around it, is
      the whole word at `i`. */
  lemma AlternativeIsWholeWord(t: string, i: nat, w: string)
    requires IsWord(w) && AlternativeAt(t, i, w)
    ensures i < |t| && WordStart(t, i) && WordEnd(t, i) == i + |w| && Lower(t[i..WordEnd(t, i)]) == w
  {
    var e := i + |w|;
    forall k | i <= k < e ensures IsWordChar(t[k]) {
      assert LowerAscii(t[k]) == Lower(t[i..e])[k - i] == w[k - i];
    }
    WordEndAt(t, i, e);
  }

  /** Matching the whole word against the list, as `KeywordAt` does, is the
      same as trying the alternatives with word boundaries around them, as
      the regular expression does. */
  lemma KeywordIsAlternative(p: Pass, t: string, i: nat)
    requires IsKeywordPass(p) && i < |t|
    ensures KeywordAt(p, t, i).Some? <==> exists w :: w in Keywords(p) && AlternativeAt(t, i, w)
  {
    if KeywordAt(p, t, i).Some? {
      WholeWordIsAlternative(t, i);
    }
    if w :| w in Keywords(p) && AlternativeAt(t, i, w) {
      KeywordsAreWords(p);
      AlternativeIsWholeWord(t, i, w);
    }
  }

  // ---------------------------------------------------------------------------
  // The character-by-character reference

  /** The word start of the word holding `i`. */
  function WordBegin(t: string, i: nat): (r: nat)
    requires i < |t| && IsWordChar(t[i])
    ensures r <= i && WordStart(t, r)
    ensures forall k :: r <= k <= i ==> IsWordChar(t[k])
  {
    if i > 0 && IsWordChar(t[i - 1]) then WordBegin(t, i - 1) else i
  }

  lemma WordBeginInside(t: string, b: nat, j: nat)
    requires b <= j < |t| && WordStart(t, b)
    requires forall k :: b <= k <= j ==> IsWordChar(t[k])
    ensures WordBegin(t, j) == b
    decreases j - b
  {
    if j > b {
      WordBeginInside(t, b, j - 1);
    }
  }

  /** A keyword starts at `i` and is not inside code: a span opens here. */
  predicate Tagged(p: Pass, t: string, i: nat)
    requires IsKeywordPass(p) && i < |t|
  {
    WordStart(t, i) && Lower(t[i..WordEnd(t, i)]) in Keywords(p) && !InCode(t[..i])
  }

  /** The match of a keyword pass at `i` is the whole word, tagged or not. */
  lemma KeywordMatch(p: Pass, t: string, i: nat)
    requires IsKeywordPass(p) && i < |t|
    ensures KeywordAt(p, t, i).None? ==> !Tagged(p, t, i)
    ensures KeywordAt(p, t, i).Some? ==>
      WordStart(t, i) && KeywordAt(p, t, i).value == Match(i, WordEnd(t, i), WordEnd(t, i), Tagged(p, t, i))
  {
  }

  /** Where a span opens: the starts of tagged keywords. */
  function Opens(p: Pass, t: string): (r: set<nat>)
    requires IsKeywordPass(p)
    ensures forall i :: i in r ==> i < |t| && WordStart(t, i)
  {
    set i: nat | i < |t| && Tagged(p, t, i)
  }

  /** Where a span closes: after the last character of a word whose start
      is in `os`. */
  function Closes(t: string, os: set<nat>): set<nat> {
    set k: nat | k < |t| && IsWordChar(t[k]) && (k + 1 == |t| || !IsWordChar(t[k + 1])) && WordBegin(t, k) in os
  }

  /** Copies `s` from `i` on, writing `o` before each position of `os` and
      `c` after each position of `cs`. */
  function Weave<T>(s: seq<T>, i: nat, os: set<nat>, cs: set<nat>, o: seq<T>, c: seq<T>): seq<T>
    requires i <= |s|
    decreases |s| - i
  {
    if i == |s| then []
    else (if i in os then o else []) + [s[i]] + (if i in cs then c else []) + Weave(s, i + 1, os, cs, o, c)
  }

  /** The keyword pass, character by character. */
  function TagRef(p: Pass, s: seq<Sym>): seq<Sym>
    requires IsKeywordPass(p)
  {
    var os := Opens(p, Chars(s));
    Weave(s, 0, os, Closes(Chars(s), os), Marks(p, Open(p)), Marks(p, Close(p)))
  }

  lemma WeavePlain<T>(s: seq<T>, j: nat, os: set<nat>, cs: set<nat>, o: seq<T>, c: seq<T>)
    requires j < |s| && j !in os
    ensures Weave(s, j, os, cs, o, c) == [s[j]] + (if j in cs then c else []) + Weave(s, j + 1, os, cs, o, c)
  {
  }

  lemma WeaveOpen<T>(s: seq<T>, j: nat, os: set<nat>, cs: set<nat>, o: seq<T>, c: seq<T>)
    requires j < |s| && j !in cs
    ensures Weave(s, j, os, cs, o, c) == (if j in os then o else []) + [s[j]] + Weave(s, j + 1, os, cs, o, c)
  {
  }

  lemma SliceCons<T>(s: seq<T>, j: nat, e: nat)
    requires j < e <= |s|
    ensures s[j..e] == [s[j]] + s[j + 1..e]
  {
  }

  /** A run of positions with no span boundary inside is copied as it is. */
  lemma {:induction false} WeaveRun<T>(s: seq<T>, j: nat, e: nat, os: set<nat>, cs: set<nat>, o: seq<T>, c: seq<T>)
    requires j < e <= |s|
    requires forall k :: j <= k < e ==> k !in os
    requires forall k :: j <= k < e - 1 ==> k !in cs
    ensures Weave(s, j, os, cs, o, c) == s[j..e] + (if e - 1 in cs then c else []) + Weave(s, e, os, cs, o, c)
    decreases e - j
  {
    WeavePlain(s, j, os, cs, o, c);
    if j + 1 < e {
      WeaveRun(s, j + 1, e, os, cs, o, c);
      SliceCons(s, j, e);
      Assoc([s[j]], s[j + 1..e] + (if e - 1 in cs then c else []), Weave(s, e, os, cs, o, c));
      Assoc([s[j]], s[j + 1..e], (if e - 1 in cs then c else []));
    } else {
      assert s[j..e] == [s[j]];
    }
  }

  /** A word whose only boundaries are an opening before its first character
      and a closing after its last is written whole, wrapped as marked. */
  lemma WeaveWord<T>(s: seq<T>, b: nat, e: nat, os: set<nat>, cs: set<nat>, o: seq<T>, c: seq<T>)
    requires b < e <= |s|
    requires forall k :: b < k < e ==> k !in os
    requires forall k :: b <= k < e - 1 ==> k !in cs
    ensures Weave(s, b, os, cs, o, c) ==
      (if b in os then o else []) + s[b..e] + (if e - 1 in cs then c else []) + Weave(s, e, os, cs, o, c)
  {
    if b + 1 < e {
      WeaveOpen(s, b, os, cs, o, c);
      WeaveRun(s, b + 1, e, os, cs, o, c);
      SliceCons(s, b, e);
      Assoc((if b in os then o else []) + [s[b]], s[b + 1..e] + (if e - 1 in cs then c else []), Weave(s, e, os, cs, o, c));
      Assoc((if b in os then o else []) + [s[b]], s[b + 1..e], (if e - 1 in cs then c else []));
      Assoc((if b in os then o else []), [s[b]], s[b + 1..e]);
    } else {
      assert s[b..e] == [s[b]];
    }
  }

  /** `i` is not strictly inside a word whose start is in `os`. */
  predicate Outside(t: string, os: set<nat>, i: nat)
    requires i <= |t|
  {
    !(0 < i < |t| && IsWordChar(t[i - 1]) && IsWordChar(t[i]) && WordBegin(t, i - 1) in os)
  }

  /** Outside any marked word and not at a marked start, `i` is no span
      boundary and `i + 1` is outside too. */
  lemma NoBoundaryHere(t: string, os: set<nat>, i: nat)
    requires i < |t| && Outside(t, os, i) && i !in os
    ensures i !in Closes(t, os)
    ensures Outside(t, os, i + 1)
  {
  }

  /** A span closes after the last character of a word exactly when its
      start is marked. */
  lemma CloseAfterWord(t: string, os: set<nat>, i: nat)
    requires i < |t| && WordStart(t, i)
    ensures WordEnd(t, i) - 1 in Closes(t, os) <==> i in os
  {
    WordBeginInside(t, i, WordEnd(t, i) - 1);
  }

  /** Inside a word no span opens, and none closes before its last
      character. */
  lemma NoBoundaryInsideWord(t: string, os: set<nat>, i: nat)
    requires i < |t| && WordStart(t, i)
    requires forall j :: j in os ==> j < |t| && WordStart(t, j)
    ensures forall k :: i < k < WordEnd(t, i) ==> k !in os
    ensures forall k :: i <= k < WordEnd(t, i) - 1 ==> k !in Closes(t, os)
  {
    var e := WordEnd(t, i);
    forall k | i <= k < e - 1 ensures k !in Closes(t, os) {
      assert IsWordChar(t[k + 1]);
    }
  }

  /** A character that is no span boundary is copied alone. */
  lemma WeaveCopy<T>(s: seq<T>, j: nat, os: set<nat>, cs: set<nat>, o: seq<T>, c: seq<T>)
    requires j < |s| && j !in os && j !in cs
    ensures Weave(s, j, os, cs, o, c) == [s[j]] + Weave(s, j + 1, os, cs, o, c)
  {
    WeavePlain(s, j, os, cs, o, c);
    assert [s[j]] + [] == [s[j]];
  }

  /** A word whose start is marked exactly when its end is. */
  lemma WeaveWholeWord<T>(s: seq<T>, b: nat, e: nat, os: set<nat>, cs: set<nat>, o: seq<T>, c: seq<T>)
    requires b < e <= |s|
    requires forall k :: b < k < e ==> k !in os
    requires forall k :: b <= k < e - 1 ==> k !in cs
    requires b in os <==> e - 1 in cs
    ensures Weave(s, b, os, cs, o, c) == (if b in os then o + s[b..e] + c else s[b..e]) + Weave(s, e, os, cs, o, c)
  {
    WeaveWord(s, b, e, os, cs, o, c);
    if b !in os {
      assert [] + s[b..e] + [] == s[b..e];
    }
  }

  /** At the start of a word the reference writes the whole word, wrapped
      exactly when its start is marked, and the text after it is outside
      again. */
  lemma WeaveAtWord<T>(s: seq<T>, t: string, os: set<nat>, i: nat, o: seq<T>, c: seq<T>)
    requires |s| == |t| && i < |t| && WordStart(t, i)
    requires forall j :: j in os ==> j < |t| && WordStart(t, j)
    ensures Outside(t, os, WordEnd(t, i))
    ensures Weave(s, i, os, Closes(t, os), o, c) ==
      (if i in os then o + s[i..WordEnd(t, i)] + c else s[i..WordEnd(t, i)]) + Weave(s, WordEnd(t, i), os, Closes(t, os), o, c)
  {
    CloseAfterWord(t, os, i);
    NoBoundaryInsideWord(t, os, i);
    WeaveWholeWord(s, i, WordEnd(t, i), os, Closes(t, os), o, c);
  }

  /** Where no keyword starts, the scan copies one character, and so does
      the reference. */
  lemma CopyStep(s: seq<Sym>, ms: seq<Option<Match>>, o: seq<Sym>, c: seq<Sym>, i: nat, os: set<nat>)
    requires Table(Chars(s), ms) && i < |s| && ms[i].None?
    requires Outside(Chars(s), os, i) && i !in os
    ensures ScanWith(s, ms, o, c, i) == [s[i]] + ScanWith(s, ms, o, c, i + 1)
    ensures Weave(s, i, os, Closes(Chars(s), os), o, c) == [s[i]] + Weave(s, i + 1, os, Closes(Chars(s), os), o, c)
    ensures Outside(Chars(s), os, i + 1)
  {
    NoBoundaryHere(Chars(s), os, i);
    WeaveCopy(s, i, os, Closes(Chars(s), os), o, c);
  }

  /** At a keyword the scan writes the whole word, wrapped when it is
      tagged, and so does the reference. */
  lemma WordStep(s: seq<Sym>, ms: seq<Option<Match>>, o: seq<Sym>, c: seq<Sym>, i: nat, os: set<nat>, wrap: bool)
    requires Table(Chars(s), ms) && i < |s| && WordStart(Chars(s), i)
    requires ms[i] == Some(Match(i, WordEnd(Chars(s), i), WordEnd(Chars(s), i), wrap))
    requires forall j :: j in os ==> j < |s| && WordStart(Chars(s), j)
    requires i in os <==> wrap
    ensures ScanWith(s, ms, o, c, i) ==
      (if wrap then o + s[i..WordEnd(Chars(s), i)] + c else s[i..WordEnd(Chars(s), i)]) + ScanWith(s, ms, o, c, WordEnd(Chars(s), i))
    ensures Weave(s, i, os, Closes(Chars(s), os), o, c) ==
      (if wrap then o + s[i..WordEnd(Chars(s), i)] + c else s[i..WordEnd(Chars(s), i)]) + Weave(s, WordEnd(Chars(s), i), os, Closes(Chars(s), os), o, c)
    ensures Outside(Chars(s), os, WordEnd(Chars(s), i))
  {
    WeaveAtWord(s, Chars(s), os, i, o, c);
  }

  /** The scanning pass and the character-by-character reference agree
      from any index that is not inside a tagged keyword. The marked starts
      `os` are the tagged keywords and `ms` the keyword matches; both
      requirements are stated so that they are used only where a keyword
      is matched. */
  lemma {:induction false} ScanIsWeave(p: Pass, s: seq<Sym>, ms: seq<Option<Match>>, o: seq<Sym>, c: seq<Sym>, i: nat, os: set<nat>)
    requires IsKeywordPass(p) && Table(Chars(s), ms) && i <= |s|
    requires forall k: nat {:trigger KeywordAt(p, Chars(s), k)} :: k < |s| ==> ms[k] == KeywordAt(p, Chars(s), k)
    requires forall j :: j in os ==> j < |s| && WordStart(Chars(s), j)
    requires forall j: nat {:trigger Tagged(p, Chars(s), j)} :: j < |s| ==> (j in os <==> Tagged(p, Chars(s), j))
    requires Outside(Chars(s), os, i)
    ensures ScanWith(s, ms, o, c, i) == Weave(s, i, os, Closes(Chars(s), os), o, c)
    decreases |s| - i
  {
    if i < |s| {
      var t := Chars(s);
      KeywordMatch(p, t, i);
      if ms[i].None? {
        CopyStep(s, ms, o, c, i, os);
        ScanIsWeave(p, s, ms, o, c, i + 1, os);
      } else {
        WordStep(s, ms, o, c, i, os, Tagged(p, t, i));
        ScanIsWeave(p, s, ms, o, c, WordEnd(t, i), os);
      }
    }
  }

  /** A keyword pass wraps exactly the keywords outside code, keeping their
      spelling, and changes nothing else. */
  lemma KeywordPassIsCharacterwise(p: Pass, s: seq<Sym>)
    requires IsKeywordPass(p)
    ensures Scan(p, s) == TagRef(p, s)
  {
    var t := Chars(s);
    var ms := Matches(p, t);
    MatchesTable(p, t);
    forall k: nat | k < |s| ensures ms[k] == KeywordAt(p, t, k) {
      assert MatchAt(p, t, k) == KeywordAt(p, t, k);
    }
    ScanIsWeave(p, s, ms, Marks(p, Open(p)), Marks(p, Close(p)), 0, Opens(p, t));
  }

  // ---------------------------------------------------------------------------
  // The guard

  /** After an opening `<code` that no `</code>` follows, keywords are left
      alone. */
  lemma OpenCodeGuards(u: string, v: string)
    requires !Contains(v, "</code>")
    ensures InCode(u + "<code" + v)
  {
    var b := u + "<code" + v;
    assert Occurs(b, "<code", |u|) by { assert b[|u|..|u| + 5] == "<code"; }
    NowhereIn(v, "</code>");
    NoCloseAfterOpen(u, v);
  }

  lemma NowhereIn(v: string, q: string)
    requires !Contains(v, q)
    ensures forall j :: !Occurs(v, q, j)
  {
  }

  /** No `</code>` starts at or after an opening `<code` when none occurs
      in the text after it. */
  lemma NoCloseAfterOpen(u: string, v: string)
    requires forall j :: !Occurs(v, "</code>", j)
    ensures forall j :: |u| <= j ==> !Occurs(u + "<code" + v, "</code>", j)
  {
    var b := u + "<code" + v;
    assert b[|u|..|u| + 5] == "<code";
    forall j | |u| <= j ensures !Occurs(b, "</code>", j) {
      if j == |u| {
        Mismatch(b, "</code>", j, 1);
      } else if j < |u| + 5 {
        Mismatch(b, "</code>", j, 0);
      } else {
        assert b == (u + "<code") + v;
        OccursRight(u + "<code", v, "</code>", j - |u| - 5);
      }
    }
  }

  /** Without any `<code` or `<pre` before it, a keyword is tagged. */
  lemma NoCodeNoGuard(before: string)
    requires !Contains(before, "<code") && !Contains(before, "<pre")
    ensures !InCode(before)
  {
    if LastIndexOf(before, "<code") >= 0 {
      ContainsAt(before, "<code", LastIndexOf(before, "<code"));
    }
    if LastIndexOf(before, "<pre") >= 0 {
      ContainsAt(before, "<pre", LastIndexOf(before, "<pre"));
    }
  }
}
