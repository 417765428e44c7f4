/**
 * Character classes and string operations with the meaning JavaScript gives
 * them. A `char` here stands for one UTF-16 code unit of a JavaScript string.
 */
module Text {

  /** ECMAScript line terminators: what `.` does not match, and where `^` and
      `$` anchor in a multiline regular expression. */
  predicate IsLineTerminator(c: char) {
    c == '\n' || c == '\r' || c == '\U{2028}' || c == '\U{2029}'
  }

  /** ECMAScript WhiteSpace or LineTerminator: the class `\s`, and what
      `String.prototype.trim` removes at both ends. */
  predicate IsSpace(c: char) {
    || IsLineTerminator(c)
    || c == '\t' || c == '\U{B}' || c == '\U{C}' || c == ' ' || c == '\U{A0}'
    || c == '\U{1680}' || ('\U{2000}' <= c <= '\U{200A}')
    || c == '\U{202F}' || c == '\U{205F}' || c == '\U{3000}' || c == '\U{FEFF}'
  }

  /** The class `\d` (ASCII digits only). */
  predicate IsDigit(c: char) {
    '0' <= c <= '9'
  }

  /** The class `\w`, which also decides `\b`, in a regular expression
      without the `u` flag: ASCII letters, digits and underscore. */
  predicate IsWordChar(c: char) {
    ('a' <= c <= 'z') || ('A' <= c <= 'Z') || IsDigit(c) || c == '_'
  }

  /** Case folding of the `i` flag without `u`: only ASCII letters fold onto
      ASCII letters. */
  function LowerAscii(c: char): (r: char)
    ensures ('A' <= c <= 'Z') ==> r as int == c as int + 32 && 'a' <= r <= 'z'
    ensures !('A' <= c <= 'Z') ==> r == c
    ensures IsWordChar(r) <==> IsWordChar(c)
  {
    if 'A' <= c <= 'Z' then (c as int + 32) as char else c
  }

  function Lower(s: string): (r: string)
    ensures |r| == |s|
    ensures forall k :: 0 <= k < |s| ==> r[k] == LowerAscii(s[k])
  {
    seq(|s|, k requires 0 <= k < |s| => LowerAscii(s[k]))
  }

  /** `s.slice(0, n)` / `s.substring(0, n)`: at most the first `n` characters. */
  function Take(s: string, n: nat): (r: string)
    ensures r <= s
    ensures |r| <= n
    ensures |s| <= n ==> r == s
    ensures n <= |s| ==> |r| == n
  {
    if |s| <= n then s else s[..n]
  }

  /** `p` occurs in `s` at index `i`. */
  predicate Occurs(s: string, p: string, i: int) {
    0 <= i && i + |p| <= |s| && s[i..i + |p|] == p
  }

  /** One differing character rules out an occurrence. */
  lemma Mismatch(s: string, p: string, i: nat, k: nat)
    requires k < |p| && i + k < |s| && s[i + k] != p[k]
    ensures !Occurs(s, p, i)
  {
    if i + |p| <= |s| {
      assert s[i..i + |p|][k] == s[i + k];
    }
  }

  /** A one-character pattern occurs exactly where that character is. */
  lemma OccursChar(s: string, c: char)
    ensures forall k :: Occurs(s, [c], k) <==> 0 <= k < |s| && s[k] == c
  {
    forall k | 0 <= k < |s| && s[k] == c
      ensures Occurs(s, [c], k)
    {
      assert s[k..k + 1] == [c];
    }
  }

  /** An occurrence inside `a` is one inside `a + b`. */
  lemma OccursLeft(a: string, b: string, p: string, k: int)
    requires Occurs(a, p, k)
    ensures Occurs(a + b, p, k)
  {
    assert (a + b)[k..k + |p|] == a[k..k + |p|];
  }

  /** Behind `a`, `a + b` holds exactly the occurrences of `b`. */
  lemma OccursRight(a: string, b: string, p: string, k: nat)
    ensures Occurs(a + b, p, |a| + k) <==> Occurs(b, p, k)
  {
    if k + |p| <= |b| {
      assert (a + b)[|a| + k..|a| + k + |p|] == b[k..k + |p|];
    }
  }

  /** The first occurrence of `p` at or after `i`, or -1. */
  function IndexFrom(s: string, p: string, i: nat): (r: int)
    requires i <= |s| + 1
    ensures r == -1 || (i <= r && Occurs(s, p, r))
    ensures forall j :: i <= j && (r == -1 || j < r) ==> !Occurs(s, p, j)
    decreases |s| + 1 - i
  {
    if i + |p| > |s| then -1
    else if s[i..i + |p|] == p then i
    else IndexFrom(s, p, i + 1)
  }

  /** `s.indexOf(p)`. */
  function IndexOf(s: string, p: string): (r: int)
    ensures r == -1 || Occurs(s, p, r)
    ensures forall j :: (r == -1 || j < r) ==> !Occurs(s, p, j)
  {
    IndexFrom(s, p, 0)
  }

  /** `s.includes(p)`. */
  predicate Contains(s: string, p: string) {
    IndexOf(s, p) >= 0
  }

  lemma ContainsAt(s: string, p: string, i: int)
    requires Occurs(s, p, i)
    ensures Contains(s, p)
  {
  }

  /** An occurrence, character by character. */
  lemma OccursByChars(s: string, p: string, i: nat)
    requires i + |p| <= |s| && forall k :: 0 <= k < |p| ==> s[i + k] == p[k]
    ensures Occurs(s, p, i)
  {
    assert s[i..i + |p|] == p;
  }

  /** A text that lacks one of the characters of `p` does not contain `p`. */
  lemma MissingChar(s: string, p: string, k: nat)
    requires k < |p| && p[k] !in s
    ensures !Contains(s, p)
  {
    ContainsIff(s, p);
    forall i: nat | i + |p| <= |s| ensures !Occurs(s, p, i) {
      assert s[i + k] in s;
      Mismatch(s, p, i, k);
    }
  }

  /** `includes` holds exactly when there is an occurrence somewhere. */
  lemma ContainsIff(s: string, p: string)
    ensures Contains(s, p) <==> exists i :: Occurs(s, p, i)
  {
    if Contains(s, p) {
      assert Occurs(s, p, IndexOf(s, p));
    }
  }

  /** The last occurrence of `p` at or before `i`, or -1. */
  function LastIndexFrom(s: string, p: string, i: int): (r: int)
    ensures r == -1 || (r <= i && Occurs(s, p, r))
    ensures forall j :: r < j <= i ==> !Occurs(s, p, j)
    decreases i + 1
  {
    if i < 0 then -1
    else if Occurs(s, p, i) then i
    else LastIndexFrom(s, p, i - 1)
  }

  /** `s.lastIndexOf(p)`: the largest index where `p` occurs, -1 if none. */
  function LastIndexOf(s: string, p: string): (r: int)
    ensures r == -1 || Occurs(s, p, r)
    ensures forall j :: r < j ==> !Occurs(s, p, j)
  {
    LastIndexFrom(s, p, |s| - |p|)
  }

  /** Number of leading characters of `s` that `trim` removes. */
  function LeadingSpaces(s: string): (n: nat)
    ensures n <= |s|
    ensures forall k :: 0 <= k < n ==> IsSpace(s[k])
    ensures n < |s| ==> !IsSpace(s[n])
  {
    if s == [] || !IsSpace(s[0]) then 0 else 1 + LeadingSpaces(s[1..])
  }

  /** Number of trailing characters of `s` that `trim` removes. */
  function TrailingSpaces(s: string): (n: nat)
    ensures n <= |s|
    ensures forall k :: |s| - n <= k < |s| ==> IsSpace(s[k])
    ensures n < |s| ==> !IsSpace(s[|s| - n - 1])
  {
    if s == [] || !IsSpace(s[|s| - 1]) then 0 else 1 + TrailingSpaces(s[..|s| - 1])
  }

  /** `s.trim()`: the factor of `s` left after removing white space and line
      terminators at both ends. */
  function Trim(s: string): (r: string)
    ensures |r| <= |s|
    ensures r == "" <==> forall k :: 0 <= k < |s| ==> IsSpace(s[k])
    ensures r != "" ==> !IsSpace(r[0]) && !IsSpace(r[|r| - 1])
    ensures LeadingSpaces(s) + |r| <= |s| && r == s[LeadingSpaces(s)..LeadingSpaces(s) + |r|]
    ensures forall k :: LeadingSpaces(s) + |r| <= k < |s| ==> IsSpace(s[k])
  {
    var a := LeadingSpaces(s);
    var rest := s[a..];
    var r := rest[..|rest| - TrailingSpaces(rest)];
    TrimmedAway(s, a, rest);
    r
  }

  lemma TrimmedAway(s: string, a: nat, rest: string)
    requires a == LeadingSpaces(s) && rest == s[a..]
    ensures TrailingSpaces(rest) == |rest| ==> forall k :: 0 <= k < |s| ==> IsSpace(s[k])
  {
    if TrailingSpaces(rest) == |rest| && a < |s| {
      assert false;
    }
  }

  /** Decimal digits of `n`, most significant first, as `String(n)` prints it. */
  function DecimalString(n: nat): (r: string)
    ensures |r| >= 1
    ensures forall k :: 0 <= k < |r| ==> IsDigit(r[k])
    ensures |r| > 1 ==> r[0] != '0'
  {
    if n < 10 then [Digit(n)] else DecimalString(n / 10) + [Digit(n % 10)]
  }

  function Digit(d: nat): (c: char)
    requires d < 10
    ensures IsDigit(c)
  {
    ('0' as int + d) as char
  }

  /** The value of a string of decimal digits. */
  function DecimalValue(s: string): nat
    requires forall k :: 0 <= k < |s| ==> IsDigit(s[k])
  {
    if s == [] then 0
    else assert IsDigit(s[|s| - 1]); 10 * DecimalValue(s[..|s| - 1]) + (s[|s| - 1] as int - '0' as int)
  }

  /** Reading back the digits printed for `n` gives `n`. */
  lemma {:induction false} DecimalRoundTrip(n: nat)
    ensures DecimalValue(DecimalString(n)) == n
  {
    var r := DecimalString(n);
    if n >= 10 {
      DecimalRoundTrip(n / 10);
      assert r[..|r| - 1] == DecimalString(n / 10);
    }
  }

  /** Concatenation is associative. */
  lemma Assoc<T>(a: seq<T>, b: seq<T>, c: seq<T>)
    ensures a + (b + c) == (a + b) + c
  {
  }

  /** `f(xs[0]) + f(xs[1]) + …`: what appending `f(x)` for each `x` of
      `xs`, in order, builds. */
  function ConcatMap<T>(xs: seq<T>, f: T -> string): string
    decreases |xs|
  {
    if xs == [] then "" else f(xs[0]) + ConcatMap(xs[1..], f)
  }

  /** Appending one more item appends its text. */
  lemma {:induction false} ConcatMapSnoc<T>(xs: seq<T>, x: T, f: T -> string)
    ensures ConcatMap(xs + [x], f) == ConcatMap(xs, f) + f(x)
    decreases |xs|
  {
    if xs == [] {
      assert [] + [x] == [x];
      assert [x][1..] == [];
    } else {
      assert (xs + [x])[0] == xs[0];
      assert (xs + [x])[1..] == xs[1..] + [x];
      ConcatMapSnoc(xs[1..], x, f);
    }
  }

  /** `xs.slice(-n)` for `n > 0`: the last `n` items, or all of them when
      there are fewer, in their order. */
  function LastN<T>(xs: seq<T>, n: nat): (r: seq<T>)
    ensures |r| == if |xs| < n then |xs| else n
    ensures forall k :: 0 <= k < |r| ==> r[k] == xs[|xs| - |r| + k]
  {
    if |xs| <= n then xs else xs[|xs| - n..]
  }

  /** `xs.join(sep)`. */
  function Join(xs: seq<string>, sep: string): string {
    if |xs| == 0 then "" else if |xs| == 1 then xs[0] else xs[0] + sep + Join(xs[1..], sep)
  }

  /** A join is empty exactly when there is nothing to join but empty text. */
  lemma {:induction false} JoinEmpty(xs: seq<string>, sep: string)
    requires sep != ""
    ensures Join(xs, sep) == "" <==> xs == [] || xs == [""]
  {
    if |xs| > 1 {
      assert |Join(xs, sep)| >= |sep|;
    }
  }
}
