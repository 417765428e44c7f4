/**
 * `escapeHtml` of the side panel: assigning a string to `textContent` and
 * reading back `innerHTML` serialises one text node, which escapes a string
 * in non-attribute mode as the HTML Living Standard, section "Serializing
 * HTML fragments", prescribes.
 */
module Escape {
  import opened Text

  /** An entity the serialiser writes, and the character it stands for. */
  predicate EntityAt(s: string, k: int) {
    Occurs(s, "&amp;", k) || Occurs(s, "&lt;", k) || Occurs(s, "&gt;", k) || Occurs(s, "&nbsp;", k)
  }

  /** How the serialiser writes one character of a text node. */
  function EscapeChar(c: char): (r: string)
    ensures c !in "&<>\U{A0}" ==> r == [c]
    ensures EntityAt(r, 0) <==> c in "&<>\U{A0}"
  {
    if c == '&' then "&amp;"
    else if c == '\U{A0}' then "&nbsp;"
    else if c == '<' then "&lt;"
    else if c == '>' then "&gt;"
    else [c]
  }

  /** `escapeHtml(text)` (sidebar.js:335-339): the result holds no `<`, `>`
      or no-break space, and every `&` in it opens one of the four entities. */
  function EscapeHtml(s: string): (r: string)
    ensures |r| >= |s|
    ensures forall k :: 0 <= k < |r| ==> r[k] != '<' && r[k] != '>' && r[k] != '\U{A0}'
    ensures forall k :: 0 <= k < |r| && r[k] == '&' ==> EntityAt(r, k)
  {
    if s == [] then []
    else
      var head, tail := EscapeChar(s[0]), EscapeHtml(s[1..]);
      EntitiesSurviveAppend(head, tail);
      head + tail
  }

  /** Entities found in either part are still entities of the concatenation. */
  lemma EntitiesSurviveAppend(a: string, b: string)
    requires forall k :: 0 <= k < |a| && a[k] == '&' ==> EntityAt(a, k)
    requires forall k :: 0 <= k < |b| && b[k] == '&' ==> EntityAt(b, k)
    ensures forall k :: 0 <= k < |a + b| && (a + b)[k] == '&' ==> EntityAt(a + b, k)
  {
    forall k | 0 <= k < |a + b| && (a + b)[k] == '&' ensures EntityAt(a + b, k) {
      if k < |a| {
        EntityLeft(a, b, k);
      } else {
        EntityRight(a, b, k - |a|);
      }
    }
  }

  lemma EntityLeft(a: string, b: string, k: nat)
    requires EntityAt(a, k)
    ensures EntityAt(a + b, k)
  {
    if Occurs(a, "&amp;", k) { OccursLeft(a, b, "&amp;", k); }
    if Occurs(a, "&lt;", k) { OccursLeft(a, b, "&lt;", k); }
    if Occurs(a, "&gt;", k) { OccursLeft(a, b, "&gt;", k); }
    if Occurs(a, "&nbsp;", k) { OccursLeft(a, b, "&nbsp;", k); }
  }

  lemma EntityRight(a: string, b: string, k: nat)
    requires EntityAt(b, k)
    ensures EntityAt(a + b, |a| + k)
  {
    OccursRight(a, b, "&amp;", k);
    OccursRight(a, b, "&lt;", k);
    OccursRight(a, b, "&gt;", k);
    OccursRight(a, b, "&nbsp;", k);
  }

  /** Decoding of the four entities the serialiser writes; any other
      character is kept. */
  function Unescape(s: string): string
    decreases |s|
  {
    if s == [] then []
    else if Occurs(s, "&amp;", 0) then "&" + Unescape(s[5..])
    else if Occurs(s, "&nbsp;", 0) then "\U{A0}" + Unescape(s[6..])
    else if Occurs(s, "&lt;", 0) then "<" + Unescape(s[4..])
    else if Occurs(s, "&gt;", 0) then ">" + Unescape(s[4..])
    else [s[0]] + Unescape(s[1..])
  }

  /** Escaping loses nothing: decoding the entities gives the text back. */
  lemma {:induction false} UnescapeEscape(s: string)
    ensures Unescape(EscapeHtml(s)) == s
  {
    if s != [] {
      assert EscapeHtml(s) == EscapeChar(s[0]) + EscapeHtml(s[1..]);
      UnescapeHead(s[0], EscapeHtml(s[1..]));
      UnescapeEscape(s[1..]);
    }
  }

  /** Decoding reads the escape of one character back as that character. */
  lemma UnescapeHead(c: char, rest: string)
    ensures Unescape(EscapeChar(c) + rest) == [c] + Unescape(rest)
  {
    if c == '&' {
      assert EscapeChar(c) == "&amp;";
      UnescapeAmp(rest);
    } else if c == '\U{A0}' {
      UnescapeNbsp(rest);
    } else if c == '<' {
      UnescapeLt(rest);
    } else if c == '>' {
      UnescapeGt(rest);
    } else {
      UnescapePlain(c, rest);
    }
  }

  lemma UnescapePlain(c: char, rest: string)
    requires c !in "&<>\U{A0}"
    ensures Unescape([c] + rest) == [c] + Unescape(rest)
  {
    var es := [c] + rest;
    Mismatch(es, "&amp;", 0, 0);
    Mismatch(es, "&nbsp;", 0, 0);
    Mismatch(es, "&lt;", 0, 0);
    Mismatch(es, "&gt;", 0, 0);
    assert es[1..] == rest;
  }

  lemma UnescapeAmp(rest: string)
    ensures Unescape("&amp;" + rest) == "&" + Unescape(rest)
  {
    var es := "&amp;" + rest;
    assert es[..5] == "&amp;" && es[5..] == rest;
  }

  lemma UnescapeNbsp(rest: string)
    ensures Unescape("&nbsp;" + rest) == "\U{A0}" + Unescape(rest)
  {
    var es := "&nbsp;" + rest;
    Mismatch(es, "&amp;", 0, 1);
    assert es[..6] == "&nbsp;" && es[6..] == rest;
  }

  lemma UnescapeLt(rest: string)
    ensures Unescape("&lt;" + rest) == "<" + Unescape(rest)
  {
    var es := "&lt;" + rest;
    Mismatch(es, "&amp;", 0, 1);
    Mismatch(es, "&nbsp;", 0, 1);
    assert es[..4] == "&lt;" && es[4..] == rest;
  }

  lemma UnescapeGt(rest: string)
    ensures Unescape("&gt;" + rest) == ">" + Unescape(rest)
  {
    var es := "&gt;" + rest;
    Mismatch(es, "&amp;", 0, 1);
    Mismatch(es, "&nbsp;", 0, 1);
    Mismatch(es, "&lt;", 0, 1);
    assert es[..4] == "&gt;" && es[4..] == rest;
  }

  /** Escaping works character by character, so it distributes over `+`. */
  lemma {:induction false} EscapeAppend(a: string, b: string)
    ensures EscapeHtml(a + b) == EscapeHtml(a) + EscapeHtml(b)
  {
    if a != [] {
      assert (a + b)[0] == a[0];
      assert (a + b)[1..] == a[1..] + b;
      EscapeAppend(a[1..], b);
    } else {
      assert a + b == b;
    }
  }
}
