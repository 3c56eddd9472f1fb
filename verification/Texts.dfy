/** Text helpers the sources take from the standard library. */
module Texts {

  /** The `White_Space` characters of Unicode, as `char::is_whitespace` knows them. */
  predicate IsWhitespace(c: char) {
    || '\t' <= c <= '\r' || c == ' ' || c == '\U{85}' || c == '\U{A0}' || c == '\U{1680}'
    || '\U{2000}' <= c <= '\U{200A}' || c == '\U{2028}' || c == '\U{2029}'
    || c == '\U{202F}' || c == '\U{205F}' || c == '\U{3000}'
  }

  /** The four characters XML 1.0 calls white space. */
  predicate IsXmlSpace(c: char) {
    c == ' ' || c == '\t' || c == '\r' || c == '\n'
  }

  function TrimStart(s: string, space: char -> bool): (r: string)
    ensures |r| <= |s|
    ensures r != "" ==> !space(r[0])
    ensures s == "" || !space(s[0]) ==> r == s
  {
    if s != "" && space(s[0]) then TrimStart(s[1..], space) else s
  }

  function TrimEnd(s: string, space: char -> bool): (r: string)
    ensures |r| <= |s| && r == s[..|r|]
    ensures r != "" ==> !space(r[|r| - 1])
    ensures s == "" || !space(s[|s| - 1]) ==> r == s
  {
    if s != "" && space(s[|s| - 1]) then TrimEnd(s[..|s| - 1], space) else s
  }

  /** A text without the spaces around it. */
  function Trim(s: string, space: char -> bool): (r: string)
    ensures |r| <= |s|
    ensures r != "" ==> !space(r[0]) && !space(r[|r| - 1])
  {
    var t := TrimEnd(TrimStart(s, space), space);
    assert t != "" ==> t[0] == TrimStart(s, space)[0];
    t
  }

  lemma TrimKeeps(s: string, space: char -> bool)
    requires s != "" ==> !space(s[0]) && !space(s[|s| - 1])
    ensures Trim(s, space) == s
  {
  }

  lemma {:induction false} TrimStartIsEmpty(s: string, space: char -> bool)
    ensures TrimStart(s, space) == "" <==> forall i | 0 <= i < |s| :: space(s[i])
  {
    if s == "" || !space(s[0]) {
    } else {
      TrimStartIsEmpty(s[1..], space);
      assert forall i | 1 <= i < |s| :: s[i] == s[1..][i - 1];
    }
  }

  /** Trimming leaves nothing exactly of a text that is all spaces. */
  lemma TrimIsEmpty(s: string, space: char -> bool)
    ensures Trim(s, space) == "" <==> forall i | 0 <= i < |s| :: space(s[i])
  {
    TrimStartIsEmpty(s, space);
    var t := TrimStart(s, space);
    if t != "" {
      TrimEndKeepsFirst(t, space);
    }
  }

  lemma {:induction false} TrimEndKeepsFirst(t: string, space: char -> bool)
    requires t != "" && !space(t[0])
    ensures TrimEnd(t, space) != ""
  {
    if !space(t[|t| - 1]) {
    } else {
      TrimEndKeepsFirst(t[..|t| - 1], space);
    }
  }

  lemma {:induction false} TrimStartSkips(before: string, rest: string, space: char -> bool)
    requires (forall i | 0 <= i < |before| :: space(before[i])) && (rest != "" ==> !space(rest[0]))
    ensures TrimStart(before + rest, space) == rest
  {
    if before == "" {
      assert before + rest == rest;
    } else {
      assert (before + rest)[1..] == before[1..] + rest;
      TrimStartSkips(before[1..], rest, space);
    }
  }

  lemma {:induction false} TrimEndSkips(rest: string, after: string, space: char -> bool)
    requires (forall i | 0 <= i < |after| :: space(after[i])) && (rest != "" ==> !space(rest[|rest| - 1]))
    ensures TrimEnd(rest + after, space) == rest
  {
    if after == "" {
      assert rest + after == rest;
    } else {
      assert (rest + after)[..|rest + after| - 1] == rest + after[..|after| - 1];
      TrimEndSkips(rest, after[..|after| - 1], space);
    }
  }

  /** Exactly the spaces around a text are removed. */
  lemma TrimSurrounded(before: string, text: string, after: string, space: char -> bool)
    requires forall i | 0 <= i < |before| :: space(before[i])
    requires forall i | 0 <= i < |after| :: space(after[i])
    requires text != "" && !space(text[0]) && !space(text[|text| - 1])
    ensures Trim(before + text + after, space) == text
  {
    assert before + text + after == before + (text + after);
    assert (text + after)[0] == text[0];
    TrimStartSkips(before, text + after, space);
    TrimEndSkips(text, after, space);
  }
}
