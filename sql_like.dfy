/** PostgreSQL's `LIKE` operator, which SQLAlchemy's `column.contains(s)` compiles to
    (`column LIKE '%' || s || '%'`). In a pattern `_` matches any one character, `%`
    matches any run of characters and `\` makes the character after it literal. */
module SqlLike {

  predicate IsWildcard(c: char)
  {
    c == '%' || c == '_' || c == '\\'
  }

  predicate NoWildcards(s: string)
  {
    forall i :: 0 <= i < |s| ==> !IsWildcard(s[i])
  }

  predicate IsPrefix(p: string, s: string)
  {
    |p| <= |s| && s[..|p|] == p
  }

  /** `p` occurs in `s` starting at position `k`. */
  predicate OccursAt(p: string, s: string, k: int)
  {
    0 <= k <= |s| - |p| && s[k..k + |p|] == p
  }

  /** `p` occurs in `s` as a contiguous block. */
  predicate IsSubstring(p: string, s: string)
  {
    exists k :: 0 <= k <= |s| - |p| && OccursAt(p, s, k)
  }

  /** `text LIKE pattern`. A pattern built by `Contains` never ends in a lone `\`;
      this function reads one as a literal backslash. */
  function LikeMatch(text: string, pattern: string): bool
    decreases |text| + |pattern|
  {
    if pattern == [] then text == []
    else if pattern[0] == '%' then
      LikeMatch(text, pattern[1..]) || (text != [] && LikeMatch(text[1..], pattern))
    else if pattern[0] == '_' then
      text != [] && LikeMatch(text[1..], pattern[1..])
    else if pattern[0] == '\\' && |pattern| >= 2 then
      text != [] && text[0] == pattern[1] && LikeMatch(text[1..], pattern[2..])
    else
      text != [] && text[0] == pattern[0] && LikeMatch(text[1..], pattern[1..])
  }

  /** `column.contains(s)` as SQLAlchemy writes it without `autoescape`. */
  predicate Contains(text: string, s: string)
  {
    LikeMatch(text, "%" + s + "%")
  }

  /** Escaping with PostgreSQL's default escape character `\`: every character the
      pattern language gives a meaning to is preceded by `\`, so that it matches only
      itself. This has the same effect as SQLAlchemy's `autoescape`, which escapes with
      `/` and adds `ESCAPE '/'`. */
  function Escape(s: string): (r: string)
    ensures |r| >= |s|
    ensures r == [] <==> s == []
    ensures NoWildcards(s) ==> r == s
  {
    if s == [] then []
    else (if IsWildcard(s[0]) then ['\\', s[0]] else [s[0]]) + Escape(s[1..])
  }

  /** A trailing `%` matches any text. */
  lemma {:induction false} PercentMatchesAll(text: string)
    ensures LikeMatch(text, "%")
    decreases |text|
  {
    if text != [] {
      PercentMatchesAll(text[1..]);
    }
  }

  /** One escaped character at the head of a pattern matches that character only. */
  lemma EscapedCharStep(text: string, c: char, rest: string)
    ensures LikeMatch(text, (if IsWildcard(c) then ['\\', c] else [c]) + rest)
        <==> text != [] && text[0] == c && LikeMatch(text[1..], rest)
  {
  }

  /** A non-empty prefix is its first character followed by a prefix of the rest. */
  lemma PrefixStep(s: string, text: string)
    requires s != []
    ensures IsPrefix(s, text) <==> text != [] && text[0] == s[0] && IsPrefix(s[1..], text[1..])
  {
  }

  /** An escaped literal followed by `%` matches exactly the texts it is a prefix of. */
  lemma {:induction false} EscapedPrefix(text: string, s: string)
    ensures LikeMatch(text, Escape(s) + "%") <==> IsPrefix(s, text)
    decreases |s|
  {
    if s == [] {
      assert Escape(s) + "%" == "%";
      PercentMatchesAll(text);
    } else {
      var rest := Escape(s[1..]) + "%";
      assert Escape(s) + "%" == (if IsWildcard(s[0]) then ['\\', s[0]] else [s[0]]) + rest;
      EscapedCharStep(text, s[0], rest);
      PrefixStep(s, text);
      if text != [] {
        EscapedPrefix(text[1..], s[1..]);
      }
    }
  }

  /** A leading `%` lets the rest of the pattern start at any position of the text. */
  lemma {:induction false} LeadingPercent(text: string, q: string)
    ensures LikeMatch(text, "%" + q) <==> exists k :: 0 <= k <= |text| && LikeMatch(text[k..], q)
    decreases |text|
  {
    var pat := "%" + q;
    assert pat[0] == '%' && pat[1..] == q;
    if text == [] {
      assert text[0..] == text;
    } else {
      LeadingPercent(text[1..], q);
      if LikeMatch(text, pat) {
        if !LikeMatch(text, q) {
          var k :| 0 <= k <= |text[1..]| && LikeMatch(text[1..][k..], q);
          assert text[1..][k..] == text[k + 1..];
        } else {
          assert text[0..] == text;
        }
      }
      if exists k :: 0 <= k <= |text| && LikeMatch(text[k..], q) {
        var k :| 0 <= k <= |text| && LikeMatch(text[k..], q);
        if k == 0 {
          assert text[0..] == text;
        } else {
          assert text[1..][k - 1..] == text[k..];
        }
      }
    }
  }

  /** With `autoescape`, `contains` is substring search, for every search string. */
  lemma EscapedContainsIsSubstring(text: string, s: string)
    ensures Contains(text, Escape(s)) <==> IsSubstring(s, text)
  {
    var e := Escape(s);
    assert "%" + e + "%" == "%" + (e + "%");
    LeadingPercent(text, e + "%");
    if Contains(text, e) {
      var k :| 0 <= k <= |text| && LikeMatch(text[k..], e + "%");
      EscapedPrefix(text[k..], s);
      assert text[k..k + |s|] == text[k..][..|s|];
      assert OccursAt(s, text, k);
    }
    if IsSubstring(s, text) {
      var k :| 0 <= k <= |text| - |s| && OccursAt(s, text, k);
      assert text[k..][..|s|] == text[k..k + |s|];
      EscapedPrefix(text[k..], s);
      assert LikeMatch(text[k..], e + "%");
    }
  }

  /** Without `autoescape`, `contains` is still substring search when the search string
      holds no character the pattern language gives a meaning to. */
  lemma ContainsIsSubstring(text: string, s: string)
    requires NoWildcards(s)
    ensures Contains(text, s) <==> IsSubstring(s, text)
  {
    EscapedContainsIsSubstring(text, s);
  }

  /** ...but not in general: `_` matches any character. */
  lemma UnderscoreIsWildcard()
    ensures Contains("dune", "d_ne") && !IsSubstring("d_ne", "dune")
  {
    var t := "dune";
    var pat := "%" + "d_ne" + "%";
    assert pat[0] == '%' && pat[1..] == "d_ne%";
    assert "d_ne%"[1..] == "_ne%" && "_ne%"[1..] == "ne%";
    assert "ne%"[1..] == "e%" && "e%"[1..] == "%";
    assert t[1..] == "une" && t[2..] == "ne" && t[3..] == "e" && t[4..] == "";
    assert LikeMatch(t[4..], "%");
    assert LikeMatch(t[3..], "e%");
    assert LikeMatch(t[2..], "ne%");
    assert LikeMatch(t[1..], "_ne%");
    assert LikeMatch(t, "d_ne%");
    assert LikeMatch(t, pat);
    assert !OccursAt("d_ne", t, 0) by {
      assert t[0..4][1] == 'u';
    }
  }
}
