/**
  Name patterns: the REPL's row-by-row glob matcher, and the translation of a glob to a
  SQL LIKE pattern with escape character `$` (section 8.5 of ISO/IEC 9075-2).
*/
module Globs {
  import opened Outcomes

  /** Glob matching, by definition: `*` is any run of characters, `?` any one character. */
  predicate Matches(pattern: string, name: string)
    decreases |pattern|, |name|
  {
    if pattern == "" then name == ""
    else if pattern[0] == '*' then Matches(pattern[1..], name) || (name != "" && Matches(pattern, name[1..]))
    else name != "" && Fits(pattern[0], name[0]) && Matches(pattern[1..], name[1..])
  }

  predicate Fits(token: char, c: char) {
    token == '?' || token == c
  }

  // ---- the definition read from the right ----

  lemma {:induction false} StarAnywhere(pattern: string, name: string, k: nat)
    requires k <= |name| && Matches(pattern, name[..k])
    ensures Matches(pattern + "*", name)
    decreases |pattern|, k, |name|
  {
    if pattern == "" {
      StarMatchesAll(name);
      assert pattern + "*" == "*";
    } else if pattern[0] == '*' {
      assert (pattern + "*")[1..] == pattern[1..] + "*";
      if Matches(pattern[1..], name[..k]) {
        StarAnywhere(pattern[1..], name, k);
      } else {
        assert name[..k][1..] == name[1..][..k - 1];
        StarAnywhere(pattern, name[1..], k - 1);
      }
    } else {
      assert (pattern + "*")[1..] == pattern[1..] + "*";
      assert name[..k][1..] == name[1..][..k - 1];
      StarAnywhere(pattern[1..], name[1..], k - 1);
    }
  }

  lemma {:induction false} StarMatchesAll(name: string)
    ensures Matches("*", name)
  {
    if name != "" {
      StarMatchesAll(name[1..]);
    }
  }

  lemma {:induction false} StarSplits(pattern: string, name: string) returns (k: nat)
    requires Matches(pattern + "*", name)
    ensures k <= |name| && Matches(pattern, name[..k])
    decreases |pattern|, |name|
  {
    if pattern == "" {
      k := 0;
    } else {
      assert (pattern + "*")[1..] == pattern[1..] + "*";
      if pattern[0] == '*' && Matches(pattern[1..] + "*", name) {
        k := StarSplits(pattern[1..], name);
      } else if pattern[0] == '*' {
        k := StarSplits(pattern, name[1..]);
        k := k + 1;
        assert name[..k][1..] == name[1..][..k - 1];
      } else {
        k := StarSplits(pattern[1..], name[1..]);
        k := k + 1;
        assert name[..k][1..] == name[1..][..k - 1];
      }
    }
  }

  /** A trailing star either matches nothing or swallows the last character. */
  lemma StarFromTheRight(pattern: string, name: string)
    ensures Matches(pattern + "*", name)
       <==> Matches(pattern, name) || (name != "" && Matches(pattern + "*", name[..|name| - 1]))
  {
    if Matches(pattern + "*", name) {
      var k := StarSplits(pattern, name);
      if k < |name| {
        assert name[..|name| - 1][..k] == name[..k];
        StarAnywhere(pattern, name[..|name| - 1], k);
      } else {
        assert name[..k] == name;
      }
    }
    if Matches(pattern, name) {
      assert name[..|name|] == name;
      StarAnywhere(pattern, name, |name|);
    }
    if name != "" && Matches(pattern + "*", name[..|name| - 1]) {
      var k := StarSplits(pattern, name[..|name| - 1]);
      assert name[..|name| - 1][..k] == name[..k];
      StarAnywhere(pattern, name, k);
    }
  }

  /** A trailing token other than a star consumes the last character. */
  lemma {:induction false} TokenFromTheRight(pattern: string, token: char, name: string)
    requires token != '*'
    ensures Matches(pattern + [token], name)
       <==> name != "" && Fits(token, name[|name| - 1]) && Matches(pattern, name[..|name| - 1])
    decreases |pattern|, |name|
  {
    if pattern == "" {
      assert pattern + [token] == [token];
      assert Matches([token], name) <==> name != "" && Fits(token, name[0]) && name[1..] == "";
    } else {
      assert (pattern + [token])[1..] == pattern[1..] + [token];
      if name == "" {
        TokenFromTheRight(pattern[1..], token, name);
      } else {
        assert |name| > 1 ==> name[1..][|name| - 2] == name[|name| - 1];
        assert |name| > 1 ==> name[..|name| - 1][1..] == name[1..][..|name| - 2];
        if pattern[0] == '*' {
          TokenFromTheRight(pattern[1..], token, name);
          TokenFromTheRight(pattern, token, name[1..]);
        } else {
          TokenFromTheRight(pattern[1..], token, name[1..]);
        }
      }
    }
  }

  /**
    The REPL's matcher: one row of truth values per pattern character. It agrees with the
    definition, and with the LIKE pattern the Trino adapter sends for the same glob.
  */
  method GlobMatches(pattern: Option<string>, name: string) returns (r: bool)
    ensures r <==> pattern.None? || Matches(pattern.value, name)
    ensures pattern.Some? ==> WellFormed(GlobToLike(pattern.value)) && (r <==> Like(GlobToLike(pattern.value), name))
  {
    if pattern.None? {
      return true;
    }
    var tokens := pattern.value;
    var previous := new bool[|name| + 1](i => i == 0);
    for t := 0 to |tokens|
      invariant previous.Length == |name| + 1
      invariant forall j :: 0 <= j <= |name| ==> (previous[j] <==> Matches(tokens[..t], name[..j]))
    {
      var token := tokens[t];
      var current := new bool[|name| + 1](i => false);
      assert tokens[..t + 1] == tokens[..t] + [token];
      if token == '*' {
        current[0] := previous[0];
      }
      RightStep(tokens[..t], token, name, 0);
      for index := 1 to |name| + 1
        invariant previous.Length == current.Length == |name| + 1 && previous != current
        invariant forall j :: 0 <= j <= |name| ==> (previous[j] <==> Matches(tokens[..t], name[..j]))
        invariant forall j :: 0 <= j < index ==> (current[j] <==> Matches(tokens[..t + 1], name[..j]))
      {
        RightStep(tokens[..t], token, name, index);
        current[index] :=
          if token == '*' then previous[index] || current[index - 1]
          else previous[index - 1] && (token == '?' || token == name[index - 1]);
      }
      previous := current;
    }
    assert tokens[..|tokens|] == tokens && name[..|name|] == name;
    TranslationPreservesMeaning(tokens, name);
    r := previous[|name|];
  }

  lemma RightStep(pattern: string, token: char, name: string, j: nat)
    requires j <= |name|
    ensures Matches(pattern + [token], name[..j]) <==>
      if token == '*' then Matches(pattern, name[..j]) || (j > 0 && Matches(pattern + [token], name[..j - 1]))
      else j > 0 && Matches(pattern, name[..j - 1]) && Fits(token, name[j - 1])
  {
    assert j > 0 ==> name[..j][..j - 1] == name[..j - 1];
    if token == '*' {
      StarFromTheRight(pattern, name[..j]);
    } else {
      TokenFromTheRight(pattern, token, name[..j]);
    }
  }

  // ---- LIKE ----

  const ESCAPE := '$'

  /** An escape character must be followed by a wildcard or by itself. */
  predicate WellFormed(like: string) {
    if like == "" then true
    else if like[0] == ESCAPE then |like| > 1 && like[1] in "%_$" && WellFormed(like[2..])
    else WellFormed(like[1..])
  }

  /** LIKE matching: `%` any run, `_` any one character, an escaped character itself. */
  predicate Like(like: string, name: string)
    requires WellFormed(like)
    decreases |like|, |name|
  {
    if like == "" then name == ""
    else if like[0] == '%' then Like(like[1..], name) || (name != "" && Like(like, name[1..]))
    else if like[0] == '_' then name != "" && Like(like[1..], name[1..])
    else if like[0] == ESCAPE then name != "" && name[0] == like[1] && Like(like[2..], name[1..])
    else name != "" && name[0] == like[0] && Like(like[1..], name[1..])
  }

  function Translate(c: char): string {
    match c
    case '*' => "%"
    case '?' => "_"
    case '%' => "$%"
    case '_' => "$_"
    case '$' => "$$"
    case _ => [c]
  }

  function GlobToLike(pattern: string): string {
    if pattern == "" then "" else Translate(pattern[0]) + GlobToLike(pattern[1..])
  }

  lemma {:induction false} TranslationIsWellFormed(pattern: string)
    ensures WellFormed(GlobToLike(pattern))
  {
    if pattern != "" {
      TranslationIsWellFormed(pattern[1..]);
      var head, rest := Translate(pattern[0]), GlobToLike(pattern[1..]);
      assert (head + rest)[|head|..] == rest;
    }
  }

  /** Glob translation preserves meaning, for every pattern and every name. */
  lemma {:induction false} TranslationPreservesMeaning(pattern: string, name: string)
    ensures WellFormed(GlobToLike(pattern))
    ensures Like(GlobToLike(pattern), name) <==> Matches(pattern, name)
    decreases |pattern|, |name|
  {
    TranslationIsWellFormed(pattern);
    if pattern != "" {
      var head, rest := Translate(pattern[0]), GlobToLike(pattern[1..]);
      assert (head + rest)[|head|..] == rest;
      TranslationPreservesMeaning(pattern[1..], name);
      if name != "" {
        TranslationPreservesMeaning(pattern[1..], name[1..]);
        TranslationPreservesMeaning(pattern, name[1..]);
      }
    }
  }

  // ---- quoting ----

  /** A value inside a quoted SQL literal: every quote is doubled. */
  function Literal(value: string): string {
    if value == "" then ""
    else (if value[0] == '\'' then "''" else [value[0]]) + Literal(value[1..])
  }

  /** What a SQL scanner reads after an opening quote: the value and the text behind the closing quote. */
  function Scan(text: string): Option<(string, string)> {
    if text == "" then None
    else if text[0] == '\'' then
      if |text| > 1 && text[1] == '\'' then
        var r := Scan(text[2..]);
        if r.None? then None else Some(("'" + r.value.0, r.value.1))
      else Some(("", text[1..]))
    else
      var r := Scan(text[1..]);
      if r.None? then None else Some(([text[0]] + r.value.0, r.value.1))
  }

  /** Whatever the value, the scanner gives it back and stops exactly at the closing quote. */
  lemma {:induction false} LiteralRoundTrip(value: string, rest: string)
    requires rest == "" || rest[0] != '\''
    ensures Scan(Literal(value) + "'" + rest) == Some((value, rest))
  {
    var text := Literal(value) + "'" + rest;
    if value == "" {
      assert text == "'" + rest;
      assert text[1..] == rest;
    } else {
      LiteralRoundTrip(value[1..], rest);
      var tail := Literal(value[1..]) + "'" + rest;
      if value[0] == '\'' {
        assert text == "''" + tail;
        assert text[2..] == tail;
      } else {
        assert text == [value[0]] + tail;
        assert text[1..] == tail;
      }
      assert [value[0]] + value[1..] == value;
    }
  }
}
