/** LIKE patterns built from user input, against the meaning of LIKE with backslash as the escape character. */
module LikePatterns {
  // Section 8.5 of ISO/IEC 9075:1992: `%` matches any characters, `_` any one, an escaped character itself.
  predicate Like(subject: string, pattern: string)
    decreases |pattern|
  {
    if pattern == "" then subject == ""
    else if pattern[0] == '%' then exists k :: 0 <= k <= |subject| && Like(subject[k..], pattern[1..])
    else if pattern[0] == '\\' && |pattern| > 1 then
      subject != "" && subject[0] == pattern[1] && Like(subject[1..], pattern[2..])
    else subject != "" && (pattern[0] == '_' || subject[0] == pattern[0]) && Like(subject[1..], pattern[1..])
  }

  function EscapeChar(c: char): string {
    if c == '%' || c == '_' || c == '\\' then ['\\', c] else [c]
  }

  function EscapeLikePattern(value: string): string {
    if value == "" then "" else EscapeChar(value[0]) + EscapeLikePattern(value[1..])
  }

  function BuildLikeContainsPattern(value: string): string {
    "%" + EscapeLikePattern(value) + "%"
  }

  predicate Contains(s: string, value: string) {
    exists k :: 0 <= k <= |s| && value <= s[k..]
  }

  lemma EscapedCharMatches(subject: string, c: char, tail: string)
    ensures Like(subject, EscapeChar(c) + tail) <==> subject != "" && subject[0] == c && Like(subject[1..], tail)
  {
    var pattern := EscapeChar(c) + tail;
    assert pattern[|EscapeChar(c)|..] == tail;
  }

  /** An escaped text matches itself and nothing else, whatever pattern follows it. */
  lemma {:induction false} EscapedMatchesLiterally(subject: string, value: string, rest: string)
    ensures Like(subject, EscapeLikePattern(value) + rest) <==> value <= subject && Like(subject[|value|..], rest)
  {
    if value == "" {
      assert EscapeLikePattern(value) + rest == rest;
      assert subject[0..] == subject;
    } else {
      var tail := EscapeLikePattern(value[1..]) + rest;
      assert EscapeLikePattern(value) + rest == EscapeChar(value[0]) + tail;
      EscapedCharMatches(subject, value[0], tail);
      if subject != "" && subject[0] == value[0] {
        EscapedMatchesLiterally(subject[1..], value[1..], rest);
        PrefixOfRest(value, subject);
      }
    }
  }

  lemma PrefixOfRest(value: string, subject: string)
    requires value != "" && subject != "" && value[0] == subject[0]
    ensures value <= subject <==> value[1..] <= subject[1..]
    ensures value <= subject ==> subject[1..][|value[1..]|..] == subject[|value|..]
  {
    assert value == [value[0]] + value[1..] && subject == [subject[0]] + subject[1..];
  }

  lemma AnythingMatchesPercent(subject: string)
    ensures Like(subject, "%")
  {
    assert "%"[1..] == "";
    assert Like(subject[|subject|..], "%"[1..]);
  }

  /** The escaped prefix followed by `%` matches exactly the texts that start with the prefix as typed. */
  lemma PrefixPatternIsExact(subject: string, prefix: string)
    ensures Like(subject, EscapeLikePattern(prefix) + "%") <==> prefix <= subject
  {
    EscapedMatchesLiterally(subject, prefix, "%");
    if prefix <= subject {
      AnythingMatchesPercent(subject[|prefix|..]);
    }
  }

  /** The contains-pattern matches exactly the texts that contain the value as typed. */
  lemma ContainsPatternIsExact(subject: string, value: string)
    ensures Like(subject, BuildLikeContainsPattern(value)) <==> Contains(subject, value)
  {
    var rest := EscapeLikePattern(value) + "%";
    assert BuildLikeContainsPattern(value) == "%" + rest;
    assert ("%" + rest)[1..] == rest;
    forall k | 0 <= k <= |subject|
      ensures Like(subject[k..], rest) <==> value <= subject[k..]
    {
      PrefixPatternIsExact(subject[k..], value);
    }
  }
}
