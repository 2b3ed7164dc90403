/** The text form of a refresh token: session id, a dot, the secret. */
module RefreshTokens {
  import opened Options
  import opened HtmlText

  function TrimStart(s: string): (r: string)
    ensures |r| <= |s| && (r == s <==> s == "" || !IsSpace(s[0]))
  {
    if s != "" && IsSpace(s[0]) then TrimStart(s[1..]) else s
  }

  function TrimEnd(s: string): (r: string)
    ensures |r| <= |s| && (r == s <==> s == "" || !IsSpace(s[|s| - 1]))
  {
    if s != "" && IsSpace(s[|s| - 1]) then TrimEnd(s[..|s| - 1]) else s
  }

  function Trim(s: string): (r: string)
    ensures |r| <= |s| && (r == s <==> s == "" || (!IsSpace(s[0]) && !IsSpace(s[|s| - 1])))
  {
    TrimEnd(TrimStart(s))
  }

  datatype Token = Token(sessionId: string, secret: string)

  function BuildRefreshTokenValue(sessionId: string, secret: string): string {
    sessionId + "." + secret
  }

  function ParseRefreshTokenValue(value: string): Option<Token> {
    var separator := FirstIndex(value, '.');
    if separator == |value| || separator == 0 || separator == |value| - 1 then None
    else
      var sessionId, secret := Trim(value[..separator]), Trim(value[separator + 1..]);
      if sessionId == "" || secret == "" then None else Some(Token(sessionId, secret))
  }

  // Text that is not empty and that trimming leaves alone.
  predicate Solid(s: string) {
    s != "" && !IsSpace(s[0]) && !IsSpace(s[|s| - 1])
  }

  lemma {:induction false} FirstDot(a: string, b: string)
    ensures var n := FirstIndex(a + "." + b, '.');
            n <= |a| && ('.' !in a ==> n == |a|) && ('.' in a ==> n < |a|)
  {
    if a != "" && a[0] != '.' {
      assert (a + "." + b)[1..] == a[1..] + "." + b;
      FirstDot(a[1..], b);
      assert '.' in a <==> '.' in a[1..];
    }
  }

  /**
   * Parsing gives back what the token was built from exactly when the id holds no dot and neither part is empty or
   * has blanks at its ends. Ids in hexadecimal with dashes and secrets in base64url are like that.
   */
  lemma TokenRoundTrip(sessionId: string, secret: string)
    ensures ParseRefreshTokenValue(BuildRefreshTokenValue(sessionId, secret)) == Some(Token(sessionId, secret)) <==>
              '.' !in sessionId && Solid(sessionId) && Solid(secret)
  {
    var value := BuildRefreshTokenValue(sessionId, secret);
    FirstDot(sessionId, secret);
    if '.' !in sessionId {
      assert value[..|sessionId|] == sessionId && value[|sessionId| + 1..] == secret;
    }
  }

  // The text without the blanks at its ends: what is left has none there.
  ghost predicate IsTrimmed(s: string, t: string) {
    exists a: string, b: string :: s == a + t + b && IsBlank(a) && IsBlank(b) && (t == "" || Solid(t))
  }

  lemma {:induction false} TrimmedStart(s: string) returns (a: string)
    ensures s == a + TrimStart(s) && IsBlank(a)
  {
    if s != "" && IsSpace(s[0]) {
      a := TrimmedStart(s[1..]);
      assert s == [s[0]] + s[1..];
      a := [s[0]] + a;
    } else {
      a := "";
    }
  }

  lemma {:induction false} TrimmedEnd(s: string) returns (b: string)
    ensures s == TrimEnd(s) + b && IsBlank(b)
    ensures TrimEnd(s) == "" || (TrimEnd(s)[0] == s[0] && !IsSpace(TrimEnd(s)[|TrimEnd(s)| - 1]))
  {
    if s != "" && IsSpace(s[|s| - 1]) {
      b := TrimmedEnd(s[..|s| - 1]);
      assert s == s[..|s| - 1] + [s[|s| - 1]];
      b := b + [s[|s| - 1]];
    } else {
      b := "";
    }
  }

  lemma {:induction false} StartsSolid(s: string)
    ensures TrimStart(s) == "" || !IsSpace(TrimStart(s)[0])
  {
    if s != "" && IsSpace(s[0]) {
      StartsSolid(s[1..]);
    }
  }

  lemma TrimIsTrimmed(s: string)
    ensures IsTrimmed(s, Trim(s))
  {
    var a := TrimmedStart(s);
    var b := TrimmedEnd(TrimStart(s));
    StartsSolid(s);
    assert s == a + Trim(s) + b;
  }

  /**
   * Whatever the text: it is read as a token exactly if it has a dot, and what stands before the first one and what
   * stands after it are each more than blanks; the parts are these texts without the blanks at their ends.
   */
  lemma ParseExactly(value: string)
    ensures var parsed := ParseRefreshTokenValue(value);
            && (parsed.Some? <==>
                  exists i :: 0 <= i < |value| && value[i] == '.' && '.' !in value[..i]
                              && !IsBlank(value[..i]) && !IsBlank(value[i + 1..]))
            && (parsed.Some? ==>
                  exists i :: 0 <= i < |value| && value[i] == '.' && '.' !in value[..i]
                              && IsTrimmed(value[..i], parsed.value.sessionId) && IsTrimmed(value[i + 1..], parsed.value.secret))
  {
    var n := FirstIndex(value, '.');
    if n < |value| {
      assert '.' !in value[..n];
      TrimIsTrimmed(value[..n]);
      TrimIsTrimmed(value[n + 1..]);
      BlankIsTrimmedAway(value[..n]);
      BlankIsTrimmedAway(value[n + 1..]);
    }
    forall i | 0 <= i < |value| && value[i] == '.' && '.' !in value[..i]
      ensures i == n
    {
      FirstDotIs(value, i);
    }
  }

  lemma {:induction false} FirstDotIs(value: string, i: nat)
    requires i < |value| && value[i] == '.' && '.' !in value[..i]
    ensures FirstIndex(value, '.') == i
  {
    if i > 0 {
      assert value[..i] == [value[0]] + value[1..][..i - 1];
      FirstDotIs(value[1..], i - 1);
    }
  }

  lemma BlankIsTrimmedAway(s: string)
    ensures Trim(s) == "" <==> IsBlank(s)
  {
    var a := TrimmedStart(s);
    var b := TrimmedEnd(TrimStart(s));
    StartsSolid(s);
    if Trim(s) != "" {
      assert s[|a|] == Trim(s)[0] && !IsSpace(Trim(s)[0]);
    }
  }
}
