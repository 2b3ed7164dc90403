/** Plain text turned into HTML, and HTML turned back: escaping, entity decoding and tag stripping. */
module HtmlText {
  import opened Options

  // ----- Escaping: four replacements in order -----

  function ReplaceAll(s: string, c: char, text: string): string {
    if s == "" then "" else (if s[0] == c then text else [s[0]]) + ReplaceAll(s[1..], c, text)
  }

  function EscapeHtml(text: string): string {
    ReplaceAll(ReplaceAll(ReplaceAll(ReplaceAll(text, '&', "&amp;"), '<', "&lt;"), '>', "&gt;"), '"', "&quot;")
  }

  function Entity(c: char): string {
    match c
    case '&' => "&amp;"
    case '<' => "&lt;"
    case '>' => "&gt;"
    case '"' => "&quot;"
    case _ => [c]
  }

  function EscapeEach(s: string): string {
    if s == "" then "" else Entity(s[0]) + EscapeEach(s[1..])
  }

  lemma {:induction false} ReplaceParts(a: string, b: string, c: char, text: string)
    ensures ReplaceAll(a + b, c, text) == ReplaceAll(a, c, text) + ReplaceAll(b, c, text)
  {
    if a == "" {
      assert a + b == b;
    } else {
      assert (a + b)[1..] == a[1..] + b;
      ReplaceParts(a[1..], b, c, text);
    }
  }

  lemma {:induction false} ReplaceNothing(s: string, c: char, text: string)
    requires c !in s
    ensures ReplaceAll(s, c, text) == s
  {
    if s != "" {
      assert s == [s[0]] + s[1..];
      ReplaceNothing(s[1..], c, text);
    }
  }

  lemma ReplaceOne(c: char, at: char, text: string)
    ensures ReplaceAll([c], at, text) == if c == at then text else [c]
  {
    assert [c][1..] == "";
  }

  lemma EscapeHtmlParts(a: string, b: string)
    ensures EscapeHtml(a + b) == EscapeHtml(a) + EscapeHtml(b)
  {
    ReplaceParts(a, b, '&', "&amp;");
    var a1, b1 := ReplaceAll(a, '&', "&amp;"), ReplaceAll(b, '&', "&amp;");
    ReplaceParts(a1, b1, '<', "&lt;");
    var a2, b2 := ReplaceAll(a1, '<', "&lt;"), ReplaceAll(b1, '<', "&lt;");
    ReplaceParts(a2, b2, '>', "&gt;");
    ReplaceParts(ReplaceAll(a2, '>', "&gt;"), ReplaceAll(b2, '>', "&gt;"), '"', "&quot;");
  }

  lemma EscapeHtmlOne(c: char)
    ensures EscapeHtml([c]) == Entity(c)
  {
    ReplaceOne(c, '&', "&amp;");
    if c == '&' {
      ReplaceNothing("&amp;", '<', "&lt;");
      ReplaceNothing("&amp;", '>', "&gt;");
      ReplaceNothing("&amp;", '"', "&quot;");
    } else {
      ReplaceOne(c, '<', "&lt;");
      if c == '<' {
        ReplaceNothing("&lt;", '>', "&gt;");
        ReplaceNothing("&lt;", '"', "&quot;");
      } else {
        ReplaceOne(c, '>', "&gt;");
        if c == '>' {
          ReplaceNothing("&gt;", '"', "&quot;");
        } else {
          ReplaceOne(c, '"', "&quot;");
        }
      }
    }
  }

  /** The four ordered replacements are one replacement of each character: none touches what another wrote. */
  lemma {:induction false} EscapeIsPerCharacter(s: string)
    ensures EscapeHtml(s) == EscapeEach(s)
  {
    if s != "" {
      assert s == [s[0]] + s[1..];
      EscapeHtmlParts([s[0]], s[1..]);
      EscapeHtmlOne(s[0]);
      EscapeIsPerCharacter(s[1..]);
    }
  }

  // ----- Decoding -----

  predicate IsLetter(c: char) {
    'a' <= c <= 'z' || 'A' <= c <= 'Z'
  }

  predicate IsHex(c: char) {
    '0' <= c <= '9' || 'a' <= c <= 'f' || 'A' <= c <= 'F'
  }

  // How far letters, or hexadecimal digits, reach.
  function Run(s: string, hex: bool): (n: nat)
    ensures n <= |s| && forall i :: 0 <= i < n ==> if hex then IsHex(s[i]) else IsLetter(s[i])
  {
    if s != "" && (if hex then IsHex(s[0]) else IsLetter(s[0])) then 1 + Run(s[1..], hex) else 0
  }

  // The token of the reference that starts after an ampersand, if the text there is one.
  function Token(s: string): (token: Option<string>)
    ensures token.Some? ==> |token.value| < |s| && token.value == s[..|token.value|] && s[|token.value|] == ';'
  {
    var start := if |s| > 1 && s[0] == '#' && s[1] == 'x' then 2 else if |s| > 0 && s[0] == '#' then 1 else 0;
    var n := Run(s[start..], start > 0);
    if n > 0 && start + n < |s| && s[start + n] == ';' then Some(s[..start + n]) else None
  }

  function Lower(c: char): char {
    if 'A' <= c <= 'Z' then (c as int + 32) as char else c
  }

  function ToLower(s: string): string {
    if s == "" then "" else [Lower(s[0])] + ToLower(s[1..])
  }

  // The table of names is an object, so the one lower-case name every object inherits is found in it too.
  function Named(name: string): Option<string> {
    if name == "amp" then Some("&")
    else if name == "lt" then Some("<")
    else if name == "gt" then Some(">")
    else if name == "quot" then Some("\"")
    else if name == "apos" then Some("'")
    else if name == "nbsp" then Some(" ")
    else if name == "constructor" then Some("function Object() { [native code] }")
    else None
  }

  // `numeric` gives the character of a numeric reference, or None where the number cannot be read.
  function DecodeHtmlEntities(s: string, numeric: string -> Option<string>): string
    decreases |s|
  {
    if s == "" then ""
    else
      var token := if s[0] == '&' then Token(s[1..]) else None;
      if token.None? then [s[0]] + DecodeHtmlEntities(s[1..], numeric)
      else
        var found := if token.value[0] == '#' then numeric(ToLower(token.value)) else Named(ToLower(token.value));
        (if found.Some? then found.value else "&" + token.value + ";")
        + DecodeHtmlEntities(s[|token.value| + 2..], numeric)
  }

  lemma {:induction false} RunOfWord(word: string, rest: string)
    requires forall i :: 0 <= i < |word| ==> IsLetter(word[i])
    ensures Run(word + ";" + rest, false) == |word|
  {
    if word == "" {
      assert word + ";" + rest == ";" + rest;
    } else {
      assert (word + ";" + rest)[1..] == word[1..] + ";" + rest;
      RunOfWord(word[1..], rest);
    }
  }

  lemma {:induction false} LowerWord(word: string)
    requires forall i :: 0 <= i < |word| ==> 'a' <= word[i] <= 'z'
    ensures ToLower(word) == word
  {
    if word != "" {
      assert word == [word[0]] + word[1..];
      LowerWord(word[1..]);
    }
  }

  lemma DecodesWord(word: string, rest: string, numeric: string -> Option<string>)
    requires word != "" && forall i :: 0 <= i < |word| ==> 'a' <= word[i] <= 'z'
    requires Named(word).Some?
    ensures DecodeHtmlEntities("&" + word + ";" + rest, numeric) == Named(word).value + DecodeHtmlEntities(rest, numeric)
  {
    var s := "&" + word + ";" + rest;
    assert s[1..] == word + ";" + rest;
    RunOfWord(word, rest);
    assert s[1..][0..] == s[1..];
    assert Token(s[1..]) == Some(word) by {
      assert s[1..][..|word|] == word;
    }
    LowerWord(word);
    assert s[|word| + 2..] == rest;
  }

  lemma DecodesEntity(c: char, rest: string, numeric: string -> Option<string>)
    ensures DecodeHtmlEntities(Entity(c) + rest, numeric) == [c] + DecodeHtmlEntities(rest, numeric)
  {
    match c
    case '&' =>
      assert "&amp;" == "&" + "amp" + ";";
      DecodesWord("amp", rest, numeric);
    case '<' =>
      assert "&lt;" == "&" + "lt" + ";";
      DecodesWord("lt", rest, numeric);
    case '>' =>
      assert "&gt;" == "&" + "gt" + ";";
      DecodesWord("gt", rest, numeric);
    case '"' =>
      assert "&quot;" == "&" + "quot" + ";";
      DecodesWord("quot", rest, numeric);
    case _ =>
      assert ([c] + rest)[1..] == rest;
  }

  lemma {:induction false} DecodeUndoesEach(s: string, numeric: string -> Option<string>)
    ensures DecodeHtmlEntities(EscapeEach(s), numeric) == s
  {
    if s != "" {
      DecodesEntity(s[0], EscapeEach(s[1..]), numeric);
      DecodeUndoesEach(s[1..], numeric);
      assert s == [s[0]] + s[1..];
    }
  }

  /** Decoding undoes escaping, on every text and however numeric references are read. */
  lemma DecodeUndoesEscape(s: string, numeric: string -> Option<string>)
    ensures DecodeHtmlEntities(EscapeHtml(s), numeric) == s
  {
    EscapeIsPerCharacter(s);
    DecodeUndoesEach(s, numeric);
  }

  // ----- Paragraphs -----

  // Everything String.prototype.trim removes.
  predicate IsSpace(c: char) {
    var n := c as int;
    9 <= n <= 13 || n in {32, 160, 0x1680, 0x2028, 0x2029, 0x202f, 0x205f, 0x3000, 0xfeff} || 0x2000 <= n <= 0x200a
  }

  predicate IsBlank(line: string) {
    forall i :: 0 <= i < |line| ==> IsSpace(line[i])
  }

  function Lines(text: string): (lines: seq<string>)
    ensures lines != []
  {
    if text == "" then [""]
    else
      var rest := Lines(text[1..]);
      if text[0] == '\n' then [""] + rest else [[text[0]] + rest[0]] + rest[1..]
  }

  function NonBlank(lines: seq<string>): seq<string> {
    if lines == [] then []
    else (if IsBlank(lines[0]) then [] else [lines[0]]) + NonBlank(lines[1..])
  }

  function Concat(parts: seq<string>): string {
    if parts == [] then "" else parts[0] + Concat(parts[1..])
  }

  function Paragraph(line: string): string {
    "<p>" + EscapeHtml(line) + "</p>"
  }

  function Paragraphs(lines: seq<string>): string {
    if lines == [] then "" else Paragraph(lines[0]) + Paragraphs(lines[1..])
  }

  function ConvertPlainText(text: string): string {
    Paragraphs(NonBlank(Lines(text)))
  }

  // ----- Stripping tags -----

  // Where the first `c` is; the length of the text if there is none.
  function FirstIndex(s: string, c: char): (n: nat)
    ensures n <= |s| && (n < |s| ==> s[n] == c) && forall i :: 0 <= i < n ==> s[i] != c
  {
    if s == "" || s[0] == c then 0 else 1 + FirstIndex(s[1..], c)
  }

  function StripTags(s: string): string
    decreases |s|
  {
    if s == "" then ""
    else if s[0] == '<' && FirstIndex(s, '>') < |s| then StripTags(s[FirstIndex(s, '>') + 1..])
    else [s[0]] + StripTags(s[1..])
  }

  lemma {:induction false} StripPlain(a: string, b: string)
    requires '<' !in a
    ensures StripTags(a + b) == a + StripTags(b)
  {
    if a == "" {
      assert a + b == b;
    } else {
      assert (a + b)[1..] == a[1..] + b;
      StripPlain(a[1..], b);
    }
  }

  lemma StripTag(name: string, rest: string)
    requires '>' !in name
    ensures StripTags("<" + name + ">" + rest) == StripTags(rest)
  {
    var s := "<" + name + ">" + rest;
    var n := FirstIndex(s, '>');
    assert s[|name| + 1] == '>';
    assert n == |name| + 1 by {
      assert forall i :: 0 < i <= |name| ==> s[i] == name[i - 1];
    }
    assert s[n + 1..] == rest;
  }

  lemma {:induction false} EscapedHasNoBracket(s: string)
    ensures '<' !in EscapeEach(s)
  {
    if s != "" {
      EscapedHasNoBracket(s[1..]);
    }
  }

  lemma {:induction false} StripParagraphs(lines: seq<string>)
    ensures StripTags(Paragraphs(lines)) == EscapeEach(Concat(lines))
  {
    if lines != [] {
      var line, rest := lines[0], Paragraphs(lines[1..]);
      EscapeIsPerCharacter(line);
      EscapedHasNoBracket(line);
      assert Paragraph(line) + rest == "<" + "p" + ">" + (EscapeEach(line) + ("<" + "/p" + ">" + rest));
      StripTag("p", EscapeEach(line) + ("<" + "/p" + ">" + rest));
      StripPlain(EscapeEach(line), "<" + "/p" + ">" + rest);
      StripTag("/p", rest);
      StripParagraphs(lines[1..]);
      EscapeEachParts(line, Concat(lines[1..]));
    }
  }

  lemma {:induction false} EscapeEachParts(a: string, b: string)
    ensures EscapeEach(a + b) == EscapeEach(a) + EscapeEach(b)
  {
    if a == "" {
      assert a + b == b;
    } else {
      assert (a + b)[1..] == a[1..] + b;
      EscapeEachParts(a[1..], b);
    }
  }

  /** Stripping the tags of the generated HTML and decoding what is left gives the text of the non-blank lines. */
  lemma StripAndDecode(text: string, numeric: string -> Option<string>)
    ensures DecodeHtmlEntities(StripTags(ConvertPlainText(text)), numeric) == Concat(NonBlank(Lines(text)))
  {
    StripParagraphs(NonBlank(Lines(text)));
    DecodeUndoesEach(Concat(NonBlank(Lines(text))), numeric);
  }

  // ----- Lines, checked against their meaning -----

  function JoinLines(lines: seq<string>): string {
    if lines == [] then "" else if |lines| == 1 then lines[0] else lines[0] + "\n" + JoinLines(lines[1..])
  }

  /** Splitting loses nothing and leaves no line break inside a line. */
  lemma {:induction false} LinesRejoin(text: string)
    ensures JoinLines(Lines(text)) == text
    ensures forall i :: 0 <= i < |Lines(text)| ==> '\n' !in Lines(text)[i]
  {
    if text != "" {
      LinesRejoin(text[1..]);
      var rest := Lines(text[1..]);
      if text[0] == '\n' {
        assert ([""] + rest)[1..] == rest;
        assert text == "" + "\n" + text[1..];
      } else {
        var lines := [[text[0]] + rest[0]] + rest[1..];
        assert lines[1..] == rest[1..];
        assert JoinLines(lines) == [text[0]] + JoinLines(rest);
        assert text == [text[0]] + text[1..];
      }
    }
  }

  // ----- The generated HTML, and what decoding and stripping do to other text -----

  /** Each non-blank line becomes a paragraph of its own, in order. */
  lemma {:induction false} ParagraphsAre(lines: seq<string>, more: seq<string>)
    ensures Paragraphs(lines + more) == Paragraphs(lines) + Paragraphs(more)
    ensures |more| == 1 ==> Paragraphs(more) == "<p>" + EscapeEach(more[0]) + "</p>"
  {
    if |more| == 1 {
      EscapeIsPerCharacter(more[0]);
      assert more[1..] == [];
    }
    if lines == [] {
      assert lines + more == more;
    } else {
      assert (lines + more)[1..] == lines[1..] + more;
      ParagraphsAre(lines[1..], more);
    }
  }

  /** A line stays exactly if some character of it is not a blank; the lines that stay keep their order. */
  lemma {:induction false} NonBlankAre(lines: seq<string>, more: seq<string>)
    ensures NonBlank(lines + more) == NonBlank(lines) + NonBlank(more)
    ensures |more| == 1 ==> NonBlank(more) == if exists i :: 0 <= i < |more[0]| && !IsSpace(more[0][i]) then more else []
  {
    if lines == [] {
      assert lines + more == more;
    } else {
      assert (lines + more)[1..] == lines[1..] + more;
      NonBlankAre(lines[1..], more);
    }
    if |more| == 1 {
      assert more == [more[0]] && more[1..] == [];
    }
  }

  /** The names that are decoded, whatever follows. */
  lemma NamesDecode(name: string, c: string, rest: string, numeric: string -> Option<string>)
    requires (name, c) in {("amp", "&"), ("lt", "<"), ("gt", ">"), ("quot", "\""), ("apos", "'"), ("nbsp", " ")}
    ensures DecodeHtmlEntities("&" + name + ";" + rest, numeric) == c + DecodeHtmlEntities(rest, numeric)
  {
    DecodesWord(name, rest, numeric);
  }

  lemma {:induction false} RunOfDigits(digits: string, rest: string)
    requires forall i :: 0 <= i < |digits| ==> IsHex(digits[i])
    ensures Run(digits + ";" + rest, true) == |digits|
  {
    if digits == "" {
      assert digits + ";" + rest == ";" + rest;
    } else {
      assert (digits + ";" + rest)[1..] == digits[1..] + ";" + rest;
      RunOfDigits(digits[1..], rest);
    }
  }

  /** A numeric reference is replaced by what its number stands for, or left as it is if that cannot be read. */
  lemma NumbersDecode(digits: string, rest: string, numeric: string -> Option<string>)
    requires digits != "" && forall i :: 0 <= i < |digits| ==> '0' <= digits[i] <= '9'
    ensures var read := numeric("#" + digits);
            DecodeHtmlEntities("&" + ("#" + digits) + ";" + rest, numeric)
            == (if read.Some? then read.value else "&" + ("#" + digits) + ";") + DecodeHtmlEntities(rest, numeric)
  {
    var token := "#" + digits;
    var s := "&" + token + ";" + rest;
    assert s[1..] == token + ";" + rest && s[1..][1..] == digits + ";" + rest;
    RunOfDigits(digits, rest);
    assert Token(s[1..]) == Some(token) by {
      assert s[1..][..|token|] == token;
    }
    LowerDigits(token);
    assert s[|token| + 2..] == rest;
  }

  lemma {:induction false} LowerDigits(s: string)
    requires forall i :: 0 <= i < |s| ==> !('A' <= s[i] <= 'Z')
    ensures ToLower(s) == s
  {
    if s != "" {
      assert s == [s[0]] + s[1..];
      LowerDigits(s[1..]);
    }
  }

  /** Text without an ampersand is left alone by decoding, and text without a closed tag by stripping. */
  lemma {:induction false} PlainTextStays(s: string, numeric: string -> Option<string>)
    ensures '&' !in s ==> DecodeHtmlEntities(s, numeric) == s
    ensures '>' !in s ==> StripTags(s) == s
  {
    if s != "" {
      PlainTextStays(s[1..], numeric);
      assert s == [s[0]] + s[1..];
    }
  }
}
