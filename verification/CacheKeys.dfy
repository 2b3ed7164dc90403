/** The text keys of the response cache, and why a key tells which versions it was built from. */
module CacheKeys {

  datatype Domain = Content | Playlists | Schedules | Displays | Users | Roles | Permissions

  function Name(d: Domain): string {
    match d
    case Content => "content"
    case Playlists => "playlists"
    case Schedules => "schedules"
    case Displays => "displays"
    case Users => "users"
    case Roles => "roles"
    case Permissions => "permissions"
  }

  datatype Request = Request(verb: string, pathname: string, query: string, domains: seq<Domain>, vary: seq<string>)

  // ----- Text -----

  function Join(parts: seq<string>, sep: char): string {
    if |parts| == 0 then ""
    else if |parts| == 1 then parts[0]
    else parts[0] + [sep] + Join(parts[1..], sep)
  }

  function Split(s: string, sep: char): (parts: seq<string>)
    ensures |parts| > 0
  {
    if s == "" then [""]
    else if s[0] == sep then [""] + Split(s[1..], sep)
    else
      var rest := Split(s[1..], sep);
      [[s[0]] + rest[0]] + rest[1..]
  }

  predicate Plain(s: string, sep: char) {
    sep !in s
  }

  lemma {:induction false} SplitPlain(s: string, sep: char)
    requires Plain(s, sep)
    ensures Split(s, sep) == [s]
  {
    if s != "" {
      SplitPlain(s[1..], sep);
      assert [s[0]] + s[1..] == s;
    }
  }

  lemma {:induction false} SplitCat(a: string, b: string, sep: char)
    ensures Split(a + [sep] + b, sep) == Split(a, sep) + Split(b, sep)
  {
    var s := a + [sep] + b;
    if a == "" {
      assert s[1..] == b;
    } else {
      assert s[1..] == a[1..] + [sep] + b;
      SplitCat(a[1..], b, sep);
    }
  }

  lemma {:induction false} SplitInjective(a: string, b: string, sep: char)
    requires Split(a, sep) == Split(b, sep)
    ensures a == b
  {
    if a != "" && b != "" {
      var ra, rb := Split(a[1..], sep), Split(b[1..], sep);
      if a[0] == sep && b[0] == sep {
        assert Split(a, sep)[1..] == ra && Split(b, sep)[1..] == rb;
      } else {
        assert Split(a, sep)[0] == Split(b, sep)[0];
        assert Split(a, sep)[1..] == Split(b, sep)[1..];
        if a[0] != sep && b[0] != sep {
          assert Split(a, sep)[0][1..] == ra[0] && Split(b, sep)[0][1..] == rb[0];
          assert ra == [ra[0]] + ra[1..] && rb == [rb[0]] + rb[1..];
        }
      }
      SplitInjective(a[1..], b[1..], sep);
    }
  }

  lemma {:induction false} SplitJoin(parts: seq<string>, sep: char)
    requires |parts| > 0 && forall i :: 0 <= i < |parts| ==> Plain(parts[i], sep)
    ensures Split(Join(parts, sep), sep) == parts
  {
    SplitPlain(parts[0], sep);
    if |parts| > 1 {
      SplitJoin(parts[1..], sep);
      SplitCat(parts[0], Join(parts[1..], sep), sep);
      assert parts == [parts[0]] + parts[1..];
    }
  }

  // ----- Version numbers as Redis renders them -----

  function Digit(n: nat): char
    requires n < 10
  {
    ['0', '1', '2', '3', '4', '5', '6', '7', '8', '9'][n]
  }

  function Decimal(n: nat): (s: string)
    ensures |s| > 0
    ensures forall c :: c in s ==> '0' <= c <= '9'
  {
    if n < 10 then [Digit(n)] else Decimal(n / 10) + [Digit(n % 10)]
  }

  lemma {:induction false} DecimalInjective(m: nat, n: nat)
    requires Decimal(m) == Decimal(n)
    ensures m == n
  {
    var a, b := Decimal(m), Decimal(n);
    assert a[|a| - 1] == b[|b| - 1];
    assert m % 10 == n % 10;
    if m >= 10 && n >= 10 {
      assert a[..|a| - 1] == Decimal(m / 10) && b[..|b| - 1] == Decimal(n / 10);
      DecimalInjective(m / 10, n / 10);
    }
  }

  function ReadDecimal(s: string): int {
    if s == "" then 0 else ReadDecimal(s[..|s| - 1]) * 10 + (s[|s| - 1] as int - '0' as int)
  }

  /** A number is written in the decimal digits that read back as it, with no zero in front. */
  lemma {:induction false} DecimalReadsBack(n: nat)
    ensures ReadDecimal(Decimal(n)) == n && (Decimal(n)[0] == '0' ==> n == 0)
  {
    var s := Decimal(n);
    if n >= 10 {
      DecimalReadsBack(n / 10);
      assert s[..|s| - 1] == Decimal(n / 10);
    } else {
      assert s[..0] == "";
    }
  }

  // ----- Keys -----

  // A missing version counts as zero.
  function VersionAt(versions: seq<string>, i: nat): string {
    if i < |versions| then versions[i] else "0"
  }

  function VersionPart(d: Domain, version: string): string {
    Name(d) + ":" + version
  }

  function VersionParts(domains: seq<Domain>, versions: seq<string>): (parts: seq<string>)
    ensures |parts| == |domains|
  {
    seq(|domains|, i requires 0 <= i < |domains| => VersionPart(domains[i], VersionAt(versions, i)))
  }

  function DomainsField(domains: seq<Domain>, versions: seq<string>): string {
    "domains:" + Join(VersionParts(domains, versions), ',')
  }

  function VaryField(vary: seq<string>): string {
    if vary == [] then "" else "|vary:" + Join(vary, '|')
  }

  function Upper(s: string): string {
    seq(|s|, i requires 0 <= i < |s| => if 'a' <= s[i] <= 'z' then (s[i] as int - 32) as char else s[i])
  }

  function BuildServerCacheKey(req: Request, versions: seq<string>): string {
    Join([Upper(req.verb), req.pathname, req.query, DomainsField(req.domains, versions)], '|') + VaryField(req.vary)
  }

  predicate StartsWith(s: string, prefix: string) {
    prefix <= s
  }

  /**
   * What the callers pass: a method token, a percent-encoded query (the path may hold anything), and vary
   * parts made of permission names and ids.
   */
  predicate WellFormed(req: Request) {
    && Plain(req.verb, '|')
    && Plain(req.query, '|')
    && forall i :: 0 <= i < |req.vary| ==> Plain(req.vary[i], '|') && !StartsWith(req.vary[i], "domains:")
  }

  predicate VersionText(version: string) {
    Plain(version, '|') && Plain(version, ',')
  }

  lemma NamesArePlain(d: Domain)
    ensures Plain(Name(d), '|') && Plain(Name(d), ',') && Plain(Name(d), ':') && |Name(d)| > 0
  {
  }

  lemma NamesDiffer(d1: Domain, d2: Domain)
    requires Name(d1) == Name(d2)
    ensures d1 == d2
  {
    assert |Name(d1)| == |Name(d2)|;
    assert Name(d1)[0] == Name(d2)[0];
  }

  lemma PartDetermines(d1: Domain, v1: string, d2: Domain, v2: string)
    requires VersionPart(d1, v1) == VersionPart(d2, v2)
    ensures d1 == d2 && v1 == v2
  {
    NamesArePlain(d1);
    NamesArePlain(d2);
    SplitPlain(Name(d1), ':');
    SplitPlain(Name(d2), ':');
    SplitCat(Name(d1), v1, ':');
    SplitCat(Name(d2), v2, ':');
    assert Split(VersionPart(d1, v1), ':')[0] == Split(VersionPart(d2, v2), ':')[0];
    NamesDiffer(d1, d2);
    assert VersionPart(d1, v1)[|Name(d1)| + 1..] == v1 && VersionPart(d2, v2)[|Name(d2)| + 1..] == v2;
  }

  // ----- The fields of a key -----

  function VaryFields(vary: seq<string>): seq<string> {
    if vary == [] then [] else ["vary:" + vary[0]] + vary[1..]
  }

  function KeyFields(req: Request, versions: seq<string>): seq<string> {
    [Upper(req.verb)] + Split(req.pathname, '|') + [req.query, DomainsField(req.domains, versions)] + VaryFields(req.vary)
  }

  lemma {:induction false} JoinedPlain(parts: seq<string>, sep: char, c: char)
    requires sep != c && forall i :: 0 <= i < |parts| ==> Plain(parts[i], c)
    ensures Plain(Join(parts, sep), c)
  {
    if |parts| > 1 {
      JoinedPlain(parts[1..], sep, c);
    }
  }

  lemma DomainsFieldPlain(domains: seq<Domain>, versions: seq<string>)
    requires forall i :: 0 <= i < |versions| ==> VersionText(versions[i])
    ensures Plain(DomainsField(domains, versions), '|')
  {
    forall i | 0 <= i < |domains|
      ensures Plain(VersionParts(domains, versions)[i], '|')
    {
      NamesArePlain(domains[i]);
    }
    JoinedPlain(VersionParts(domains, versions), ',', '|');
  }

  lemma {:induction false} VarySplits(a: string, vary: seq<string>)
    requires forall i :: 0 <= i < |vary| ==> Plain(vary[i], '|')
    ensures Split(a + VaryField(vary), '|') == Split(a, '|') + VaryFields(vary)
  {
    if vary == [] {
      assert a + VaryField(vary) == a;
    } else {
      var named := ["vary:" + vary[0]] + vary[1..];
      assert Join(named, '|') == "vary:" + Join(vary, '|') by {
        if |vary| > 1 {
          assert named[1..] == vary[1..];
        }
      }
      assert a + VaryField(vary) == a + ['|'] + Join(named, '|');
      SplitCat(a, Join(named, '|'), '|');
      SplitJoin(named, '|');
    }
  }

  lemma UpperPlain(s: string)
    requires Plain(s, '|')
    ensures Plain(Upper(s), '|')
  {
  }

  lemma FourFields(m: string, p: string, q: string, d: string)
    requires Plain(m, '|') && Plain(q, '|') && Plain(d, '|')
    ensures Split(Join([m, p, q, d], '|'), '|') == [m] + Split(p, '|') + [q, d]
  {
    assert [m, p, q, d][1..] == [p, q, d] && [p, q, d][1..] == [q, d] && [q, d][1..] == [d];
    assert Join([q, d], '|') == q + ['|'] + d;
    assert Join([p, q, d], '|') == p + ['|'] + Join([q, d], '|');
    assert Join([m, p, q, d], '|') == m + ['|'] + Join([p, q, d], '|');
    SplitPlain(m, '|');
    SplitPlain(q, '|');
    SplitPlain(d, '|');
    SplitCat(q, d, '|');
    SplitCat(p, Join([q, d], '|'), '|');
    SplitCat(m, Join([p, q, d], '|'), '|');
  }

  lemma KeySplits(req: Request, versions: seq<string>)
    requires WellFormed(req) && forall i :: 0 <= i < |versions| ==> VersionText(versions[i])
    ensures Split(BuildServerCacheKey(req, versions), '|') == KeyFields(req, versions)
  {
    var m, d := Upper(req.verb), DomainsField(req.domains, versions);
    UpperPlain(req.verb);
    DomainsFieldPlain(req.domains, versions);
    FourFields(m, req.pathname, req.query, d);
    VarySplits(Join([m, req.pathname, req.query, d], '|'), req.vary);
  }

  // The domains field is the last one that starts with its label.
  predicate DomainsAt(fields: seq<string>, i: nat) {
    i < |fields| && StartsWith(fields[i], "domains:")
    && forall j :: i < j < |fields| ==> !StartsWith(fields[j], "domains:")
  }

  lemma KeyDomainsAt(req: Request, versions: seq<string>)
    requires WellFormed(req)
    ensures var i := |Split(req.pathname, '|')| + 2;
            DomainsAt(KeyFields(req, versions), i) && KeyFields(req, versions)[i] == DomainsField(req.domains, versions)
            && KeyFields(req, versions)[i - 1] == req.query
            && KeyFields(req, versions)[1..i - 1] == Split(req.pathname, '|')
            && KeyFields(req, versions)[i + 1..] == VaryFields(req.vary)
  {
    var path, tail := Split(req.pathname, '|'), VaryFields(req.vary);
    var fields := KeyFields(req, versions);
    var i := |path| + 2;
    assert fields[i + 1..] == tail;
    forall j | i < j < |fields|
      ensures !StartsWith(fields[j], "domains:")
    {
      assert fields[j] == tail[j - i - 1];
      if j == i + 1 {
        assert tail[0][0] == 'v';
      } else {
        assert tail[j - i - 1] == req.vary[j - i - 1];
      }
    }
  }

  lemma PartsArePlain(domains: seq<Domain>, versions: seq<string>)
    requires forall i :: 0 <= i < |versions| ==> VersionText(versions[i])
    ensures forall i :: 0 <= i < |domains| ==>
              Plain(VersionParts(domains, versions)[i], ',') && |VersionParts(domains, versions)[i]| > 0
  {
    forall i | 0 <= i < |domains|
      ensures Plain(VersionParts(domains, versions)[i], ',') && |VersionParts(domains, versions)[i]| > 0
    {
      NamesArePlain(domains[i]);
    }
  }

  lemma PartsOfField(domains: seq<Domain>, versions: seq<string>)
    requires forall i :: 0 <= i < |versions| ==> VersionText(versions[i])
    ensures var text := Join(VersionParts(domains, versions), ',');
            Split(text, ',') == (if domains == [] then [""] else VersionParts(domains, versions))
  {
    PartsArePlain(domains, versions);
    if domains != [] {
      SplitJoin(VersionParts(domains, versions), ',');
    }
  }

  lemma FieldDetermines(d1: seq<Domain>, v1: seq<string>, d2: seq<Domain>, v2: seq<string>)
    requires forall i :: 0 <= i < |v1| ==> VersionText(v1[i])
    requires forall i :: 0 <= i < |v2| ==> VersionText(v2[i])
    requires DomainsField(d1, v1) == DomainsField(d2, v2)
    ensures d1 == d2
    ensures forall i :: 0 <= i < |d1| ==> VersionAt(v1, i) == VersionAt(v2, i)
  {
    var p1, p2 := VersionParts(d1, v1), VersionParts(d2, v2);
    assert DomainsField(d1, v1)[8..] == Join(p1, ',') && DomainsField(d2, v2)[8..] == Join(p2, ',');
    PartsOfField(d1, v1);
    PartsOfField(d2, v2);
    PartsArePlain(d1, v1);
    PartsArePlain(d2, v2);
    assert d1 == [] <==> |Split(Join(p1, ','), ',')[0]| == 0;
    assert d2 == [] <==> |Split(Join(p2, ','), ',')[0]| == 0;
    assert p1 == p2;
    forall i | 0 <= i < |d1|
      ensures d1[i] == d2[i] && VersionAt(v1, i) == VersionAt(v2, i)
    {
      assert p1[i] == p2[i];
      PartDetermines(d1[i], VersionAt(v1, i), d2[i], VersionAt(v2, i));
    }
  }

  /** Equal keys come from the same method, path, query, vary parts, domains and versions. */
  lemma KeyDetermines(r1: Request, v1: seq<string>, r2: Request, v2: seq<string>)
    requires WellFormed(r1) && WellFormed(r2)
    requires forall i :: 0 <= i < |v1| ==> VersionText(v1[i])
    requires forall i :: 0 <= i < |v2| ==> VersionText(v2[i])
    requires BuildServerCacheKey(r1, v1) == BuildServerCacheKey(r2, v2)
    ensures Upper(r1.verb) == Upper(r2.verb) && r1.pathname == r2.pathname && r1.query == r2.query && r1.vary == r2.vary
    ensures r1.domains == r2.domains
    ensures forall i :: 0 <= i < |r1.domains| ==> VersionAt(v1, i) == VersionAt(v2, i)
  {
    KeySplits(r1, v1);
    KeySplits(r2, v2);
    var fields := KeyFields(r1, v1);
    assert fields == KeyFields(r2, v2);
    KeyDomainsAt(r1, v1);
    KeyDomainsAt(r2, v2);
    var i1, i2 := |Split(r1.pathname, '|')| + 2, |Split(r2.pathname, '|')| + 2;
    assert i1 == i2 by {
      assert DomainsAt(fields, i1) && DomainsAt(fields, i2);
    }
    assert fields[0] == Upper(r1.verb) && fields[0] == Upper(r2.verb);
    SplitInjective(r1.pathname, r2.pathname, '|');
    FieldDetermines(r1.domains, v1, r2.domains, v2);
    VaryDetermines(r1.vary, r2.vary);
  }

  lemma VaryDetermines(a: seq<string>, b: seq<string>)
    requires VaryFields(a) == VaryFields(b)
    ensures a == b
  {
    if a != [] && b != [] {
      assert VaryFields(a)[0][5..] == a[0] && VaryFields(b)[0][5..] == b[0];
      assert VaryFields(a)[1..] == a[1..] && VaryFields(b)[1..] == b[1..];
      assert a == [a[0]] + a[1..] && b == [b[0]] + b[1..];
    }
  }

  /** A key as it is stored: method in upper case, path, query and domains, and the vary parts if there are any. */
  lemma KeyText(req: Request, versions: seq<string>)
    ensures BuildServerCacheKey(req, versions)
            == Upper(req.verb) + ['|'] + (req.pathname + ['|'] + (req.query + ['|'] + DomainsField(req.domains, versions)))
               + if req.vary == [] then "" else "|vary:" + Join(req.vary, '|')
  {
    var m, p, q, d := Upper(req.verb), req.pathname, req.query, DomainsField(req.domains, versions);
    assert [m, p, q, d][1..] == [p, q, d] && [p, q, d][1..] == [q, d] && [q, d][1..] == [d];
    assert Join([q, d], '|') == q + ['|'] + d;
    assert Join([p, q, d], '|') == p + ['|'] + Join([q, d], '|');
    assert Join([m, p, q, d], '|') == m + ['|'] + Join([p, q, d], '|');
  }

  /** Each domain is written with its version, zero if it has none. */
  lemma DomainsExample()
    ensures VersionParts([Content, Playlists], ["3"]) == ["content" + ":" + "3", "playlists" + ":" + "0"]
    ensures Upper("get") == "GET"
  {
  }
}
