/** The query in a cache key: the parameters, sorted and written as application/x-www-form-urlencoded. */
module SearchText {
  import opened CacheKeys

  type Byte = n: int | 0 <= n < 256

  // Name and value as their UTF-8 bytes.
  datatype Param = Param(name: seq<Byte>, value: seq<Byte>)

  // ----- Writing parameters out -----

  // Letters, digits and *-._ stand for themselves.
  predicate IsLiteral(b: Byte) {
    48 <= b <= 57 || 65 <= b <= 90 || 97 <= b <= 122 || b == 42 || b == 45 || b == 46 || b == 95
  }

  function HexDigit(n: nat): char
    requires n < 16
  {
    "0123456789ABCDEF"[n]
  }

  function Encode(b: Byte): string {
    if b == 32 then "+"
    else if IsLiteral(b) then [b as char]
    else ['%', HexDigit(b / 16), HexDigit(b % 16)]
  }

  function EncodeAll(bytes: seq<Byte>): string {
    if bytes == [] then "" else Encode(bytes[0]) + EncodeAll(bytes[1..])
  }

  lemma ByteIsPlain(b: Byte, c: char)
    requires c == '&' || c == '=' || c == '|'
    ensures Plain(Encode(b), c)
  {
  }

  lemma {:induction false} EncodedIsPlain(bytes: seq<Byte>, c: char)
    requires c == '&' || c == '=' || c == '|'
    ensures Plain(EncodeAll(bytes), c)
  {
    if bytes != [] {
      ByteIsPlain(bytes[0], c);
      EncodedIsPlain(bytes[1..], c);
    }
  }

  lemma HexDigitsDiffer(m: nat, n: nat)
    requires m < 16 && n < 16 && HexDigit(m) == HexDigit(n)
    ensures m == n
  {
  }

  lemma FirstByte(a: Byte, x: string, b: Byte, y: string)
    requires Encode(a) + x == Encode(b) + y
    ensures a == b && x == y
  {
    var s, t := Encode(a) + x, Encode(b) + y;
    assert s[0] == Encode(a)[0] && t[0] == Encode(b)[0];
    if s[0] == '%' {
      assert s[1] == HexDigit(a / 16) && t[1] == HexDigit(b / 16) && s[2] == HexDigit(a % 16) && t[2] == HexDigit(b % 16);
      HexDigitsDiffer(a / 16, b / 16);
      HexDigitsDiffer(a % 16, b % 16);
    }
    assert s[|Encode(a)|..] == x && t[|Encode(b)|..] == y;
  }

  lemma {:induction false} EncodingDetermines(a: seq<Byte>, b: seq<Byte>)
    requires EncodeAll(a) == EncodeAll(b)
    ensures a == b
  {
    if a != [] && b != [] {
      FirstByte(a[0], EncodeAll(a[1..]), b[0], EncodeAll(b[1..]));
      EncodingDetermines(a[1..], b[1..]);
      assert a == [a[0]] + a[1..] && b == [b[0]] + b[1..];
    }
  }

  function EncodeParam(p: Param): string {
    EncodeAll(p.name) + ['='] + EncodeAll(p.value)
  }

  lemma ParamIsPlain(p: Param, c: char)
    requires c == '&' || c == '|'
    ensures Plain(EncodeParam(p), c)
  {
    EncodedIsPlain(p.name, c);
    EncodedIsPlain(p.value, c);
  }

  lemma ParamDetermines(p: Param, q: Param)
    requires EncodeParam(p) == EncodeParam(q)
    ensures p == q
  {
    EncodedIsPlain(p.name, '=');
    EncodedIsPlain(p.value, '=');
    EncodedIsPlain(q.name, '=');
    EncodedIsPlain(q.value, '=');
    SplitCat(EncodeAll(p.name), EncodeAll(p.value), '=');
    SplitCat(EncodeAll(q.name), EncodeAll(q.value), '=');
    SplitPlain(EncodeAll(p.name), '=');
    SplitPlain(EncodeAll(p.value), '=');
    SplitPlain(EncodeAll(q.name), '=');
    SplitPlain(EncodeAll(q.value), '=');
    var s, t := Split(EncodeParam(p), '='), Split(EncodeParam(q), '=');
    assert s[0] == EncodeAll(p.name) && s[1] == EncodeAll(p.value) && t[0] == EncodeAll(q.name) && t[1] == EncodeAll(q.value);
    EncodingDetermines(p.name, q.name);
    EncodingDetermines(p.value, q.value);
  }

  function EncodeEach(params: seq<Param>): (parts: seq<string>)
    ensures |parts| == |params|
  {
    seq(|params|, i requires 0 <= i < |params| => EncodeParam(params[i]))
  }

  function ToText(params: seq<Param>): string {
    Join(EncodeEach(params), '&')
  }

  lemma PartsArePlain(params: seq<Param>, c: char)
    requires c == '&' || c == '|'
    ensures forall i :: 0 <= i < |params| ==> Plain(EncodeEach(params)[i], c)
  {
    forall i | 0 <= i < |params|
      ensures Plain(EncodeEach(params)[i], c)
    {
      ParamIsPlain(params[i], c);
    }
  }

  lemma TextSplits(params: seq<Param>)
    ensures Split(ToText(params), '&') == if params == [] then [""] else EncodeEach(params)
  {
    if params != [] {
      PartsArePlain(params, '&');
      SplitJoin(EncodeEach(params), '&');
    }
  }

  lemma TextDetermines(a: seq<Param>, b: seq<Param>)
    requires ToText(a) == ToText(b)
    ensures a == b
  {
    TextSplits(a);
    TextSplits(b);
    assert forall i :: 0 <= i < |a| ==> |EncodeEach(a)[i]| > 0;
    assert forall i :: 0 <= i < |b| ==> |EncodeEach(b)[i]| > 0;
    assert a == [] <==> |Split(ToText(a), '&')[0]| == 0;
    assert b == [] <==> |Split(ToText(b), '&')[0]| == 0;
    assert |a| == |b|;
    forall i | 0 <= i < |a|
      ensures a[i] == b[i]
    {
      assert EncodeEach(a)[i] == EncodeEach(b)[i];
      ParamDetermines(a[i], b[i]);
    }
  }

  // ----- Sorting them first -----

  // The comparison by name, then value. It may call different texts equal; equal ones keep their order.
  type Order = (Param, Param) -> bool

  ghost predicate IsOrder(le: Order) {
    && (forall p, q :: le(p, q) || le(q, p))
    && (forall p, q, r :: le(p, q) && le(q, r) ==> le(p, r))
  }

  predicate Ties(le: Order, p: Param, q: Param) {
    le(p, q) && le(q, p)
  }

  function Insert(p: Param, params: seq<Param>, le: Order): (r: seq<Param>)
    ensures multiset(r) == multiset{p} + multiset(params)
  {
    if params == [] then [p]
    else if le(p, params[0]) then [p] + params
    else
      assert params == [params[0]] + params[1..];
      [params[0]] + Insert(p, params[1..], le)
  }

  // A stable sort.
  function Sort(params: seq<Param>, le: Order): (r: seq<Param>)
    ensures multiset(r) == multiset(params)
  {
    if params == [] then []
    else
      assert params == [params[0]] + params[1..];
      Insert(params[0], Sort(params[1..], le), le)
  }

  predicate Ordered(params: seq<Param>, le: Order) {
    forall i, j :: 0 <= i < j < |params| ==> le(params[i], params[j])
  }

  // The parameters that tie with `p`, in their order.
  function Tied(params: seq<Param>, p: Param, le: Order): (r: seq<Param>)
    ensures forall q :: q in r <==> q in params && Ties(le, p, q)
  {
    if params == [] then []
    else (if Ties(le, p, params[0]) then [params[0]] else []) + Tied(params[1..], p, le)
  }

  lemma {:induction false} InsertKeepsOrder(p: Param, params: seq<Param>, le: Order)
    requires IsOrder(le) && Ordered(params, le)
    ensures Ordered(Insert(p, params, le), le)
  {
    if params != [] && !le(p, params[0]) {
      var rest := Insert(p, params[1..], le);
      InsertKeepsOrder(p, params[1..], le);
      forall j | 0 <= j < |rest|
        ensures le(params[0], rest[j])
      {
        assert rest[j] in multiset(rest);
        assert rest[j] == p || rest[j] in params[1..];
      }
    }
  }

  // Nothing that comes before `p` ties with what `p` ties with.
  ghost predicate Apart(p: Param, q: Param, le: Order) {
    Ties(le, q, p) ==> forall x :: Ties(le, q, x) ==> le(p, x)
  }

  lemma TiesStayApart(p: Param, q: Param, le: Order)
    requires IsOrder(le)
    ensures Apart(p, q, le)
  {
  }

  // `p` alone, if it ties with `q`.
  function OnlyTied(p: Param, q: Param, le: Order): seq<Param> {
    if Ties(le, q, p) then [p] else []
  }

  lemma TiedFrom(first: Param, rest: seq<Param>, q: Param, le: Order)
    ensures Tied([first] + rest, q, le) == OnlyTied(first, q, le) + Tied(rest, q, le)
  {
    assert ([first] + rest)[1..] == rest;
  }

  lemma OnlyOneTied(p: Param, first: Param, q: Param, le: Order, rest: seq<Param>)
    requires Apart(p, q, le) && !le(p, first)
    ensures OnlyTied(first, q, le) + (OnlyTied(p, q, le) + rest) == OnlyTied(p, q, le) + (OnlyTied(first, q, le) + rest)
  {
    assert OnlyTied(first, q, le) == [] || OnlyTied(p, q, le) == [];
  }

  lemma {:induction false} InsertIsStable(p: Param, params: seq<Param>, q: Param, le: Order)
    requires Apart(p, q, le)
    ensures Tied(Insert(p, params, le), q, le) == OnlyTied(p, q, le) + Tied(params, q, le)
  {
    if params == [] || le(p, params[0]) {
      assert Insert(p, params, le) == [p] + params;
      TiedFrom(p, params, q, le);
    } else {
      var first, rest := params[0], params[1..];
      var more := Insert(p, rest, le);
      assert params == [first] + rest && Insert(p, params, le) == [first] + more;
      TiedFrom(first, rest, q, le);
      TiedFrom(first, more, q, le);
      InsertIsStable(p, rest, q, le);
      OnlyOneTied(p, first, q, le, Tied(rest, q, le));
    }
  }

  lemma {:induction false} SortIsStable(params: seq<Param>, q: Param, le: Order)
    requires IsOrder(le)
    ensures Tied(Sort(params, le), q, le) == Tied(params, q, le)
  {
    if params != [] {
      SortIsStable(params[1..], q, le);
      TiesStayApart(params[0], q, le);
      InsertIsStable(params[0], Sort(params[1..], le), q, le);
    }
  }

  lemma {:induction false} SortOrders(params: seq<Param>, le: Order)
    requires IsOrder(le)
    ensures Ordered(Sort(params, le), le)
  {
    if params != [] {
      SortOrders(params[1..], le);
      InsertKeepsOrder(params[0], Sort(params[1..], le), le);
    }
  }

  // The same parameters, those that tie in the same order.
  ghost predicate SameSearch(a: seq<Param>, b: seq<Param>, le: Order) {
    forall p :: Tied(a, p, le) == Tied(b, p, le)
  }

  lemma FirstOfOrdered(a: seq<Param>, b: seq<Param>, le: Order)
    requires IsOrder(le) && Ordered(a, le) && Ordered(b, le) && SameSearch(a, b, le) && a != []
    ensures b != [] && a[0] == b[0]
  {
    assert a[0] in Tied(a, a[0], le);
    assert a[0] in Tied(b, a[0], le);
    assert b[0] in Tied(b, b[0], le);
    assert b[0] in Tied(a, b[0], le);
    assert le(b[0], a[0]) && le(a[0], b[0]);
    assert Tied(a, a[0], le)[0] == a[0] && Tied(b, a[0], le)[0] == b[0];
  }

  lemma {:induction false} OrderedDetermined(a: seq<Param>, b: seq<Param>, le: Order)
    requires IsOrder(le) && Ordered(a, le) && Ordered(b, le) && SameSearch(a, b, le)
    ensures a == b
  {
    if a == [] {
      if b != [] {
        FirstOfOrdered(b, a, le);
      }
    } else {
      FirstOfOrdered(a, b, le);
      forall p
        ensures Tied(a[1..], p, le) == Tied(b[1..], p, le)
      {
        assert Tied(a, p, le) == Tied(b, p, le);
        var first := if Ties(le, p, a[0]) then [a[0]] else [];
        assert Tied(a, p, le)[|first|..] == Tied(a[1..], p, le) && Tied(b, p, le)[|first|..] == Tied(b[1..], p, le);
      }
      OrderedDetermined(a[1..], b[1..], le);
      assert a == [a[0]] + a[1..] && b == [b[0]] + b[1..];
    }
  }

  // ----- The query text -----

  function NormalizedSearch(params: seq<Param>, le: Order): string {
    ToText(Sort(params, le))
  }

  // The parameters in order, each as often as given, those that tie as they came.
  ghost predicate IsSorting(sorted: seq<Param>, params: seq<Param>, le: Order) {
    Ordered(sorted, le) && multiset(sorted) == multiset(params) && SameSearch(sorted, params, le)
  }

  lemma SortIsSorting(params: seq<Param>, le: Order)
    requires IsOrder(le)
    ensures IsSorting(Sort(params, le), params, le)
  {
    SortOrders(params, le);
    forall p
      ensures Tied(Sort(params, le), p, le) == Tied(params, p, le)
    {
      SortIsStable(params, p, le);
    }
  }

  method NormalizeSearch(params: seq<Param>, le: Order) returns (text: string)
    ensures text == NormalizedSearch(params, le)
    ensures IsOrder(le) ==> exists sorted :: IsSorting(sorted, params, le) && text == ToText(sorted)
    ensures Plain(text, '|')
  {
    var entries := Sort(params, le);
    SearchTextIsPlain(params, le);
    if IsOrder(le) {
      SortIsSorting(params, le);
    }
    var normalized := [];
    for n := 0 to |entries|
      invariant normalized == entries[..n]
    {
      normalized := normalized + [entries[n]];
    }
    assert entries[..|entries|] == entries;
    text := ToText(normalized);
  }

  /** Two lists of parameters give one text exactly when they differ in nothing but the order of those that do not tie. */
  lemma SearchTextExactly(a: seq<Param>, b: seq<Param>, le: Order)
    requires IsOrder(le)
    ensures NormalizedSearch(a, le) == NormalizedSearch(b, le) <==> SameSearch(a, b, le)
  {
    SortIsSorting(a, le);
    SortIsSorting(b, le);
    if NormalizedSearch(a, le) == NormalizedSearch(b, le) {
      TextDetermines(Sort(a, le), Sort(b, le));
    }
    if SameSearch(a, b, le) {
      OrderedDetermined(Sort(a, le), Sort(b, le), le);
    }
  }

  lemma SearchTextIsPlain(params: seq<Param>, le: Order)
    ensures Plain(NormalizedSearch(params, le), '|')
  {
    PartsArePlain(Sort(params, le), '|');
    JoinedPlain(EncodeEach(Sort(params, le)), '&', '|');
  }

  /** Down to the parameters: equal keys come from the same ones, each as often, those that tie in the same order. */
  lemma KeyDeterminesSearch(
    r1: Request, v1: seq<string>, params1: seq<Param>, r2: Request, v2: seq<string>, params2: seq<Param>, le: Order)
    requires IsOrder(le) && WellFormed(r1.(query := "")) && WellFormed(r2.(query := ""))
    requires forall i :: 0 <= i < |v1| ==> VersionText(v1[i])
    requires forall i :: 0 <= i < |v2| ==> VersionText(v2[i])
    requires r1.query == NormalizedSearch(params1, le) && r2.query == NormalizedSearch(params2, le)
    requires BuildServerCacheKey(r1, v1) == BuildServerCacheKey(r2, v2)
    ensures SameSearch(params1, params2, le) && multiset(params1) == multiset(params2)
  {
    SearchTextIsPlain(params1, le);
    SearchTextIsPlain(params2, le);
    KeyDetermines(r1, v1, r2, v2);
    SearchTextExactly(params1, params2, le);
    TextDetermines(Sort(params1, le), Sort(params2, le));
  }
}
