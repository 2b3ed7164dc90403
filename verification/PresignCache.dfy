/**
 * The cache of presigned download URLs: an insertion-ordered map used as a bounded recency list, and what it
 * promises about the life left in a URL it serves.
 */
module PresignCache {
  import opened Options
  import opened CacheKeys

  // An `ensures P(..) == true` promises P(..) as a whole: unlike a bare P(..), it is not taken apart where it is proved.

  const MAX_ENTRIES: nat := 5_000
  const SAFETY_WINDOW_MS: nat := 5_000

  // A URL is good for `validForMs` from the moment it was signed.
  datatype Url = Url(key: string, signedAtMs: nat, validForMs: nat)

  // `storedAtMs` is the clock reading `expiresAtMs` was computed from.
  datatype Entry = Entry(cacheKey: string, url: Url, storedAtMs: nat, expiresAtMs: nat)

  function Max(a: int, b: int): int {
    if a >= b then a else b
  }

  function NewEntry(cacheKey: string, url: Url, expiresInSeconds: nat, nowMs: nat): Entry {
    Entry(cacheKey, url, nowMs, nowMs + Max(expiresInSeconds * 1000 - SAFETY_WINDOW_MS, 0))
  }

  // ----- The recency list -----

  function Dropped(list: seq<Entry>, cacheKey: string): (r: seq<Entry>)
    ensures forall e :: e in r <==> e in list && e.cacheKey != cacheKey
  {
    if list == [] then []
    else (if list[0].cacheKey == cacheKey then [] else [list[0]]) + Dropped(list[1..], cacheKey)
  }

  function Last(list: seq<Entry>, n: nat): (r: seq<Entry>)
    ensures |r| == if |list| <= n then |list| else n
  {
    if |list| <= n then list else list[|list| - n..]
  }

  // Storing puts the key last and keeps the most recent entries.
  function Stored(list: seq<Entry>, e: Entry): seq<Entry> {
    Last(Dropped(list, e.cacheKey) + [e], MAX_ENTRIES)
  }

  function Kept(list: seq<Entry>, prefix: string): (r: seq<Entry>)
    ensures forall e :: e in r <==> e in list && !StartsWith(e.cacheKey, prefix)
  {
    if list == [] then []
    else (if StartsWith(list[0].cacheKey, prefix) then [] else [list[0]]) + Kept(list[1..], prefix)
  }

  // Going one entry further in deciding what is kept.
  lemma KeptFrom(list: seq<Entry>, prefix: string, i: nat, left: seq<Entry>)
    requires i < |list| && Kept(list, prefix) == left + Kept(list[i..], prefix)
    ensures Kept(list, prefix)
            == (left + if StartsWith(list[i].cacheKey, prefix) then [] else [list[i]]) + Kept(list[i + 1..], prefix)
  {
    var head, rest := if StartsWith(list[i].cacheKey, prefix) then [] else [list[i]], Kept(list[i + 1..], prefix);
    assert list[i..][1..] == list[i + 1..];
    Regroup(left, head, rest);
  }

  lemma Regroup(a: seq<Entry>, b: seq<Entry>, c: seq<Entry>)
    ensures a + (b + c) == (a + b) + c
  {
  }

  predicate OneEntryPerKey(list: seq<Entry>) {
    forall i, j :: 0 <= i < j < |list| ==> list[i].cacheKey != list[j].cacheKey
  }

  lemma {:induction false} DroppedParts(a: seq<Entry>, b: seq<Entry>, cacheKey: string)
    ensures Dropped(a + b, cacheKey) == Dropped(a, cacheKey) + Dropped(b, cacheKey)
  {
    if a == [] {
      assert a + b == b;
    } else {
      assert (a + b)[1..] == a[1..] + b;
      DroppedParts(a[1..], b, cacheKey);
    }
  }

  lemma {:induction false} DroppedNothing(list: seq<Entry>, cacheKey: string)
    requires forall i :: 0 <= i < |list| ==> list[i].cacheKey != cacheKey
    ensures Dropped(list, cacheKey) == list
  {
    if list != [] {
      DroppedNothing(list[1..], cacheKey);
      assert list == [list[0]] + list[1..];
    }
  }

  lemma {:induction false} DroppedKeepsOrder(list: seq<Entry>, cacheKey: string)
    requires OneEntryPerKey(list)
    ensures OneEntryPerKey(Dropped(list, cacheKey)) && |Dropped(list, cacheKey)| >= |list| - 1
  {
    if list != [] {
      var rest := Dropped(list[1..], cacheKey);
      DroppedKeepsOrder(list[1..], cacheKey);
      if list[0].cacheKey == cacheKey {
        DroppedNothing(list[1..], cacheKey);
      } else {
        forall j | 0 <= j < |rest|
          ensures rest[j].cacheKey != list[0].cacheKey
        {
          assert rest[j] in list[1..];
        }
      }
    }
  }

  lemma {:induction false} KeptKeepsOrder(list: seq<Entry>, prefix: string)
    requires OneEntryPerKey(list)
    ensures OneEntryPerKey(Kept(list, prefix)) && |Kept(list, prefix)| <= |list|
  {
    if list != [] {
      var rest := Kept(list[1..], prefix);
      KeptKeepsOrder(list[1..], prefix);
      forall j | 0 <= j < |rest|
        ensures rest[j].cacheKey != list[0].cacheKey
      {
        assert rest[j] in list[1..];
      }
    }
  }

  lemma AppendedKeepsOrder(list: seq<Entry>, e: Entry)
    requires OneEntryPerKey(list)
    ensures OneEntryPerKey(Dropped(list, e.cacheKey) + [e])
  {
    DroppedKeepsOrder(list, e.cacheKey);
    var dropped := Dropped(list, e.cacheKey);
    forall j | 0 <= j < |dropped|
      ensures dropped[j].cacheKey != e.cacheKey
    {
      assert dropped[j] in dropped;
    }
  }

  lemma LastKeepsOrder(list: seq<Entry>, n: nat)
    requires OneEntryPerKey(list)
    ensures OneEntryPerKey(Last(list, n)) && |Last(list, n)| <= n
  {
  }

  lemma StoredKeepsOrder(list: seq<Entry>, e: Entry)
    requires OneEntryPerKey(list)
    ensures OneEntryPerKey(Stored(list, e)) && |Stored(list, e)| <= MAX_ENTRIES
    ensures Stored(list, e)[|Stored(list, e)| - 1] == e
  {
    AppendedKeepsOrder(list, e);
    LastKeepsOrder(Dropped(list, e.cacheKey) + [e], MAX_ENTRIES);
  }

  lemma LastOfLongEnd(a: seq<Entry>, x: seq<Entry>, n: nat)
    requires |x| >= n
    ensures Last(a + x, n) == Last(x, n)
  {
    if |a + x| > n {
      assert (a + x)[|a + x| - n..] == x[|x| - n..];
    }
  }

  lemma OlderPartIsEvicted(a: seq<Entry>, b: seq<Entry>, e: Entry)
    requires |Dropped(b, e.cacheKey)| >= MAX_ENTRIES - 1
    ensures Stored(a + b, e) == Stored(b, e)
  {
    DroppedParts(a, b, e.cacheKey);
    var older, newer := Dropped(a, e.cacheKey), Dropped(b, e.cacheKey);
    assert older + newer + [e] == older + (newer + [e]);
    LastOfLongEnd(older, newer + [e], MAX_ENTRIES);
  }

  lemma EvictingFirstIsEvictingLast(list: seq<Entry>, e: Entry)
    requires OneEntryPerKey(list)
    ensures Stored(Last(list, MAX_ENTRIES), e) == Stored(list, e)
  {
    if |list| > MAX_ENTRIES {
      var a, b := list[..|list| - MAX_ENTRIES], list[|list| - MAX_ENTRIES..];
      assert list == a + b;
      DroppedKeepsOrder(b, e.cacheKey);
      OlderPartIsEvicted(a, b, e);
    }
  }

  // ----- Keys -----

  function CacheKey(key: string, expiresInSeconds: nat, disposition: string): string {
    key + "|" + (Decimal(expiresInSeconds) + "|" + disposition)
  }

  lemma Head(a: string, x: string)
    requires Plain(a, '|')
    ensures (a + "|" + x)[0] == '|' <==> a == ""
  {
  }

  lemma {:induction false} FirstBar(a: string, b: string, x: string, y: string)
    requires Plain(a, '|') && Plain(b, '|') && a + "|" + x <= b + "|" + y
    ensures a == b && x <= y
  {
    var s, t := a + "|" + x, b + "|" + y;
    assert s[0] == t[0];
    Head(a, x);
    Head(b, y);
    if a == "" {
      assert s[1..] == x && t[1..] == y;
    } else {
      assert s[0] == a[0] && t[0] == b[0];
      assert s[1..] == a[1..] + "|" + x && t[1..] == b[1..] + "|" + y;
      FirstBar(a[1..], b[1..], x, y);
      assert a == [a[0]] + a[1..] && b == [b[0]] + b[1..];
    }
  }

  /** Object keys without a bar: equal cache keys come from equal requests. */
  lemma CacheKeyDetermines(k1: string, n1: nat, d1: string, k2: string, n2: nat, d2: string)
    requires Plain(k1, '|') && Plain(k2, '|') && CacheKey(k1, n1, d1) == CacheKey(k2, n2, d2)
    ensures k1 == k2 && n1 == n2 && d1 == d2
  {
    FirstBar(k1, k2, Decimal(n1) + "|" + d1, Decimal(n2) + "|" + d2);
    FirstBar(k2, k1, Decimal(n2) + "|" + d2, Decimal(n1) + "|" + d1);
    FirstBar(Decimal(n1), Decimal(n2), d1, d2);
    FirstBar(Decimal(n2), Decimal(n1), d2, d1);
    DecimalInjective(n1, n2);
  }

  /** Invalidating a key reaches all its entries and, when object keys have no bar, no others. */
  lemma InvalidationIsExact(key: string, other: string, expiresInSeconds: nat, disposition: string)
    ensures key == other ==> StartsWith(CacheKey(other, expiresInSeconds, disposition), key + "|")
    ensures Plain(key, '|') && Plain(other, '|') && StartsWith(CacheKey(other, expiresInSeconds, disposition), key + "|") ==>
              key == other
  {
    var rest := Decimal(expiresInSeconds) + "|" + disposition;
    if Plain(key, '|') && Plain(other, '|') && StartsWith(CacheKey(other, expiresInSeconds, disposition), key + "|") {
      assert key + "|" + "" == key + "|";
      FirstBar(key, other, "", rest);
    }
  }

  // One object key is the other, or goes on from it after a bar; the invalidated one goes on with a lifetime.
  ghost predicate Entangled(key: string, other: string) {
    || key == other || StartsWith(other, key + "|")
    || exists n: nat :: StartsWith(key + "|", other + "|" + Decimal(n) + "|")
  }

  lemma NoBarIn(n: nat, i: nat)
    requires i < |Decimal(n)|
    ensures Decimal(n)[i] != '|'
  {
    assert Decimal(n)[i] in Decimal(n);
  }

  lemma ReachedIsEntangled(key: string, other: string, expiresInSeconds: nat, disposition: string)
    requires StartsWith(CacheKey(other, expiresInSeconds, disposition), key + "|")
    ensures Entangled(key, other)
  {
    var life, cached := Decimal(expiresInSeconds), CacheKey(other, expiresInSeconds, disposition);
    var start := other + "|" + life + "|";
    assert cached == start + disposition;
    assert cached[|key|] == (key + "|")[|key|] == '|';
    assert cached[..|key| + 1] == key + "|";
    if |key| < |other| {
      assert other[..|key| + 1] == cached[..|key| + 1];
    } else if |key| == |other| {
      assert key == cached[..|key|] == other;
    } else if |key| < |start| - 1 {
      assert cached[|key|] == life[|key| - |other| - 1];
      NoBarIn(expiresInSeconds, |key| - |other| - 1);
    } else {
      assert (key + "|")[..|start|] == start;
    }
  }

  lemma EntangledIsReached(key: string, other: string) returns (expiresInSeconds: nat, disposition: string)
    requires Entangled(key, other)
    ensures StartsWith(CacheKey(other, expiresInSeconds, disposition), key + "|")
  {
    expiresInSeconds, disposition := 0, "";
    if key != other && !StartsWith(other, key + "|") {
      var n: nat :| StartsWith(key + "|", other + "|" + Decimal(n) + "|");
      var start := other + "|" + Decimal(n) + "|";
      expiresInSeconds, disposition := n, (key + "|")[|start|..];
      assert CacheKey(other, n, disposition) == start + disposition == key + "|";
    } else {
      var rest := Decimal(0) + "|" + "";
      assert CacheKey(other, 0, "") == other + "|" + rest;
    }
  }

  /** Whatever the object keys hold: invalidating `key` can reach an entry of `other` exactly when they are entangled. */
  lemma InvalidationReachesExactly(key: string, other: string)
    ensures (exists n: nat, d: string :: StartsWith(CacheKey(other, n, d), key + "|")) <==> Entangled(key, other)
  {
    if n: nat, d: string :| StartsWith(CacheKey(other, n, d), key + "|") {
      ReachedIsEntangled(key, other, n, d);
    }
    if Entangled(key, other) {
      var n, d := EntangledIsReached(key, other);
    }
  }

  /** With a bar in an object key, invalidating one key also drops entries of another. */
  lemma BarReachesTooFar(expiresInSeconds: nat, disposition: string)
    ensures "a" != "a|b" && StartsWith(CacheKey("a|b", expiresInSeconds, disposition), "a" + "|")
  {
    assert CacheKey("a|b", expiresInSeconds, disposition)[..2] == "a|";
  }

  // ----- Life left in a served URL -----

  // Signing takes at most `latencyMs`; the URL was signed for as long as it is cached for.
  predicate EntryOk(e: Entry, latencyMs: nat, nowMs: nat) {
    && e.url.signedAtMs <= e.storedAtMs <= e.url.signedAtMs + latencyMs && e.storedAtMs <= nowMs
    && e.expiresAtMs == e.storedAtMs + Max(e.url.validForMs - SAFETY_WINDOW_MS, 0)
  }

  predicate ListOk(list: seq<Entry>, latencyMs: nat, nowMs: nat) {
    OneEntryPerKey(list) && |list| <= MAX_ENTRIES && forall i :: 0 <= i < |list| ==> EntryOk(list[i], latencyMs, nowMs)
  }

  function Lookup(list: seq<Entry>, cacheKey: string, nowMs: nat): (url: Option<Url>)
    ensures url.Some? ==> exists i :: 0 <= i < |list| && list[i].cacheKey == cacheKey && list[i].url == url.value
                                      && list[i].expiresAtMs > nowMs
    ensures OneEntryPerKey(list) && (exists i :: 0 <= i < |list| && list[i].cacheKey == cacheKey && list[i].expiresAtMs > nowMs) ==>
              url.Some?
  {
    if list == [] then None
    else if list[0].cacheKey == cacheKey then (if list[0].expiresAtMs > nowMs then Some(list[0].url) else None)
    else Lookup(list[1..], cacheKey, nowMs)
  }

  // The entry stored for a URL is computed from the life the URL was signed for.
  lemma NewEntryIsOk(cacheKey: string, url: Url, expiresInSeconds: nat, latencyMs: nat, nowMs: nat)
    requires url.validForMs == expiresInSeconds * 1000 && url.signedAtMs <= nowMs <= url.signedAtMs + latencyMs
    ensures EntryOk(NewEntry(cacheKey, url, expiresInSeconds, nowMs), latencyMs, nowMs)
  {
  }

  lemma ServedFromList(list: seq<Entry>, cacheKey: string, latencyMs: nat, nowMs: nat)
    requires ListOk(list, latencyMs, nowMs) && Lookup(list, cacheKey, nowMs).Some?
    ensures var url := Lookup(list, cacheKey, nowMs).value;
            url.signedAtMs + url.validForMs > nowMs + SAFETY_WINDOW_MS - latencyMs
  {
    var i :| 0 <= i < |list| && list[i].cacheKey == cacheKey && list[i].url == Lookup(list, cacheKey, nowMs).value
             && list[i].expiresAtMs > nowMs;
    assert EntryOk(list[i], latencyMs, nowMs);
  }

  lemma StoredStaysOk(list: seq<Entry>, latencyMs: nat, nowMs: nat, e: Entry)
    requires ListOk(list, latencyMs, nowMs) && EntryOk(e, latencyMs, nowMs)
    ensures ListOk(Stored(list, e), latencyMs, nowMs)
  {
    StoredKeepsOrder(list, e);
    var stored := Stored(list, e);
    forall i | 0 <= i < |stored|
      ensures EntryOk(stored[i], latencyMs, nowMs)
    {
      assert stored[i] in Dropped(list, e.cacheKey) + [e];
    }
  }

  lemma KeptStaysOk(list: seq<Entry>, latencyMs: nat, nowMs: nat, prefix: string)
    requires ListOk(list, latencyMs, nowMs)
    ensures ListOk(Kept(list, prefix), latencyMs, nowMs)
  {
    KeptKeepsOrder(list, prefix);
    var kept := Kept(list, prefix);
    forall i | 0 <= i < |kept|
      ensures EntryOk(kept[i], latencyMs, nowMs)
    {
      assert kept[i] in kept;
    }
  }

  // ----- What is served after a store, an eviction or an invalidation -----

  predicate HasKey(list: seq<Entry>, cacheKey: string) {
    exists i :: 0 <= i < |list| && list[i].cacheKey == cacheKey
  }

  lemma {:induction false} LookupParts(a: seq<Entry>, b: seq<Entry>, cacheKey: string, nowMs: nat)
    ensures Lookup(a + b, cacheKey, nowMs) == if HasKey(a, cacheKey) then Lookup(a, cacheKey, nowMs) else Lookup(b, cacheKey, nowMs)
  {
    if a == [] {
      assert a + b == b;
    } else {
      assert (a + b)[1..] == a[1..] + b;
      LookupParts(a[1..], b, cacheKey, nowMs);
      assert HasKey(a, cacheKey) <==> a[0].cacheKey == cacheKey || HasKey(a[1..], cacheKey) by {
        if i :| 0 <= i < |a| && a[i].cacheKey == cacheKey && i > 0 {
          assert a[1..][i - 1].cacheKey == cacheKey;
        }
      }
    }
  }

  lemma LookupFrom(list: seq<Entry>, first: Entry, rest: seq<Entry>, cacheKey: string, nowMs: nat)
    requires list == [first] + rest
    ensures Lookup(list, cacheKey, nowMs) ==
              if first.cacheKey != cacheKey then Lookup(rest, cacheKey, nowMs)
              else if nowMs < first.expiresAtMs then Some(first.url) else None
  {
    assert list[1..] == rest;
  }

  lemma DroppedFrom(list: seq<Entry>, first: Entry, rest: seq<Entry>, dropped: string)
    requires list == [first] + rest
    ensures Dropped(list, dropped) == (if first.cacheKey == dropped then [] else [first]) + Dropped(rest, dropped)
  {
    assert list[1..] == rest;
  }

  lemma KeptFromFirst(list: seq<Entry>, first: Entry, rest: seq<Entry>, prefix: string)
    requires list == [first] + rest
    ensures Kept(list, prefix) == (if StartsWith(first.cacheKey, prefix) then [] else [first]) + Kept(rest, prefix)
  {
    assert list[1..] == rest;
  }

  lemma {:induction false} LookupDropped(list: seq<Entry>, dropped: string, cacheKey: string, nowMs: nat)
    requires cacheKey != dropped
    ensures Lookup(Dropped(list, dropped), cacheKey, nowMs) == Lookup(list, cacheKey, nowMs)
  {
    if list != [] {
      var first, rest := list[0], list[1..];
      LookupDropped(rest, dropped, cacheKey, nowMs);
      DroppedFrom(list, first, rest, dropped);
      LookupFrom(list, first, rest, cacheKey, nowMs);
      if first.cacheKey == dropped {
        assert Dropped(list, dropped) == Dropped(rest, dropped);
      } else {
        LookupFrom(Dropped(list, dropped), first, Dropped(rest, dropped), cacheKey, nowMs);
      }
    } else {
      assert Dropped(list, dropped) == [];
    }
  }

  /** Invalidating a key stops the serving of the entries whose cache key starts with it and a bar, and of no other. */
  lemma {:induction false} InvalidatedIsNotServed(list: seq<Entry>, prefix: string, cacheKey: string, nowMs: nat)
    ensures Lookup(Kept(list, prefix), cacheKey, nowMs) == if prefix <= cacheKey then None else Lookup(list, cacheKey, nowMs)
  {
    if list != [] {
      var first, rest := list[0], list[1..];
      InvalidatedIsNotServed(rest, prefix, cacheKey, nowMs);
      KeptFromFirst(list, first, rest, prefix);
      LookupFrom(list, first, rest, cacheKey, nowMs);
      if StartsWith(first.cacheKey, prefix) {
        assert Kept(list, prefix) == Kept(rest, prefix);
      } else {
        LookupFrom(Kept(list, prefix), first, Kept(rest, prefix), cacheKey, nowMs);
      }
    } else {
      assert Kept(list, prefix) == [];
    }
  }

  lemma NotFoundIfNotThere(list: seq<Entry>, cacheKey: string, nowMs: nat)
    requires !HasKey(list, cacheKey)
    ensures Lookup(list, cacheKey, nowMs) == None
  {
    LookupParts([], list, cacheKey, nowMs);
  }

  // Only the oldest entry can be evicted by a store.
  lemma StoredList(list: seq<Entry>, e: Entry)
    requires |list| <= MAX_ENTRIES
    ensures var kept := Dropped(list, e.cacheKey);
            |kept| <= |list| && Stored(list, e) == (if |kept| < MAX_ENTRIES then kept else kept[1..]) + [e]
  {
    DroppedIsShorter(list, e.cacheKey);
    var kept := Dropped(list, e.cacheKey);
    if |kept| == MAX_ENTRIES {
      assert (kept + [e])[1..] == kept[1..] + [e];
    }
  }

  lemma {:induction false} DroppedIsShorter(list: seq<Entry>, cacheKey: string)
    ensures |Dropped(list, cacheKey)| <= |list|
  {
    if list != [] {
      DroppedIsShorter(list[1..], cacheKey);
    }
  }

  /** A stored URL is served under its key until the seconds it was stored for are over, less five, and not after that. */
  lemma StoredIsServed(list: seq<Entry>, cacheKey: string, url: Url, seconds: nat, storedAtMs: nat, nowMs: nat)
    requires |list| <= 5_000
    ensures Lookup(Stored(list, NewEntry(cacheKey, url, seconds, storedAtMs)), cacheKey, nowMs) ==
              if nowMs < storedAtMs + (if seconds > 5 then (seconds - 5) * 1_000 else 0) then Some(url) else None
  {
    var e := NewEntry(cacheKey, url, seconds, storedAtMs);
    StoredList(list, e);
    var kept := Dropped(list, cacheKey);
    var before := if |kept| < MAX_ENTRIES then kept else kept[1..];
    forall i | 0 <= i < |before|
      ensures before[i].cacheKey != cacheKey
    {
      assert before[i] in kept;
    }
    LookupParts(before, [e], cacheKey, nowMs);
  }

  /** Storing under another key changes nothing for a key, unless the list is full and the key is that of its oldest entry. */
  lemma StoreSparesOthers(list: seq<Entry>, e: Entry, cacheKey: string, nowMs: nat)
    requires |list| <= 5_000 && cacheKey != e.cacheKey
    requires |list| == 5_000 && !HasKey(list, e.cacheKey) ==> list[0].cacheKey != cacheKey
    ensures Lookup(Stored(list, e), cacheKey, nowMs) == Lookup(list, cacheKey, nowMs)
  {
    StoredList(list, e);
    var kept := Dropped(list, e.cacheKey);
    LookupDropped(list, e.cacheKey, cacheKey, nowMs);
    if |kept| < MAX_ENTRIES {
      LookupParts(kept, [e], cacheKey, nowMs);
      NotFoundUnder(kept, [e], cacheKey, nowMs);
    } else {
      FullMeansNothingDropped(list, e.cacheKey);
      LookupParts(kept[1..], [e], cacheKey, nowMs);
      NotFoundUnder(kept[1..], [e], cacheKey, nowMs);
    }
  }

  lemma NotFoundUnder(list: seq<Entry>, more: seq<Entry>, cacheKey: string, nowMs: nat)
    requires !HasKey(more, cacheKey)
    ensures Lookup(list + more, cacheKey, nowMs) == Lookup(list, cacheKey, nowMs)
  {
    LookupParts(list, more, cacheKey, nowMs);
    NotFoundIfNotThere(more, cacheKey, nowMs);
    if !HasKey(list, cacheKey) {
      NotFoundIfNotThere(list, cacheKey, nowMs);
    }
  }

  lemma {:induction false} FullMeansNothingDropped(list: seq<Entry>, cacheKey: string)
    requires |Dropped(list, cacheKey)| == |list|
    ensures Dropped(list, cacheKey) == list && !HasKey(list, cacheKey)
  {
    if list != [] {
      var first, rest := list[0], list[1..];
      DroppedIsShorter(rest, cacheKey);
      DroppedFrom(list, first, rest, cacheKey);
      FullMeansNothingDropped(rest, cacheKey);
      assert list == [first] + rest;
    }
  }

  // ----- Runs of the cache -----

  // `recent` is what the list would be without a bound.
  datatype State = State(list: seq<Entry>, recent: seq<Entry>, nowMs: nat)

  datatype Step =
    | Tick(nowMs: nat)
    | Store(cacheKey: string, url: Url, expiresInSeconds: nat)
    | Invalidate(key: string)

  // A URL is stored for the life it was signed for, at most `latencyMs` after its signing.
  predicate Enabled(s: State, step: Step, latencyMs: nat) {
    match step
    case Tick(nowMs) => s.nowMs <= nowMs
    case Store(_, url, n) => url.validForMs == n * 1000 && url.signedAtMs <= s.nowMs <= url.signedAtMs + latencyMs
    case Invalidate(_) => true
  }

  function Apply(s: State, step: Step): State {
    match step
    case Tick(nowMs) => s.(nowMs := nowMs)
    case Store(cacheKey, url, n) =>
      var e := NewEntry(cacheKey, url, n, s.nowMs);
      s.(list := Stored(s.list, e), recent := Dropped(s.recent, cacheKey) + [e])
    case Invalidate(key) => s.(list := Kept(s.list, key + "|"), recent := Kept(s.recent, key + "|"))
  }

  ghost predicate IsRun(states: seq<State>, steps: seq<Step>, latencyMs: nat) {
    && |states| == |steps| + 1
    && states[0].list == [] && states[0].recent == []
    && forall i :: 0 <= i < |steps| ==>
         Enabled(states[i], steps[i], latencyMs) && states[i + 1] == Apply(states[i], steps[i])
  }

  lemma StepKeepsListOk(s: State, step: Step, latencyMs: nat)
    requires ListOk(s.list, latencyMs, s.nowMs) && Enabled(s, step, latencyMs)
    ensures ListOk(Apply(s, step).list, latencyMs, Apply(s, step).nowMs) == true
  {
    match step
    case Tick(_) =>
    case Store(cacheKey, url, n) =>
      NewEntryIsOk(cacheKey, url, n, latencyMs, s.nowMs);
      StoredStaysOk(s.list, latencyMs, s.nowMs, NewEntry(cacheKey, url, n, s.nowMs));
    case Invalidate(key) => KeptStaysOk(s.list, latencyMs, s.nowMs, key + "|");
  }

  /** Over every run the keys of the list differ, it holds at most 5000 entries, and each expires when it should. */
  lemma {:induction false} ListAlwaysOk(states: seq<State>, steps: seq<Step>, latencyMs: nat, n: nat)
    requires IsRun(states, steps, latencyMs) && n < |states|
    ensures ListOk(states[n].list, latencyMs, states[n].nowMs)
  {
    if n > 0 {
      ListAlwaysOk(states, steps, latencyMs, n - 1);
      StepKeepsListOk(states[n - 1], steps[n - 1], latencyMs);
    }
  }

  /** Over every run a URL served from the cache lives on for more than the safety window less the time signing took. */
  lemma ServedUrlHasLifeLeft(states: seq<State>, steps: seq<Step>, latencyMs: nat, n: nat, cacheKey: string)
    requires IsRun(states, steps, latencyMs) && n < |states|
    requires Lookup(states[n].list, cacheKey, states[n].nowMs).Some?
    ensures var url := Lookup(states[n].list, cacheKey, states[n].nowMs).value;
            url.signedAtMs + url.validForMs > states[n].nowMs + SAFETY_WINDOW_MS - latencyMs
  {
    ListAlwaysOk(states, steps, latencyMs, n);
    ServedFromList(states[n].list, cacheKey, latencyMs, states[n].nowMs);
  }

  // ----- The bounded list against the unbounded one -----

  ghost predicate EndsWith(a: seq<Entry>, b: seq<Entry>) {
    exists older: seq<Entry> :: a == older + b
  }

  lemma {:induction false} KeptParts(a: seq<Entry>, b: seq<Entry>, prefix: string)
    ensures Kept(a + b, prefix) == Kept(a, prefix) + Kept(b, prefix)
  {
    if a == [] {
      assert a + b == b;
    } else {
      assert (a + b)[1..] == a[1..] + b;
      KeptParts(a[1..], b, prefix);
    }
  }

  lemma LastIsEnd(x: seq<Entry>, n: nat)
    ensures EndsWith(x, Last(x, n))
  {
    var cut := |x| - |Last(x, n)|;
    assert x == x[..cut] + Last(x, n);
  }

  lemma EndOfLonger(a: seq<Entry>, x: seq<Entry>, y: seq<Entry>)
    requires EndsWith(x, y)
    ensures EndsWith(a + x, y)
  {
    var older: seq<Entry> :| x == older + y;
    assert a + x == (a + older) + y;
  }

  lemma StoreStaysEnd(older: seq<Entry>, list: seq<Entry>, e: Entry)
    ensures EndsWith(Dropped(older + list, e.cacheKey) + [e], Stored(list, e)) == true
  {
    DroppedParts(older, list, e.cacheKey);
    var a, b := Dropped(older, e.cacheKey), Dropped(list, e.cacheKey);
    assert a + b + [e] == a + (b + [e]);
    LastIsEnd(b + [e], MAX_ENTRIES);
    EndOfLonger(a, b + [e], Last(b + [e], MAX_ENTRIES));
  }

  lemma InvalidateStaysEnd(older: seq<Entry>, list: seq<Entry>, prefix: string)
    ensures EndsWith(Kept(older + list, prefix), Kept(list, prefix))
  {
    KeptParts(older, list, prefix);
  }

  lemma StepStaysEnd(s: State, step: Step)
    requires EndsWith(s.recent, s.list)
    ensures EndsWith(Apply(s, step).recent, Apply(s, step).list)
  {
    var older: seq<Entry> :| s.recent == older + s.list;
    match step
    case Tick(_) =>
    case Store(cacheKey, url, n) => StoreStaysEnd(older, s.list, NewEntry(cacheKey, url, n, s.nowMs));
    case Invalidate(key) => InvalidateStaysEnd(older, s.list, key + "|");
  }

  lemma StoreIsLast(s: State, step: Step)
    requires OneEntryPerKey(s.recent) && !step.Invalidate? && s.list == Last(s.recent, MAX_ENTRIES)
    ensures Apply(s, step).list == Last(Apply(s, step).recent, MAX_ENTRIES)
  {
    if step.Store? {
      EvictingFirstIsEvictingLast(s.recent, NewEntry(step.cacheKey, step.url, step.expiresInSeconds, s.nowMs));
    }
  }

  lemma RecentKeysDiffer(s: State, step: Step)
    requires OneEntryPerKey(s.recent)
    ensures OneEntryPerKey(Apply(s, step).recent)
  {
    match step
    case Tick(_) =>
    case Store(cacheKey, url, n) => AppendedKeepsOrder(s.recent, NewEntry(cacheKey, url, n, s.nowMs));
    case Invalidate(key) => KeptKeepsOrder(s.recent, key + "|");
  }

  /**
   * Over every run the bounded list is the most recent end of the list without a bound, and, until something is
   * invalidated, exactly its last 5000 entries: evicting after every store loses nothing evicting once would keep.
   */
  lemma {:induction false} BoundedRefinesRecency(states: seq<State>, steps: seq<Step>, latencyMs: nat, n: nat)
    requires IsRun(states, steps, latencyMs) && n < |states|
    ensures EndsWith(states[n].recent, states[n].list) && OneEntryPerKey(states[n].recent)
    ensures (forall i :: 0 <= i < n ==> !steps[i].Invalidate?) ==> states[n].list == Last(states[n].recent, MAX_ENTRIES)
  {
    if n == 0 {
      assert states[0].recent == [] + states[0].list;
    } else {
      BoundedRefinesRecency(states, steps, latencyMs, n - 1);
      StepStaysEnd(states[n - 1], steps[n - 1]);
      RecentKeysDiffer(states[n - 1], steps[n - 1]);
      if !steps[n - 1].Invalidate? && states[n - 1].list == Last(states[n - 1].recent, MAX_ENTRIES) {
        StoreIsLast(states[n - 1], steps[n - 1]);
      }
    }
  }

  class S3ContentStorage {
    var cache: seq<Entry>

    constructor ()
      ensures cache == []
    {
      cache := [];
    }

    method StorePresignedUrl(cacheKey: string, url: Url, expiresInSeconds: nat, nowMs: nat)
      modifies this
      ensures cache == Stored(old(cache), NewEntry(cacheKey, url, expiresInSeconds, nowMs))
    {
      if exists i :: 0 <= i < |cache| && cache[i].cacheKey == cacheKey {
        cache := Dropped(cache, cacheKey);
      } else {
        DroppedNothing(cache, cacheKey);
      }
      cache := EvictOldest(cache + [NewEntry(cacheKey, url, expiresInSeconds, nowMs)], MAX_ENTRIES);
    }

    static method EvictOldest(list: seq<Entry>, maxEntries: nat) returns (left: seq<Entry>)
      ensures left == Last(list, maxEntries)
    {
      left := list;
      ghost var gone := 0;
      while |left| > maxEntries
        invariant 0 <= gone <= |list| && left == list[gone..]
        invariant gone == 0 || |left| >= maxEntries
        decreases |left|
      {
        assert list[gone..][1..] == list[gone + 1..];
        left, gone := left[1..], gone + 1;
      }
    }

    method InvalidatePresignedUrl(key: string)
      modifies this
      ensures cache == Kept(old(cache), key + "|")
    {
      var prefix := key + "|";
      cache := KeepOthers(cache, prefix);
    }

    static method KeepOthers(list: seq<Entry>, prefix: string) returns (left: seq<Entry>)
      ensures left == Kept(list, prefix)
    {
      left := [];
      for i := 0 to |list|
        invariant Kept(list, prefix) == left + Kept(list[i..], prefix)
      {
        KeptFrom(list, prefix, i, left);
        left := left + if StartsWith(list[i].cacheKey, prefix) then [] else [list[i]];
      }
    }

    // The cached URL, if it is still to be used.
    method Find(cacheKey: string, nowMs: nat) returns (url: Option<Url>)
      ensures url == Lookup(cache, cacheKey, nowMs)
    {
      for i := 0 to |cache|
        invariant Lookup(cache, cacheKey, nowMs) == Lookup(cache[i..], cacheKey, nowMs)
      {
        assert cache[i..][1..] == cache[i + 1..];
        if cache[i].cacheKey == cacheKey {
          return if cache[i].expiresAtMs > nowMs then Some(cache[i].url) else None;
        }
      }
      url := None;
    }
  }
}
