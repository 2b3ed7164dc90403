/** The response cache's store and the operations that use it, each run alone. */
module ServerCacheStore {
  import opened Options
  import opened CacheKeys

  datatype Status = HIT | MISS

  class Store {
    var counters: map<Domain, nat>
    var responses: map<string, string>

    constructor ()
      ensures counters == map[] && responses == map[]
    {
      counters, responses := map[], map[];
    }

    // INCR starts a missing counter at zero.
    method Increment(d: Domain)
      modifies this`counters
      ensures counters == old(counters)[d := (if d in old(counters) then old(counters)[d] else 0) + 1]
    {
      counters := counters[d := (if d in counters then counters[d] else 0) + 1];
    }

    method GetVersions(domains: seq<Domain>) returns (versions: seq<string>)
      ensures |versions| == |domains|
      ensures forall i :: 0 <= i < |domains| ==>
                versions[i] == if domains[i] in counters then Decimal(counters[domains[i]]) else "0"
    {
      versions := [];
      for i := 0 to |domains|
        invariant |versions| == i
        invariant forall k :: 0 <= k < i ==> versions[k] == if domains[k] in counters then Decimal(counters[domains[k]]) else "0"
      {
        versions := versions + [if domains[i] in counters then Decimal(counters[domains[i]]) else "0"];
      }
    }

    /** A hit changes nothing; a miss stores what was computed under the key and nothing else. */
    method GetOrSetJson(key: string, computed: string) returns (status: Status, value: string)
      modifies this`responses
      ensures status == HIT <==> key in old(responses)
      ensures status == HIT ==> value == old(responses)[key] && responses == old(responses)
      ensures status == MISS ==> value == computed && responses == old(responses)[key := computed]
    {
      if key in responses {
        return HIT, responses[key];
      }
      responses := responses[key := computed];
      return MISS, computed;
    }

    /** Each named domain's counter grows by exactly one, however often it is named; nothing else changes. */
    method Invalidate(domains: seq<Domain>)
      modifies this`counters
      ensures forall d :: d in domains ==>
                d in counters && counters[d] == (if d in old(counters) then old(counters)[d] else 0) + 1
      ensures forall d :: d !in domains ==>
                (d in counters <==> d in old(counters)) && (d in counters ==> counters[d] == old(counters)[d])
    {
      var remaining := set d | d in domains;
      while remaining != {}
        invariant forall d :: d in remaining ==> d in domains
        invariant forall d :: d in domains && d !in remaining ==>
                    d in counters && counters[d] == (if d in old(counters) then old(counters)[d] else 0) + 1
        invariant forall d :: d !in domains || d in remaining ==>
                    (d in counters <==> d in old(counters)) && (d in counters ==> counters[d] == old(counters)[d])
        decreases remaining
      {
        var d :| d in remaining;
        Increment(d);
        remaining := remaining - {d};
      }
    }
  }
}
