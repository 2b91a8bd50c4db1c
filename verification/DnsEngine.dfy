/** The resolver's dictionaries, updated in place. A query appears as the methods that run
    before and after its wait for a lookup. */
module DnsEngine {
  import opened Bytes
  import opened DnsCache
  import opened DnsRuns

  /** The module-wide dictionaries: `cache` in insertion order, and the lookups in flight,
      numbered in the order they were started. */
  class Shared {
    var cache: seq<Entry>
    var inflight: map<string, nat>
    var started: nat

    constructor ()
      ensures cache == [] && inflight == map[] && started == 0
    {
      cache, inflight, started := [], map[], 0;
    }

    /** These are the module-wide dictionaries of `w`. */
    ghost predicate Reflects(w: World)
      reads this
    {
      cache == w.shared && inflight == w.inflight && started == |w.tasks|
    }

    method CacheGet(hostname: string, now: real) returns (r: Option<seq<Ip4>>)
      modifies this`cache
      ensures r == Got(old(cache), hostname, now) && cache == AfterGet(old(cache), hostname, now)
    {
      var i := Find(cache, hostname);
      if i == |cache| { return None; }
      if cache[i].expires < now {
        cache := Without(cache, i);
        return None;
      }
      r := Some(cache[i].addrs);
    }

    /** The first of the entries that expire first. */
    method ExpiresFirst() returns (o: nat)
      requires |cache| > 0
      ensures o == Oldest(cache)
    {
      o := 0;
      for i := 1 to |cache|
        invariant o < i
        invariant forall j :: 0 <= j < i ==> cache[o].expires <= cache[j].expires
        invariant forall j :: 0 <= j < o ==> cache[o].expires < cache[j].expires
      {
        if cache[i].expires < cache[o].expires { o := i; }
      }
    }

    method CachePut(hostname: string, addrs: seq<Ip4>, now: real)
      modifies this`cache
      ensures cache == Put(old(cache), hostname, addrs, now)
    {
      if |cache| >= CACHE_MAX {
        var oldest := ExpiresFirst();
        cache := Without(cache, oldest);
      }
      cache := Set(cache, Entry(hostname, now + CACHE_TTL, addrs));
    }

    /** The rest of lookup `k` once the host's resolver has reported. */
    method LookupReported(hostname: string, report: Report, now: real,
                          ghost w: World, ghost k: nat)
      returns (deduped: seq<Ip4>)
      requires Reflects(w) && Enabled(w, LookupDone(k, report)) && w.tasks[k].name == hostname && now == w.now
      modifies this`cache
      ensures deduped == ListOf(report) && Reflects(Step(w, LookupDone(k, report)))
    {
      deduped := [];
      if report.Some? {
        var addrs := Collect(report.value);
        deduped := Dedup(addrs);
      }
      CachePut(hostname, deduped, now);
    }

    method Collect(infos: seq<Option<Ip4>>) returns (addrs: seq<Ip4>)
      ensures addrs == Readable(infos)
    {
      addrs := [];
      assert infos[0..] == infos;
      for i := 0 to |infos|
        invariant addrs + Readable(infos[i..]) == Readable(infos)
      {
        assert infos[i..][1..] == infos[i + 1..];
        if infos[i].Some? {
          Assoc(addrs, [infos[i].value], Readable(infos[i + 1..]));
          addrs := addrs + [infos[i].value];
        }
      }
    }

    method Dedup(addrs: seq<Ip4>) returns (deduped: seq<Ip4>)
      ensures deduped == Deduped(addrs)
    {
      var seen: set<Ip4> := {};
      deduped := [];
      assert addrs[0..] == addrs;
      for i := 0 to |addrs|
        invariant deduped + Fresh(addrs[i..], seen) == Deduped(addrs)
      {
        assert addrs[i..][1..] == addrs[i + 1..];
        if addrs[i] !in seen {
          Assoc(deduped, [addrs[i]], Fresh(addrs[i + 1..], seen + {addrs[i]}));
          deduped := deduped + [addrs[i]];
          seen := seen + {addrs[i]};
        }
      }
    }

    /** The callback of lookup `k`, run once it has finished. */
    method Forget(hostname: string, ghost w: World, ghost k: nat)
      requires Reflects(w) && Enabled(w, Callback(k)) && w.tasks[k].name == hostname
      modifies this`inflight
      ensures Reflects(Step(w, Callback(k)))
    {
      inflight := inflight - {hostname};
    }
  }

  /** A query answered at once, or left waiting for a lookup. */
  datatype Resolution = Ready(addrs: seq<Ip4>) | Waiting(task: nat)

  class DnsResolver {
    var cache: map<string, seq<Ip4>>
    const shared: Shared

    constructor (shared: Shared)
      ensures cache == map[] && this.shared == shared
    {
      cache, this.shared := map[], shared;
    }

    /** This resolver is instance `inst` of `w`, and its dictionaries are those of `w`. */
    ghost predicate Reflects(w: World, inst: nat)
      reads this, shared
    {
      inst < |w.caches| == |w.origin| && cache == w.caches[inst] && shared.Reflects(w)
    }

    method FilterResolvedIps(ok: Ip4 -> bool, ips: seq<Ip4>) returns (out: seq<Ip4>)
      ensures out == Filtered(ok, ips)
    {
      out := [];
      assert ips[0..] == ips;
      for i := 0 to |ips|
        invariant out + Filtered(ok, ips[i..]) == Filtered(ok, ips)
      {
        assert ips[i..][1..] == ips[i + 1..];
        if ok(ips[i]) {
          Assoc(out, [ips[i]], Filtered(ok, ips[i + 1..]));
          out := out + [ips[i]];
        }
      }
    }

    /** A query up to its answer or its wait. */
    method ResolveA(hostname: string, ok: Ip4 -> bool, now: real, ghost w: World, ghost inst: nat)
      returns (r: Resolution)
      requires Reflects(w, inst) && w.now == now
      modifies this, shared
      ensures Reflects(Step(w, Ask(inst, hostname, ok)), inst)
      ensures var v := Step(w, Ask(inst, hostname, ok));
              match r
              case Ready(addrs) =>
                && |v.answers| == |w.answers| + 1 && v.answers[..|w.answers|] == w.answers && v.waiters == w.waiters
                && v.answers[|w.answers|].name == hostname && v.answers[|w.answers|].addrs == addrs
              case Waiting(task) =>
                v.answers == w.answers && v.waiters == w.waiters + [Waiter(inst, hostname, task, now)]
    {
      if hostname in cache {
        var known := FilterResolvedIps(ok, cache[hostname]);
        return Ready(known);
      }
      var hit := shared.CacheGet(hostname, now);
      if hit.Some? {
        cache := cache[hostname := hit.value];
        var current := FilterResolvedIps(ok, hit.value);
        return Ready(current);
      }
      if hostname !in shared.inflight {
        shared.inflight := shared.inflight[hostname := shared.started];
        shared.started := shared.started + 1;
      }
      r := Waiting(shared.inflight[hostname]);
    }

    /** The rest of a query whose lookup finished in time. */
    method LookupDelivered(hostname: string, deduped: seq<Ip4>, ok: Ip4 -> bool,
                           ghost w: World, ghost inst: nat, ghost j: nat)
      returns (addrs: seq<Ip4>)
      requires Reflects(w, inst) && Enabled(w, Deliver(j, ok))
      requires w.waiters[j].inst == inst && w.waiters[j].name == hostname
      requires deduped == ListOf(w.tasks[w.waiters[j].task].status.report)
      modifies this
      ensures Reflects(Step(w, Deliver(j, ok)), inst)
      ensures Step(w, Deliver(j, ok)).answers
           == w.answers + [Answer(hostname, addrs, w.waiters[j].task, w.now, ok)]
    {
      cache := cache[hostname := deduped];
      addrs := FilterResolvedIps(ok, deduped);
    }
  }
}
