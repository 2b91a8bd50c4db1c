/** The DNS resolver's caches and its shared lookups. The process-wide cache is a dictionary
    in insertion order; overwriting an entry keeps its place. */
module DnsCache {
  import opened Bytes

  const CACHE_TTL: real := 60.0
  const CACHE_MAX: nat := 512

  datatype Entry = Entry(name: string, expires: real, addrs: seq<Ip4>)

  // ---- The shared cache ----

  predicate Distinct(cache: seq<Entry>) {
    forall i, j :: 0 <= i < j < |cache| ==> cache[i].name != cache[j].name
  }

  /** The place of a name, or the length if it is absent. */
  function Find(cache: seq<Entry>, name: string): (i: nat)
    ensures i <= |cache|
    ensures i < |cache| ==> cache[i].name == name
    ensures forall j :: 0 <= j < i ==> cache[j].name != name
  {
    if |cache| == 0 || cache[0].name == name then 0 else 1 + Find(cache[1..], name)
  }

  function Lookup(cache: seq<Entry>, name: string): Option<Entry> {
    var i := Find(cache, name);
    if i < |cache| then Some(cache[i]) else None
  }

  function Without(cache: seq<Entry>, i: nat): seq<Entry>
    requires i < |cache|
  {
    cache[..i] + cache[i + 1..]
  }

  function Set(cache: seq<Entry>, e: Entry): seq<Entry> {
    var i := Find(cache, e.name);
    if i < |cache| then cache[i := e] else cache + [e]
  }

  /** The first entry, in insertion order, that expires first. */
  function Oldest(cache: seq<Entry>): (o: nat)
    requires |cache| > 0
    ensures o < |cache|
    ensures forall j :: 0 <= j < |cache| ==> cache[o].expires <= cache[j].expires
    ensures forall j :: 0 <= j < o ==> cache[o].expires < cache[j].expires
  {
    if |cache| == 1 then 0
    else
      var r := 1 + Oldest(cache[1..]);
      if cache[0].expires <= cache[r].expires then 0 else r
  }

  /** `_cache_get`: the addresses, if there and not expired; an expired entry is dropped. */
  function Got(cache: seq<Entry>, name: string, now: real): Option<seq<Ip4>> {
    match Lookup(cache, name)
    case Some(e) => if e.expires < now then None else Some(e.addrs)
    case None => None
  }

  function AfterGet(cache: seq<Entry>, name: string, now: real): seq<Entry> {
    var i := Find(cache, name);
    if i < |cache| && cache[i].expires < now then Without(cache, i) else cache
  }

  /** `_cache_put`. */
  function Put(cache: seq<Entry>, name: string, addrs: seq<Ip4>, now: real): seq<Entry> {
    var room := if |cache| >= CACHE_MAX then Without(cache, Oldest(cache)) else cache;
    Set(room, Entry(name, now + CACHE_TTL, addrs))
  }

  lemma FindUnique(cache: seq<Entry>, i: nat)
    requires Distinct(cache) && i < |cache|
    ensures Find(cache, cache[i].name) == i
  {
  }

  lemma WithoutPlaces(cache: seq<Entry>, i: nat)
    requires i < |cache|
    ensures var w := Without(cache, i);
            |w| == |cache| - 1 && forall j :: 0 <= j < |w| ==> w[j] == if j < i then cache[j] else cache[j + 1]
  {
  }

  lemma WithoutDistinct(cache: seq<Entry>, i: nat)
    requires Distinct(cache) && i < |cache|
    ensures Distinct(Without(cache, i))
  {
    WithoutPlaces(cache, i);
  }

  lemma WithoutMeaning(cache: seq<Entry>, i: nat, name: string)
    requires Distinct(cache) && i < |cache|
    ensures Distinct(Without(cache, i))
    ensures Lookup(Without(cache, i), name) == if name == cache[i].name then None else Lookup(cache, name)
  {
    var w := Without(cache, i);
    WithoutDistinct(cache, i);
    WithoutPlaces(cache, i);
    var f := Find(cache, name);
    if f < |cache| && f != i {
      var g := if f < i then f else f - 1;
      FindUnique(w, g);
    } else {
      NotThere(w, name);
    }
  }

  lemma NotThere(cache: seq<Entry>, name: string)
    requires forall j :: 0 <= j < |cache| ==> cache[j].name != name
    ensures Find(cache, name) == |cache|
  {
  }

  lemma SetMeaning(cache: seq<Entry>, e: Entry, name: string)
    requires Distinct(cache)
    ensures Distinct(Set(cache, e)) && |Set(cache, e)| <= |cache| + 1
    ensures Lookup(Set(cache, e), name) == if name == e.name then Some(e) else Lookup(cache, name)
  {
    var s, i, f := Set(cache, e), Find(cache, e.name), Find(cache, name);
    if name == e.name { FindUnique(s, i); } else if f < |cache| { FindUnique(s, f); }
  }

  /** Both names are there, `a` before `b`. */
  predicate InOrder(cache: seq<Entry>, a: string, b: string) {
    Lookup(cache, a).Some? && Lookup(cache, b).Some? && Find(cache, a) < Find(cache, b)
  }

  lemma MovedUp(cache: seq<Entry>, o: nat, name: string)
    requires Distinct(cache) && o < |cache| && Find(cache, name) < |cache| && name != cache[o].name
    ensures Find(Without(cache, o), name) == if Find(cache, name) < o then Find(cache, name) else Find(cache, name) - 1
  {
    WithoutDistinct(cache, o);
    WithoutPlaces(cache, o);
    var i := Find(cache, name);
    FindUnique(Without(cache, o), if i < o then i else i - 1);
  }

  lemma WithoutKeepsOrder(cache: seq<Entry>, o: nat, a: string, b: string)
    requires Distinct(cache) && o < |cache| && InOrder(cache, a, b) && a != cache[o].name && b != cache[o].name
    ensures InOrder(Without(cache, o), a, b)
  {
    MovedUp(cache, o, a);
    MovedUp(cache, o, b);
    WithoutMeaning(cache, o, a);
    WithoutMeaning(cache, o, b);
  }

  lemma SetKeepsOrder(cache: seq<Entry>, e: Entry, a: string, b: string)
    requires Distinct(cache) && InOrder(cache, a, b)
    ensures InOrder(Set(cache, e), a, b)
  {
    SetMeaning(cache, e, a);
    FindUnique(Set(cache, e), Find(cache, a));
    FindUnique(Set(cache, e), Find(cache, b));
  }

  lemma NewComesLast(cache: seq<Entry>, e: Entry)
    requires Distinct(cache) && Lookup(cache, e.name).None?
    ensures Find(Set(cache, e), e.name) == |cache| == |Set(cache, e)| - 1
  {
    SetMeaning(cache, e, e.name);
    FindUnique(Set(cache, e), |cache|);
  }

  /** Names stay in the order in which they came in, the evicted one aside, and a new name
      comes last; so among entries that expire together the eldest name is evicted. */
  lemma PutKeepsOrder(cache: seq<Entry>, name: string, addrs: seq<Ip4>, now: real, a: string, b: string)
    requires Distinct(cache) && |cache| <= 512 && InOrder(cache, a, b)
    ensures var after := Put(cache, name, addrs, now);
            && (Lookup(cache, name).None? ==> Find(after, name) == |after| - 1)
            && (InOrder(after, a, b)
                || (|cache| == 512 && (a == cache[Oldest(cache)].name || b == cache[Oldest(cache)].name)))
  {
    var o := Oldest(cache);
    var full := |cache| >= CACHE_MAX;
    var room := if full then Without(cache, o) else cache;
    var e := Entry(name, now + CACHE_TTL, addrs);
    if full { WithoutMeaning(cache, o, name); }
    if Lookup(cache, name).None? { NewComesLast(room, e); }
    if !full {
      SetKeepsOrder(room, e, a, b);
    } else if a != cache[o].name && b != cache[o].name {
      WithoutKeepsOrder(cache, o, a, b);
      SetKeepsOrder(room, e, a, b);
    }
  }

  /** Storing a name: it is found afterwards with its new expiry, at most 512 names are kept,
      and of the others exactly one is lost, and only when the cache was full: the one
      stored least recently, as every entry expires one fixed time after it was stored. */
  lemma PutMeaning(cache: seq<Entry>, name: string, addrs: seq<Ip4>, now: real, other: string)
    requires Distinct(cache) && |cache| <= 512
    ensures var after := Put(cache, name, addrs, now);
            && Distinct(after) && |after| <= 512
            && Lookup(after, name) == Some(Entry(name, now + 60.0, addrs))
            && (other != name ==>
                  Lookup(after, other) == if |cache| == 512 && other == cache[Oldest(cache)].name then None
                                          else Lookup(cache, other))
  {
    var room := if |cache| >= CACHE_MAX then Without(cache, Oldest(cache)) else cache;
    if |cache| >= CACHE_MAX { WithoutMeaning(cache, Oldest(cache), other); }
    SetMeaning(room, Entry(name, now + CACHE_TTL, addrs), name);
    SetMeaning(room, Entry(name, now + CACHE_TTL, addrs), other);
  }

  /** A read answers exactly from an unexpired entry and loses nothing but an expired one. */
  lemma GetMeaning(cache: seq<Entry>, name: string, now: real, other: string)
    requires Distinct(cache)
    ensures var after := AfterGet(cache, name, now);
            && Distinct(after) && |after| <= |cache|
            && (Got(cache, name, now).Some? <==> Lookup(after, name).Some?)
            && (Lookup(after, other).Some? ==> Lookup(after, other) == Lookup(cache, other))
            && (Lookup(cache, other).Some? && Lookup(after, other).None? ==>
                  other == name && Lookup(cache, other).value.expires < now)
  {
    var i := Find(cache, name);
    if i < |cache| && cache[i].expires < now {
      WithoutMeaning(cache, i, other);
      WithoutMeaning(cache, i, name);
    }
  }

  // ---- What a lookup yields ----

  /** The addresses the resolver reported, unreadable ones skipped. */
  function Readable(infos: seq<Option<Ip4>>): seq<Ip4> {
    if |infos| == 0 then []
    else match infos[0]
      case Some(ip) => [ip] + Readable(infos[1..])
      case None => Readable(infos[1..])
  }

  /** Later duplicates dropped: `seen` holds what already came. */
  function Fresh(addrs: seq<Ip4>, seen: set<Ip4>): seq<Ip4>
    decreases |addrs|
  {
    if |addrs| == 0 then []
    else if addrs[0] in seen then Fresh(addrs[1..], seen)
    else [addrs[0]] + Fresh(addrs[1..], seen + {addrs[0]})
  }

  function Deduped(addrs: seq<Ip4>): seq<Ip4> { Fresh(addrs, {}) }

  predicate DuplicateFree(s: seq<Ip4>) { forall i, j :: 0 <= i < j < |s| ==> s[i] != s[j] }

  /** `sub` is what is left of `s` after deleting some of its elements. */
  predicate Subsequence(sub: seq<Ip4>, s: seq<Ip4>)
    decreases |s|
  {
    |sub| == 0 || (|s| > 0 && if sub[0] == s[0] then Subsequence(sub[1..], s[1..]) else Subsequence(sub, s[1..]))
  }

  lemma {:induction false} FreshMeaning(addrs: seq<Ip4>, seen: set<Ip4>)
    ensures var f := Fresh(addrs, seen);
            && DuplicateFree(f) && Subsequence(f, addrs)
            && (forall x :: x in f <==> x in addrs && x !in seen)
    decreases |addrs|
  {
    if |addrs| > 0 {
      var rest := addrs[1..];
      assert addrs == [addrs[0]] + rest;
      if addrs[0] in seen {
        FreshMeaning(rest, seen);
        var f := Fresh(rest, seen);
        assert |f| > 0 ==> f[0] in f;
      } else {
        FreshMeaning(rest, seen + {addrs[0]});
        assert Fresh(addrs, seen)[1..] == Fresh(rest, seen + {addrs[0]});
      }
    }
  }

  function First(addrs: seq<Ip4>, x: Ip4): nat
    requires x in addrs
  {
    if addrs[0] == x then 0 else 1 + First(addrs[1..], x)
  }

  /** What is left stands in the order of its first occurrences. */
  lemma {:induction false} FreshKeepsOrder(addrs: seq<Ip4>, seen: set<Ip4>, i: nat, j: nat)
    requires i < j < |Fresh(addrs, seen)|
    ensures var f := Fresh(addrs, seen);
            f[i] in addrs && f[j] in addrs && First(addrs, f[i]) < First(addrs, f[j])
    decreases |addrs|
  {
    var f, rest := Fresh(addrs, seen), addrs[1..];
    FreshMeaning(addrs, seen);
    assert f[i] in f && f[j] in f;
    assert addrs == [addrs[0]] + rest;
    if addrs[0] in seen {
      FreshKeepsOrder(rest, seen, i, j);
    } else {
      var g := Fresh(rest, seen + {addrs[0]});
      assert f == [addrs[0]] + g;
      if i > 0 { FreshKeepsOrder(rest, seen + {addrs[0]}, i - 1, j - 1); }
    }
  }

  /** Reading the resolver's report keeps the readable addresses, one by one, in order. */
  lemma {:induction false} ReadableMeaning(a: seq<Option<Ip4>>, b: seq<Option<Ip4>>, x: Ip4)
    ensures Readable([]) == [] && Readable([None]) == [] && Readable([Some(x)]) == [x]
    ensures Readable(a + b) == Readable(a) + Readable(b)
    decreases |a|
  {
    assert [Some(x)][1..] == [];
    if |a| == 0 {
      assert a + b == b;
    } else {
      ReadableMeaning(a[1..], b, x);
      assert (a + b)[1..] == a[1..] + b;
    }
  }

  /** `filter_resolved_ips` under a policy. */
  function Filtered(ok: Ip4 -> bool, ips: seq<Ip4>): seq<Ip4> {
    if |ips| == 0 then []
    else if ok(ips[0]) then [ips[0]] + Filtered(ok, ips[1..])
    else Filtered(ok, ips[1..])
  }

  lemma {:induction false} FilteredMeaning(ok: Ip4 -> bool, ips: seq<Ip4>)
    ensures var f := Filtered(ok, ips);
            && (forall x :: x in f <==> x in ips && ok(x))
            && (DuplicateFree(ips) ==> DuplicateFree(f))
            && (forall s :: Subsequence(ips, s) ==> Subsequence(f, s))
    decreases |ips|
  {
    if |ips| > 0 {
      var rest := ips[1..];
      FilteredMeaning(ok, rest);
      assert ips == [ips[0]] + rest;
      if ok(ips[0]) { assert Filtered(ok, ips)[1..] == Filtered(ok, rest); }
      forall s | Subsequence(ips, s)
        ensures Subsequence(Filtered(ok, ips), s)
      {
        FilteredFits(ok, ips, s);
      }
    }
  }

  lemma {:induction false} FilteredFits(ok: Ip4 -> bool, ips: seq<Ip4>, s: seq<Ip4>)
    requires Subsequence(ips, s)
    ensures Subsequence(Filtered(ok, ips), s)
    decreases |s|
  {
    if |ips| > 0 {
      if ips[0] == s[0] {
        FilteredFits(ok, ips[1..], s[1..]);
        if ok(ips[0]) {
          assert Filtered(ok, ips)[1..] == Filtered(ok, ips[1..]);
        } else {
          Longer(Filtered(ok, ips[1..]), s);
        }
      } else {
        FilteredFits(ok, ips, s[1..]);
        Longer(Filtered(ok, ips), s);
      }
    }
  }

  /** A subsequence of the tail is one of the whole. */
  lemma {:induction false} Longer(sub: seq<Ip4>, s: seq<Ip4>)
    requires |s| > 0 && Subsequence(sub, s[1..])
    ensures Subsequence(sub, s)
    decreases |s|, |sub|
  {
    if |sub| > 0 && sub[0] == s[0] { DropHead(sub, s[1..]); }
  }

  lemma {:induction false} DropHead(sub: seq<Ip4>, s: seq<Ip4>)
    requires |sub| > 0 && Subsequence(sub, s)
    ensures Subsequence(sub[1..], s)
    decreases |s|, |sub|
  {
    if sub[0] != s[0] { DropHead(sub, s[1..]); }
    Longer(sub[1..], s);
  }
}
