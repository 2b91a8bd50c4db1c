/** Resolvers sharing one cache and one lookup per name, over whole runs. The policy that
    filters an answer is the one read at that moment, so it comes with the event. */
module DnsRuns {
  import opened Bytes
  import opened DnsCache

  /** What the host's resolver reported: a failure, or address strings, some unreadable. */
  type Report = Option<seq<Option<Ip4>>>

  function ListOf(r: Report): seq<Ip4> {
    match r
    case None => []
    case Some(infos) => Deduped(Readable(infos))
  }

  /** A lookup runs, or has finished; `forgotten` is when its callback took it out of flight. */
  datatype Status = Pending | Finished(report: Report, at: real, forgotten: Option<real>)

  datatype Task = Task(name: string, status: Status)

  /** A query waiting, since it was asked, for a lookup on behalf of one resolver instance. */
  datatype Waiter = Waiter(inst: nat, name: string, task: nat, asked: real)

  /** A list handed to a query, with the lookup it came from, the time and the policy. */
  datatype Answer = Answer(name: string, addrs: seq<Ip4>, from: nat, at: real, ok: Ip4 -> bool)

  /** The first row is the program's state. `stored` and `origin` are history: the lookup
      each entry of the shared cache and of the instances' caches came from. */
  datatype World = World(
    now: real, shared: seq<Entry>, inflight: map<string, nat>, tasks: seq<Task>, caches: seq<map<string, seq<Ip4>>>,
    waiters: seq<Waiter>, answers: seq<Answer>, stored: map<string, nat>, origin: seq<map<string, nat>>)

  const START := World(0.0, [], map[], [], [], [], [], map[], [])

  datatype Event =
    | NewResolver
    | Ask(inst: nat, name: string, ok: Ip4 -> bool)
    | LookupDone(k: nat, report: Report)
    | Callback(k: nat)
    | Deliver(j: nat, ok: Ip4 -> bool)
    | TimeOut(j: nat)
    | Tick(d: real)

  predicate Enabled(w: World, e: Event) {
    match e
    case NewResolver => true
    case Ask(inst, _, _) => inst < |w.caches| == |w.origin|
    case LookupDone(k, _) => k < |w.tasks| && w.tasks[k].status.Pending?
    case Callback(k) => k < |w.tasks| && w.tasks[k].status.Finished? && w.tasks[k].status.forgotten == None
    case Deliver(j, _) =>
      && j < |w.waiters| && w.waiters[j].inst < |w.caches| == |w.origin|
      && w.waiters[j].task < |w.tasks| && w.tasks[w.waiters[j].task].status.Finished?
    case TimeOut(j) => j < |w.waiters|
    case Tick(d) => d > 0.0
  }

  function StoredBy(w: World, name: string): nat { if name in w.stored then w.stored[name] else 0 }

  function OriginOf(w: World, inst: nat, name: string): nat {
    if inst < |w.origin| && name in w.origin[inst] then w.origin[inst][name] else 0
  }

  /** A query answered from lookup `from`, which enters the instance's cache. */
  function Answered(w: World, ok: Ip4 -> bool, inst: nat, name: string, addrs: seq<Ip4>, from: nat): World
    requires inst < |w.caches| == |w.origin|
  {
    var known: map<string, nat> := w.origin[inst][name := from];
    w.(caches := w.caches[inst := w.caches[inst][name := addrs]], origin := w.origin[inst := known],
       answers := w.answers + [Answer(name, Filtered(ok, addrs), from, w.now, ok)])
  }

  /** A query that no cache answers joins the lookup of its name, started if need be. */
  function Joined(w: World, inst: nat, name: string): World {
    if name in w.inflight then w.(waiters := w.waiters + [Waiter(inst, name, w.inflight[name], w.now)])
    else w.(tasks := w.tasks + [Task(name, Pending)], inflight := w.inflight[name := |w.tasks|],
            waiters := w.waiters + [Waiter(inst, name, |w.tasks|, w.now)])
  }

  function Asked(w: World, ok: Ip4 -> bool, inst: nat, name: string): World
    requires inst < |w.caches| == |w.origin|
  {
    if name in w.caches[inst] then
      w.(answers := w.answers + [Answer(name, Filtered(ok, w.caches[inst][name]), OriginOf(w, inst, name), w.now, ok)])
    else
      var v := w.(shared := AfterGet(w.shared, name, w.now));
      match Got(w.shared, name, w.now)
      case Some(addrs) => Answered(v, ok, inst, name, addrs, StoredBy(w, name))
      case None => Joined(v, inst, name)
  }

  function Dropped(ws: seq<Waiter>, j: nat): seq<Waiter>
    requires j < |ws|
  {
    ws[..j] + ws[j + 1..]
  }

  function Step(w: World, e: Event): World
    requires Enabled(w, e)
  {
    match e
    case NewResolver => w.(caches := w.caches + [map[]], origin := w.origin + [map[]])
    case Ask(inst, name, ok) => Asked(w, ok, inst, name)
    case LookupDone(k, report) =>
      w.(tasks := w.tasks[k := w.tasks[k].(status := Finished(report, w.now, None))],
         shared := Put(w.shared, w.tasks[k].name, ListOf(report), w.now),
         stored := w.stored[w.tasks[k].name := k])
    case Callback(k) =>
      w.(tasks := w.tasks[k := w.tasks[k].(status := w.tasks[k].status.(forgotten := Some(w.now)))],
         inflight := w.inflight - {w.tasks[k].name})
    case Deliver(j, ok) =>
      var q := w.waiters[j];
      Answered(w.(waiters := Dropped(w.waiters, j)), ok, q.inst, q.name, ListOf(w.tasks[q.task].status.report), q.task)
    case TimeOut(j) => w.(waiters := Dropped(w.waiters, j))
    case Tick(d) => w.(now := w.now + d)
  }

  // ---- The invariant ----

  /** Lookup `k` of `name` has finished with these addresses. */
  predicate Yielded(w: World, k: nat, name: string, addrs: seq<Ip4>) {
    && k < |w.tasks| && w.tasks[k].name == name && w.tasks[k].status.Finished?
    && ListOf(w.tasks[k].status.report) == addrs
  }

  /** The entry is the result of the lookup that stored it, and expires a fixed time after
      that finished. */
  predicate Backed(w: World, e: Entry) {
    && Yielded(w, StoredBy(w, e.name), e.name, e.addrs)
    && w.tasks[StoredBy(w, e.name)].status.at + CACHE_TTL == e.expires
  }

  ghost predicate SharedOk(w: World) {
    && Distinct(w.shared) && |w.shared| <= CACHE_MAX
    && forall e :: e in w.shared ==> Backed(w, e)
  }

  ghost predicate CachesOk(w: World) {
    && |w.origin| == |w.caches|
    && forall i, name :: 0 <= i < |w.caches| && name in w.caches[i] ==>
         Yielded(w, OriginOf(w, i, name), name, w.caches[i][name])
  }

  /** The lookup is pending, or its callback has not run yet. */
  predicate Flying(t: Task) { t.status.Pending? || t.status.forgotten == None }

  /** ... or had not when the query came. */
  predicate FlyingAt(t: Task, asked: real) { Flying(t) || t.status.forgotten.value >= asked }

  /** In flight for a name is exactly its lookup that is flying; a query waits for one that was
      when it came. */
  ghost predicate FlightsOk(w: World) {
    && (forall k :: 0 <= k < |w.tasks| && Flying(w.tasks[k]) ==>
          w.tasks[k].name in w.inflight && w.inflight[w.tasks[k].name] == k)
    && (forall name :: name in w.inflight ==>
          && w.inflight[name] < |w.tasks| && w.tasks[w.inflight[name]].name == name
          && Flying(w.tasks[w.inflight[name]]))
    && (forall j :: 0 <= j < |w.waiters| ==>
          && w.waiters[j].inst < |w.caches| && w.waiters[j].task < |w.tasks| && w.waiters[j].asked <= w.now
          && w.tasks[w.waiters[j].task].name == w.waiters[j].name
          && FlyingAt(w.tasks[w.waiters[j].task], w.waiters[j].asked))
  }

  predicate AnswerOk(w: World, a: Answer) {
    && a.from < |w.tasks| && w.tasks[a.from].name == a.name && w.tasks[a.from].status.Finished?
    && a.addrs == Filtered(a.ok, ListOf(w.tasks[a.from].status.report))
    && w.tasks[a.from].status.at <= a.at <= w.now
  }

  ghost predicate AnswersOk(w: World) {
    forall i :: 0 <= i < |w.answers| ==> AnswerOk(w, w.answers[i])
  }

  predicate PastLookups(w: World) {
    forall k :: 0 <= k < |w.tasks| && w.tasks[k].status.Finished? ==> w.tasks[k].status.at <= w.now
  }

  ghost predicate Inv(w: World) {
    PastLookups(w) && SharedOk(w) && CachesOk(w) && FlightsOk(w) && AnswersOk(w)
  }

  // ---- Steps keep it ----

  /** Lookups are only added, a finished one keeps its result, and time goes on. */
  predicate Grown(w: World, v: World) {
    && w.now <= v.now && |w.tasks| <= |v.tasks|
    && forall k :: 0 <= k < |w.tasks| && w.tasks[k].status.Finished? ==>
         && v.tasks[k].name == w.tasks[k].name && v.tasks[k].status.Finished?
         && v.tasks[k].status.report == w.tasks[k].status.report && v.tasks[k].status.at == w.tasks[k].status.at
  }

  /** Everything handed out or kept stays accounted for when lookups are only added. */
  lemma RestStays(w: World, v: World)
    requires SharedOk(w) && CachesOk(w) && AnswersOk(w) && Grown(w, v)
    ensures v.shared == w.shared && v.stored == w.stored ==> SharedOk(v)
    ensures v.caches == w.caches && v.origin == w.origin ==> CachesOk(v)
    ensures v.answers == w.answers ==> AnswersOk(v)
  {
    forall e | e in w.shared && v.stored == w.stored
      ensures Backed(v, e)
    {
      assert Backed(w, e);
    }
    forall i, name | 0 <= i < |w.caches| && name in w.caches[i] && v.origin == w.origin
      ensures Yielded(v, OriginOf(v, i, name), name, w.caches[i][name])
    {
      assert Yielded(w, OriginOf(w, i, name), name, w.caches[i][name]);
    }
    forall i | 0 <= i < |w.answers|
      ensures AnswerOk(v, w.answers[i])
    {
      assert AnswerOk(w, w.answers[i]);
    }
  }

  lemma AnsweredKeeps(w: World, ok: Ip4 -> bool, inst: nat, name: string, addrs: seq<Ip4>, from: nat)
    requires Inv(w) && inst < |w.caches| && Yielded(w, from, name, addrs)
    ensures Inv(Answered(w, ok, inst, name, addrs, from))
  {
    var v := Answered(w, ok, inst, name, addrs, from);
    RestStays(w, v);
    forall i, m | 0 <= i < |v.caches| && m in v.caches[i]
      ensures Yielded(v, OriginOf(v, i, m), m, v.caches[i][m])
    {
      if !(i == inst && m == name) {
        assert Yielded(w, OriginOf(w, i, m), m, w.caches[i][m]) && OriginOf(v, i, m) == OriginOf(w, i, m);
      }
    }
  }

  lemma WithoutSubset(cache: seq<Entry>, i: nat)
    requires i < |cache|
    ensures forall e :: e in Without(cache, i) ==> e in cache
  {
  }

  lemma GetKeepsShared(w: World, name: string)
    requires SharedOk(w)
    ensures SharedOk(w.(shared := AfterGet(w.shared, name, w.now)))
  {
    var v := w.(shared := AfterGet(w.shared, name, w.now));
    GetMeaning(w.shared, name, w.now, name);
    forall e | e in v.shared
      ensures Backed(v, e)
    {
      if Find(w.shared, name) < |w.shared| { WithoutSubset(w.shared, Find(w.shared, name)); }
      assert Backed(w, e);
    }
  }

  /** A shared hit is the result of the lookup recorded for it. */
  lemma HitIsStored(w: World, name: string)
    requires SharedOk(w) && Got(w.shared, name, w.now).Some?
    ensures var k := StoredBy(w, name);
            Yielded(w, k, name, Got(w.shared, name, w.now).value) && w.now <= w.tasks[k].status.at + CACHE_TTL
  {
    assert Backed(w, w.shared[Find(w.shared, name)]);
  }

  lemma LookKeeps(w: World, name: string)
    requires Inv(w)
    ensures Inv(w.(shared := AfterGet(w.shared, name, w.now)))
  {
    GetKeepsShared(w, name);
    RestStays(w, w.(shared := AfterGet(w.shared, name, w.now)));
  }

  lemma JoinKeeps(w: World, inst: nat, name: string)
    requires Inv(w) && inst < |w.caches|
    ensures Inv(Joined(w, inst, name))
  {
    RestStays(w, Joined(w, inst, name));
  }

  lemma AskKeeps(w: World, ok: Ip4 -> bool, inst: nat, name: string)
    requires Inv(w) && inst < |w.caches|
    ensures Inv(Asked(w, ok, inst, name))
  {
    if name in w.caches[inst] {
      RestStays(w, Asked(w, ok, inst, name));
    } else {
      var g := w.(shared := AfterGet(w.shared, name, w.now));
      LookKeeps(w, name);
      if Got(w.shared, name, w.now).Some? {
        HitIsStored(w, name);
        AnsweredKeeps(g, ok, inst, name, Got(w.shared, name, w.now).value, StoredBy(w, name));
      } else {
        JoinKeeps(g, inst, name);
      }
    }
  }

  lemma PutKeepsShared(w: World, v: World, k: nat, report: Report)
    requires SharedOk(w) && k < |w.tasks| && Grown(w, v) && v.stored == w.stored[w.tasks[k].name := k]
    requires v.shared == Put(w.shared, w.tasks[k].name, ListOf(report), w.now)
    requires Yielded(v, k, w.tasks[k].name, ListOf(report)) && v.tasks[k].status.at == w.now
    ensures SharedOk(v)
  {
    var name := w.tasks[k].name;
    PutMeaning(w.shared, name, ListOf(report), w.now, name);
    var entry := Entry(name, w.now + CACHE_TTL, ListOf(report));
    if |w.shared| >= CACHE_MAX { WithoutSubset(w.shared, Oldest(w.shared)); }
    forall e | e in v.shared
      ensures Backed(v, e)
    {
      if e.name == name {
        var i :| 0 <= i < |v.shared| && v.shared[i] == e;
        FindUnique(v.shared, i);
      } else {
        assert Backed(w, e);
      }
    }
  }

  lemma LookupDoneKeeps(w: World, k: nat, report: Report)
    requires Inv(w) && Enabled(w, LookupDone(k, report))
    ensures Inv(Step(w, LookupDone(k, report)))
  {
    var v := Step(w, LookupDone(k, report));
    RestStays(w, v);
    PutKeepsShared(w, v, k, report);
  }

  lemma DeliverKeeps(w: World, j: nat, ok: Ip4 -> bool)
    requires Inv(w) && Enabled(w, Deliver(j, ok))
    ensures Inv(Step(w, Deliver(j, ok)))
  {
    var q, v := w.waiters[j], w.(waiters := Dropped(w.waiters, j));
    RestStays(w, v);
    AnsweredKeeps(v, ok, q.inst, q.name, ListOf(w.tasks[q.task].status.report), q.task);
  }

  lemma NewResolverKeeps(w: World)
    requires Inv(w)
    ensures Inv(Step(w, NewResolver))
  {
    var v := Step(w, NewResolver);
    RestStays(w, v);
    forall i, name | 0 <= i < |v.caches| && name in v.caches[i]
      ensures Yielded(v, OriginOf(v, i, name), name, v.caches[i][name])
    {
      assert Yielded(w, OriginOf(w, i, name), name, w.caches[i][name]);
    }
  }

  lemma CallbackKeeps(w: World, k: nat)
    requires Inv(w) && Enabled(w, Callback(k))
    ensures Inv(Step(w, Callback(k)))
  {
    RestStays(w, Step(w, Callback(k)));
  }

  lemma TimeOutKeeps(w: World, j: nat)
    requires Inv(w) && Enabled(w, TimeOut(j))
    ensures Inv(Step(w, TimeOut(j)))
  {
    RestStays(w, Step(w, TimeOut(j)));
  }

  lemma StepKeeps(w: World, e: Event)
    requires Inv(w) && Enabled(w, e)
    ensures Inv(Step(w, e))
  {
    match e
    case Ask(inst, name, ok) => AskKeeps(w, ok, inst, name);
    case LookupDone(k, report) => LookupDoneKeeps(w, k, report);
    case Deliver(j, ok) => DeliverKeeps(w, j, ok);
    case NewResolver => NewResolverKeeps(w);
    case Callback(k) => CallbackKeeps(w, k);
    case TimeOut(j) => TimeOutKeeps(w, j);
    case Tick(_) => RestStays(w, Step(w, e));
  }

  // ---- Runs ----

  predicate CanRun(w: World, es: seq<Event>)
    decreases |es|
  {
    |es| == 0 || (Enabled(w, es[0]) && CanRun(Step(w, es[0]), es[1..]))
  }

  function After(w: World, es: seq<Event>): World
    requires CanRun(w, es)
    decreases |es|
  {
    if |es| == 0 then w else After(Step(w, es[0]), es[1..])
  }

  lemma {:induction false} RunKeeps(w: World, es: seq<Event>)
    requires Inv(w) && CanRun(w, es)
    ensures Inv(After(w, es))
    decreases |es|
  {
    if |es| > 0 {
      StepKeeps(w, es[0]);
      RunKeeps(Step(w, es[0]), es[1..]);
    }
  }

  /** In every reachable state: a name is in flight exactly while a lookup of it is pending or
      has a callback still to run, and that is the one in flight; there is at most one such
      lookup per name, and at most 512 names are shared. */
  lemma SingleFlightAndBound(es: seq<Event>)
    requires CanRun(START, es)
    ensures var w := After(START, es);
            && |w.shared| <= 512 && Distinct(w.shared)
            && (forall i, j :: 0 <= i < j < |w.tasks| && Flying(w.tasks[i]) && Flying(w.tasks[j]) ==>
                  w.tasks[i].name != w.tasks[j].name)
            && (forall name, k: nat :: name in w.inflight && w.inflight[name] == k <==>
                  k < |w.tasks| && w.tasks[k].name == name && Flying(w.tasks[k]))
  {
    RunKeeps(START, es);
  }

  /** The event asks for the answer's name, or delivers a lookup, under the answer's policy. */
  ghost predicate Gives(e: Event, w: World, a: Answer) {
    match e
    case Ask(_, name, ok) => name == a.name && ok == a.ok
    case Deliver(j, ok) => j < |w.waiters| && w.waiters[j].name == a.name && ok == a.ok
    case _ => false
  }

  ghost predicate GivenBy(w: World, es: seq<Event>, a: Answer)
    requires CanRun(w, es)
    decreases |es|
  {
    |es| > 0 && (Gives(es[0], w, a) || GivenBy(Step(w, es[0]), es[1..], a))
  }

  lemma AnswersGrow(w: World, e: Event)
    requires Enabled(w, e)
    ensures |w.answers| <= |Step(w, e).answers| <= |w.answers| + 1
    ensures forall i :: 0 <= i < |w.answers| ==> Step(w, e).answers[i] == w.answers[i]
    ensures |Step(w, e).answers| > |w.answers| ==> Gives(e, w, Step(w, e).answers[|w.answers|])
  {
  }

  lemma {:induction false} LaterAnswersGiven(w: World, es: seq<Event>, i: nat)
    requires CanRun(w, es) && i < |After(w, es).answers|
    ensures if i < |w.answers| then After(w, es).answers[i] == w.answers[i] else GivenBy(w, es, After(w, es).answers[i])
    decreases |es|
  {
    if |es| > 0 {
      AnswersGrow(w, es[0]);
      LaterAnswersGiven(Step(w, es[0]), es[1..], i);
    }
  }

  /** Every list any query was ever given is the choice of the policy read when it was
      given, without duplicates and in the resolver's order, from a finished lookup of that
      very name. */
  lemma AnswersComeFromLookups(es: seq<Event>, i: nat)
    requires CanRun(START, es) && i < |After(START, es).answers|
    ensures var w := After(START, es);
            var a := w.answers[i];
            && a.from < |w.tasks| && w.tasks[a.from].name == a.name && w.tasks[a.from].status.Finished?
            && w.tasks[a.from].status.at <= a.at && GivenBy(START, es, a)
            && DuplicateFree(a.addrs)
            && (match w.tasks[a.from].status.report
                case None => a.addrs == []
                case Some(infos) =>
                  && Subsequence(a.addrs, Readable(infos))
                  && forall x :: x in a.addrs <==> x in Readable(infos) && a.ok(x))
  {
    RunKeeps(START, es);
    var w := After(START, es);
    var a := w.answers[i];
    LaterAnswersGiven(START, es, i);
    assert AnswerOk(w, a);
    FilteredMeaning(a.ok, ListOf(w.tasks[a.from].status.report));
    if w.tasks[a.from].status.report.Some? {
      FreshMeaning(Readable(w.tasks[a.from].status.report.value), {});
    }
  }

  /** Over every run: a query that no cache answers joins the lookup of its name that is
      flying, or, if there is none, one that it starts. */
  lemma UnansweredQueryWaits(es: seq<Event>, inst: nat, name: string, ok: Ip4 -> bool)
    requires CanRun(START, es) && Enabled(After(START, es), Ask(inst, name, ok))
    requires var w := After(START, es); name !in w.caches[inst] && Got(w.shared, name, w.now) == None
    ensures var w := After(START, es);
            var v := Step(w, Ask(inst, name, ok));
            && v.answers == w.answers && |v.waiters| == |w.waiters| + 1 && v.waiters[..|w.waiters|] == w.waiters
            && var q := v.waiters[|w.waiters|];
               && q.inst == inst && q.name == name && q.asked == w.now && q.task < |v.tasks|
               && v.tasks[q.task].name == name && Flying(v.tasks[q.task])
               && (if exists k :: 0 <= k < |w.tasks| && w.tasks[k].name == name && Flying(w.tasks[k])
                   then v.tasks == w.tasks
                   else v.tasks == w.tasks + [Task(name, Pending)] && q.task == |w.tasks|)
  {
    RunKeeps(START, es);
  }

  /** Over every run: what a waiting query is given is the result of the lookup it waits for,
      and the callback of that lookup had not run when the query came. */
  lemma DeliveryIsCurrent(es: seq<Event>, j: nat, ok: Ip4 -> bool)
    requires CanRun(START, es) && Enabled(After(START, es), Deliver(j, ok))
    ensures var w := After(START, es);
            var v := Step(w, Deliver(j, ok));
            var q := w.waiters[j];
            && w.tasks[q.task].name == q.name && FlyingAt(w.tasks[q.task], q.asked)
            && v.answers == w.answers
                 + [Answer(q.name, Filtered(ok, ListOf(w.tasks[q.task].status.report)), q.task, w.now, ok)]
            && v.caches[q.inst] == w.caches[q.inst][q.name := ListOf(w.tasks[q.task].status.report)]
  {
    RunKeeps(START, es);
  }

  /** A query the shared cache answers gets the result of a lookup that finished at most 60
      seconds ago. */
  lemma SharedAnswersAreFresh(es: seq<Event>, name: string) returns (k: nat)
    requires CanRun(START, es)
    requires var w := After(START, es); Got(w.shared, name, w.now).Some?
    ensures var w := After(START, es);
            && k == StoredBy(w, name) && Yielded(w, k, name, Got(w.shared, name, w.now).value)
            && w.now <= w.tasks[k].status.at + 60.0
  {
    RunKeeps(START, es);
    k := StoredBy(After(START, es), name);
    HitIsStored(After(START, es), name);
  }

  /** The lookup is at most 60 seconds old. */
  predicate Recent(w: World, k: nat) {
    k < |w.tasks| && w.tasks[k].status.Finished? && w.now - w.tasks[k].status.at <= 60.0
  }

  /** A query answered at once is given a list from a lookup at most 60 seconds old if and
      only if its name is not in the instance's own cache, so that the shared one answers it,
      or the lookup behind the instance's list is that recent by chance: the instance's list
      itself is handed out whatever its age. */
  lemma AnswerIsFreshIff(es: seq<Event>, inst: nat, name: string, ok: Ip4 -> bool)
    requires CanRun(START, es) && Enabled(After(START, es), Ask(inst, name, ok))
    ensures var w := After(START, es);
            var v := Step(w, Ask(inst, name, ok));
            && (v.answers != w.answers <==> name in w.caches[inst] || Got(w.shared, name, w.now).Some?)
            && (v.answers != w.answers ==>
                  var a := v.answers[|w.answers|];
                  && v.answers == w.answers + [a] && a.name == name && a.at == w.now && a.ok == ok
                  && (Recent(v, a.from) <==> name !in w.caches[inst] || Recent(w, OriginOf(w, inst, name)))
                  && (name in w.caches[inst] ==>
                        a.from == OriginOf(w, inst, name) && a.addrs == Filtered(ok, w.caches[inst][name])))
  {
    RunKeeps(START, es);
    var w := After(START, es);
    if name in w.caches[inst] {
      assert Yielded(w, OriginOf(w, inst, name), name, w.caches[inst][name]);
    } else if Got(w.shared, name, w.now).Some? {
      HitIsStored(w, name);
    }
  }

  /** A query leaves the shared cache alone, but for an expired entry of its own name that the
      instance's cache did not spare it. */
  lemma QueryDropsOnlyExpired(es: seq<Event>, inst: nat, name: string, ok: Ip4 -> bool, other: string)
    requires CanRun(START, es) && Enabled(After(START, es), Ask(inst, name, ok))
    ensures var w := After(START, es);
            var was := Lookup(w.shared, other);
            var dropped := other == name && name !in w.caches[inst] && was.Some? && was.value.expires < w.now;
            Lookup(Step(w, Ask(inst, name, ok)).shared, other) == if dropped then None else was
  {
    RunKeeps(START, es);
    GetMeaning(After(START, es).shared, name, After(START, es).now, other);
  }

  // ---- Every query is accounted for ----

  /** The names asked for, and those of the queries that gave up waiting. */
  function Asking(e: Event): multiset<string> { if e.Ask? then multiset{e.name} else multiset{} }

  function AskedFor(es: seq<Event>): multiset<string> {
    if |es| == 0 then multiset{} else Asking(es[0]) + AskedFor(es[1..])
  }

  function GivingUp(w: World, e: Event): multiset<string>
    requires Enabled(w, e)
  {
    if e.TimeOut? then multiset{w.waiters[e.j].name} else multiset{}
  }

  function GaveUp(w: World, es: seq<Event>): multiset<string>
    requires CanRun(w, es)
    decreases |es|
  {
    if |es| == 0 then multiset{} else GivingUp(w, es[0]) + GaveUp(Step(w, es[0]), es[1..])
  }

  function NamesOf(answers: seq<Answer>): multiset<string> {
    if |answers| == 0 then multiset{}
    else NamesOf(answers[..|answers| - 1]) + multiset{answers[|answers| - 1].name}
  }

  function NamesWaiting(ws: seq<Waiter>): multiset<string> {
    if |ws| == 0 then multiset{} else NamesWaiting(ws[..|ws| - 1]) + multiset{ws[|ws| - 1].name}
  }

  lemma OneWaiterMore(ws: seq<Waiter>, q: Waiter)
    ensures NamesWaiting(ws + [q]) == NamesWaiting(ws) + multiset{q.name}
  {
    assert (ws + [q])[..|ws|] == ws;
  }

  lemma DroppedBehind(ws: seq<Waiter>, j: nat, last: Waiter)
    requires j < |ws|
    ensures Dropped(ws + [last], j) == Dropped(ws, j) + [last]
  {
  }

  lemma {:induction false} DroppedName(ws: seq<Waiter>, j: nat)
    requires j < |ws|
    ensures NamesWaiting(ws) == NamesWaiting(Dropped(ws, j)) + multiset{ws[j].name}
    decreases |ws|
  {
    var init, last := ws[..|ws| - 1], ws[|ws| - 1];
    assert ws == init + [last];
    if j < |init| {
      DroppedName(init, j);
      DroppedBehind(init, j, last);
      OneWaiterMore(Dropped(init, j), last);
    } else {
      assert Dropped(ws, j) == init;
    }
  }

  function Held(w: World): multiset<string> { NamesOf(w.answers) + NamesWaiting(w.waiters) }

  lemma OneAnswerMore(answers: seq<Answer>, a: Answer)
    ensures NamesOf(answers + [a]) == NamesOf(answers) + multiset{a.name}
  {
    assert (answers + [a])[..|answers|] == answers;
  }

  lemma AnswerMore(w: World, v: World, a: Answer)
    requires v.answers == w.answers + [a] && v.waiters == w.waiters
    ensures Held(v) == Held(w) + multiset{a.name}
  {
    OneAnswerMore(w.answers, a);
  }

  lemma WaiterMore(w: World, v: World, q: Waiter)
    requires v.answers == w.answers && v.waiters == w.waiters + [q]
    ensures Held(v) == Held(w) + multiset{q.name}
  {
    OneWaiterMore(w.waiters, q);
  }

  /** A query is answered at once or waits. */
  lemma AskTakesIn(w: World, inst: nat, name: string, ok: Ip4 -> bool)
    requires Enabled(w, Ask(inst, name, ok))
    ensures Held(Asked(w, ok, inst, name)) == Held(w) + multiset{name}
  {
    var v := Asked(w, ok, inst, name);
    if name in w.caches[inst] || Got(w.shared, name, w.now).Some? {
      AnswerMore(w, v, v.answers[|w.answers|]);
    } else {
      WaiterMore(w, v, v.waiters[|w.waiters|]);
    }
  }

  lemma DeliverHandsOver(w: World, j: nat, ok: Ip4 -> bool)
    requires Enabled(w, Deliver(j, ok))
    ensures Held(Step(w, Deliver(j, ok))) == Held(w)
  {
    DroppedName(w.waiters, j);
    OneAnswerMore(w.answers, Step(w, Deliver(j, ok)).answers[|w.answers|]);
  }

  lemma StepAccounts(w: World, e: Event)
    requires Enabled(w, e)
    ensures Held(Step(w, e)) + GivingUp(w, e) == Held(w) + Asking(e)
  {
    match e
    case Ask(inst, name, ok) => AskTakesIn(w, inst, name, ok);
    case Deliver(j, ok) => DeliverHandsOver(w, j, ok);
    case TimeOut(j) => DroppedName(w.waiters, j);
    case _ =>
  }

  lemma Balance(held: multiset<string>, gave: multiset<string>, asked: multiset<string>, next: multiset<string>,
                more: multiset<string>, rest: multiset<string>, end: multiset<string>)
    requires next + gave == held + asked && end + more == next + rest
    ensures end + (gave + more) == held + (asked + rest)
  {
    forall name
      ensures (end + (gave + more))[name] == (held + (asked + rest))[name]
    {
      assert (next + gave)[name] == (held + asked)[name] && (end + more)[name] == (next + rest)[name];
    }
  }

  lemma {:induction false} RunAccounts(w: World, es: seq<Event>)
    requires CanRun(w, es)
    ensures Held(After(w, es)) + GaveUp(w, es) == Held(w) + AskedFor(es)
    decreases |es|
  {
    if |es| > 0 {
      StepAccounts(w, es[0]);
      RunAccounts(Step(w, es[0]), es[1..]);
      var v := Step(w, es[0]);
      Balance(Held(w), GivingUp(w, es[0]), Asking(es[0]), Held(v), GaveUp(v, es[1..]), AskedFor(es[1..]),
              Held(After(w, es)));
    }
  }

  /** Over every run every query is answered once, still waits, or gave up; and nothing else is
      answered. */
  lemma EveryQueryAccounted(es: seq<Event>)
    requires CanRun(START, es)
    ensures var w := After(START, es);
            NamesOf(w.answers) + NamesWaiting(w.waiters) + GaveUp(START, es) == AskedFor(es)
  {
    RunAccounts(START, es);
  }

  /** Full, the shared cache gives up an entry whose lookup finished no later than that of
      any other. */
  lemma EvictsLeastRecentlyStored(es: seq<Event>)
    requires CanRun(START, es) && |After(START, es).shared| == 512
    ensures var w := After(START, es);
            var gone := w.shared[Oldest(w.shared)];
            && Yielded(w, StoredBy(w, gone.name), gone.name, gone.addrs)
            && (forall e :: e in w.shared ==>
                  && Yielded(w, StoredBy(w, e.name), e.name, e.addrs)
                  && w.tasks[StoredBy(w, gone.name)].status.at <= w.tasks[StoredBy(w, e.name)].status.at)
            && (forall n, addrs, now :: n != gone.name ==> Lookup(Put(w.shared, n, addrs, now), gone.name) == None)
  {
    RunKeeps(START, es);
    var w := After(START, es);
    var gone := w.shared[Oldest(w.shared)];
    assert Backed(w, gone);
    forall n, addrs, now | n != gone.name
      ensures Lookup(Put(w.shared, n, addrs, now), gone.name) == None
    {
      PutMeaning(w.shared, n, addrs, now, gone.name);
    }
    forall e | e in w.shared
      ensures w.tasks[StoredBy(w, gone.name)].status.at <= w.tasks[StoredBy(w, e.name)].status.at
    {
      assert Backed(w, e);
    }
  }

  /** Once an instance knows a name it always answers it at once from its own cache and asks
      no further lookup for it, however much time passes. */
  lemma {:induction false} InstanceCacheNeverExpires(w: World, es: seq<Event>, inst: nat, name: string,
                                                     ok: Ip4 -> bool)
    requires inst < |w.caches| == |w.origin| && name in w.caches[inst] && CanRun(w, es)
    ensures var v := After(w, es);
            && inst < |v.caches| == |v.origin| && name in v.caches[inst]
            && Step(v, Ask(inst, name, ok)) == v.(answers := v.answers
                 + [Answer(name, Filtered(ok, v.caches[inst][name]), OriginOf(v, inst, name), v.now, ok)])
    decreases |es|
  {
    if |es| > 0 { InstanceCacheNeverExpires(Step(w, es[0]), es[1..], inst, name, ok); }
  }

  lemma LeadsOn(w: World, e: Event, es: seq<Event>, z: World)
    requires Enabled(w, e) && CanRun(Step(w, e), es) && After(Step(w, e), es) == z
    ensures CanRun(w, [e] + es) && After(w, [e] + es) == z
  {
    assert ([e] + es)[1..] == es;
  }

  /** A lookup that finished while one query waited for it. */
  function Delivered(name: string, report: Report): World {
    World(0.0, Put([], name, ListOf(report), 0.0), map[name := 0], [Task(name, Finished(report, 0.0, None))], [map[]],
          [Waiter(0, name, 0, 0.0)], [], map[name := 0], [map[]])
  }

  /** The first query of a new instance starts the first lookup. */
  lemma FirstAsk(ok: Ip4 -> bool, name: string) returns (w1: World, w2: World)
    ensures w1 == Step(START, NewResolver)
    ensures Enabled(w1, Ask(0, name, ok)) && w2 == Step(w1, Ask(0, name, ok))
    ensures w2 == World(0.0, [], map[name := 0], [Task(name, Pending)], [map[]], [Waiter(0, name, 0, 0.0)], [], map[],
                        [map[]])
  {
    w1 := Step(START, NewResolver);
    w2 := Step(w1, Ask(0, name, ok));
    assert w1.caches == [map[]] && w1.origin == [map[]];
    assert w2.tasks == [Task(name, Pending)] && w2.waiters == [Waiter(0, name, 0, 0.0)] && w2.shared == [];
    assert w2.inflight == map[name := 0];
  }

  lemma Delivering(ok: Ip4 -> bool, name: string, report: Report, rest: seq<Event>, z: World) returns (es: seq<Event>)
    requires CanRun(Delivered(name, report), rest) && After(Delivered(name, report), rest) == z
    ensures CanRun(START, es) && After(START, es) == z
  {
    var w1, w2 := FirstAsk(ok, name);
    assert Step(w2, LookupDone(0, report)) == Delivered(name, report);
    LeadsOn(w2, LookupDone(0, report), rest, z);
    LeadsOn(w1, Ask(0, name, ok), [LookupDone(0, report)] + rest, z);
    LeadsOn(START, NewResolver, [Ask(0, name, ok)] + ([LookupDone(0, report)] + rest), z);
    es := [NewResolver] + ([Ask(0, name, ok)] + ([LookupDone(0, report)] + rest));
  }

  /** So a query can be given a list of any age: asked, answered, and asked again after any
      time `d`, with nothing looked up in between. The policy, though, is always the current
      one: if it has changed since, the same list is filtered anew. */
  lemma StaleAnswer(first: Ip4 -> bool, later: Ip4 -> bool, name: string, report: Report, d: real)
    returns (es: seq<Event>)
    requires d > 0.0
    ensures CanRun(START, es)
    ensures var w := After(START, es);
            && |w.tasks| == 1 && |w.answers| == 2 && w.tasks[0].status.Finished? && w.now - w.tasks[0].status.at == d
            && w.answers[0] == Answer(name, Filtered(first, ListOf(report)), 0, 0.0, first)
            && w.answers[1] == Answer(name, Filtered(later, ListOf(report)), 0, w.now, later)
  {
    var w3 := Delivered(name, report);
    var w4 := Step(w3, Deliver(0, first));
    var w5 := Step(w4, Tick(d));
    var w6 := Step(w5, Ask(0, name, later));
    assert CanRun(w6, []) && After(w6, []) == w6;
    LeadsOn(w5, Ask(0, name, later), [], w6);
    LeadsOn(w4, Tick(d), [Ask(0, name, later)] + [], w6);
    LeadsOn(w3, Deliver(0, first), [Tick(d)] + ([Ask(0, name, later)] + []), w6);
    es := Delivering(first, name, report, [Deliver(0, first)] + ([Tick(d)] + ([Ask(0, name, later)] + [])), w6);
  }
}
