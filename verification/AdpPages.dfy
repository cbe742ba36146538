/**
 * The shared pages of nsd/adpeval.c: AdpSource and FreeInterpPage as a system of threads.
 *
 * Each thread has its own interpreter with its own table of InterpPages; the page table, the
 * pages and the cached results are shared.  A step is what one thread does under the page
 * lock, or between two locked sections on its own data.  Memory that is freed leaves the
 * maps `pages` and `results`; `bad` is raised when a step would touch freed memory.
 */
module AdpPages {
  import opened Prelude

  type Tid = nat
  type Key = string
  type PageId = nat
  type ResultId = nat
  /** What stat and the ADP flags say about a file. */
  type Version = int
  type Holder = (Tid, Key)

  /** A hash value: NULL while thread `reader` reads the file, or a page. */
  datatype Slot = InProgress(reader: Tid) | Ready(page: PageId)

  /** `linked` is hPtr != NULL; `past` records the script counts of all results, by generation. */
  datatype Page = Page(key: Key, version: Version, linked: bool, refcnt: int, nscripts: nat,
                       gen: nat, cached: Option<ResultId>, locked: bool, past: seq<nat>)

  /** A cached result (AdpCache) of a page. */
  datatype Result = Result(page: PageId, refcnt: int, nscripts: nat)

  /** A script-object array is represented by its number of slots. */
  datatype InterpPage = InterpPage(page: PageId, objs: nat, gen: nat, cacheObjs: Option<nat>)

  datatype Pc =
    | Idle
    | Looking(key: Key, version: Version, wants: bool)
    | Parsing(key: Key, wants: bool)
    | Storing(key: Key, page: PageId, wants: bool)
    | Found(key: Key, wants: bool)
    | Refreshing(key: Key)
    | Selected(key: Key, result: Option<ResultId>, gen: nat)
    | Executing(key: Key, result: Option<ResultId>, slots: nat)

  datatype State = State(
    table: map<Key, Slot>, pages: map<PageId, Page>, results: map<ResultId, Result>,
    ipages: map<Holder, InterpPage>, pcs: map<Tid, Pc>,
    nextPage: PageId, nextResult: ResultId,
    freedPages: seq<PageId>, freedResults: seq<ResultId>, bad: bool, nullFree: bool)

  const INIT := State(map[], map[], map[], map[], map[], 0, 0, [], [], false, false)

  datatype Event =
    /** AdpSource is called; `wants` says that a cached result may be used. */
    | Begin(t: Tid, key: Key, version: Version, wants: bool)
    | Lookup(t: Tid)
    /** ParseFile fails, or yields a page of some version with some number of scripts. */
    | Parsed(t: Tid, page: Option<(Version, nat)>)
    | Store(t: Tid)
    | Choose(t: Tid, expired: bool)
    /** The run for a cached result is over; the result has some number of scripts. */
    | Refreshed(t: Tid, result: Option<nat>)
    | Select(t: Tid)
    | Finish(t: Tid)
    /** The interpreter's own cache drops an entry that is not being run. */
    | Evict(t: Tid, key: Key)

  function PcOf(s: State, t: Tid): Pc {
    if t in s.pcs then s.pcs[t] else Idle
  }

  function Go(s: State, t: Tid, pc: Pc): State {
    s.(pcs := s.pcs[t := pc])
  }

  /** The thread is between finding its InterpPage and the end of the run. */
  predicate Uses(pc: Pc, key: Key) {
    (pc.Found? || pc.Refreshing? || pc.Selected? || pc.Executing?) && pc.key == key
  }

  /** DecrCache. */
  function DecrCache(s: State, r: ResultId): (s': State)
    ensures s' == s.(results := s'.results, freedResults := s'.freedResults, bad := s'.bad)
  {
    if r !in s.results then s.(bad := true)
    else if s.results[r].refcnt == 1 then
      s.(results := s.results - {r}, freedResults := s.freedResults + [r])
    else s.(results := s.results[r := s.results[r].(refcnt := s.results[r].refcnt - 1)])
  }

  /** The part of FreeInterpPage for the last reference to a page. */
  function FreePage(s: State, p: PageId, pg: Page, cacheObjs: Option<nat>): (s': State)
    ensures s'.pcs == s.pcs && s'.ipages == s.ipages && s'.pages == s.pages - {p}
    ensures s'.nullFree == (s.nullFree || (pg.cached.Some? && cacheObjs.None?))
  {
    var s1 := if pg.linked then s.(table := s.table - {pg.key}) else s;
    var s2 := if pg.cached.Some?
              then DecrCache(s1, pg.cached.value).(nullFree := s.nullFree || cacheObjs.None?)
              else s1;
    s2.(pages := s2.pages - {p}, freedPages := s2.freedPages + [p])
  }

  /** FreeInterpPage. */
  function FreeInterpPage(s: State, h: Holder): State
    requires h in s.ipages
  {
    var ip := s.ipages[h];
    var s1 := s.(ipages := s.ipages - {h});
    if ip.page !in s.pages then s1.(bad := true)
    else
      var pg := s.pages[ip.page];
      if pg.refcnt == 1 then FreePage(s1, ip.page, pg, ip.cacheObjs)
      else s1.(pages := s1.pages[ip.page := pg.(refcnt := pg.refcnt - 1)])
  }

  function DoBegin(s: State, t: Tid, key: Key, version: Version, wants: bool): State {
    if (t, key) !in s.ipages then Go(s, t, Looking(key, version, wants))
    else
      var p := s.ipages[(t, key)].page;
      if p !in s.pages then s.(bad := true)
      else if s.pages[p].version == version then Go(s, t, Found(key, wants))
      else Go(FreeInterpPage(s, (t, key)), t, Looking(key, version, wants))
  }

  /** The first locked section, or one more turn of its wait loop. */
  function DoLookup(s: State, t: Tid, key: Key, version: Version, wants: bool): State {
    if key !in s.table then
      Go(s.(table := s.table[key := InProgress(t)]), t, Parsing(key, wants))
    else
      match s.table[key]
      case InProgress(_) => s
      case Ready(p) =>
        if p !in s.pages then s.(bad := true)
        else if s.pages[p].version == version then
          Go(s.(pages := s.pages[p := s.pages[p].(refcnt := s.pages[p].refcnt + 1)]), t, Storing(key, p, wants))
        else
          Go(s.(table := s.table[key := InProgress(t)], pages := s.pages[p := s.pages[p].(linked := false)]),
             t, Parsing(key, wants))
  }

  function DoParsed(s: State, t: Tid, key: Key, wants: bool, page: Option<(Version, nat)>): State {
    match page
    case None => Go(s.(table := s.table - {key}), t, Idle)
    case Some((version, n)) =>
      var p := s.nextPage;
      Go(s.(table := s.table[key := Ready(p)], nextPage := p + 1,
            pages := s.pages[p := Page(key, version, true, 1, n, 0, None, false, [])]),
         t, Storing(key, p, wants))
  }

  function DoStore(s: State, t: Tid, key: Key, p: PageId, wants: bool): State {
    var s1 := if (t, key) in s.ipages then FreeInterpPage(s, (t, key)) else s;
    if p !in s1.pages then s1.(bad := true)
    else
      Go(s1.(ipages := s1.ipages[(t, key) := InterpPage(p, s1.pages[p].nscripts, 0, None)]), t, Found(key, wants))
  }

  /** The section that looks for a cached result. */
  function DoChoose(s: State, t: Tid, key: Key, wants: bool, expired: bool): State {
    if (t, key) !in s.ipages || s.ipages[(t, key)].page !in s.pages then s.(bad := true)
    else
      var p := s.ipages[(t, key)].page;
      var pg := s.pages[p];
      if !wants then Go(s, t, Selected(key, None, 0))
      else if pg.cached.None? then if pg.locked then s else Go(s, t, Refreshing(key))
      else if !pg.locked && expired then
        Go(s.(pages := s.pages[p := pg.(locked := true)]), t, Refreshing(key))
      else TakeResult(s, t, key, pg.cached, pg.gen)
  }

  /** The section ends with a reference to the result, if there is one. */
  function TakeResult(s: State, t: Tid, key: Key, result: Option<ResultId>, gen: nat): State {
    if result.None? then Go(s, t, Selected(key, None, gen))
    else if result.value !in s.results then s.(bad := true)
    else
      var r := s.results[result.value];
      Go(s.(results := s.results[result.value := r.(refcnt := r.refcnt + 1)]), t, Selected(key, result, gen))
  }

  /** A new result takes the place of the old one in page `p`. */
  function Install(s: State, p: PageId, n: nat): State
    requires p in s.pages
  {
    var pg := s.pages[p];
    var s1 := if pg.cached.Some? then DecrCache(s, pg.cached.value) else s;
    var r := s.nextResult;
    s1.(results := s1.results[r := Result(p, 1, n)], nextResult := r + 1,
        pages := s.pages[p := pg.(gen := pg.gen + 1, cached := Some(r), locked := false, past := pg.past + [n])])
  }

  function DoRefreshed(s: State, t: Tid, key: Key, result: Option<nat>): State {
    if (t, key) !in s.ipages || s.ipages[(t, key)].page !in s.pages then s.(bad := true)
    else
      var p := s.ipages[(t, key)].page;
      match result
      case None => TakeResult(s.(pages := s.pages[p := s.pages[p].(locked := false)]), t, key, None, s.pages[p].gen)
      case Some(n) => TakeResult(Install(s, p, n), t, key, Some(s.nextResult), s.pages[p].gen + 1)
  }

  /** The choice of the code and of the script objects to run it with. */
  function DoSelect(s: State, t: Tid, key: Key, result: Option<ResultId>, gen: nat): State {
    if (t, key) !in s.ipages || (result.Some? && result.value !in s.results) then s.(bad := true)
    else
      var ip := s.ipages[(t, key)];
      if result.None? then Go(s, t, Executing(key, None, ip.objs))
      else
        var ip' := if ip.cacheObjs.Some? && ip.gen == gen then ip
                   else ip.(cacheObjs := Some(s.results[result.value].nscripts), gen := gen);
        Go(s.(ipages := s.ipages[(t, key) := ip']), t, Executing(key, result, ip'.cacheObjs.value))
  }

  function DoFinish(s: State, t: Tid, result: Option<ResultId>): State {
    Go(if result.Some? then DecrCache(s, result.value) else s, t, Idle)
  }

  /** One event; an event the thread is not ready for changes nothing. */
  function Next(s: State, e: Event): State {
    var pc := PcOf(s, e.t);
    match e
    case Begin(t, key, version, wants) => if pc.Idle? then DoBegin(s, t, key, version, wants) else s
    case Lookup(t) => if pc.Looking? then DoLookup(s, t, pc.key, pc.version, pc.wants) else s
    case Parsed(t, page) => if pc.Parsing? then DoParsed(s, t, pc.key, pc.wants, page) else s
    case Store(t) => if pc.Storing? then DoStore(s, t, pc.key, pc.page, pc.wants) else s
    case Choose(t, expired) => if pc.Found? then DoChoose(s, t, pc.key, pc.wants, expired) else s
    case Refreshed(t, result) => if pc.Refreshing? then DoRefreshed(s, t, pc.key, result) else s
    case Select(t) => if pc.Selected? then DoSelect(s, t, pc.key, pc.result, pc.gen) else s
    case Finish(t) => if pc.Executing? then DoFinish(s, t, pc.result) else s
    case Evict(t, key) => if (t, key) in s.ipages && !Uses(pc, key) then FreeInterpPage(s, (t, key)) else s
  }

  function Run(s: State, es: seq<Event>): State
    decreases |es|
  {
    if es == [] then s else Run(Next(s, es[0]), es[1..])
  }

  // ----- counting references

  /** The number of entries of `m` that satisfy `f`. */
  function Count<K, V>(m: map<K, V>, f: V -> bool): nat {
    |set k | k in m && f(m[k])|
  }

  lemma CountUpdate<K, V>(m: map<K, V>, f: V -> bool, k: K, v: V)
    ensures Count(m[k := v], f) ==
              Count(m, f) + (if f(v) then 1 else 0) - (if k in m && f(m[k]) then 1 else 0)
  {
    var a := set x | x in m && f(m[x]);
    var m' := m[k := v];
    var b := set x | x in m' && f(m'[x]);
    if f(v) {
      assert b == a + {k};
    } else {
      assert b == a - {k};
    }
  }

  lemma CountRemove<K, V>(m: map<K, V>, f: V -> bool, k: K)
    requires k in m
    ensures Count(m - {k}, f) == Count(m, f) - (if f(m[k]) then 1 else 0)
  {
    var a := set x | x in m && f(m[x]);
    var m' := m - {k};
    assert (set x | x in m' && f(m'[x])) == a - {k};
  }

  lemma CountZero<K, V>(m: map<K, V>, f: V -> bool)
    ensures Count(m, f) == 0 <==> forall k :: k in m ==> !f(m[k])
  {
    var a := set k | k in m && f(m[k]);
    if k :| k in m && f(m[k]) {
      assert k in a;
    } else {
      assert a == {};
    }
  }

  /** The thread is about to store an InterpPage for `p`. */
  predicate Carries(pc: Pc, p: PageId) {
    pc.Storing? && pc.page == p
  }

  /** The thread runs, or is about to run, result `r`. */
  predicate Reads(pc: Pc, r: ResultId) {
    (pc.Selected? || pc.Executing?) && pc.result == Some(r)
  }

  function PagesOf(ipages: map<Holder, InterpPage>, p: PageId): nat {
    Count(ipages, (ip: InterpPage) => ip.page == p)
  }

  function Carriers(pcs: map<Tid, Pc>, p: PageId): nat {
    Count(pcs, (pc: Pc) => Carries(pc, p))
  }

  function Readers(pcs: map<Tid, Pc>, r: ResultId): nat {
    Count(pcs, (pc: Pc) => Reads(pc, r))
  }

  /** The InterpPages that hold `p`, and the threads about to store one that does. */
  function Holders(s: State, p: PageId): nat {
    PagesOf(s.ipages, p) + Carriers(s.pcs, p)
  }

  /** Page `p` points to result `r`. */
  predicate Points(s: State, p: PageId, r: ResultId) {
    p in s.pages && s.pages[p].cached == Some(r)
  }

  /** The references to a result of page `p`: one from the page, and those of the threads running it. */
  function References(s: State, p: PageId, r: ResultId): nat {
    (if Points(s, p, r) then 1 else 0) + Readers(s.pcs, r)
  }

  // ----- the invariant

  ghost predicate SlotOk(s: State, k: Key)
    requires k in s.table
  {
    match s.table[k]
    case InProgress(t) => PcOf(s, t).Parsing? && PcOf(s, t).key == k
    case Ready(p) => p in s.pages && s.pages[p].linked && s.pages[p].key == k
  }

  ghost predicate PageOk(s: State, p: PageId)
    requires p in s.pages
  {
    var pg := s.pages[p];
    && p < s.nextPage
    && pg.refcnt == Holders(s, p) > 0
    && (pg.linked ==> pg.key in s.table && s.table[pg.key] == Ready(p))
    && pg.gen == |pg.past|
    && (pg.cached.None? <==> pg.gen == 0)
    && (pg.cached.Some? ==> pg.cached.value in s.results && s.results[pg.cached.value].page == p)
    && (pg.locked ==> pg.cached.Some?)
  }

  ghost predicate ResultOk(s: State, r: ResultId)
    requires r in s.results
  {
    var x := s.results[r];
    && r < s.nextResult
    && x.refcnt == References(s, x.page, r) > 0
    && x.page in s.pages
    && (Points(s, x.page, r) ==> s.pages[x.page].gen > 0 && x.nscripts == Generation(s.pages[x.page], s.pages[x.page].gen))
  }

  /** The number of scripts of the result of generation `g`. */
  function Generation(pg: Page, g: nat): int {
    if 0 < g <= |pg.past| then pg.past[g - 1] else -1
  }

  ghost predicate HeldOk(s: State, h: Holder)
    requires h in s.ipages
  {
    var ip := s.ipages[h];
    && ip.page in s.pages && s.pages[ip.page].key == h.1
    && ip.objs == s.pages[ip.page].nscripts
    && (ip.cacheObjs.Some? ==> ip.cacheObjs.value == Generation(s.pages[ip.page], ip.gen))
  }

  /** The code that a thread has chosen to run. */
  function Scripts(s: State, p: PageId, result: Option<ResultId>): int {
    match result
    case None => if p in s.pages then s.pages[p].nscripts else -1
    case Some(r) => if r in s.results then s.results[r].nscripts else -1
  }

  /** Thread `t`, at page `key`, runs a result of that page with `n` scripts. */
  ghost predicate RunOk(s: State, t: Tid, key: Key, r: ResultId, n: int) {
    && (t, key) in s.ipages && r in s.results
    && s.results[r].page == s.ipages[(t, key)].page
    && s.results[r].nscripts == n
  }

  ghost predicate ThreadOk(s: State, t: Tid) {
    match PcOf(s, t)
    case Idle => true
    case Looking(_, _, _) => true
    case Parsing(key, _) => key in s.table && s.table[key] == InProgress(t)
    case Storing(key, p, _) => p in s.pages && s.pages[p].key == key
    case Found(key, _) => (t, key) in s.ipages
    case Refreshing(key) => (t, key) in s.ipages
    case Selected(key, result, gen) =>
      && (t, key) in s.ipages
      && (result.Some? ==>
            var p := s.ipages[(t, key)].page;
            p in s.pages && RunOk(s, t, key, result.value, Generation(s.pages[p], gen)))
    case Executing(key, result, slots) =>
      && (t, key) in s.ipages
      && slots == Scripts(s, s.ipages[(t, key)].page, result)
      && (result.Some? ==> RunOk(s, t, key, result.value, slots))
  }

  /** Every number given out so far is live or was freed, once. */
  ghost predicate Ledger(live: set<nat>, freed: seq<nat>, next: nat) {
    && NoDup(freed)
    && (forall x :: x in live || x in freed <==> 0 <= x < next)
    && (forall x :: x in live ==> x !in freed)
  }

  ghost predicate Slots(s: State) {
    forall k :: k in s.table ==> SlotOk(s, k)
  }

  ghost predicate Pages(s: State) {
    forall p :: p in s.pages ==> PageOk(s, p)
  }

  ghost predicate Results(s: State) {
    forall r :: r in s.results ==> ResultOk(s, r)
  }

  ghost predicate Helds(s: State) {
    forall h :: h in s.ipages ==> HeldOk(s, h)
  }

  ghost predicate Threads(s: State) {
    forall t :: ThreadOk(s, t)
  }

  ghost predicate Ledgers(s: State) {
    Ledger(s.pages.Keys, s.freedPages, s.nextPage) && Ledger(s.results.Keys, s.freedResults, s.nextResult)
  }

  ghost predicate Inv(s: State) {
    Slots(s) && Pages(s) && Results(s) && Helds(s) && Threads(s) && Ledgers(s) && !s.bad
  }
}
