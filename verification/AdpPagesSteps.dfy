/** Every step of every thread keeps the invariant of the shared pages of nsd/adpeval.c. */
module AdpPagesSteps {
  import opened Prelude
  import opened AdpPages

  function One(b: bool): nat {
    if b then 1 else 0
  }

  /** How the counts change when a thread moves on. */
  lemma GoCounts(s: State, t: Tid, pc: Pc)
    ensures forall p :: Carriers(s.pcs[t := pc], p) ==
              Carriers(s.pcs, p) + One(Carries(pc, p)) - One(Carries(PcOf(s, t), p))
    ensures forall r :: Readers(s.pcs[t := pc], r) ==
              Readers(s.pcs, r) + One(Reads(pc, r)) - One(Reads(PcOf(s, t), r))
  {
    hide Count;
    forall p ensures Carriers(s.pcs[t := pc], p) ==
        Carriers(s.pcs, p) + One(Carries(pc, p)) - One(Carries(PcOf(s, t), p))
    {
      CountUpdate(s.pcs, (x: Pc) => Carries(x, p), t, pc);
    }
    forall r ensures Readers(s.pcs[t := pc], r) ==
        Readers(s.pcs, r) + One(Reads(pc, r)) - One(Reads(PcOf(s, t), r))
    {
      CountUpdate(s.pcs, (x: Pc) => Reads(x, r), t, pc);
    }
  }

  /** How they change when an InterpPage is dropped. */
  lemma DropCounts(m: map<Holder, InterpPage>, h: Holder)
    requires h in m
    ensures forall p :: PagesOf(m - {h}, p) == PagesOf(m, p) - One(m[h].page == p)
  {
    hide Count;
    forall p ensures PagesOf(m - {h}, p) == PagesOf(m, p) - One(m[h].page == p) {
      CountRemove(m, (ip: InterpPage) => ip.page == p, h);
    }
  }

  /** How they change when an InterpPage is stored. */
  lemma PutCounts(m: map<Holder, InterpPage>, h: Holder, ip: InterpPage)
    ensures forall p :: PagesOf(m[h := ip], p) ==
              PagesOf(m, p) + One(ip.page == p) - One(h in m && m[h].page == p)
  {
    hide Count;
    forall p ensures PagesOf(m[h := ip], p) ==
        PagesOf(m, p) + One(ip.page == p) - One(h in m && m[h].page == p)
    {
      CountUpdate(m, (x: InterpPage) => x.page == p, h, ip);
    }
  }

  // ----- every step keeps the invariant

  /** What no step changes about a page or a result while it lives. */
  ghost predicate Grows(s: State, s': State) {
    && (forall p :: p in s.pages && p in s'.pages ==> PageGrows(s.pages[p], s'.pages[p]))
    && (forall r :: r in s.results && r in s'.results ==> ResultGrows(s.results[r], s'.results[r]))
  }

  ghost predicate PageGrows(a: Page, b: Page) {
    a.key == b.key && a.nscripts == b.nscripts && |a.past| <= |b.past| && a.past == b.past[..|a.past|]
  }

  ghost predicate ResultGrows(a: Result, b: Result) {
    a.page == b.page && a.nscripts == b.nscripts
  }

  lemma GenerationKept(a: Page, b: Page, g: nat)
    requires PageGrows(a, b) && Generation(a, g) >= 0
    ensures Generation(b, g) == Generation(a, g)
  {
  }

  /** All that a waiting or running thread relies on is still there. */
  ghost predicate Relies(s: State, s': State, u: Tid) {
    match PcOf(s, u)
    case Idle => true
    case Looking(_, _, _) => true
    case Parsing(key, _) => key in s.table && key in s'.table && s'.table[key] == s.table[key]
    case Storing(_, p, _) => p in s'.pages
    case Found(key, _) => (u, key) in s'.ipages
    case Refreshing(key) => (u, key) in s'.ipages
    case Selected(key, result, _) => ReliesOnRun(s, s', u, key, result)
    case Executing(key, result, _) => ReliesOnRun(s, s', u, key, result)
  }

  ghost predicate ReliesOnRun(s: State, s': State, u: Tid, key: Key, result: Option<ResultId>) {
    && (u, key) in s.ipages && (u, key) in s'.ipages
    && s'.ipages[(u, key)].page == s.ipages[(u, key)].page
    && s.ipages[(u, key)].page in s.pages && s.ipages[(u, key)].page in s'.pages
    && (result.Some? ==> result.value in s'.results)
  }

  lemma ThreadKept(s: State, s': State, u: Tid)
    requires ThreadOk(s, u) && PcOf(s', u) == PcOf(s, u) && Grows(s, s') && Relies(s, s', u)
    ensures ThreadOk(s', u)
  {
    hide PcOf, Generation;
    match PcOf(s, u) {
      case Selected(key, result, gen) =>
        if result.Some? {
          var p := s.ipages[(u, key)].page;
          assert ResultGrows(s.results[result.value], s'.results[result.value]);
          GenerationKept(s.pages[p], s'.pages[p], gen);
        }
      case _ =>
    }
  }

  // ----- what a step does not touch

  /** Threads other than `t` that stay where they are. */
  lemma ThreadsKept(s: State, s': State, t: Tid)
    requires Threads(s) && Helds(s) && Grows(s, s') && s.pages.Keys <= s'.pages.Keys
    requires forall u :: u != t ==> PcOf(s', u) == PcOf(s, u)
    requires forall u, r :: u != t && r in s.results && Reads(PcOf(s, u), r) ==> r in s'.results
    requires forall h :: h in s.ipages && h.0 != t ==> h in s'.ipages && s'.ipages[h] == s.ipages[h]
    requires forall k :: k in s.table && s.table[k].InProgress? && s.table[k].reader != t ==>
               k in s'.table && s'.table[k] == s.table[k]
    ensures ThreadOk(s', t) ==> Threads(s')
  {
    hide Grows, Scripts, Generation;
    forall u | u != t ensures ThreadOk(s', u) {
      assert ThreadOk(s, u);
      EasyRelies(s, s', u);
      ThreadKept(s, s', u);
    }
  }

  lemma EasyRelies(s: State, s': State, u: Tid)
    requires ThreadOk(s, u) && s.pages.Keys <= s'.pages.Keys && Helds(s)
    requires forall r :: r in s.results && Reads(PcOf(s, u), r) ==> r in s'.results
    requires forall h :: h in s.ipages && h.0 == u ==> h in s'.ipages && s'.ipages[h] == s.ipages[h]
    requires forall k :: k in s.table && s.table[k].InProgress? && s.table[k].reader == u ==>
               k in s'.table && s'.table[k] == s.table[k]
    ensures Relies(s, s', u)
  {
    hide Generation, PcOf, Scripts;
    match PcOf(s, u) {
      case Selected(key, _, _) => assert HeldOk(s, (u, key));
      case Executing(key, _, _) => assert HeldOk(s, (u, key));
      case _ =>
    }
  }

  /** InterpPages whose pages live on; `x` is looked at elsewhere. */
  lemma HeldsKept(s: State, s': State, x: set<Holder>)
    requires Helds(s) && Grows(s, s')
    requires forall h :: h in s'.ipages && h !in x ==> h in s.ipages && s'.ipages[h] == s.ipages[h]
    requires forall h :: h in s'.ipages && h !in x && s'.ipages[h].page in s.pages ==> s'.ipages[h].page in s'.pages
    requires forall h :: h in x && h in s'.ipages ==> HeldOk(s', h)
    ensures Helds(s')
  {
    hide Generation, PageGrows;
    forall h | h in s'.ipages && h !in x ensures HeldOk(s', h) {
      assert HeldOk(s, h);
      var ip := s.ipages[h];
      PageGrowsIs(s.pages[ip.page], s'.pages[ip.page]);
      if ip.cacheObjs.Some? {
        GenerationKept(s.pages[ip.page], s'.pages[ip.page], ip.gen);
      }
    }
  }

  lemma PageGrowsIs(a: Page, b: Page)
    requires PageGrows(a, b)
    ensures a.key == b.key && a.nscripts == b.nscripts
  {
  }

  /** The page keeps its cached result, as most steps let it. */
  ghost predicate Still(a: Page, b: Page) {
    a.key == b.key && a.nscripts == b.nscripts && a.gen == b.gen && a.cached == b.cached && a.past == b.past
  }

  ghost predicate AllStill(pages: map<PageId, Page>, pages': map<PageId, Page>) {
    forall p :: p in pages ==> p in pages' && Still(pages[p], pages'[p])
  }

  /** What a step keeps that moves thread `t` and touches no result and no InterpPage. */
  lemma MoveKeeps(s: State, s': State, t: Tid, pc: Pc)
    requires Inv(s) && s'.pcs == s.pcs[t := pc] && AllStill(s.pages, s'.pages)
    requires s'.ipages == s.ipages && s'.results == s.results && s'.nextResult == s.nextResult
    requires forall r :: !Reads(pc, r) && !Reads(PcOf(s, t), r)
    requires forall k :: k in s.table && s.table[k].InProgress? && s.table[k].reader != t ==>
               k in s'.table && s'.table[k] == s.table[k]
    ensures Results(s') && Helds(s') && (ThreadOk(s', t) ==> Threads(s'))
  {
    hide ThreadOk, PageOk, SlotOk, HeldOk, Readers, Carriers, PagesOf, Helds, Threads, Reads, Slots, Pages;
    assert Grows(s, s');
    ThreadsKept(s, s', t);
    HeldsKept(s, s', {});
    GoCounts(s, t, pc);
    forall r | r in s'.results ensures ResultOk(s', r) {
      assert ResultOk(s, r);
    }
  }

  /** Results that are not touched while the pages stay as they are; `x` is looked at elsewhere. */
  lemma ResultsKept(s: State, s': State, x: set<ResultId>)
    requires Results(s) && s'.nextResult == s.nextResult && s'.pages == s.pages
    requires forall r :: r in s'.results && r !in x ==>
               r in s.results && s'.results[r] == s.results[r] && Readers(s'.pcs, r) == Readers(s.pcs, r)
    requires forall r :: r in x && r in s'.results ==> ResultOk(s', r)
    ensures Results(s')
  {
    hide Readers;
    forall r | r in s'.results && r !in x ensures ResultOk(s', r) {
      assert ResultOk(s, r);
    }
  }

  /** What a step keeps that leaves the table alone. */
  lemma SlotsKept(s: State, s': State)
    requires Slots(s) && s'.table == s.table
    requires forall u :: PcOf(s, u).Parsing? ==> PcOf(s', u) == PcOf(s, u)
    requires forall p :: p in s.pages ==>
               p in s'.pages && s'.pages[p].linked == s.pages[p].linked && s'.pages[p].key == s.pages[p].key
    ensures Slots(s')
  {
    hide PcOf;
    forall k | k in s'.table ensures SlotOk(s', k) {
      assert SlotOk(s, k);
    }
  }

  /** Pages whose record does not change, nor the table and the results around it. */
  lemma PagesKept(s: State, s': State, x: set<PageId>)
    requires Pages(s) && s.nextPage <= s'.nextPage
    requires forall p :: p in s'.pages && p !in x ==>
               p in s.pages && s'.pages[p] == s.pages[p] && Holders(s', p) == Holders(s, p)
    requires forall k :: k in s.table && s.table[k].Ready? && s.table[k].page !in x ==>
               k in s'.table && s'.table[k] == s.table[k]
    requires forall r :: r in s.results && Points(s, s.results[r].page, r) && s.results[r].page !in x ==>
               r in s'.results && s'.results[r].page == s.results[r].page
    requires forall p :: p in x && p in s'.pages ==> PageOk(s', p)
    ensures Pages(s')
  {
    hide Holders;
    forall p | p in s'.pages && p !in x ensures PageOk(s', p) {
      assert PageOk(s, p);
    }
  }

  // ----- every step keeps the invariant

  /** A thread moves on without touching anything shared. */
  lemma GoKeeps(s: State, t: Tid, pc: Pc)
    requires Inv(s) && ThreadOk(Go(s, t, pc), t)
    requires var now := PcOf(s, t); now.Idle? || now.Found? || now.Refreshing? || (now.Executing? && now.result.None?)
    requires !pc.Storing? && (pc.Selected? ==> pc.result.None?) && !pc.Executing?
    ensures Inv(Go(s, t, pc))
  {
    hide Carriers, Readers, PagesOf, Slots, Pages, Helds, Threads, Results, ThreadOk, Ledger;
    var s' := Go(s, t, pc);
    GoCounts(s, t, pc);
    MoveKeeps(s, s', t, pc);
    SlotsKept(s, s');
    PagesKept(s, s', {});
  }

  /** A thread begins to read a file: its slot is new, or its page is out of date. */
  lemma LookupParseKeeps(s: State, t: Tid, key: Key, wants: bool, s': State)
    requires Inv(s) && PcOf(s, t).Looking? && (key in s.table ==> s.table[key].Ready?)
    requires var s1 := s.(table := s.table[key := InProgress(t)]);
             s' == Go(if key in s.table && s.table[key].page in s.pages
                      then s1.(pages := s.pages[s.table[key].page := s.pages[s.table[key].page].(linked := false)])
                      else s1, t, Parsing(key, wants))
    ensures Inv(s')
  {
    hide Carriers, Readers, PagesOf, Slots, Pages, Helds, Threads, Results, Ledger, SlotOk, PageOk;
    assert ThreadOk(s', t);
    assert s'.pages.Keys == s.pages.Keys;
    MoveKeeps(s, s', t, Parsing(key, wants));
    LookupParseSlots(s, t, key, wants, s');
    LookupParsePages(s, t, key, wants, s');
  }

  lemma LookupParseSlots(s: State, t: Tid, key: Key, wants: bool, s': State)
    requires Inv(s) && PcOf(s, t).Looking? && (key in s.table ==> s.table[key].Ready?)
    requires s'.pcs == s.pcs[t := Parsing(key, wants)] && s'.table == s.table[key := InProgress(t)]
    requires s'.pages == if key in s.table && s.table[key].page in s.pages
                      then s.pages[s.table[key].page := s.pages[s.table[key].page].(linked := false)]
                      else s.pages
    ensures Slots(s')
  {
    hide Pages, Helds, Threads, Results, Ledgers;
    forall k | k in s'.table ensures SlotOk(s', k) {
      assert k in s.table ==> SlotOk(s, k);
    }
  }

  lemma LookupParsePages(s: State, t: Tid, key: Key, wants: bool, s': State)
    requires Inv(s) && PcOf(s, t).Looking? && (key in s.table ==> s.table[key].Ready?)
    requires s'.pcs == s.pcs[t := Parsing(key, wants)] && s'.table == s.table[key := InProgress(t)]
    requires s'.pages == if key in s.table && s.table[key].page in s.pages
                      then s.pages[s.table[key].page := s.pages[s.table[key].page].(linked := false)]
                      else s.pages
    requires s'.results == s.results && s'.ipages == s.ipages && s'.nextPage == s.nextPage
    ensures Pages(s')
  {
    hide Carriers, Readers, PagesOf, Helds, Threads, Results, Ledgers;
    GoCounts(s, t, Parsing(key, wants));
    forall p | p in s'.pages ensures PageOk(s', p) {
      assert PageOk(s, p);
    }
  }

  /** A thread takes a reference to a page it found in the table. */
  lemma AcquireKeeps(s: State, t: Tid, key: Key, p: PageId, wants: bool, s': State)
    requires Inv(s) && PcOf(s, t).Looking? && key in s.table && s.table[key] == Ready(p) && p in s.pages
    requires s' == Go(s.(pages := s.pages[p := s.pages[p].(refcnt := s.pages[p].refcnt + 1)]), t, Storing(key, p, wants))
    ensures Inv(s')
  {
    hide Carriers, Readers, PagesOf, Slots, Pages, Helds, Threads, Results, Ledger, PageOk;
    SlotAt(s, key);
    assert ThreadOk(s', t);
    assert s'.pages.Keys == s.pages.Keys;
    MoveKeeps(s, s', t, Storing(key, p, wants));
    SlotsKept(s, s');
    AcquirePages(s, t, key, p, wants, s');
  }

  lemma SlotAt(s: State, key: Key)
    requires Slots(s) && key in s.table
    ensures SlotOk(s, key)
  {
  }

  lemma PageAt(s: State, p: PageId)
    requires Pages(s) && p in s.pages
    ensures PageOk(s, p)
  {
  }

  lemma ResultAt(s: State, r: ResultId)
    requires Results(s) && r in s.results
    ensures ResultOk(s, r)
  {
  }

  lemma ThreadAt(s: State, t: Tid)
    requires Threads(s)
    ensures ThreadOk(s, t)
  {
  }

  lemma HeldAt(s: State, h: Holder)
    requires Helds(s) && h in s.ipages
    ensures HeldOk(s, h)
  {
  }

  lemma AcquirePages(s: State, t: Tid, key: Key, p: PageId, wants: bool, s': State)
    requires Inv(s) && PcOf(s, t).Looking? && p in s.pages
    requires s'.pages == s.pages[p := s.pages[p].(refcnt := s.pages[p].refcnt + 1)]
    requires s'.pcs == s.pcs[t := Storing(key, p, wants)] && s'.table == s.table
    requires s'.results == s.results && s'.ipages == s.ipages && s'.nextPage == s.nextPage
    ensures Pages(s')
  {
    hide Carriers, Readers, PagesOf, Helds, Threads, Results, Ledgers;
    GoCounts(s, t, Storing(key, p, wants));
    forall q | q in s'.pages ensures PageOk(s', q) {
      assert PageOk(s, q);
    }
  }

  /** ParseFile fails: the slot goes away. */
  lemma ParseFailsKeeps(s: State, t: Tid, key: Key, s': State)
    requires Inv(s) && PcOf(s, t).Parsing? && PcOf(s, t).key == key
    requires s' == Go(s.(table := s.table - {key}), t, Idle)
    ensures Inv(s')
  {
    hide Carriers, Readers, PagesOf, Pages, Helds, Results, Ledger, PageOk;
    GoCounts(s, t, Idle);
    assert ThreadOk(s, t);
    assert ThreadOk(s', t);
    MoveKeeps(s, s', t, Idle);
    PagesKept(s, s', {});
    forall k | k in s'.table ensures SlotOk(s', k) {
      SlotAt(s, k);
    }
  }

  /** ParseFile succeeds: the slot gets a new page, to which the thread has a reference. */
  lemma ParseOkKeeps(s: State, t: Tid, key: Key, wants: bool, version: Version, n: nat, s': State)
    requires Inv(s) && PcOf(s, t).Parsing? && PcOf(s, t).key == key
    requires s' == DoParsed(s, t, key, wants, Some((version, n)))
    ensures Inv(s')
  {
    hide Carriers, Readers, PagesOf, Pages, Slots, Helds, Threads, Results, Ledger, PageOk;
    var p := s.nextPage;
    NextIsNew(s.pages.Keys, s.freedPages, p);
    ThreadAt(s, t);
    assert ThreadOk(s', t);
    assert s'.pages.Keys == s.pages.Keys + {p};
    MoveKeeps(s, s', t, Storing(key, p, wants));
    ParseOkPages(s, t, key, wants, version, n, s');
    ParseOkSlots(s, t, key, wants, version, n, s');
  }

  lemma NextIsNew(live: set<nat>, freed: seq<nat>, next: nat)
    requires Ledger(live, freed, next)
    ensures next !in live && Ledger(live + {next}, freed, next + 1)
  {
  }

  lemma ParseOkSlots(s: State, t: Tid, key: Key, wants: bool, version: Version, n: nat, s': State)
    requires Inv(s) && PcOf(s, t).Parsing? && PcOf(s, t).key == key && s.nextPage !in s.pages
    requires s' == DoParsed(s, t, key, wants, Some((version, n)))
    ensures Slots(s')
  {
    hide Pages, Helds, Results, Ledgers;
    assert ThreadOk(s, t);
    forall k | k in s'.table ensures SlotOk(s', k) {
      assert k != key ==> SlotOk(s, k);
    }
  }

  /** Nothing refers to a page number that was not given out yet. */
  lemma NobodyHolds(s: State, p: PageId)
    requires Helds(s) && Threads(s) && p !in s.pages
    ensures Holders(s, p) == 0
  {
    hide Count;
    forall h | h in s.ipages ensures s.ipages[h].page != p {
      assert HeldOk(s, h);
    }
    CountZero(s.ipages, (ip: InterpPage) => ip.page == p);
    forall t | t in s.pcs ensures !Carries(s.pcs[t], p) {
      assert ThreadOk(s, t);
    }
    CountZero(s.pcs, (pc: Pc) => Carries(pc, p));
  }

  lemma ParseOkPages(s: State, t: Tid, key: Key, wants: bool, version: Version, n: nat, s': State)
    requires Inv(s) && PcOf(s, t).Parsing? && PcOf(s, t).key == key && s.nextPage !in s.pages
    requires s' == DoParsed(s, t, key, wants, Some((version, n)))
    ensures Pages(s')
  {
    hide Carriers, Readers, PagesOf, Helds, Results, Slots, Ledgers;
    GoCounts(s, t, Storing(key, s.nextPage, wants));
    NobodyHolds(s, s.nextPage);
    assert ThreadOk(s, t);
    forall q | q in s'.pages ensures PageOk(s', q) {
      assert q in s.pages ==> PageOk(s, q);
    }
  }

  /** A thread stores the InterpPage for the page it carries. */
  lemma PutKeeps(s: State, t: Tid, key: Key, p: PageId, wants: bool, s': State)
    requires Inv(s) && PcOf(s, t) == Storing(key, p, wants) && p in s.pages && (t, key) !in s.ipages
    requires s' == Go(s.(ipages := s.ipages[(t, key) := InterpPage(p, s.pages[p].nscripts, 0, None)]), t, Found(key, wants))
    ensures Inv(s')
  {
    hide Carriers, Readers, PagesOf, Pages, Slots, Helds, Threads, Results, Ledger, PageOk, ResultOk;
    ThreadAt(s, t);
    assert ThreadOk(s', t) && HeldOk(s', (t, key));
    SlotsKept(s, s');
    PutPagesAndResults(s, t, key, p, wants, s');
    HeldsKept(s, s', {(t, key)});
    ThreadsKept(s, s', t);
  }

  lemma PutPagesAndResults(s: State, t: Tid, key: Key, p: PageId, wants: bool, s': State)
    requires Inv(s) && PcOf(s, t) == Storing(key, p, wants) && p in s.pages && (t, key) !in s.ipages
    requires s' == Go(s.(ipages := s.ipages[(t, key) := InterpPage(p, s.pages[p].nscripts, 0, None)]), t, Found(key, wants))
    ensures Pages(s') && Results(s')
  {
    hide Carriers, Readers, PagesOf, Pages, Slots, Helds, Threads, Results, Ledgers, PageOk, ResultOk;
    GoCounts(s, t, Found(key, wants));
    PutCounts(s.ipages, (t, key), InterpPage(p, s.pages[p].nscripts, 0, None));
    PagesKept(s, s', {});
    ResultsKept(s, s', {});
  }

  /** A thread takes a reference to the cached result of its page. */
  lemma TakeKeeps(s: State, t: Tid, key: Key, r: ResultId, s': State)
    requires Inv(s) && (PcOf(s, t) == Refreshing(key) || (PcOf(s, t).Found? && PcOf(s, t).key == key))
    requires (t, key) in s.ipages && Points(s, s.ipages[(t, key)].page, r) && r in s.results
    requires s' == Go(s.(results := s.results[r := s.results[r].(refcnt := s.results[r].refcnt + 1)]),
                      t, Selected(key, Some(r), s.pages[s.ipages[(t, key)].page].gen))
    ensures Inv(s')
  {
    hide Carriers, Readers, PagesOf, Pages, Slots, Helds, Threads, Results, Ledger, Generation;
    var p := s.ipages[(t, key)].page;
    PageAt(s, p);
    ResultAt(s, r);
    GoCounts(s, t, Selected(key, Some(r), s.pages[p].gen));
    assert ThreadOk(s', t) && ResultOk(s', r);
    assert s'.results.Keys == s.results.Keys;
    SlotsKept(s, s');
    PagesKept(s, s', {});
    ResultsKept(s, s', {r});
    HeldsKept(s, s', {});
    ThreadsKept(s, s', t);
  }

  /** A thread chooses the script objects for the code it runs. */
  lemma SelectKeeps(s: State, t: Tid, key: Key, result: Option<ResultId>, gen: nat, s': State)
    requires Inv(s) && PcOf(s, t) == Selected(key, result, gen)
    requires s' == DoSelect(s, t, key, result, gen)
    ensures Inv(s')
  {
    hide Carriers, Readers, PagesOf, Pages, Slots, Helds, Threads, Results, Ledger, PageOk, ResultOk;
    ThreadAt(s, t);
    HeldAt(s, (t, key));
    assert ThreadOk(s', t) && HeldOk(s', (t, key));
    SlotsKept(s, s');
    SelectPagesAndResults(s, t, key, result, gen, s');
    HeldsKept(s, s', {(t, key)});
    ThreadsKept(s, s', t);
  }

  lemma SelectPagesAndResults(s: State, t: Tid, key: Key, result: Option<ResultId>, gen: nat, s': State)
    requires Inv(s) && PcOf(s, t) == Selected(key, result, gen) && (t, key) in s.ipages && (t, key) in s'.ipages
    requires s'.ipages == s.ipages[(t, key) := s'.ipages[(t, key)]] && s'.ipages[(t, key)].page == s.ipages[(t, key)].page
    requires t in s'.pcs && s'.pcs[t].Executing? && s'.pcs[t].result == result && s'.pcs == s.pcs[t := s'.pcs[t]]
    requires s'.pages == s.pages && s'.results == s.results && s'.table == s.table
    requires s'.nextPage == s.nextPage && s'.nextResult == s.nextResult
    ensures Pages(s') && Results(s')
  {
    hide Carriers, Readers, PagesOf, Pages, Slots, Helds, Threads, Results, Ledgers, PageOk, ResultOk;
    GoCounts(s, t, s'.pcs[t]);
    PutCounts(s.ipages, (t, key), s'.ipages[(t, key)]);
    PagesKept(s, s', {});
    ResultsKept(s, s', {});
  }

  /** The run of a cached result ends, and its reference is given back. */
  lemma FinishKeeps(s: State, t: Tid, r: ResultId, s': State)
    requires Inv(s) && PcOf(s, t).Executing? && PcOf(s, t).result == Some(r) && s' == DoFinish(s, t, Some(r))
    ensures Inv(s')
  {
    hide Carriers, Readers, PagesOf, Pages, Slots, Helds, Threads, Results, Ledger, PageOk, ResultOk, DecrCache;
    ThreadAt(s, t);
    DecrCacheIs(s, r);
    FinishResults(s, t, r, s');
    SlotsKept(s, s');
    FinishPages(s, t, r, s');
    HeldsKept(s, s', {});
    ThreadsKept(s, s', t);
  }

  lemma DecrCacheIs(s: State, r: ResultId)
    requires Results(s) && Ledgers(s) && r in s.results
    ensures var s' := DecrCache(s, r);
            && s' == s.(results := s'.results, freedResults := s'.freedResults)
            && (forall x :: x in s'.results ==> x in s.results && ResultGrows(s.results[x], s'.results[x]))
            && (forall x :: x in s.results && x != r ==> x in s'.results && s'.results[x] == s.results[x])
            && (r in s'.results ==> s'.results[r].refcnt == s.results[r].refcnt - 1)
            && (r in s'.results <==> s.results[r].refcnt != 1)
            && Ledgers(s')
  {
    hide Ledgers, Results;
    DecrCacheLedgers(s, r);
  }

  lemma DecrCacheLedgers(s: State, r: ResultId)
    requires Ledgers(s) && r in s.results
    ensures Ledgers(DecrCache(s, r))
  {
    hide Ledger;
    DropKey(s.results, r);
    PutKey(s.results, r, s.results[r].(refcnt := s.results[r].refcnt - 1));
    RetireKeeps(s.results.Keys, s.freedResults, s.nextResult, r);
  }

  lemma DropKey<V>(m: map<nat, V>, r: nat)
    ensures (m - {r}).Keys == m.Keys - {r}
  {
  }

  lemma PutKey<V>(m: map<nat, V>, r: nat, v: V)
    requires r in m
    ensures m[r := v].Keys == m.Keys
  {
  }

  lemma ReaderCounts(s: State, u: Tid, r: ResultId)
    requires Reads(PcOf(s, u), r)
    ensures Readers(s.pcs, r) > 0
  {
    hide Count;
    CountZero(s.pcs, (pc: Pc) => Reads(pc, r));
  }

  lemma FinishResults(s: State, t: Tid, r: ResultId, s': State)
    requires Inv(s) && Reads(PcOf(s, t), r) && r in s.results && s' == Go(DecrCache(s, r), t, Idle)
    ensures Results(s')
    ensures forall u :: u != t && Reads(PcOf(s, u), r) ==> r in s'.results
    ensures Points(s, s.results[r].page, r) ==> r in s'.results
  {
    hide Carriers, Readers, PagesOf, Pages, Slots, Helds, Threads, Results, Ledgers, DecrCache, Generation;
    DecrCacheIs(s, r);
    GoCounts(s, t, Idle);
    ResultAt(s, r);
    assert r in s'.results ==> ResultOk(s', r);
    ResultsKept(s, s', {r});
    forall u | u != t && Reads(PcOf(s, u), r) ensures r in s'.results {
      ReaderCounts(s', u, r);
    }
  }

  lemma FinishPages(s: State, t: Tid, r: ResultId, s': State)
    requires Inv(s) && PcOf(s, t).Executing? && r in s.results && s' == Go(DecrCache(s, r), t, Idle)
    requires Points(s, s.results[r].page, r) ==> r in s'.results
    ensures Pages(s')
  {
    hide Carriers, Readers, PagesOf, Pages, Slots, Helds, Threads, Results, Ledgers, DecrCache, PageOk;
    DecrCacheIs(s, r);
    GoCounts(s, t, Idle);
    PagesKept(s, s', {});
  }

  lemma RetireKeeps(live: set<nat>, freed: seq<nat>, next: nat, x: nat)
    requires Ledger(live, freed, next) && x in live
    ensures Ledger(live - {x}, freed + [x], next)
  {
  }

  /** A new result takes the place of the old one: the page changes its generation with it. */
  lemma InstallKeeps(s: State, p: PageId, n: nat)
    requires Inv(s) && p in s.pages
    ensures Inv(Install(s, p, n))
  {
    hide Carriers, Readers, PagesOf, Pages, Slots, Helds, Threads, Results, Ledgers, PageOk, ResultOk, DecrCache;
    var s' := Install(s, p, n);
    PageAt(s, p);
    InstallIs(s, p, n);
    assert forall u :: PcOf(s', u) == PcOf(s, u);
    InstallThreads(s, p, n);
    HeldsKept(s, s', {});
    InstallSlots(s, p, n);
    InstallPages(s, p, n);
    InstallResults(s, p, n);
  }

  /** The old result of the page, if any. */
  function OldOf(s: State, p: PageId): set<ResultId>
    requires p in s.pages
  {
    if s.pages[p].cached.Some? then {s.pages[p].cached.value} else {}
  }

  lemma InstallIs(s: State, p: PageId, n: nat)
    requires Inv(s) && p in s.pages
    ensures var s', new_ := Install(s, p, n), s.nextResult;
            && s' == s.(results := s'.results, freedResults := s'.freedResults, nextResult := s'.nextResult, pages := s'.pages)
            && new_ !in s.results && s'.nextResult == new_ + 1
            && new_ in s'.results && s'.results[new_] == Result(p, 1, n)
            && (forall x :: x in s'.results && x != new_ ==> x in s.results && ResultGrows(s.results[x], s'.results[x]))
            && (forall x :: x in s.results && x !in OldOf(s, p) ==> x in s'.results && s'.results[x] == s.results[x])
            && (forall x :: x in OldOf(s, p) ==>
                  && x in s.results
                  && (x in s'.results ==> s'.results[x].refcnt == s.results[x].refcnt - 1)
                  && (x in s'.results <==> s.results[x].refcnt != 1))
            && Ledgers(s') && Grows(s, s') && s'.pages.Keys == s.pages.Keys
  {
    hide Pages, Slots, Helds, Threads, Results, Ledger, ResultOk, DecrCache, Holders;
    var s', new_ := Install(s, p, n), s.nextResult;
    PageAt(s, p);
    if s.pages[p].cached.Some? {
      DecrCacheIs(s, s.pages[p].cached.value);
    }
    var s1 := if s.pages[p].cached.Some? then DecrCache(s, s.pages[p].cached.value) else s;
    NextIsNew(s.results.Keys, s.freedResults, new_);
    NextIsNew(s1.results.Keys, s1.freedResults, new_);
    assert s'.results.Keys == s1.results.Keys + {new_};
    assert s'.pages.Keys == s.pages.Keys;
  }

  /** Nobody runs a result that does not exist. */
  lemma NobodyReads(s: State, r: ResultId)
    requires Threads(s) && r !in s.results
    ensures Readers(s.pcs, r) == 0
  {
    hide Count;
    forall t | t in s.pcs ensures !Reads(s.pcs[t], r) {
      assert ThreadOk(s, t);
    }
    CountZero(s.pcs, (pc: Pc) => Reads(pc, r));
  }

  lemma InstallThreads(s: State, p: PageId, n: nat)
    requires Inv(s) && p in s.pages
    ensures Threads(Install(s, p, n))
  {
    hide Carriers, Readers, PagesOf, Pages, Slots, Helds, Results, Ledgers, Install, ThreadOk;
    var s' := Install(s, p, n);
    InstallIs(s, p, n);
    forall u ensures ThreadOk(s', u) {
      ThreadAt(s, u);
      forall r | r in s.results && Reads(PcOf(s, u), r) ensures r in s'.results {
        ResultAt(s, r);
        ReaderCounts(s, u, r);
        PageAt(s, p);
      }
      EasyRelies(s, s', u);
      ThreadKept(s, s', u);
    }
  }

  lemma InstallSlots(s: State, p: PageId, n: nat)
    requires Inv(s) && p in s.pages
    ensures Slots(Install(s, p, n))
  {
    hide Pages, Helds, Threads, Results, Ledgers, DecrCache;
    var s' := Install(s, p, n);
    InstallIs(s, p, n);
    forall k | k in s'.table ensures SlotOk(s', k) {
      assert SlotOk(s, k);
    }
  }

  lemma InstallPages(s: State, p: PageId, n: nat)
    requires Inv(s) && p in s.pages
    ensures Pages(Install(s, p, n))
  {
    hide Slots, Helds, Threads, Results, Ledgers, DecrCache, Carriers, PagesOf;
    var s' := Install(s, p, n);
    InstallIs(s, p, n);
    forall q | q in s'.pages ensures PageOk(s', q) {
      assert PageOk(s, q);
      assert PageOk(s, p);
    }
  }

  lemma InstallResults(s: State, p: PageId, n: nat)
    requires Inv(s) && p in s.pages
    ensures Results(Install(s, p, n))
  {
    hide Slots, Helds, Threads, Pages, Ledgers, DecrCache, Carriers, PagesOf, Readers;
    var s' := Install(s, p, n);
    InstallIs(s, p, n);
    PageAt(s, p);
    NobodyReads(s, s.nextResult);
    forall r | r in s'.results ensures ResultOk(s', r) {
      assert r != s.nextResult ==> ResultOk(s, r);
    }
  }

  // ----- dropping an InterpPage

  /** Dropping `h` leaves every thread what it relies on, if others hold what they use. */
  lemma DropRelies(s: State, s': State, h: Holder, u: Tid)
    requires ThreadOk(s, u) && Helds(s) && h in s.ipages && !Uses(PcOf(s, h.0), h.1)
    requires s'.ipages == s.ipages - {h}
    requires forall x :: x in s'.ipages && s'.ipages[x].page in s.pages ==> s'.ipages[x].page in s'.pages
    requires forall p :: p in s.pages && Carries(PcOf(s, u), p) ==> p in s'.pages
    requires forall r :: r in s.results && Reads(PcOf(s, u), r) ==> r in s'.results
    requires forall k :: k in s.table && s.table[k].InProgress? ==> k in s'.table && s'.table[k] == s.table[k]
    ensures Relies(s, s', u)
  {
    hide Generation, PcOf, Scripts;
    match PcOf(s, u) {
      case Selected(key, _, _) => HeldAt(s, (u, key)); assert (u, key) != h;
      case Executing(key, _, _) => HeldAt(s, (u, key)); assert (u, key) != h;
      case _ =>
    }
  }

  /** Others still hold the page. */
  lemma ReleaseKeeps(s: State, h: Holder, s': State)
    requires Inv(s) && h in s.ipages && !Uses(PcOf(s, h.0), h.1)
    requires s.ipages[h].page in s.pages && s.pages[s.ipages[h].page].refcnt != 1
    requires var p := s.ipages[h].page;
             s' == s.(ipages := s.ipages - {h}, pages := s.pages[p := s.pages[p].(refcnt := s.pages[p].refcnt - 1)])
    ensures Inv(s')
  {
    hide Slots, Helds, Threads, Results, Pages, Ledger, Generation, PageOk, SlotOk;
    PutKey(s.pages, s.ipages[h].page, s'.pages[s.ipages[h].page]);
    HeldsKept(s, s', {});
    SlotsKept(s, s');
    ReleasePages(s, h, s');
    ReleaseResults(s, s');
    ReleaseThreads(s, h, s');
  }

  lemma ReleaseThreads(s: State, h: Holder, s': State)
    requires Inv(s) && h in s.ipages && !Uses(PcOf(s, h.0), h.1) && Grows(s, s')
    requires s'.ipages == s.ipages - {h} && s'.pages.Keys == s.pages.Keys
    requires s'.pcs == s.pcs && s'.results == s.results && s'.table == s.table
    ensures Threads(s')
  {
    hide Slots, Helds, Results, Pages, Ledgers, ThreadOk, Grows, Uses, Carries, Reads;
    forall u ensures ThreadOk(s', u) {
      ThreadAt(s, u);
      DropRelies(s, s', h, u);
      ThreadKept(s, s', u);
    }
  }

  lemma ReleasePages(s: State, h: Holder, s': State)
    requires Inv(s) && h in s.ipages && s.ipages[h].page in s.pages && s.pages[s.ipages[h].page].refcnt != 1
    requires var p := s.ipages[h].page;
             s' == s.(ipages := s.ipages - {h}, pages := s.pages[p := s.pages[p].(refcnt := s.pages[p].refcnt - 1)])
    ensures Pages(s')
  {
    hide Slots, Helds, Results, Threads, Ledgers, PagesOf, Carriers;
    DropCounts(s.ipages, h);
    forall p | p in s'.pages ensures PageOk(s', p) {
      assert PageOk(s, p);
    }
  }

  lemma ReleaseResults(s: State, s': State)
    requires Results(s) && AllStill(s.pages, s'.pages) && s'.pcs == s.pcs && s'.results == s.results && s'.nextResult == s.nextResult
    ensures Results(s')
  {
    hide Readers;
    forall r | r in s'.results ensures ResultOk(s', r) {
      assert ResultOk(s, r);
    }
  }

  /** When the count is down to one, only `h` refers to its page, and nobody to its results. */
  lemma LastHolder(s: State, h: Holder)
    requires Inv(s) && h in s.ipages && !Uses(PcOf(s, h.0), h.1)
    requires s.ipages[h].page in s.pages && s.pages[s.ipages[h].page].refcnt == 1
    ensures forall x :: x in s.ipages && x != h ==> s.ipages[x].page != s.ipages[h].page
    ensures forall u :: !Carries(PcOf(s, u), s.ipages[h].page)
    ensures forall r :: r in s.results && s.results[r].page == s.ipages[h].page ==>
              Readers(s.pcs, r) == 0 && Points(s, s.ipages[h].page, r) && s.results[r].refcnt == 1
  {
    hide Slots, Helds, Pages, Results, Threads, Ledgers, Count, Generation;
    var p := s.ipages[h].page;
    PageAt(s, p);
    DropCounts(s.ipages, h);
    var others := s.ipages - {h};
    CountZero(others, (ip: InterpPage) => ip.page == p);
    assert forall x :: x in s.ipages && x != h ==> x in others && others[x].page != p;
    CountZero(s.pcs, (pc: Pc) => Carries(pc, p));
    forall r | r in s.results && s.results[r].page == p
      ensures Readers(s.pcs, r) == 0 && Points(s, p, r) && s.results[r].refcnt == 1
    {
      OnlyPageReads(s, h, r);
      ResultAt(s, r);
    }
  }

  lemma OnlyPageReads(s: State, h: Holder, r: ResultId)
    requires Inv(s) && h in s.ipages && !Uses(PcOf(s, h.0), h.1) && r in s.results
    requires s.results[r].page == s.ipages[h].page
    requires forall x :: x in s.ipages && x != h ==> s.ipages[x].page != s.ipages[h].page
    ensures Readers(s.pcs, r) == 0
  {
    hide Slots, Helds, Pages, Results, Ledgers, Count, Generation;
    forall u | u in s.pcs ensures !Reads(s.pcs[u], r) {
      assert ThreadOk(s, u);
    }
    CountZero(s.pcs, (pc: Pc) => Reads(pc, r));
  }

  /** Nobody else holds the page: it goes away, with its slot and its result. */
  lemma FreePageIs(s: State, h: Holder)
    requires Inv(s) && h in s.ipages && !Uses(PcOf(s, h.0), h.1)
    requires s.ipages[h].page in s.pages && s.pages[s.ipages[h].page].refcnt == 1
    ensures var s', p := FreeInterpPage(s, h), s.ipages[h].page;
            && s' == s.(ipages := s.ipages - {h}, pages := s.pages - {p}, results := s.results - OldOf(s, p),
                        table := if s.pages[p].linked then s.table - {s.pages[p].key} else s.table,
                        freedPages := s'.freedPages, freedResults := s'.freedResults, nullFree := s'.nullFree)
            && Ledgers(s')
  {
    hide Slots, Helds, Pages, Results, Threads, Ledger, Holders, ResultOk;
    var p := s.ipages[h].page;
    LastHolder(s, h);
    PageAt(s, p);
    DropKey(s.pages, p);
    RetireKeeps(s.pages.Keys, s.freedPages, s.nextPage, p);
    if s.pages[p].cached.Some? {
      var r := s.pages[p].cached.value;
      DropKey(s.results, r);
      RetireKeeps(s.results.Keys, s.freedResults, s.nextResult, r);
    } else {
      assert s.results - OldOf(s, p) == s.results;
    }
  }

  lemma FreePageKeeps(s: State, h: Holder)
    requires Inv(s) && h in s.ipages && !Uses(PcOf(s, h.0), h.1)
    requires s.ipages[h].page in s.pages && s.pages[s.ipages[h].page].refcnt == 1
    ensures Inv(FreeInterpPage(s, h))
  {
    hide Slots, Helds, Pages, Results, Threads, Ledgers, FreeInterpPage, PageOk, ResultOk, SlotOk, Holders, Readers, Carries;
    var s' := FreeInterpPage(s, h);
    FreePageIs(s, h);
    LastHolder(s, h);
    HeldsKept(s, s', {});
    FreePageSlots(s, h);
    FreePagePages(s, h);
    FreePageResults(s, h);
    FreePageThreads(s, h);
  }

  lemma FreePageSlots(s: State, h: Holder)
    requires Inv(s) && h in s.ipages && !Uses(PcOf(s, h.0), h.1)
    requires s.ipages[h].page in s.pages && s.pages[s.ipages[h].page].refcnt == 1
    ensures Slots(FreeInterpPage(s, h))
  {
    hide Helds, Pages, Results, Threads, Ledgers, FreeInterpPage, Uses;
    var s' := FreeInterpPage(s, h);
    FreePageIs(s, h);
    PageAt(s, s.ipages[h].page);
    forall k | k in s'.table ensures SlotOk(s', k) {
      assert SlotOk(s, k);
    }
  }

  lemma FreePagePages(s: State, h: Holder)
    requires Inv(s) && h in s.ipages && !Uses(PcOf(s, h.0), h.1)
    requires s.ipages[h].page in s.pages && s.pages[s.ipages[h].page].refcnt == 1
    ensures Pages(FreeInterpPage(s, h))
  {
    hide Helds, Slots, Results, Threads, Ledgers, FreeInterpPage, Uses, PagesOf, Carriers;
    var s' := FreeInterpPage(s, h);
    FreePageIs(s, h);
    DropCounts(s.ipages, h);
    assert PageOk(s, s.ipages[h].page);
    forall p | p in s'.pages ensures PageOk(s', p) {
      assert PageOk(s, p);
    }
  }

  lemma FreePageResults(s: State, h: Holder)
    requires Inv(s) && h in s.ipages && !Uses(PcOf(s, h.0), h.1)
    requires s.ipages[h].page in s.pages && s.pages[s.ipages[h].page].refcnt == 1
    ensures Results(FreeInterpPage(s, h))
  {
    hide Helds, Slots, Pages, Threads, Ledgers, FreeInterpPage, Uses, Readers, Generation;
    var s' := FreeInterpPage(s, h);
    FreePageIs(s, h);
    LastHolder(s, h);
    forall r | r in s'.results ensures ResultOk(s', r) {
      assert ResultOk(s, r);
    }
  }

  lemma FreePageThreads(s: State, h: Holder)
    requires Inv(s) && h in s.ipages && !Uses(PcOf(s, h.0), h.1)
    requires s.ipages[h].page in s.pages && s.pages[s.ipages[h].page].refcnt == 1
    ensures Threads(FreeInterpPage(s, h))
  {
    hide Helds, Slots, Pages, Results, Ledgers, FreeInterpPage, Uses, Readers, Carries, ThreadOk;
    var s' := FreeInterpPage(s, h);
    FreePageIs(s, h);
    LastHolder(s, h);
    InProgressStays(s, h);
    assert Grows(s, s');
    forall u ensures ThreadOk(s', u) {
      ThreadAt(s, u);
      forall r | r in s.results && Reads(PcOf(s, u), r) ensures r in s'.results {
        ReaderCounts(s, u, r);
        if s.pages[s.ipages[h].page].cached == Some(r) {
          PageAt(s, s.ipages[h].page);
        }
      }
      DropRelies(s, s', h, u);
      ThreadKept(s, s', u);
    }
  }

  lemma InProgressStays(s: State, h: Holder)
    requires Inv(s) && h in s.ipages && s.ipages[h].page in s.pages
    ensures var pg := s.pages[s.ipages[h].page];
            pg.linked ==> pg.key in s.table && s.table[pg.key].Ready?
  {
    hide Helds, Slots, Pages, Results, Threads, Ledgers;
    PageAt(s, s.ipages[h].page);
  }

  /** FreeInterpPage keeps the invariant, for an InterpPage that is not in use. */
  lemma FreeKeeps(s: State, h: Holder)
    requires Inv(s) && h in s.ipages && !Uses(PcOf(s, h.0), h.1)
    ensures Inv(FreeInterpPage(s, h))
  {
    hide Slots, Helds, Pages, Results, Threads, Ledgers, DecrCache;
    HeldAt(s, h);
    if s.pages[s.ipages[h].page].refcnt == 1 {
      FreePageKeeps(s, h);
    } else {
      ReleaseKeeps(s, h, FreeInterpPage(s, h));
    }
  }

  lemma FreeFrame(s: State, h: Holder)
    requires h in s.ipages
    ensures FreeInterpPage(s, h).pcs == s.pcs && FreeInterpPage(s, h).ipages == s.ipages - {h}
  {
    hide FreePage;
  }

  lemma BeginKeeps(s: State, t: Tid, key: Key, version: Version, wants: bool)
    requires Inv(s) && PcOf(s, t).Idle?
    ensures Inv(DoBegin(s, t, key, version, wants))
  {
    hide Slots, Helds, Pages, Results, Threads, Ledgers, FreeInterpPage;
    if (t, key) !in s.ipages {
      GoKeeps(s, t, Looking(key, version, wants));
    } else {
      HeldAt(s, (t, key));
      if s.pages[s.ipages[(t, key)].page].version == version {
        GoKeeps(s, t, Found(key, wants));
      } else {
        FreeKeeps(s, (t, key));
        FreeFrame(s, (t, key));
        GoKeeps(FreeInterpPage(s, (t, key)), t, Looking(key, version, wants));
      }
    }
  }

  lemma LookupKeeps(s: State, t: Tid)
    requires Inv(s) && PcOf(s, t).Looking?
    ensures var pc := PcOf(s, t); Inv(DoLookup(s, t, pc.key, pc.version, pc.wants))
  {
    hide Slots, Helds, Pages, Results, Threads, Ledgers;
    var pc := PcOf(s, t);
    var s' := DoLookup(s, t, pc.key, pc.version, pc.wants);
    if pc.key !in s.table {
      LookupParseKeeps(s, t, pc.key, pc.wants, s');
    } else if s.table[pc.key].Ready? {
      SlotAt(s, pc.key);
      var p := s.table[pc.key].page;
      if s.pages[p].version == pc.version {
        AcquireKeeps(s, t, pc.key, p, pc.wants, s');
      } else {
        LookupParseKeeps(s, t, pc.key, pc.wants, s');
      }
    }
  }

  lemma ParsedKeeps(s: State, t: Tid, page: Option<(Version, nat)>)
    requires Inv(s) && PcOf(s, t).Parsing?
    ensures var pc := PcOf(s, t); Inv(DoParsed(s, t, pc.key, pc.wants, page))
  {
    hide Slots, Helds, Pages, Results, Threads, Ledgers;
    var pc := PcOf(s, t);
    var s' := DoParsed(s, t, pc.key, pc.wants, page);
    match page {
      case None => ParseFailsKeeps(s, t, pc.key, s');
      case Some((version, n)) => ParseOkKeeps(s, t, pc.key, pc.wants, version, n, s');
    }
  }

  lemma StoreKeeps(s: State, t: Tid)
    requires Inv(s) && PcOf(s, t).Storing?
    ensures var pc := PcOf(s, t); Inv(DoStore(s, t, pc.key, pc.page, pc.wants))
  {
    hide Slots, Helds, Pages, Results, Threads, Ledgers, FreeInterpPage;
    var pc := PcOf(s, t);
    var h := (t, pc.key);
    if h in s.ipages {
      FreeKeeps(s, h);
      FreeFrame(s, h);
    }
    var s1 := if h in s.ipages then FreeInterpPage(s, h) else s;
    ThreadAt(s1, t);
    PutKeeps(s1, t, pc.key, pc.page, pc.wants, DoStore(s, t, pc.key, pc.page, pc.wants));
  }

  /** Setting or clearing the lock on a page that has a result. */
  lemma LockKeeps(s: State, p: PageId, locked: bool)
    requires Inv(s) && p in s.pages && (locked ==> s.pages[p].cached.Some?)
    ensures Inv(s.(pages := s.pages[p := s.pages[p].(locked := locked)]))
  {
    hide Slots, Helds, Threads, Pages, Results, Ledger, PageOk;
    var s' := s.(pages := s.pages[p := s.pages[p].(locked := locked)]);
    PutKey(s.pages, p, s'.pages[p]);
    SlotsKept(s, s');
    ReleaseResults(s, s');
    HeldsKept(s, s', {});
    LockPages(s, p, locked);
    LockThreads(s, s');
  }

  lemma LockPages(s: State, p: PageId, locked: bool)
    requires Inv(s) && p in s.pages && (locked ==> s.pages[p].cached.Some?)
    ensures Pages(s.(pages := s.pages[p := s.pages[p].(locked := locked)]))
  {
    hide Slots, Helds, Threads, Results, Ledgers;
    var s' := s.(pages := s.pages[p := s.pages[p].(locked := locked)]);
    forall q | q in s'.pages ensures PageOk(s', q) {
      assert PageOk(s, q);
    }
  }

  lemma LockThreads(s: State, s': State)
    requires Inv(s) && Grows(s, s') && s'.pages.Keys == s.pages.Keys
    requires s' == s.(pages := s'.pages)
    ensures Threads(s')
  {
    hide Slots, Helds, Results, Pages, Ledgers, ThreadOk, Grows;
    forall u ensures ThreadOk(s', u) {
      ThreadAt(s, u);
      EasyRelies(s, s', u);
      ThreadKept(s, s', u);
    }
  }

  lemma ChooseKeeps(s: State, t: Tid, expired: bool)
    requires Inv(s) && PcOf(s, t).Found?
    ensures var pc := PcOf(s, t); Inv(DoChoose(s, t, pc.key, pc.wants, expired))
  {
    hide Slots, Helds, Pages, Results, Threads, Ledgers, Holders, Generation;
    var pc := PcOf(s, t);
    var s' := DoChoose(s, t, pc.key, pc.wants, expired);
    ThreadAt(s, t);
    HeldAt(s, (t, pc.key));
    var p := s.ipages[(t, pc.key)].page;
    PageAt(s, p);
    if !pc.wants {
      GoKeeps(s, t, Selected(pc.key, None, 0));
    } else if s.pages[p].cached.None? {
      GoKeeps(s, t, Refreshing(pc.key));
    } else if !s.pages[p].locked && expired {
      LockKeeps(s, p, true);
      GoKeeps(s.(pages := s.pages[p := s.pages[p].(locked := true)]), t, Refreshing(pc.key));
    } else {
      TakeKeeps(s, t, pc.key, s.pages[p].cached.value, s');
    }
  }

  lemma RefreshedKeeps(s: State, t: Tid, result: Option<nat>)
    requires Inv(s) && PcOf(s, t).Refreshing?
    ensures Inv(DoRefreshed(s, t, PcOf(s, t).key, result))
  {
    hide Slots, Helds, Pages, Results, Threads, Ledgers, Install, Holders, Generation;
    var key := PcOf(s, t).key;
    var s' := DoRefreshed(s, t, key, result);
    ThreadAt(s, t);
    HeldAt(s, (t, key));
    var p := s.ipages[(t, key)].page;
    match result {
      case None =>
        LockKeeps(s, p, false);
        GoKeeps(s.(pages := s.pages[p := s.pages[p].(locked := false)]), t, Selected(key, None, s.pages[p].gen));
      case Some(n) =>
        InstallKeeps(s, p, n);
        InstallIs(s, p, n);
        InstallPage(s, p, n);
        TakeKeeps(Install(s, p, n), t, key, s.nextResult, s');
    }
  }

  lemma InstallPage(s: State, p: PageId, n: nat)
    requires p in s.pages
    ensures var s' := Install(s, p, n);
            Points(s', p, s.nextResult) && s'.pages[p].gen == s.pages[p].gen + 1
  {
  }

  lemma FinishesKeeps(s: State, t: Tid)
    requires Inv(s) && PcOf(s, t).Executing?
    ensures Inv(DoFinish(s, t, PcOf(s, t).result))
  {
    hide Slots, Helds, Pages, Results, Threads, Ledgers, DecrCache;
    match PcOf(s, t).result {
      case None => GoKeeps(s, t, Idle);
      case Some(r) => FinishKeeps(s, t, r, DoFinish(s, t, Some(r)));
    }
  }

  /** Every step of every thread keeps the invariant. */
  lemma NextKeeps(s: State, e: Event)
    requires Inv(s)
    ensures Inv(Next(s, e))
  {
    hide Inv, DoBegin, DoLookup, DoParsed, DoStore, DoChoose, DoRefreshed, DoSelect, DoFinish, FreeInterpPage;
    var pc := PcOf(s, e.t);
    match e {
      case Begin(t, key, version, wants) => if pc.Idle? { BeginKeeps(s, t, key, version, wants); }
      case Lookup(t) => if pc.Looking? { LookupKeeps(s, t); }
      case Parsed(t, page) => if pc.Parsing? { ParsedKeeps(s, t, page); }
      case Store(t) => if pc.Storing? { StoreKeeps(s, t); }
      case Choose(t, expired) => if pc.Found? { ChooseKeeps(s, t, expired); }
      case Refreshed(t, result) => if pc.Refreshing? { RefreshedKeeps(s, t, result); }
      case Select(t) => if pc.Selected? { SelectKeeps(s, t, pc.key, pc.result, pc.gen, Next(s, e)); }
      case Finish(t) => if pc.Executing? { FinishesKeeps(s, t); }
      case Evict(t, key) => if (t, key) in s.ipages && !Uses(pc, key) { FreeKeeps(s, (t, key)); }
    }
  }
}
