/** What the shared pages of nsd/adpeval.c keep in every interleaving. */
module AdpPagesRuns {
  import opened Prelude
  import opened AdpPages
  import opened AdpPagesSteps

  lemma {:induction false} RunFrom(s: State, es: seq<Event>)
    requires Inv(s)
    ensures Inv(Run(s, es))
    decreases |es|
  {
    hide Inv, Next;
    if es != [] {
      NextKeeps(s, es[0]);
      RunFrom(Next(s, es[0]), es[1..]);
    }
  }

  lemma {:induction false} RunConcat(s: State, a: seq<Event>, b: seq<Event>)
    ensures Run(s, a + b) == Run(Run(s, a), b)
    decreases |a|
  {
    hide Next;
    if a == [] {
      assert a + b == b;
    } else {
      assert (a + b)[1..] == a[1..] + b;
      RunConcat(Next(s, a[0]), a[1..], b);
    }
  }

  /** The invariant holds in every interleaving. */
  lemma RunKeeps(es: seq<Event>)
    ensures Inv(Run(INIT, es))
  {
    RunFrom(INIT, es);
  }

  // ----- what follows, in every interleaving

  /** A slot is NULL exactly while one thread reads its file, or points to a live page that points back. */
  lemma SlotHasOneReader(es: seq<Event>, k: Key)
    requires k in Run(INIT, es).table
    ensures var s := Run(INIT, es);
            match s.table[k]
            case InProgress(t) => forall u :: (PcOf(s, u).Parsing? && PcOf(s, u).key == k) <==> u == t
            case Ready(p) =>
              && p in s.pages && s.pages[p].linked && s.pages[p].key == k
              && forall u :: PcOf(s, u).Parsing? ==> PcOf(s, u).key != k
  {
    hide Run, Pages, Results, Helds, Ledgers;
    RunKeeps(es);
    var s := Run(INIT, es);
    SlotAt(s, k);
    forall u ensures PcOf(s, u).Parsing? && PcOf(s, u).key == k ==> s.table[k] == InProgress(u) {
      ThreadAt(s, u);
    }
  }

  /**
   * A page lives exactly as long as somebody holds it: its count is the number of those, it
   * is freed once, and the table points to no freed page.
   */
  lemma PageLivesWhileHeld(es: seq<Event>, p: PageId)
    ensures var s := Run(INIT, es);
            && (p in s.pages <==> Holders(s, p) > 0)
            && (p in s.pages ==> s.pages[p].refcnt == Holders(s, p))
            && (0 <= p < s.nextPage ==> (p in s.freedPages <==> p !in s.pages))
            && NoDup(s.freedPages) && !s.bad
            && (forall k :: k in s.table && s.table[k] == Ready(p) ==> p in s.pages)
  {
    hide Run, Results, Holders;
    RunKeeps(es);
    var s := Run(INIT, es);
    if p in s.pages {
      PageAt(s, p);
    } else {
      NobodyHolds(s, p);
    }
  }

  /** The same for cached results: their references are the page's and those of the threads running them. */
  lemma ResultLivesWhileReferenced(es: seq<Event>, r: ResultId)
    ensures var s := Run(INIT, es);
            && (r in s.results ==> s.results[r].page in s.pages
                                   && s.results[r].refcnt == References(s, s.results[r].page, r) > 0)
            && (forall p :: Points(s, p, r) ==> r in s.results && s.results[r].page == p)
            && (r !in s.results ==> Readers(s.pcs, r) == 0)
            && (0 <= r < s.nextResult ==> (r in s.freedResults <==> r !in s.results))
            && NoDup(s.freedResults)
  {
    hide Run, Slots, Helds, References, Holders, Generation;
    RunKeeps(es);
    var s := Run(INIT, es);
    if r in s.results {
      ResultAt(s, r);
    } else {
      NobodyReads(s, r);
    }
    forall p | Points(s, p, r) ensures r in s.results && s.results[r].page == p {
      PageAt(s, p);
    }
  }

  /** A thread that runs code has one script object for each script of that code. */
  lemma SlotsFitCode(es: seq<Event>, t: Tid)
    requires PcOf(Run(INIT, es), t).Executing?
    ensures var s, pc := Run(INIT, es), PcOf(Run(INIT, es), t);
            && (t, pc.key) in s.ipages && s.ipages[(t, pc.key)].page in s.pages
            && match pc.result
               case None => pc.slots == s.pages[s.ipages[(t, pc.key)].page].nscripts
               case Some(r) => r in s.results && pc.slots == s.results[r].nscripts
                               && s.results[r].page == s.ipages[(t, pc.key)].page
  {
    hide Run, Slots, Pages, Results, Helds, Ledgers, Threads, Generation;
    RunKeeps(es);
    var s := Run(INIT, es);
    ThreadAt(s, t);
    HeldAt(s, (t, PcOf(s, t).key));
  }

  /** The lock of a page is only ever set while it has a result, so nobody waits for a first result. */
  lemma NobodyWaitsForResult(es: seq<Event>, t: Tid, expired: bool)
    requires PcOf(Run(INIT, es), t).Found?
    ensures !PcOf(Next(Run(INIT, es), Choose(t, expired)), t).Found?
  {
    hide Run, Slots, Pages, Results, Helds, Ledgers, Threads, Generation, Holders;
    RunKeeps(es);
    var s := Run(INIT, es);
    ThreadAt(s, t);
    HeldAt(s, (t, PcOf(s, t).key));
    PageAt(s, s.ipages[(t, PcOf(s, t).key)].page);
  }

  // ----- the generation of a page and its result

  /** Pages in both maps have the same generations and results, and none is unlocked. */
  ghost predicate SameGenerations(a: map<PageId, Page>, b: map<PageId, Page>) {
    forall p :: p in a && p in b ==>
      b[p].gen == a[p].gen && b[p].cached == a[p].cached && (a[p].locked ==> b[p].locked) && SamePage(a[p], b[p])
  }

  /** What a page is made of never changes. */
  predicate SamePage(a: Page, b: Page) {
    b.key == a.key && b.version == a.version && b.nscripts == a.nscripts
  }

  lemma TouchSame(a: map<PageId, Page>, p: PageId, pg: Page)
    requires p in a ==> pg.gen == a[p].gen && pg.cached == a[p].cached && (a[p].locked ==> pg.locked) && SamePage(a[p], pg)
    ensures SameGenerations(a, a[p := pg])
  {
  }

  lemma FreeSameGenerations(s: State, h: Holder)
    requires h in s.ipages
    ensures SameGenerations(s.pages, FreeInterpPage(s, h).pages)
  {
    hide FreePage, SameGenerations;
    SameSelf(s.pages);
    var p := s.ipages[h].page;
    if p in s.pages {
      TouchSame(s.pages, p, s.pages[p].(refcnt := s.pages[p].refcnt - 1));
      DropSame(s.pages, p);
    }
  }

  lemma DropSame(a: map<PageId, Page>, p: PageId)
    ensures SameGenerations(a, a - {p})
  {
  }

  lemma LookupSameGenerations(s: State, t: Tid, key: Key, version: Version, wants: bool)
    ensures SameGenerations(s.pages, DoLookup(s, t, key, version, wants).pages)
  {
    hide SameGenerations;
    assert SameGenerations(s.pages, s.pages) by { SameSelf(s.pages); }
    if key in s.table && s.table[key].Ready? && s.table[key].page in s.pages {
      var p := s.table[key].page;
      TouchSame(s.pages, p, s.pages[p].(refcnt := s.pages[p].refcnt + 1));
      TouchSame(s.pages, p, s.pages[p].(linked := false));
    }
  }

  lemma SameSelf(a: map<PageId, Page>)
    ensures SameGenerations(a, a)
  {
  }

  lemma ParsedSameGenerations(s: State, t: Tid, key: Key, wants: bool, page: Option<(Version, nat)>)
    requires s.nextPage !in s.pages
    ensures SameGenerations(s.pages, DoParsed(s, t, key, wants, page).pages)
  {
  }

  lemma ChooseSameGenerations(s: State, t: Tid, key: Key, wants: bool, expired: bool)
    ensures SameGenerations(s.pages, DoChoose(s, t, key, wants, expired).pages)
  {
    hide SameGenerations;
    SameSelf(s.pages);
    if (t, key) in s.ipages && s.ipages[(t, key)].page in s.pages {
      var p := s.ipages[(t, key)].page;
      TouchSame(s.pages, p, s.pages[p].(locked := true));
    }
  }

  lemma BeginSameGenerations(s: State, t: Tid, key: Key, version: Version, wants: bool)
    ensures SameGenerations(s.pages, DoBegin(s, t, key, version, wants).pages)
  {
    hide FreeInterpPage, SameGenerations;
    SameSelf(s.pages);
    if (t, key) in s.ipages {
      FreeSameGenerations(s, (t, key));
    }
  }

  lemma StoreSameGenerations(s: State, t: Tid, key: Key, p: PageId, wants: bool)
    ensures SameGenerations(s.pages, DoStore(s, t, key, p, wants).pages)
  {
    hide FreeInterpPage, SameGenerations;
    SameSelf(s.pages);
    if (t, key) in s.ipages {
      FreeSameGenerations(s, (t, key));
    }
  }

  /** A step that is not the end of a refresh changes no generation and no result of a page. */
  lemma OthersSameGenerations(s: State, e: Event)
    requires Inv(s) && !e.Refreshed?
    ensures SameGenerations(s.pages, Next(s, e).pages)
  {
    hide Slots, Pages, Results, Helds, Threads, Ledger;
    hide DoBegin, DoLookup, DoParsed, DoStore, DoChoose, FreeInterpPage, DecrCache, SameGenerations;
    SameSelf(s.pages);
    var pc := PcOf(s, e.t);
    match e {
      case Begin(t, key, version, wants) => BeginSameGenerations(s, t, key, version, wants);
      case Lookup(t) => if pc.Looking? { LookupSameGenerations(s, t, pc.key, pc.version, pc.wants); }
      case Parsed(t, page) =>
        NextIsNew(s.pages.Keys, s.freedPages, s.nextPage);
        if pc.Parsing? { ParsedSameGenerations(s, t, pc.key, pc.wants, page); }
      case Store(t) => if pc.Storing? { StoreSameGenerations(s, t, pc.key, pc.page, pc.wants); }
      case Choose(t, expired) => if pc.Found? { ChooseSameGenerations(s, t, pc.key, pc.wants, expired); }
      case Evict(t, key) => if (t, key) in s.ipages { FreeSameGenerations(s, (t, key)); }
      case _ =>
    }
  }

  /** The end of a refresh changes both, if there is a new result, and of its own page only. */
  lemma RefreshedGenerations(s: State, t: Tid, result: Option<nat>)
    requires Inv(s) && PcOf(s, t).Refreshing?
    ensures var key := PcOf(s, t).key;
            var s' := DoRefreshed(s, t, key, result);
            && (t, key) in s.ipages && s'.pages.Keys == s.pages.Keys
            && forall p :: p in s.pages ==>
                 if p == s.ipages[(t, key)].page && result.Some?
                 then && s'.pages[p].gen == s.pages[p].gen + 1 && s'.pages[p].cached != s.pages[p].cached
                      && SamePage(s.pages[p], s'.pages[p])
                 else && s'.pages[p].gen == s.pages[p].gen && s'.pages[p].cached == s.pages[p].cached
                      && SamePage(s.pages[p], s'.pages[p])
  {
    hide Slots, Results, Pages, Helds, Threads, Ledgers, Holders, Install, TakeResult;
    var key := PcOf(s, t).key;
    ThreadAt(s, t);
    HeldAt(s, (t, key));
    var p := s.ipages[(t, key)].page;
    match result {
      case None =>
        var s1 := s.(pages := s.pages[p := s.pages[p].(locked := false)]);
        TakePages(s1, t, key, None, s.pages[p].gen);
      case Some(n) =>
        InstallGenerations(s, p, n);
        TakePages(Install(s, p, n), t, key, Some(s.nextResult), s.pages[p].gen + 1);
    }
  }

  lemma TakePages(s: State, t: Tid, key: Key, result: Option<ResultId>, gen: nat)
    ensures TakeResult(s, t, key, result, gen).pages == s.pages
  {
  }

  lemma InstallGenerations(s: State, p: PageId, n: nat)
    requires Inv(s) && p in s.pages
    ensures var s' := Install(s, p, n);
            && s'.pages.Keys == s.pages.Keys
            && s'.pages[p].gen == s.pages[p].gen + 1 && s'.pages[p].cached != s.pages[p].cached
            && SamePage(s.pages[p], s'.pages[p])
            && forall q :: q in s.pages && q != p ==> s'.pages[q] == s.pages[q]
  {
    hide Slots, Results, Pages, Helds, Threads, Ledger, DecrCache, Holders;
    PageAt(s, p);
    NextIsNew(s.results.Keys, s.freedResults, s.nextResult);
  }

  /** The generation of a page changes exactly when its cached result does. */
  lemma GenerationChangesWithResult(es: seq<Event>, e: Event, p: PageId)
    requires p in Run(INIT, es).pages && p in Next(Run(INIT, es), e).pages
    ensures var a, b := Run(INIT, es).pages[p], Next(Run(INIT, es), e).pages[p];
            a.gen != b.gen <==> a.cached != b.cached
  {
    hide Run, Inv, DoBegin, DoLookup, DoParsed, DoStore, DoChoose, DoRefreshed, DoSelect, DoFinish, FreeInterpPage;
    RunKeeps(es);
    var s := Run(INIT, es);
    if e.Refreshed? {
      if PcOf(s, e.t).Refreshing? {
        RefreshedGenerations(s, e.t, e.result);
      }
    } else {
      OthersSameGenerations(s, e);
    }
  }

  // ----- two things the code does not promise

  /**
   * FreeInterpPage passes NULL to FreeObjs exactly when it drops the last InterpPage of a
   * page that has a cached result, and this InterpPage was never used to run one.
   */
  lemma NullIsFreedIff(s: State, h: Holder)
    requires Inv(s) && h in s.ipages && !s.nullFree
    ensures FreeInterpPage(s, h).nullFree <==>
              var p := s.ipages[h].page;
              p in s.pages && Holders(s, p) == 1 && s.pages[p].cached.Some? && s.ipages[h].cacheObjs.None?
  {
    hide Slots, Results, Pages, Helds, Threads, Ledgers, FreePage, Holders;
    HeldAt(s, h);
    PageAt(s, s.ipages[h].page);
  }
}
