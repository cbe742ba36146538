/** When the cached result of a page of nsd/adpeval.c is built by more than one thread at a time. */
module AdpPagesRefresh {
  import opened Prelude
  import opened AdpPages
  import opened AdpPagesSteps
  import opened AdpPagesRuns

  /** Thread `t` runs page `p` to make a new result. */
  predicate Refreshes(s: State, t: Tid, p: PageId) {
    var pc := PcOf(s, t);
    pc.Refreshing? && (t, pc.key) in s.ipages && s.ipages[(t, pc.key)].page == p
  }

  /** A thread that has found its page begins to refresh it: it wants a result, and there is none, or an old one that nobody is replacing. */
  predicate Starts(s: State, t: Tid, p: PageId, expired: bool) {
    var pc := PcOf(s, t);
    && pc.Found? && (t, pc.key) in s.ipages && s.ipages[(t, pc.key)].page == p && p in s.pages
    && pc.wants && (s.pages[p].cached.None? || (!s.pages[p].locked && expired))
  }

  /** In every interleaving, the choice leads to a refresh exactly then. */
  lemma RefreshStartsIff(es: seq<Event>, t: Tid, expired: bool)
    requires PcOf(Run(INIT, es), t).Found?
    ensures var s := Run(INIT, es); var s' := Next(s, Choose(t, expired)); var key := PcOf(s, t).key;
            && (t, key) in s.ipages
            && (PcOf(s', t).Refreshing? <==> Starts(s, t, s.ipages[(t, key)].page, expired))
  {
    hide Run, Slots, Pages, Results, Helds, Ledgers, Threads, Generation, Holders;
    RunKeeps(es);
    var s := Run(INIT, es);
    ThreadAt(s, t);
    HeldAt(s, (t, PcOf(s, t).key));
    PageAt(s, s.ipages[(t, PcOf(s, t).key)].page);
  }

  ghost predicate OneRefresher(s: State) {
    forall p, t, u :: Refreshes(s, t, p) && Refreshes(s, u, p) ==> t == u
  }

  /** A thread begins to build the first result of a page that another thread is building. */
  ghost predicate DoubleStart(s: State, e: Event) {
    && e.Choose?
    && exists p, u :: Starts(s, e.t, p, e.expired) && s.pages[p].cached.None? && Refreshes(s, u, p)
  }

  /** At most one refresher for a page, and the page is locked meanwhile if it has a result. */
  ghost predicate Exclusive(s: State) {
    && OneRefresher(s)
    && forall p, t :: Refreshes(s, t, p) && p in s.pages && s.pages[p].cached.Some? ==> s.pages[p].locked
  }

  // ----- steps

  /** A step of thread `t` leaves the other threads alone, and does not begin a refresh. */
  ghost predicate Frame(s: State, s': State, t: Tid) {
    && (forall u :: u != t ==> PcOf(s', u) == PcOf(s, u))
    && (forall h :: h in s'.ipages && (h.0 != t || PcOf(s', t).Refreshing?) ==>
          h in s.ipages && s'.ipages[h] == s.ipages[h])
    && (PcOf(s', t).Refreshing? ==> PcOf(s', t) == PcOf(s, t))
  }

  lemma MoveFrame(s: State, s': State, t: Tid, pc: Pc)
    requires s'.pcs == s.pcs[t := pc] && !pc.Refreshing?
    requires forall h :: h in s'.ipages && h.0 != t ==> h in s.ipages && s'.ipages[h] == s.ipages[h]
    ensures Frame(s, s', t)
  {
  }

  lemma GoFrame(s: State, s': State, t: Tid, pc: Pc)
    requires s'.pcs == s.pcs[t := pc] && !pc.Refreshing? && s'.ipages == s.ipages
    ensures Frame(s, s', t)
  {
  }

  lemma SameFrame(s: State, s': State, t: Tid)
    requires s'.pcs == s.pcs && s'.ipages == s.ipages
    ensures Frame(s, s', t)
  {
  }

  lemma BeginFrame(s: State, t: Tid, key: Key, version: Version, wants: bool)
    requires PcOf(s, t).Idle?
    ensures Frame(s, DoBegin(s, t, key, version, wants), t)
  {
    hide FreeInterpPage, Frame;
    var s' := DoBegin(s, t, key, version, wants);
    if (t, key) !in s.ipages {
      MoveFrame(s, s', t, Looking(key, version, wants));
    } else if s.ipages[(t, key)].page !in s.pages {
      SameFrame(s, s', t);
    } else if s.pages[s.ipages[(t, key)].page].version == version {
      MoveFrame(s, s', t, Found(key, wants));
    } else {
      FreeFrame(s, (t, key));
      MoveFrame(s, s', t, Looking(key, version, wants));
    }
  }

  lemma StoreFrame(s: State, t: Tid, key: Key, p: PageId, wants: bool)
    requires PcOf(s, t).Storing?
    ensures Frame(s, DoStore(s, t, key, p, wants), t)
  {
    hide FreeInterpPage, Frame, PcOf;
    var s' := DoStore(s, t, key, p, wants);
    var s1 := if (t, key) in s.ipages then FreeInterpPage(s, (t, key)) else s;
    assert s1.pcs == s.pcs && forall h :: h in s1.ipages ==> h in s.ipages && s1.ipages[h] == s.ipages[h] by {
      if (t, key) in s.ipages {
        FreeFrame(s, (t, key));
      }
    }
    if p !in s1.pages {
      StillStoring(s, s', t);
    } else {
      MoveFrame(s, s', t, Found(key, wants));
    }
  }

  lemma StillStoring(s: State, s': State, t: Tid)
    requires PcOf(s, t).Storing? && s'.pcs == s.pcs
    requires forall h :: h in s'.ipages && h.0 != t ==> h in s.ipages && s'.ipages[h] == s.ipages[h]
    ensures Frame(s, s', t)
  {
  }

  /** Where a lookup leads. */
  function AfterLookup(s: State, key: Key, version: Version, wants: bool): Option<Pc> {
    if key !in s.table then Some(Parsing(key, wants))
    else
      match s.table[key]
      case InProgress(_) => None
      case Ready(p) =>
        if p !in s.pages then None
        else if s.pages[p].version == version then Some(Storing(key, p, wants))
        else Some(Parsing(key, wants))
  }

  lemma LookupMoves(s: State, t: Tid, key: Key, version: Version, wants: bool)
    ensures var s' := DoLookup(s, t, key, version, wants);
            && s'.ipages == s.ipages
            && s'.pcs == match AfterLookup(s, key, version, wants) case None => s.pcs case Some(pc) => s.pcs[t := pc]
  {
    hide Go;
    if key !in s.table {
      GoIs(s.(table := s.table[key := InProgress(t)]), t, Parsing(key, wants));
    } else if s.table[key].Ready? && s.table[key].page in s.pages {
      var p := s.table[key].page;
      var pg := s.pages[p];
      if pg.version == version {
        GoIs(s.(pages := s.pages[p := pg.(refcnt := pg.refcnt + 1)]), t, Storing(key, p, wants));
      } else {
        GoIs(s.(table := s.table[key := InProgress(t)], pages := s.pages[p := pg.(linked := false)]), t, Parsing(key, wants));
      }
    }
  }

  lemma GoIs(s: State, t: Tid, pc: Pc)
    ensures Go(s, t, pc).pcs == s.pcs[t := pc] && Go(s, t, pc).ipages == s.ipages
  {
  }

  lemma LookupFrame(s: State, t: Tid, key: Key, version: Version, wants: bool)
    ensures Frame(s, DoLookup(s, t, key, version, wants), t)
  {
    hide Frame, DoLookup;
    var s' := DoLookup(s, t, key, version, wants);
    LookupMoves(s, t, key, version, wants);
    match AfterLookup(s, key, version, wants) {
      case None => SameFrame(s, s', t);
      case Some(pc) => GoFrame(s, s', t, pc);
    }
  }

  lemma ParsedFrame(s: State, t: Tid, key: Key, wants: bool, page: Option<(Version, nat)>)
    ensures Frame(s, DoParsed(s, t, key, wants, page), t)
  {
  }

  lemma RefreshedFrame(s: State, t: Tid, key: Key, result: Option<nat>)
    requires Inv(s) && PcOf(s, t) == Refreshing(key)
    ensures var s' := DoRefreshed(s, t, key, result);
            Frame(s, s', t) && PcOf(s', t).Selected?
  {
    hide Slots, Pages, Results, Helds, Ledgers, Threads, Install, TakeResult;
    ThreadAt(s, t);
    HeldAt(s, (t, key));
    var p := s.ipages[(t, key)].page;
    match result {
      case None => TakeFrame(s.(pages := s.pages[p := s.pages[p].(locked := false)]), t, key, None, s.pages[p].gen);
      case Some(n) =>
        InstallIs(s, p, n);
        TakeFrame(Install(s, p, n), t, key, Some(s.nextResult), s.pages[p].gen + 1);
    }
  }

  lemma TakeFrame(s: State, t: Tid, key: Key, result: Option<ResultId>, gen: nat)
    requires result.Some? ==> result.value in s.results
    ensures var s' := TakeResult(s, t, key, result, gen);
            s'.pcs == s.pcs[t := Selected(key, result, gen)] && s'.ipages == s.ipages
  {
  }

  lemma SelectFrame(s: State, t: Tid, key: Key, result: Option<ResultId>, gen: nat)
    requires PcOf(s, t).Selected?
    ensures Frame(s, DoSelect(s, t, key, result, gen), t)
  {
  }

  lemma FinishFrame(s: State, t: Tid, result: Option<ResultId>)
    ensures Frame(s, DoFinish(s, t, result), t)
  {
    hide DecrCache;
  }

  lemma NextFrame(s: State, e: Event)
    requires Inv(s) && !e.Choose?
    ensures Frame(s, Next(s, e), e.t)
  {
    hide Inv, DoBegin, DoLookup, DoParsed, DoStore, DoRefreshed, DoSelect, DoFinish, FreeInterpPage;
    var pc := PcOf(s, e.t);
    match e {
      case Begin(t, key, version, wants) => if pc.Idle? { BeginFrame(s, t, key, version, wants); }
      case Lookup(t) => if pc.Looking? { LookupFrame(s, t, pc.key, pc.version, pc.wants); }
      case Parsed(t, page) => if pc.Parsing? { ParsedFrame(s, t, pc.key, pc.wants, page); }
      case Store(t) => if pc.Storing? { StoreFrame(s, t, pc.key, pc.page, pc.wants); }
      case Refreshed(t, result) => if pc.Refreshing? { RefreshedFrame(s, t, pc.key, result); }
      case Select(t) => if pc.Selected? { SelectFrame(s, t, pc.key, pc.result, pc.gen); }
      case Finish(t) => if pc.Executing? { FinishFrame(s, t, pc.result); }
      case Evict(t, key) => if (t, key) in s.ipages { FreeFrame(s, (t, key)); }
    }
  }

  lemma FrameRefreshes(s: State, s': State, x: Tid, t: Tid, p: PageId)
    requires Frame(s, s', x) && Refreshes(s', t, p)
    ensures Refreshes(s, t, p)
  {
  }

  /** The page of a refresher is there, also in the state before. */
  lemma PageIsThere(s: State, t: Tid, p: PageId)
    requires Inv(s) && Refreshes(s, t, p)
    ensures p in s.pages
  {
    hide Slots, Pages, Results, Helds, Ledgers, Threads;
    HeldAt(s, (t, PcOf(s, t).key));
  }

  /** What a choice changes: only where its thread is, and the lock of a page it begins to refresh. */
  lemma ChooseIs(s: State, t: Tid, expired: bool)
    requires Inv(s)
    ensures var s' := Next(s, Choose(t, expired));
            && s'.ipages == s.ipages && (forall u :: u != t ==> PcOf(s', u) == PcOf(s, u))
            && s'.pages.Keys == s.pages.Keys
            && (PcOf(s', t).Refreshing? && !PcOf(s, t).Refreshing? ==>
                  exists p :: Starts(s, t, p, expired) && Refreshes(s', t, p)
                              && (s.pages[p].cached.Some? ==> s'.pages[p].locked && !s.pages[p].locked))
            && (PcOf(s', t).Refreshing? && PcOf(s, t).Refreshing? ==> s' == s)
  {
    hide Slots, Pages, Results, Helds, Ledgers, Threads, Generation, Holders;
    var pc := PcOf(s, t);
    if pc.Found? {
      ThreadAt(s, t);
      HeldAt(s, (t, pc.key));
      var p := s.ipages[(t, pc.key)].page;
      PageAt(s, p);
      ChooseFound(s, t, pc.key, pc.wants, expired, p);
    }
  }

  lemma ChooseFound(s: State, t: Tid, key: Key, wants: bool, expired: bool, p: PageId)
    requires PcOf(s, t) == Found(key, wants) && (t, key) in s.ipages && s.ipages[(t, key)].page == p && p in s.pages
    requires s.pages[p].cached.Some? ==> s.pages[p].cached.value in s.results
    ensures var s' := DoChoose(s, t, key, wants, expired);
            && s'.ipages == s.ipages && (forall u :: u != t ==> PcOf(s', u) == PcOf(s, u))
            && s'.pages.Keys == s.pages.Keys
            && (PcOf(s', t).Refreshing? ==>
                  Starts(s, t, p, expired) && Refreshes(s', t, p)
                  && (s.pages[p].cached.Some? ==> s'.pages[p].locked && !s.pages[p].locked))
  {
  }

  /** A step other than a double start keeps refreshers apart. */
  lemma NextExclusive(s: State, e: Event)
    requires Inv(s) && Exclusive(s) && !DoubleStart(s, e)
    ensures Exclusive(Next(s, e))
  {
    hide Inv, Next, Refreshes, Starts, Frame, SameGenerations;
    NextKeeps(s, e);
    if e.Choose? {
      ChooseExclusive(s, e.t, e.expired);
    } else if e.Refreshed? {
      RefreshedExclusive(s, e.t, e.result);
    } else {
      NextFrame(s, e);
      OthersSameGenerations(s, e);
      QuietExclusive(s, Next(s, e), e.t);
    }
  }

  lemma QuietExclusive(s: State, s': State, x: Tid)
    requires Inv(s) && Inv(s') && Exclusive(s) && Frame(s, s', x) && SameGenerations(s.pages, s'.pages)
    ensures Exclusive(s')
  {
    hide Inv, Refreshes, Frame;
    forall p, t | Refreshes(s', t, p) ensures Refreshes(s, t, p) && p in s.pages && p in s'.pages {
      FrameRefreshes(s, s', x, t, p);
      PageIsThere(s, t, p);
      PageIsThere(s', t, p);
    }
  }

  lemma ChooseExclusive(s: State, t: Tid, expired: bool)
    requires Inv(s) && Exclusive(s) && !DoubleStart(s, Choose(t, expired))
    ensures Exclusive(Next(s, Choose(t, expired)))
  {
    hide Inv, Next;
    var e := Choose(t, expired);
    var s' := Next(s, e);
    ChooseIs(s, t, expired);
    OthersSameGenerations(s, e);
    forall p, u | Refreshes(s', u, p) && (u != t || PcOf(s, t).Refreshing?) ensures Refreshes(s, u, p) && p in s.pages {
      PageIsThere(s, u, p);
    }
    if PcOf(s', t).Refreshing? && !PcOf(s, t).Refreshing? {
      var p :| Starts(s, t, p, expired) && Refreshes(s', t, p)
               && (s.pages[p].cached.Some? ==> s'.pages[p].locked && !s.pages[p].locked);
      forall u | u != t ensures !Refreshes(s', u, p) {
        assert Refreshes(s', u, p) ==> Refreshes(s, u, p);
      }
    }
  }

  lemma RefreshedExclusive(s: State, t: Tid, result: Option<nat>)
    requires Inv(s) && Exclusive(s)
    ensures Exclusive(Next(s, Refreshed(t, result)))
  {
    hide Inv, DoRefreshed;
    var s' := Next(s, Refreshed(t, result));
    if PcOf(s, t).Refreshing? {
      var key := PcOf(s, t).key;
      RefreshedFrame(s, t, key, result);
      RefreshedGenerations(s, t, result);
      RefreshedLocks(s, t, key, result);
      var q := s.ipages[(t, key)].page;
      assert Refreshes(s, t, q);
      forall p, u | Refreshes(s', u, p) ensures Refreshes(s, u, p) && u != t && p != q && p in s.pages {
        FrameRefreshes(s, s', t, u, p);
        PageIsThere(s, u, p);
      }
    }
  }

  lemma RefreshedLocks(s: State, t: Tid, key: Key, result: Option<nat>)
    requires Inv(s) && PcOf(s, t) == Refreshing(key)
    ensures var s' := DoRefreshed(s, t, key, result);
            && (t, key) in s.ipages && s'.pages.Keys == s.pages.Keys
            && forall p :: p in s.pages && p != s.ipages[(t, key)].page ==> s'.pages[p] == s.pages[p]
  {
    hide Slots, Pages, Results, Helds, Ledgers, Threads, Install, TakeResult;
    ThreadAt(s, t);
    HeldAt(s, (t, key));
    var p := s.ipages[(t, key)].page;
    match result {
      case None => TakePages(s.(pages := s.pages[p := s.pages[p].(locked := false)]), t, key, None, s.pages[p].gen);
      case Some(n) =>
        InstallGenerations(s, p, n);
        TakePages(Install(s, p, n), t, key, Some(s.nextResult), s.pages[p].gen + 1);
    }
  }

  /** A double start has two refreshers at once. */
  lemma DoubleStartDoubles(s: State, e: Event)
    requires Inv(s) && DoubleStart(s, e)
    ensures !OneRefresher(Next(s, e))
  {
    hide Inv;
    var p, u :| Starts(s, e.t, p, e.expired) && s.pages[p].cached.None? && Refreshes(s, u, p);
    ChooseIs(s, e.t, e.expired);
    var s' := Next(s, e);
    PageUnlocked(s, p);
    assert Refreshes(s', u, p) && Refreshes(s', e.t, p) && u != e.t;
  }

  lemma PageUnlocked(s: State, p: PageId)
    requires Inv(s) && p in s.pages
    ensures s.pages[p].cached.None? ==> !s.pages[p].locked
  {
    hide Slots, Pages, Results, Helds, Ledgers, Threads, Holders;
    PageAt(s, p);
  }

  // ----- runs

  lemma RunStep(es: seq<Event>, n: nat)
    requires n < |es|
    ensures Run(INIT, es[..n + 1]) == Next(Run(INIT, es[..n]), es[n])
  {
    hide Next;
    assert es[..n + 1] == es[..n] + [es[n]];
    RunConcat(INIT, es[..n], [es[n]]);
    var s := Run(INIT, es[..n]);
    assert Run(s, [es[n]]) == Run(Next(s, es[n]), [es[n]][1..]);
  }

  lemma {:induction false} RunExclusive(es: seq<Event>, n: nat)
    requires n <= |es| && forall i :: 0 <= i < n ==> !DoubleStart(Run(INIT, es[..i]), es[i])
    ensures Exclusive(Run(INIT, es[..n]))
  {
    hide Run, Next, Exclusive, DoubleStart, Inv;
    if n == 0 {
      assert es[..0] == [];
      NobodyRefreshes();
    } else {
      RunExclusive(es, n - 1);
      RunStep(es, n - 1);
      RunKeeps(es[..n - 1]);
      NextExclusive(Run(INIT, es[..n - 1]), es[n - 1]);
    }
  }

  lemma NobodyRefreshes()
    ensures Exclusive(Run(INIT, []))
  {
  }

  /**
   * In every run: no page ever has two refreshers at a time if and only if no thread begins
   * to build the first result of a page while another thread is building it.
   */
  lemma BuiltByOneIff(es: seq<Event>)
    ensures (forall n :: 0 <= n <= |es| ==> OneRefresher(Run(INIT, es[..n])))
       <==> (forall n :: 0 <= n < |es| ==> !DoubleStart(Run(INIT, es[..n]), es[n]))
  {
    hide Run, Next, DoubleStart, Inv, OneRefresher;
    if forall n :: 0 <= n < |es| ==> !DoubleStart(Run(INIT, es[..n]), es[n]) {
      forall n | 0 <= n <= |es| ensures OneRefresher(Run(INIT, es[..n])) {
        RunExclusive(es, n);
      }
    } else {
      var n :| 0 <= n < |es| && DoubleStart(Run(INIT, es[..n]), es[n]);
      RunKeeps(es[..n]);
      DoubleStartDoubles(Run(INIT, es[..n]), es[n]);
      RunStep(es, n);
      assert !OneRefresher(Run(INIT, es[..n + 1]));
    }
  }
}
