/** Which version of a file, and which result, a thread runs in nsd/adpeval.c. */
module AdpPagesVersions {
  import opened Prelude
  import opened AdpPages
  import opened AdpPagesSteps
  import opened AdpPagesRuns
  import opened AdpPagesRefresh

  /** What the last call of AdpSource by a thread asks for. */
  datatype Aim = Aim(key: Key, version: Version, wants: bool)

  /**
   * What thread `t` asks for after a run: what its last call was given, except that a file that
   * the thread itself has read since counts with the version that it had when it was read.
   */
  function AimOf(es: seq<Event>, t: Tid): Aim {
    if es == [] then Aim("", 0, false)
    else
      var before, e := es[..|es| - 1], es[|es| - 1];
      var pc := PcOf(Run(INIT, before), t);
      if e.t != t then AimOf(before, t)
      else if e.Begin? && pc.Idle? then Aim(e.key, e.version, e.wants)
      else if e.Parsed? && pc.Parsing? && e.page.Some? then AimOf(before, t).(version := e.page.value.0)
      else AimOf(before, t)
  }

  /** Where a thread is fits what it asks for. */
  ghost predicate OnAim(s: State, t: Tid, a: Aim) {
    match PcOf(s, t)
    case Idle => true
    case Looking(key, version, wants) => a == Aim(key, version, wants)
    case Parsing(key, wants) => a.key == key && a.wants == wants
    case Storing(key, p, wants) => a.key == key && a.wants == wants && p in s.pages && s.pages[p].version == a.version
    case Found(key, wants) => a.wants == wants && Holds(s, t, key, a)
    case Refreshing(key) => a.wants && Holds(s, t, key, a)
    case Selected(key, result, _) => (result.Some? ==> a.wants) && Holds(s, t, key, a)
    case Executing(key, result, _) => (result.Some? ==> a.wants) && Holds(s, t, key, a)
  }

  /** The thread's own InterpPage is of the file and the version it asks for. */
  ghost predicate Holds(s: State, t: Tid, key: Key, a: Aim) {
    && a.key == key && (t, key) in s.ipages
    && var p := s.ipages[(t, key)].page;
       p in s.pages && s.pages[p].version == a.version && s.pages[p].key == key
  }

  /** Pages that live on are made of the same. */
  ghost predicate PagesSame(s: State, s': State) {
    forall p :: p in s.pages && p in s'.pages ==> SamePage(s.pages[p], s'.pages[p])
  }

  lemma NextPagesSame(s: State, e: Event)
    requires Inv(s)
    ensures PagesSame(s, Next(s, e))
  {
    hide Inv, DoRefreshed;
    if e.Refreshed? {
      if PcOf(s, e.t).Refreshing? {
        RefreshedGenerations(s, e.t, e.result);
      }
    } else {
      hide Next;
      OthersSameGenerations(s, e);
    }
  }

  // ----- one step

  /** A thread that does not move stays on its aim. */
  lemma StaysOnAim(s: State, s': State, t: Tid, a: Aim)
    requires Inv(s') && PagesSame(s, s') && OnAim(s, t, a) && PcOf(s', t) == PcOf(s, t)
    requires forall h :: h in s'.ipages && h.0 == t ==> h in s.ipages && s'.ipages[h].page == s.ipages[h].page
    ensures OnAim(s', t, a)
  {
    hide Slots, Pages, Results, Ledgers, Helds, Threads, PcOf, Generation, Scripts;
    ThreadAt(s', t);
    match PcOf(s', t) {
      case Found(key, _) => HeldAt(s', (t, key));
      case Refreshing(key) => HeldAt(s', (t, key));
      case Selected(key, _, _) => HeldAt(s', (t, key));
      case Executing(key, _, _) => HeldAt(s', (t, key));
      case _ =>
    }
  }

  lemma StillHolds(s: State, s': State, t: Tid, key: Key, a: Aim)
    requires Inv(s') && PagesSame(s, s') && Holds(s, t, key, a)
    requires (t, key) in s'.ipages && s'.ipages[(t, key)].page == s.ipages[(t, key)].page
    ensures Holds(s', t, key, a)
  {
    hide Slots, Pages, Results, Ledgers, Helds, Threads;
    HeldAt(s', (t, key));
  }

  /** What a step makes of the aim of its thread. */
  function NextAim(s: State, e: Event, a: Aim): Aim {
    var pc := PcOf(s, e.t);
    if e.Begin? && pc.Idle? then Aim(e.key, e.version, e.wants)
    else if e.Parsed? && pc.Parsing? && e.page.Some? then a.(version := e.page.value.0)
    else a
  }

  lemma BeginOnAim(s: State, t: Tid, key: Key, version: Version, wants: bool)
    requires Inv(s) && PcOf(s, t).Idle?
    ensures OnAim(DoBegin(s, t, key, version, wants), t, Aim(key, version, wants))
  {
    hide Slots, Pages, Results, Ledgers, Helds, Threads, FreeInterpPage;
    if (t, key) in s.ipages {
      HeldAt(s, (t, key));
    }
  }

  lemma LookupOnAim(s: State, t: Tid, a: Aim)
    requires PcOf(s, t).Looking? && OnAim(s, t, a)
    ensures var pc := PcOf(s, t);
            OnAim(DoLookup(s, t, pc.key, pc.version, pc.wants), t, a)
  {
    hide DoLookup;
    var pc := PcOf(s, t);
    LookupMoves(s, t, pc.key, pc.version, pc.wants);
    LookupVersion(s, t, pc.key, pc.version, pc.wants);
  }

  lemma LookupVersion(s: State, t: Tid, key: Key, version: Version, wants: bool)
    ensures var s' := DoLookup(s, t, key, version, wants);
            forall p :: AfterLookup(s, key, version, wants) == Some(Storing(key, p, wants)) ==>
              p in s'.pages && s'.pages[p].version == version
  {
  }

  lemma ParsedOnAim(s: State, t: Tid, page: Option<(Version, nat)>, a: Aim)
    requires PcOf(s, t).Parsing? && OnAim(s, t, a)
    ensures var pc := PcOf(s, t);
            OnAim(DoParsed(s, t, pc.key, pc.wants, page), t, NextAim(s, Parsed(t, page), a))
  {
  }

  lemma StoreOnAim(s: State, t: Tid, a: Aim, s': State)
    requires Inv(s) && Inv(s') && PcOf(s, t).Storing? && OnAim(s, t, a) && PagesSame(s, s')
    requires s' == DoStore(s, t, PcOf(s, t).key, PcOf(s, t).page, PcOf(s, t).wants)
    ensures OnAim(s', t, a)
  {
    hide Slots, Pages, Results, Ledgers, Helds, Threads, FreeInterpPage;
    var pc := PcOf(s, t);
    if (t, pc.key) in s.ipages {
      FreeFrame(s, (t, pc.key));
    }
    if PcOf(s', t).Found? {
      HeldAt(s', (t, pc.key));
    } else {
      ThreadAt(s', t);
    }
  }

  /** What a choice leads to: a refresh, or the current result of the page if one is wanted. */
  lemma ChoiceIs(s: State, t: Tid, expired: bool)
    requires Inv(s) && PcOf(s, t).Found?
    ensures var key, wants := PcOf(s, t).key, PcOf(s, t).wants;
            && (t, key) in s.ipages && s.ipages[(t, key)].page in s.pages
            && var p := s.ipages[(t, key)].page; var pg := s.pages[p]; var s' := Next(s, Choose(t, expired));
               && s'.ipages == s.ipages
               && PcOf(s', t) == if Starts(s, t, p, expired) then Refreshing(key)
                                 else if wants then Selected(key, pg.cached, pg.gen)
                                 else Selected(key, None, 0)
  {
    hide Slots, Pages, Results, Ledgers, Helds, Threads, Holders, Generation;
    ThreadAt(s, t);
    HeldAt(s, (t, PcOf(s, t).key));
    PageAt(s, s.ipages[(t, PcOf(s, t).key)].page);
  }

  /** After a refresh the thread runs the result that it has just installed, or the page itself if there is none. */
  lemma RefreshedIs(s: State, t: Tid, result: Option<nat>)
    requires Inv(s) && PcOf(s, t).Refreshing?
    ensures var key := PcOf(s, t).key; var s' := Next(s, Refreshed(t, result));
            && (t, key) in s.ipages && s'.ipages == s.ipages
            && match result
               case None => PcOf(s', t).Selected? && PcOf(s', t).key == key && PcOf(s', t).result.None?
               case Some(n) =>
                 && PcOf(s', t).Selected? && PcOf(s', t).key == key && PcOf(s', t).result == Some(s.nextResult)
                 && Points(s', s.ipages[(t, key)].page, s.nextResult)
                 && s.nextResult in s'.results && s'.results[s.nextResult].nscripts == n
  {
    hide Slots, Pages, Results, Ledgers, Helds, Threads, Install, TakeResult;
    var key := PcOf(s, t).key;
    ThreadAt(s, t);
    HeldAt(s, (t, key));
    var p := s.ipages[(t, key)].page;
    match result {
      case None => TakeFrame(s.(pages := s.pages[p := s.pages[p].(locked := false)]), t, key, None, s.pages[p].gen);
      case Some(n) =>
        InstallIs(s, p, n);
        InstallPage(s, p, n);
        TakeFrame(Install(s, p, n), t, key, Some(s.nextResult), s.pages[p].gen + 1);
        TakePages(Install(s, p, n), t, key, Some(s.nextResult), s.pages[p].gen + 1);
        TakeScripts(Install(s, p, n), t, key, s.nextResult, s.pages[p].gen + 1);
    }
  }

  lemma TakeScripts(s: State, t: Tid, key: Key, r: ResultId, gen: nat)
    requires r in s.results
    ensures var s' := TakeResult(s, t, key, Some(r), gen);
            r in s'.results && s'.results[r].nscripts == s.results[r].nscripts
  {
  }

  /** The code that is run is the code that was chosen. */
  lemma SelectIs(s: State, t: Tid)
    requires Inv(s) && PcOf(s, t).Selected?
    ensures var pc := PcOf(s, t); var s' := Next(s, Select(t));
            && PcOf(s', t).Executing? && PcOf(s', t).key == pc.key && PcOf(s', t).result == pc.result
            && (t, pc.key) in s.ipages && (t, pc.key) in s'.ipages
            && s'.ipages[(t, pc.key)].page == s.ipages[(t, pc.key)].page
  {
    hide Slots, Pages, Results, Ledgers, Helds, Threads, Generation;
    ThreadAt(s, t);
  }

  lemma ChooseOnAim(s: State, t: Tid, expired: bool, a: Aim)
    requires Inv(s) && PcOf(s, t).Found? && OnAim(s, t, a)
    ensures OnAim(Next(s, Choose(t, expired)), t, a)
  {
    hide Inv, Next, Starts, PagesSame, Holds;
    var e := Choose(t, expired);
    NextKeeps(s, e);
    NextPagesSame(s, e);
    ChoiceIs(s, t, expired);
    WantsIfStarts(s, t, expired);
    HoldsKey(s, t, PcOf(s, t).key, a);
    StillHolds(s, Next(s, e), t, PcOf(s, t).key, a);
  }

  lemma HoldsKey(s: State, t: Tid, key: Key, a: Aim)
    requires Holds(s, t, key, a)
    ensures (t, key) in s.ipages
  {
  }

  lemma RefreshedOnAim(s: State, t: Tid, result: Option<nat>, a: Aim)
    requires Inv(s) && PcOf(s, t).Refreshing? && OnAim(s, t, a)
    ensures OnAim(Next(s, Refreshed(t, result)), t, a)
  {
    hide Inv, Next, PagesSame, Holds, Points;
    var e := Refreshed(t, result);
    NextKeeps(s, e);
    NextPagesSame(s, e);
    RefreshedIs(s, t, result);
    StillHolds(s, Next(s, e), t, PcOf(s, t).key, a);
  }

  lemma SelectOnAim(s: State, t: Tid, a: Aim)
    requires Inv(s) && PcOf(s, t).Selected? && OnAim(s, t, a)
    ensures OnAim(Next(s, Select(t)), t, a)
  {
    hide Inv, Next, PagesSame, Holds;
    NextKeeps(s, Select(t));
    NextPagesSame(s, Select(t));
    SelectIs(s, t);
    StillHolds(s, Next(s, Select(t)), t, PcOf(s, t).key, a);
  }

  lemma EvictOnAim(s: State, t: Tid, key: Key, a: Aim)
    requires Inv(s) && (t, key) in s.ipages && !Uses(PcOf(s, t), key) && OnAim(s, t, a)
    ensures OnAim(Next(s, Evict(t, key)), t, a)
  {
    hide Inv, FreeInterpPage, PagesSame, OnAim;
    NextKeeps(s, Evict(t, key));
    NextPagesSame(s, Evict(t, key));
    FreeFrame(s, (t, key));
    StaysOnAim(s, Next(s, Evict(t, key)), t, a);
  }

  lemma IdleOnAim(s: State, t: Tid, a: Aim)
    requires PcOf(s, t).Idle?
    ensures OnAim(s, t, a)
  {
  }

  /** Every step keeps its thread on its aim. */
  lemma OwnStepOnAim(s: State, e: Event, a: Aim)
    requires Inv(s) && OnAim(s, e.t, a)
    ensures OnAim(Next(s, e), e.t, NextAim(s, e, a))
  {
    hide Inv, OnAim, DoBegin, DoLookup, DoParsed, DoStore, DoChoose, DoRefreshed, DoSelect, DoFinish, FreeInterpPage;
    var pc := PcOf(s, e.t);
    match e {
      case Begin(t, key, version, wants) => if pc.Idle? { BeginOnAim(s, t, key, version, wants); }
      case Lookup(t) => if pc.Looking? { LookupOnAim(s, t, a); }
      case Parsed(t, page) => if pc.Parsing? { ParsedOnAim(s, t, page, a); }
      case Store(t) =>
        if pc.Storing? {
          NextKeeps(s, e);
          NextPagesSame(s, e);
          StoreOnAim(s, t, a, Next(s, e));
        }
      case Choose(t, expired) => if pc.Found? { ChooseOnAim(s, t, expired, a); }
      case Refreshed(t, result) => if pc.Refreshing? { RefreshedOnAim(s, t, result, a); }
      case Select(t) => if pc.Selected? { SelectOnAim(s, t, a); }
      case Finish(t) => if pc.Executing? { FinishIdle(s, t, pc.result); IdleOnAim(Next(s, e), t, a); }
      case Evict(t, key) => if (t, key) in s.ipages && !Uses(pc, key) { EvictOnAim(s, t, key, a); }
    }
  }

  lemma WantsIfStarts(s: State, t: Tid, expired: bool)
    ensures forall p :: Starts(s, t, p, expired) ==> PcOf(s, t).Found? && PcOf(s, t).wants
  {
  }

  lemma FinishIdle(s: State, t: Tid, result: Option<ResultId>)
    ensures PcOf(DoFinish(s, t, result), t) == Idle
  {
    hide DecrCache;
  }

  /** A step leaves the other threads on their aims. */
  lemma OtherStepOnAim(s: State, e: Event, t: Tid, a: Aim)
    requires Inv(s) && OnAim(s, t, a) && e.t != t
    ensures OnAim(Next(s, e), t, a)
  {
    hide Inv, Next, OnAim;
    var s' := Next(s, e);
    NextKeeps(s, e);
    NextPagesSame(s, e);
    if e.Choose? {
      ChooseIs(s, e.t, e.expired);
    } else {
      NextFrame(s, e);
    }
    StaysOnAim(s, s', t, a);
  }

  /** A call uses the thread's own page exactly if it is of the version asked for, and looks the page up otherwise. */
  lemma BeginIs(s: State, t: Tid, key: Key, version: Version, wants: bool)
    requires Inv(s) && PcOf(s, t).Idle?
    ensures var s' := Next(s, Begin(t, key, version, wants));
            && ((t, key) in s.ipages ==> s.ipages[(t, key)].page in s.pages)
            && PcOf(s', t) == (if (t, key) in s.ipages && s.pages[s.ipages[(t, key)].page].version == version
                               then Found(key, wants) else Looking(key, version, wants))
            && (PcOf(s', t).Looking? ==> (t, key) !in s'.ipages)
  {
    hide Slots, Pages, Results, Ledgers, Helds, Threads, FreeInterpPage;
    if (t, key) in s.ipages {
      HeldAt(s, (t, key));
      FreeFrame(s, (t, key));
    }
  }

  /**
   * A lookup shares the page of the table exactly if it is of the version asked for, waits
   * while another thread reads the file, and otherwise makes this thread the one that reads it.
   */
  lemma LookupIs(s: State, t: Tid)
    requires Inv(s) && PcOf(s, t).Looking?
    ensures var pc := PcOf(s, t); var s' := Next(s, Lookup(t)); var slot := SlotAt(s, pc.key);
            && (slot.Some? && slot.value.Ready? ==> slot.value.page in s.pages)
            && PcOf(s', t) == (if slot.None? then Parsing(pc.key, pc.wants)
                               else if slot.value.InProgress? then pc
                               else if s.pages[slot.value.page].version == pc.version
                               then Storing(pc.key, slot.value.page, pc.wants)
                               else Parsing(pc.key, pc.wants))
            && (PcOf(s', t).Parsing? ==> SlotAt(s', pc.key) == Some(InProgress(t)))
            && (!PcOf(s', t).Parsing? ==> s'.table == s.table)
  {
    hide Pages, Results, Ledgers, Helds, Threads;
    var key := PcOf(s, t).key;
    assert key in s.table ==> SlotOk(s, key);
  }

  function SlotAt(s: State, key: Key): Option<Slot> {
    if key in s.table then Some(s.table[key]) else None
  }

  /** A file that cannot be read ends the call and frees its slot; one that can is handed on. */
  lemma ParsedIs(s: State, t: Tid, page: Option<(Version, nat)>)
    requires PcOf(s, t).Parsing?
    ensures var pc := PcOf(s, t); var s' := Next(s, Parsed(t, page));
            if page.None? then PcOf(s', t) == Idle && pc.key !in s'.table
            else PcOf(s', t) == Storing(pc.key, s.nextPage, pc.wants) && pc.key in s'.table && s'.table[pc.key] == Ready(s.nextPage)
  {
  }

  /** A page that was looked up or read is put into the thread's own cache. */
  lemma StoreIs(s: State, t: Tid)
    requires Inv(s) && PcOf(s, t).Storing?
    ensures var pc := PcOf(s, t); var s' := Next(s, Store(t));
            && PcOf(s', t) == Found(pc.key, pc.wants)
            && (t, pc.key) in s'.ipages && s'.ipages[(t, pc.key)].page == pc.page && s'.ipages[(t, pc.key)].cacheObjs.None?
  {
    hide Slots, Pages, Results, Ledgers, Helds, Threads, FreeInterpPage;
    var pc := PcOf(s, t);
    var s1 := if (t, pc.key) in s.ipages then FreeInterpPage(s, (t, pc.key)) else s;
    if (t, pc.key) in s.ipages {
      FreeKeeps(s, (t, pc.key));
      FreeFrame(s, (t, pc.key));
    }
    ThreadAt(s1, t);
  }

  // ----- every interleaving

  lemma RunSnoc(es: seq<Event>)
    requires es != []
    ensures Run(INIT, es) == Next(Run(INIT, es[..|es| - 1]), es[|es| - 1])
  {
    hide Run, Next;
    assert es[..|es|] == es;
    RunStep(es, |es| - 1);
  }

  /**
   * In every interleaving, a thread that runs a page runs the file it asked for in the version
   * that it asked for, or that it has itself read since; and it runs a cached result only if
   * it asked for one.
   */
  lemma {:induction false} RunsWhatItAsks(es: seq<Event>, t: Tid)
    ensures OnAim(Run(INIT, es), t, AimOf(es, t))
  {
    hide Run, Next, OnAim, Inv;
    if es == [] {
      NobodyMoved(t);
    } else {
      var before, e := es[..|es| - 1], es[|es| - 1];
      RunsWhatItAsks(before, t);
      RunSnoc(es);
      RunKeeps(before);
      if e.t == t {
        OwnStepOnAim(Run(INIT, before), e, AimOf(before, t));
      } else {
        OtherStepOnAim(Run(INIT, before), e, t, AimOf(before, t));
      }
    }
  }

  lemma NobodyMoved(t: Tid)
    ensures OnAim(Run(INIT, []), t, AimOf([], t))
  {
  }

  // ----- where pages and results come from

  /** The event that made page `p`: its file, its version and its number of scripts. */
  ghost predicate Made(es: seq<Event>, i: nat, p: PageId, pg: Page) {
    && i < |es| && es[i].Parsed? && es[i].page == Some((pg.version, pg.nscripts))
    && var s := Run(INIT, es[..i]); s.nextPage == p && PcOf(s, es[i].t).Parsing? && PcOf(s, es[i].t).key == pg.key
  }

  /** In every interleaving, a page is what some thread read from the page's file. */
  lemma {:induction false} PageIsAsParsed(es: seq<Event>, p: PageId) returns (i: nat)
    requires p in Run(INIT, es).pages
    ensures Made(es, i, p, Run(INIT, es).pages[p])
  {
    hide Run, Next, Inv;
    i := 0;
    if es == [] {
      NoPages();
    } else {
      var before, e := es[..|es| - 1], es[|es| - 1];
      var s := Run(INIT, before);
      RunSnoc(es);
      RunKeeps(before);
      NextPagesSame(s, e);
      if p in s.pages {
        i := PageIsAsParsed(before, p);
        assert es[..i] == before[..i];
      } else {
        NewPage(s, e, p);
        i := |es| - 1;
      }
    }
  }

  lemma NoPages()
    ensures Run(INIT, []).pages == map[]
  {
  }

  lemma NewPage(s: State, e: Event, p: PageId)
    requires Inv(s) && p !in s.pages && p in Next(s, e).pages
    ensures e.Parsed? && p == s.nextPage && PcOf(s, e.t).Parsing?
    ensures var pg := Next(s, e).pages[p]; e.page == Some((pg.version, pg.nscripts)) && pg.key == PcOf(s, e.t).key
  {
    hide Inv, DoBegin, DoLookup, DoStore, DoChoose, DoRefreshed, DoSelect, DoFinish, FreeInterpPage;
    var pc := PcOf(s, e.t);
    match e {
      case Begin(t, key, version, wants) => BeginKeys(s, t, key, version, wants);
      case Lookup(t) => if pc.Looking? { LookupKeys(s, t, pc.key, pc.version, pc.wants); }
      case Store(t) => if pc.Storing? { StoreKeys(s, t, pc.key, pc.page, pc.wants); }
      case Choose(t, expired) => ChooseIs(s, t, expired);
      case Select(t) => if pc.Selected? { SelectKeys(s, t, pc.key, pc.result, pc.gen); }
      case Finish(t) => if pc.Executing? { FinishKeys(s, t, pc.result); }
      case Evict(t, key) => if (t, key) in s.ipages { FreeKeys(s, (t, key)); }
      case Refreshed(t, result) => if pc.Refreshing? { RefreshedGenerations(s, t, result); }
      case Parsed(_, _) =>
    }
  }

  lemma BeginKeys(s: State, t: Tid, key: Key, version: Version, wants: bool)
    ensures DoBegin(s, t, key, version, wants).pages.Keys <= s.pages.Keys
  {
    hide FreeInterpPage;
    if (t, key) in s.ipages {
      FreeKeys(s, (t, key));
    }
  }

  lemma StoreKeys(s: State, t: Tid, key: Key, p: PageId, wants: bool)
    ensures DoStore(s, t, key, p, wants).pages.Keys <= s.pages.Keys
  {
    hide FreeInterpPage;
    if (t, key) in s.ipages {
      FreeKeys(s, (t, key));
    }
  }

  lemma LookupKeys(s: State, t: Tid, key: Key, version: Version, wants: bool)
    ensures DoLookup(s, t, key, version, wants).pages.Keys == s.pages.Keys
  {
    if key in s.table && s.table[key].Ready? && s.table[key].page in s.pages {
      var p := s.table[key].page;
      PutKey(s.pages, p, s.pages[p].(refcnt := s.pages[p].refcnt + 1));
      PutKey(s.pages, p, s.pages[p].(linked := false));
    }
  }

  lemma SelectKeys(s: State, t: Tid, key: Key, result: Option<ResultId>, gen: nat)
    ensures DoSelect(s, t, key, result, gen).pages == s.pages
  {
  }

  lemma FinishKeys(s: State, t: Tid, result: Option<ResultId>)
    ensures DoFinish(s, t, result).pages == s.pages
  {
    hide DecrCache;
  }

  lemma FreeKeys(s: State, h: Holder)
    requires h in s.ipages
    ensures FreeInterpPage(s, h).pages.Keys <= s.pages.Keys
  {
    hide FreePage;
  }
}
