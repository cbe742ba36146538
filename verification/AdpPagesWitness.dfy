/** Two runs of the shared pages of nsd/adpeval.c that show what is not promised. */
module AdpPagesWitness {
  import opened Prelude
  import opened AdpPages
  import opened AdpPagesRuns

  /** One thread sources a page, gets it into its own cache, ... */
  const SOURCED := [Begin(0, "p", 0, true), Lookup(0), Parsed(0, Some((0, 1))), Store(0)]
  /** ... runs it and caches the result; ... */
  const CACHED := [Choose(0, false), Refreshed(0, Some(2)), Select(0), Finish(0)]
  /** ... another one runs the same page without looking for a result, ... */
  const UNCACHED := [Begin(1, "p", 0, false), Lookup(1), Store(1), Choose(1, false)]
  /** ... and then both interpreters drop it. */
  const DROPPED := [Select(1), Finish(1), Evict(0, "p"), Evict(1, "p")]

  lemma RunFour(s: State, a: Event, b: Event, c: Event, d: Event)
    ensures Run(s, [a, b, c, d]) == Next(Next(Next(Next(s, a), b), c), d)
  {
    hide Next;
    assert [a, b, c, d][1..] == [b, c, d];
    assert [b, c, d][1..] == [c, d];
    assert [c, d][1..] == [d];
    assert Run(s, [a, b, c, d]) == Run(Next(s, a), [b, c, d]);
    var s1 := Next(s, a);
    assert Run(s1, [b, c, d]) == Run(Next(s1, b), [c, d]);
    var s2 := Next(s1, b);
    assert Run(s2, [c, d]) == Run(Next(s2, c), [d]);
    var s3 := Next(s2, c);
    assert Run(s3, [d]) == Run(Next(s3, d), []);
  }

  // The states of the runs, told by their parts.
  const PAGE := Page("p", 0, true, 1, 1, 0, None, false, [])
  const CACHEDPAGE := Page("p", 0, true, 1, 1, 1, Some(0), false, [2])
  const IP0 := InterpPage(0, 1, 1, Some(2))
  const IP1 := InterpPage(0, 1, 0, None)
  const S4 := State(map["p" := Ready(0)], map[0 := PAGE], map[], map[(0, "p") := IP1],
                    map[0 := Found("p", true)], 1, 0, [], [], false, false)
  const S8 := State(map["p" := Ready(0)], map[0 := CACHEDPAGE], map[0 := Result(0, 1, 2)], map[(0, "p") := IP0],
                    map[0 := Idle], 1, 1, [], [], false, false)
  const S12 := S8.(pages := map[0 := CACHEDPAGE.(refcnt := 2)], ipages := map[(0, "p") := IP0, (1, "p") := IP1],
                   pcs := map[0 := Idle, 1 := Selected("p", None, 0)])

  lemma AfterSourced()
    ensures Run(INIT, SOURCED) == S4
  {
    hide DoSelect, DoRefreshed, DoFinish, DoChoose, FreeInterpPage, Uses;
    var e0, e1, e2, e3 := Begin(0, "p", 0, true), Lookup(0), Parsed(0, Some((0, 1))), Store(0);
    RunFour(INIT, e0, e1, e2, e3);
    var s1 := INIT.(pcs := map[0 := Looking("p", 0, true)]);
    assert Next(INIT, e0) == s1;
    var s2 := INIT.(table := map["p" := InProgress(0)], pcs := map[0 := Parsing("p", true)]);
    assert Next(s1, e1) == s2;
    var s3 := INIT.(table := map["p" := Ready(0)], pages := map[0 := PAGE], nextPage := 1, pcs := map[0 := Storing("p", 0, true)]);
    assert Next(s2, e2) == s3;
  }

  lemma AfterCached()
    ensures Run(S4, CACHED) == S8
  {
    hide Next;
    var e0, e1, e2, e3 := Choose(0, false), Refreshed(0, Some(2)), Select(0), Finish(0);
    RunFour(S4, e0, e1, e2, e3);
    var s1 := S4.(pcs := map[0 := Refreshing("p")]);
    Choose1(s1);
    var s2 := S8.(results := map[0 := Result(0, 2, 2)], ipages := S4.ipages, pcs := map[0 := Selected("p", Some(0), 1)]);
    Refreshed1(s1, s2);
    var s3 := s2.(ipages := S8.ipages, pcs := map[0 := Executing("p", Some(0), 2)]);
    SelectFinish1(s2, s3);
  }

  lemma Choose1(s1: State)
    requires s1 == S4.(pcs := map[0 := Refreshing("p")])
    ensures Next(S4, Choose(0, false)) == s1
  {
    hide DoBegin, DoLookup, DoParsed, DoStore, FreeInterpPage, Uses, DoRefreshed, DoSelect, DoFinish;
  }

  lemma SelectFinish1(s2: State, s3: State)
    requires s2 == S8.(results := map[0 := Result(0, 2, 2)], ipages := S4.ipages, pcs := map[0 := Selected("p", Some(0), 1)])
    requires s3 == s2.(ipages := S8.ipages, pcs := map[0 := Executing("p", Some(0), 2)])
    ensures Next(s2, Select(0)) == s3 && Next(s3, Finish(0)) == S8
  {
    hide Next;
    Select1(s2, s3);
    Finish1(s3);
  }

  lemma Select1(s2: State, s3: State)
    requires s2 == S8.(results := map[0 := Result(0, 2, 2)], ipages := S4.ipages, pcs := map[0 := Selected("p", Some(0), 1)])
    requires s3 == s2.(ipages := S8.ipages, pcs := map[0 := Executing("p", Some(0), 2)])
    ensures Next(s2, Select(0)) == s3
  {
    hide DoBegin, DoLookup, DoParsed, DoStore, FreeInterpPage, Uses, DoRefreshed, DoChoose, DoFinish;
  }

  lemma Finish1(s3: State)
    requires s3 == S8.(results := map[0 := Result(0, 2, 2)], pcs := map[0 := Executing("p", Some(0), 2)])
    ensures Next(s3, Finish(0)) == S8
  {
    hide DoBegin, DoLookup, DoParsed, DoStore, FreeInterpPage, Uses, DoRefreshed, DoChoose, DoSelect;
  }

  lemma Refreshed1(s1: State, s2: State)
    requires s1 == S4.(pcs := map[0 := Refreshing("p")])
    requires s2 == S8.(results := map[0 := Result(0, 2, 2)], ipages := S4.ipages, pcs := map[0 := Selected("p", Some(0), 1)])
    ensures Next(s1, Refreshed(0, Some(2))) == s2
  {
    hide DoBegin, DoLookup, DoParsed, DoStore, FreeInterpPage, Uses, DoChoose, DoSelect, DoFinish;
    assert PAGE.past + [2] == [2];
    var i := Install(s1, 0, 2);
    assert i == s1.(results := map[0 := Result(0, 1, 2)], nextResult := 1, pages := map[0 := CACHEDPAGE]);
  }

  lemma AfterUncached()
    ensures Run(S8, UNCACHED) == S12
  {
    hide Next;
    var e0, e1, e2, e3 := Begin(1, "p", 0, false), Lookup(1), Store(1), Choose(1, false);
    RunFour(S8, e0, e1, e2, e3);
    var s2 := S8.(pages := S12.pages, pcs := map[0 := Idle, 1 := Storing("p", 0, false)]);
    BeginLookup1(s2);
    StoreChoose1(s2);
  }

  lemma BeginLookup1(s2: State)
    requires s2 == S8.(pages := S12.pages, pcs := map[0 := Idle, 1 := Storing("p", 0, false)])
    ensures Next(Next(S8, Begin(1, "p", 0, false)), Lookup(1)) == s2
  {
    hide DoParsed, DoRefreshed, DoSelect, DoFinish, FreeInterpPage, Uses, TakeResult, DoStore, DoChoose;
    var s1 := S8.(pcs := map[0 := Idle, 1 := Looking("p", 0, false)]);
    assert Next(S8, Begin(1, "p", 0, false)) == s1;
  }

  lemma StoreChoose1(s2: State)
    requires s2 == S8.(pages := S12.pages, pcs := map[0 := Idle, 1 := Storing("p", 0, false)])
    ensures Next(Next(s2, Store(1)), Choose(1, false)) == S12
  {
    hide Next;
    var s3 := S12.(pcs := map[0 := Idle, 1 := Found("p", false)]);
    Store2(s2, s3);
    Choose2(s3);
  }

  lemma Store2(s2: State, s3: State)
    requires s2 == S8.(pages := S12.pages, pcs := map[0 := Idle, 1 := Storing("p", 0, false)])
    requires s3 == S12.(pcs := map[0 := Idle, 1 := Found("p", false)])
    ensures Next(s2, Store(1)) == s3
  {
    hide DoParsed, DoRefreshed, DoSelect, DoFinish, FreeInterpPage, Uses, DoBegin, DoLookup, DoChoose;
  }

  lemma Choose2(s3: State)
    requires s3 == S12.(pcs := map[0 := Idle, 1 := Found("p", false)])
    ensures Next(s3, Choose(1, false)) == S12
  {
    hide DoParsed, DoRefreshed, DoSelect, DoFinish, FreeInterpPage, Uses, TakeResult, DoBegin, DoLookup, DoStore;
  }

  lemma AfterDropped()
    ensures Run(S12, DROPPED).nullFree
  {
    hide Next;
    var e0, e1, e2, e3 := Select(1), Finish(1), Evict(0, "p"), Evict(1, "p");
    RunFour(S12, e0, e1, e2, e3);
    SelectFinish2(S12.(pcs := map[0 := Idle, 1 := Executing("p", None, 1)]));
    Evict2(S12.(pcs := map[0 := Idle, 1 := Idle]));
  }

  lemma SelectFinish2(s1: State)
    requires s1 == S12.(pcs := map[0 := Idle, 1 := Executing("p", None, 1)])
    ensures Next(S12, Select(1)) == s1 && Next(s1, Finish(1)) == S12.(pcs := map[0 := Idle, 1 := Idle])
  {
    hide DoBegin, DoLookup, DoParsed, DoStore, DoChoose, DoRefreshed, FreeInterpPage, Uses, DecrCache;
  }

  lemma Evict2(s: State)
    requires s.pages == S12.pages && s.ipages == S12.ipages && s.pcs == map[0 := Idle, 1 := Idle]
    ensures Next(Next(s, Evict(0, "p")), Evict(1, "p")).nullFree
  {
    hide FreePage, DoBegin, DoLookup, DoParsed, DoStore, DoChoose, DoRefreshed, DecrCache, DoSelect, DoFinish;
    var s3 := Next(s, Evict(0, "p"));
    assert s3.pages[0] == CACHEDPAGE && s3.pcs == s.pcs;
    assert (1, "p") in s3.ipages && s3.ipages[(1, "p")] == IP1;
  }

  /** FreeObjs does get NULL: when a cached page is last dropped by a thread that never used the result. */
  lemma NullIsFreed()
    ensures Run(INIT, SOURCED + CACHED + UNCACHED + DROPPED).nullFree
  {
    hide Run;
    RunConcat(INIT, SOURCED + CACHED + UNCACHED, DROPPED);
    RunConcat(INIT, SOURCED + CACHED, UNCACHED);
    RunConcat(INIT, SOURCED, CACHED);
    AfterSourced();
    AfterCached();
    AfterUncached();
    AfterDropped();
  }

  /** Of two threads that want a result of the same page and find none, ... */
  const BOTH := [Choose(0, false), Begin(1, "p", 0, true), Lookup(1), Store(1)]

  /** ... both make one: the first result of a page can be built twice. */
  lemma FirstResultIsBuiltTwice()
    ensures var s := Run(INIT, SOURCED + BOTH + [Choose(1, false)]);
            PcOf(s, 0) == Refreshing("p") && PcOf(s, 1) == Refreshing("p")
  {
    hide DoParsed, DoRefreshed, DoSelect, DoFinish, FreeInterpPage, Uses, TakeResult, DoBegin, DoLookup, DoStore;
    AfterSourced();
    RunConcat(INIT, SOURCED, BOTH);
    RunConcat(INIT, SOURCED + BOTH, [Choose(1, false)]);
    var s4 := AfterBoth();
    assert Run(s4, [Choose(1, false)]) == Next(s4, Choose(1, false));
  }

  lemma AfterBoth() returns (s4: State)
    ensures s4 == Run(S4, BOTH)
    ensures s4 == S4.(pages := map[0 := PAGE.(refcnt := 2)], ipages := map[(0, "p") := IP1, (1, "p") := IP1],
                      pcs := map[0 := Refreshing("p"), 1 := Found("p", true)])
  {
    hide DoParsed, DoRefreshed, DoSelect, DoFinish, FreeInterpPage, Uses, TakeResult;
    var e0, e1, e2, e3 := Choose(0, false), Begin(1, "p", 0, true), Lookup(1), Store(1);
    RunFour(S4, e0, e1, e2, e3);
    var s1 := S4.(pcs := map[0 := Refreshing("p")]);
    assert Next(S4, e0) == s1;
    var s2 := S4.(pcs := map[0 := Refreshing("p"), 1 := Looking("p", 0, true)]);
    assert Next(s1, e1) == s2;
    s4 := S4.(pages := map[0 := PAGE.(refcnt := 2)], ipages := map[(0, "p") := IP1, (1, "p") := IP1],
              pcs := map[0 := Refreshing("p"), 1 := Found("p", true)]);
    var s3 := S4.(pages := s4.pages, pcs := map[0 := Refreshing("p"), 1 := Storing("p", 0, true)]);
    assert Next(s2, e2) == s3;
    assert Next(s3, e3) == s4;
  }
}
