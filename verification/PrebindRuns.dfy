/** What the pool of pre-bound sockets of nsd/binder.c keeps over whole runs. */
module PrebindRuns {
  import opened Prelude
  import opened Prebind

  datatype Op =
    | OpBind(k: Key, binds: seq<Sock>)
    | OpAdopt(k: Key, s: Sock)
    | OpGet(k: Key)
    | OpCloseAll(order: seq<Key>)

  function Step(p: Pool, op: Op): Pool {
    match op
    case OpBind(k, binds) => if binds == [] then p else Bind(p, k, binds)
    case OpAdopt(k, s) => Adopt(p, k, s)
    case OpGet(k) => Get(p, k).0
    case OpCloseAll(order) => CloseAll(p, order)
  }

  /** The system's answers are sockets that were not seen before, and a walk meets every entry. */
  ghost predicate Possible(p: Pool, op: Op) {
    match op
    case OpBind(_, binds) => binds != [] && Fresh(p, binds)
    case OpAdopt(_, s) => s != INVALID && s !in p.bound
    case OpGet(_) => true
    case OpCloseAll(order) => forall k :: k in p.table ==> k in order
  }

  function Run(p: Pool, ops: seq<Op>): Pool
    decreases |ops|
  {
    if ops == [] then p else Run(Step(p, ops[0]), ops[1..])
  }

  ghost predicate PossibleRun(p: Pool, ops: seq<Op>)
    decreases |ops|
  {
    ops == [] || (Possible(p, ops[0]) && PossibleRun(Step(p, ops[0]), ops[1..]))
  }

  const EMPTY := Pool(map[], [], [], [])

  lemma {:induction false} RunFrom(p: Pool, ops: seq<Op>)
    requires Inv(p) && PossibleRun(p, ops)
    ensures Inv(Run(p, ops))
    decreases |ops|
  {
    hide Inv, Fresh;
    if ops != [] {
      match ops[0] {
        case OpBind(k, binds) => BindKeeps(p, k, binds);
        case OpAdopt(k, s) => AdoptKeeps(p, k, s);
        case OpGet(k) => GetKeeps(p, k);
        case OpCloseAll(order) => CloseAllKeeps(p, order);
      }
      RunFrom(Step(p, ops[0]), ops[1..]);
    }
  }

  /** In every run, each bound socket is in exactly one of the pool, those handed out and those closed. */
  lemma RunConserves(ops: seq<Op>, x: Sock)
    requires PossibleRun(EMPTY, ops)
    ensures var p := Run(EMPTY, ops);
            && (x in p.bound <==> InPool(p.table, x) || x in p.handed || x in p.closed)
            && !(InPool(p.table, x) && x in p.handed) && !(InPool(p.table, x) && x in p.closed)
            && !(x in p.handed && x in p.closed)
            && NoDup(p.handed) && NoDup(p.closed) && Distinct(p.table)
  {
    hide Run, PossibleRun, Distinct, InPool;
    EmptyInv();
    RunFrom(EMPTY, ops);
  }

  lemma EmptyInv()
    ensures Inv(EMPTY)
  {
  }

  /** In every run, a hit yields a valid socket that was never handed out before nor closed. */
  lemma HitIsValid(ops: seq<Op>, k: Key)
    requires PossibleRun(EMPTY, ops)
    ensures var p := Run(EMPTY, ops);
            var (p', found, s) := Get(p, k);
            && (found <==> k in p.table)
            && (found ==> s != INVALID && s in p.bound && s !in p.handed && s !in p.closed && p'.handed == p.handed + [s])
  {
    hide Run, PossibleRun, Distinct, InPool, Stocked, NoDup;
    EmptyInv();
    RunFrom(EMPTY, ops);
    var p := Run(EMPTY, ops);
    if k in p.table {
      GetTable(p, k);
      GetFrame(p, k);
    }
  }

  /** After NsClosePreBound the pool is empty: every socket was handed out or is closed. */
  lemma CloseAllEmpties(ops: seq<Op>, order: seq<Key>)
    requires PossibleRun(EMPTY, ops) && forall k :: k in Run(EMPTY, ops).table ==> k in order
    ensures var p, p' := Run(EMPTY, ops), CloseAll(Run(EMPTY, ops), order);
            && p'.table == map[] && p'.handed == p.handed
            && forall x :: x in p.bound ==> (x in p'.handed <==> x !in p'.closed)
  {
    hide Run, PossibleRun, Distinct, Stocked, NoDup;
    EmptyInv();
    RunFrom(EMPTY, ops);
    CloseAllKeeps(Run(EMPTY, ops), order);
  }

  // ----- every address has a queue of its own

  /** The sockets that can be handed out for an address, in order. */
  function QueueOf(p: Pool, k: Key): seq<Sock> {
    if k in p.table then Usable(p.table[k]) else []
  }

  lemma {:induction false} UsableAppend(ss: seq<Sock>, s: Sock)
    requires s != INVALID
    ensures Usable(ss + [s]) == Usable(ss) + [s]
  {
    if ss == [] {
      assert [] + [s] == [s] && [s][1..] == [];
    } else {
      assert (ss + [s])[1..] == ss[1..] + [s];
      UsableAppend(ss[1..], s);
    }
  }

  /** The first usable socket of an entry is the head of its queue. */
  lemma {:induction false} UsableHead(ss: seq<Sock>, i: nat)
    requires i < |ss| && ss[i] != INVALID && forall j :: 0 <= j < i ==> ss[j] == INVALID
    ensures Usable(ss) == [ss[i]] + Usable(ss[i + 1..]) && Usable(ss[i := INVALID]) == Usable(ss[i + 1..])
  {
    var t := ss[i := INVALID];
    if i == 0 {
      assert t[1..] == ss[1..];
    } else {
      UsableHead(ss[1..], i - 1);
      assert t[1..] == ss[1..][i - 1 := INVALID];
      assert ss[1..][i..] == ss[i + 1..];
    }
  }

  lemma {:induction false} NoneUsableIs(ss: seq<Sock>)
    requires forall j :: 0 <= j < |ss| ==> ss[j] == INVALID
    ensures Usable(ss) == []
  {
    if ss != [] {
      NoneUsableIs(ss[1..]);
    }
  }

  /** An entry has a queue: in a stocked table, exactly the addresses with an entry have one. */
  lemma EntryHasQueue(p: Pool, k: Key)
    requires Stocked(p.table)
    ensures k in p.table <==> QueueOf(p, k) != []
  {
    hide Usable;
    if k in p.table {
      UsableHead(p.table[k], FirstUsable(p.table[k], 0));
    }
  }

  lemma GetQueue(p: Pool, k: Key, x: Key)
    requires Stocked(p.table)
    ensures var (p', found, s) := Get(p, k);
            && (found <==> QueueOf(p, k) != []) && (found ==> s == QueueOf(p, k)[0])
            && QueueOf(p', x) == if x == k && found then QueueOf(p, k)[1..] else QueueOf(p, x)
  {
    hide Usable;
    EntryHasQueue(p, k);
    if k in p.table {
      var ss := p.table[k];
      var i := FirstUsable(ss, 0);
      UsableHead(ss, i);
      var ss' := ss[i := INVALID];
      if FirstUsable(ss', i) == |ss'| {
        NoneUsableIs(ss');
      }
    }
  }

  lemma AdoptQueue(p: Pool, k: Key, s: Sock, x: Key)
    requires s != INVALID
    ensures QueueOf(Adopt(p, k, s), x) == if x == k then QueueOf(p, k) + [s] else QueueOf(p, x)
  {
    hide Usable;
    UsableAppend(if k in p.table then p.table[k] else [], s);
    NoneUsableIs([]);
  }

  lemma CloseAllQueue(p: Pool, order: seq<Key>, x: Key)
    requires Inv(p) && forall k :: k in p.table ==> k in order
    ensures QueueOf(CloseAll(p, order), x) == []
  {
    hide Inv;
    CloseAllKeeps(p, order);
  }

  /** One address, and what a call does to its queue. */
  function QueueStep(q: seq<Sock>, op: Op, k: Key): seq<Sock> {
    match op
    case OpBind(k', binds) => if k' == k && q == [] && binds != [] && binds[0] != INVALID then Usable(binds) else q
    case OpAdopt(k', s) => if k' == k then q + [s] else q
    case OpGet(k') => if k' == k && q != [] then q[1..] else q
    case OpCloseAll(_) => []
  }

  function QueueRun(q: seq<Sock>, ops: seq<Op>, k: Key): seq<Sock>
    decreases |ops|
  {
    if ops == [] then q else QueueRun(QueueStep(q, ops[0], k), ops[1..], k)
  }

  lemma StepQueue(p: Pool, op: Op, k: Key)
    requires Inv(p) && Possible(p, op)
    ensures QueueOf(Step(p, op), k) == QueueStep(QueueOf(p, k), op, k)
  {
    hide InPool, Distinct, NoDup, Fresh, Usable;
    match op {
      case OpBind(k', binds) => EntryHasQueue(p, k);
      case OpAdopt(k', s) => AdoptQueue(p, k', s, k);
      case OpGet(k') => GetQueue(p, k', k);
      case OpCloseAll(order) => CloseAllQueue(p, order, k);
    }
  }

  lemma {:induction false} RunQueue(p: Pool, ops: seq<Op>, k: Key)
    requires Inv(p) && PossibleRun(p, ops)
    ensures QueueOf(Run(p, ops), k) == QueueRun(QueueOf(p, k), ops, k)
    decreases |ops|
  {
    hide Inv, Possible, Step, QueueStep, QueueOf;
    if ops != [] {
      StepQueue(p, ops[0], k);
      assert PossibleRun(p, [ops[0]]);
      RunFrom(p, [ops[0]]);
      assert Run(p, [ops[0]]) == Step(p, ops[0]);
      RunQueue(Step(p, ops[0]), ops[1..], k);
    }
  }

  /**
   * In every run each address has a queue: sockets are handed out for the address they were
   * bound or adopted for, and in that order.
   */
  lemma RunIsQueues(ops: seq<Op>, k: Key)
    requires PossibleRun(EMPTY, ops)
    ensures var p, q := Run(EMPTY, ops), QueueRun([], ops, k);
            && QueueOf(p, k) == q
            && (Get(p, k).1 <==> q != []) && (q != [] ==> Get(p, k).2 == q[0])
  {
    hide Run, PossibleRun, Distinct, InPool, NoDup, QueueRun, Get;
    EmptyInv();
    RunFrom(EMPTY, ops);
    RunQueue(EMPTY, ops, k);
    GetQueue(Run(EMPTY, ops), k, k);
  }
}
