/**
 * The transactional LRU cache of nsd/cache.c as a value.
 *
 * A cache is a table of entries, the recency list of their keys (most recently
 * used first), the table of pending entries, a byte counter, and the log of the
 * values handed to the free procedure.  Each operation below is what one call
 * does while the cache lock is held.
 */
module CacheSpec {
  import opened Prelude
  import opened Tallies

  datatype Key = Key(name: string)

  datatype Time = Time(sec: int, usec: int)

  const NEVER := Time(0, 0)

  predicate Before(a: Time, b: Time) {
    a.sec < b.sec || (a.sec == b.sec && a.usec < b.usec)
  }

  datatype Entry = Entry(
    value: Option<Value>, uncommitted: Option<Value>, epoch: nat, size: nat, expires: Time)

  /** An entry as it is allocated: no value, no transaction, no expiry. */
  const NEWBORN := Entry(None, None, 0, 0, NEVER)

  datatype Cache = Cache(
    overhead: nat, maxSize: nat, currentSize: int,
    lru: seq<Key>, entries: map<Key, Entry>, pending: set<Key>, released: Bag)

  function Empty(overhead: nat, maxSize: nat): Cache {
    Cache(overhead, maxSize, 0, [], map[], {}, multiset{})
  }

  /** An entry holding neither a committed nor an uncommitted value. */
  predicate Hollow(e: Entry) {
    e.value.None? && e.uncommitted.None?
  }

  predicate Expired(e: Entry, now: Time) {
    e.expires.sec > 0 && Before(e.expires, now)
  }

  /** What a caller with the given transaction stack sees in an entry. */
  function Visible(e: Entry, stack: seq<nat>): Option<Value> {
    if e.value.Some? then e.value
    else if e.epoch in stack then e.uncommitted
    else None
  }

  // ----- what the table's entries weigh and hold

  /** The bytes one key of the table is charged for. */
  function Weights(overhead: nat, m: map<Key, Entry>): Key -> int {
    (k: Key) => if k in m then overhead + |k.name| + m[k].size else 0
  }

  function Holds(e: Entry): Bag {
    (if e.value.Some? then multiset{e.value.value} else multiset{})
    + (if e.uncommitted.Some? then multiset{e.uncommitted.value} else multiset{})
  }

  /** The values one key of the table holds. */
  function Holdings(m: map<Key, Entry>): Key -> Bag {
    (k: Key) => if k in m then Holds(m[k]) else multiset{}
  }

  // ----- the invariant

  ghost predicate EntryOk(c: Cache, k: Key)
    requires k in c.entries
  {
    var e := c.entries[k];
    && (e.value.None? || e.uncommitted.None?)
    && (Hollow(e) ==> e.size == 0 && e.expires == NEVER)
    && (e.uncommitted.Some? ==> k in c.pending)
    && (k in c.pending <==> e.epoch != 0)
  }

  /** Table, list, counter and pending table agree. */
  ghost predicate Wf(c: Cache) {
    && NoDup(c.lru)
    && (forall k :: k in c.entries ==> k in c.lru)
    && (forall k :: k in c.lru ==> k in c.entries)
    && (forall k :: k in c.pending ==> k in c.entries)
    && c.currentSize == Total(Weights(c.overhead, c.entries), c.lru)
    && forall k :: k in c.entries ==> EntryOk(c, k)
  }

  /** The values the cache still holds. */
  ghost function Held(c: Cache): Bag {
    Union(Holdings(c.entries), c.lru)
  }

  // ----- operations

  /** Makes `k` the most recently used key. */
  function Touch(c: Cache, k: Key): Cache {
    c.(lru := [k] + Drop(c.lru, {k}))
  }

  /** The value an entry with a value gives up when it is unset: the committed one first. */
  function Given(e: Entry): Value
    requires !Hollow(e)
  {
    if e.value.Some? then e.value.value else e.uncommitted.value
  }

  function Emptied(e: Entry): Entry {
    if e.value.Some? then e.(value := None, size := 0, expires := NEVER)
    else e.(uncommitted := None, size := 0, expires := NEVER)
  }

  /** Ns_CacheUnsetValue: forget the entry's value, keep its transaction tag. */
  function Unset(c: Cache, k: Key): Cache
    requires k in c.entries
  {
    var e := c.entries[k];
    if Hollow(e) then c
    else
      c.(entries := c.entries[k := Emptied(e)],
         currentSize := c.currentSize - e.size,
         released := c.released + multiset{Given(e)})
  }

  /** Removes a set of entries, in whatever order the hash search meets them. */
  function DeleteAll(c: Cache, ks: set<Key>): Cache
  {
    var gone := Keep(c.lru, ks);
    c.(entries := c.entries - ks,
       lru := Drop(c.lru, ks),
       pending := c.pending - ks,
       currentSize := c.currentSize - Total(Weights(c.overhead, c.entries), gone),
       released := c.released + Union(Holdings(c.entries), gone))
  }

  /** Ns_CacheDeleteEntry. */
  function Delete(c: Cache, k: Key): Cache
  {
    DeleteAll(c, {k})
  }

  /** Takes an entry out of the list and the tables. */
  function Forget(c: Cache, k: Key): Cache {
    c.(entries := c.entries - {k}, lru := Drop(c.lru, {k}), pending := c.pending - {k})
  }

  /** Ns_CacheFindEntryT: the flag says whether an entry is returned. */
  function Find(c: Cache, k: Key, stack: seq<nat>, now: Time): (Cache, bool)
  {
    if k !in c.entries then (c, false)
    else
      var e := c.entries[k];
      if e.value.None? && stack == [] then (c, false)
      else if Expired(e, now) then (Delete(c, k), false)
      else if Visible(e, stack).None? then (c, false)
      else (Touch(c, k), true)
  }

  /** Ns_CacheCreateEntry: the flag is the reported `isNew`. */
  function Create(c: Cache, k: Key, now: Time): (Cache, bool) {
    if k !in c.entries then
      (c.(entries := c.entries[k := NEWBORN], lru := [k] + c.lru,
          currentSize := c.currentSize + c.overhead + |k.name|), true)
    else if Expired(c.entries[k], now) then (Touch(Unset(c, k), k), true)
    else (Touch(c, k), false)
  }

  /** The assignments of Ns_CacheSetValueExpires after the old value is unset. */
  function Store(c: Cache, k: Key, v: Value, size: nat, timeout: Option<Time>, epoch: nat): Cache
    requires k in c.entries
  {
    var e := c.entries[k];
    var expires := if timeout.Some? then timeout.value else e.expires;
    var e' := if epoch == 0 then e.(value := Some(v), size := size, expires := expires)
              else e.(uncommitted := Some(v), epoch := epoch, size := size, expires := expires);
    c.(entries := c.entries[k := e'],
       pending := if epoch == 0 then c.pending else c.pending + {k},
       currentSize := c.currentSize + size)
  }

  /** The pruning loop goes on when the first `m` keys of the list are the ones left. */
  predicate MustPrune(c: Cache, k: Key, limit: nat, m: nat)
    requires m <= |c.lru|
  {
    && 0 < limit < Total(Weights(c.overhead, c.entries), c.lru[..m])
    && m > 0 && c.lru[m - 1] != k
    && c.lru[m - 1] in c.entries && c.entries[c.lru[m - 1]].value.Some?
  }

  /** How many keys the pruning loop leaves. */
  function Fit(c: Cache, k: Key, limit: nat, m: nat): (n: nat)
    requires m <= |c.lru|
    ensures n <= m && !MustPrune(c, k, limit, n)
    ensures forall j :: n < j <= m ==> MustPrune(c, k, limit, j)
  {
    if MustPrune(c, k, limit, m) then Fit(c, k, limit, m - 1) else m
  }

  /** The keys of the list from position `n` on. */
  function Tail(ks: seq<Key>, n: nat): set<Key>
    requires n <= |ks|
  {
    set k | k in ks[n..]
  }

  /** The pruning loop: drop least recently used entries while there are too many bytes. */
  function Prune(c: Cache, k: Key, limit: nat): Cache {
    DeleteAll(c, Tail(c.lru, Fit(c, k, limit, |c.lru|)))
  }

  /** Ns_CacheSetValueExpires. */
  function Set(c: Cache, k: Key, v: Value, size: nat, timeout: Option<Time>, maxSize: nat, epoch: nat): Cache
    requires k in c.entries
  {
    var limit := if maxSize == 0 then c.maxSize else maxSize;
    Prune(Store(Unset(c, k), k, v, size, timeout, epoch).(maxSize := limit), k, limit)
  }

  /** The entries CacheTransaction acts on. */
  function Tagged(c: Cache, epoch: nat): set<Key> {
    set k | k in c.pending && k in c.entries && c.entries[k].value.None? && c.entries[k].epoch == epoch
  }

  /** An entry whose uncommitted value becomes the value. */
  function Published(e: Entry): Entry {
    e.(value := e.uncommitted, uncommitted := None, epoch := 0)
  }

  function CommitAll(c: Cache, done: set<Key>): Cache {
    c.(entries := map k | k in c.entries :: if k in done then Published(c.entries[k]) else c.entries[k],
       pending := c.pending - done)
  }

  /** Ns_CacheCommitEntries. */
  function Commit(c: Cache, epoch: nat): Cache {
    CommitAll(c, Tagged(c, epoch))
  }

  /** Ns_CacheRollbackEntries. */
  function Rollback(c: Cache, epoch: nat): Cache
  {
    DeleteAll(c, Tagged(c, epoch))
  }

  /** The entries an iteration with the given stack meets: those with a visible value. */
  function Seen(c: Cache, stack: seq<nat>): set<Key> {
    set k | k in c.entries && Visible(c.entries[k], stack).Some?
  }

  /** Ns_CacheFlush: entries under update are skipped. */
  function Flush(c: Cache): Cache
  {
    DeleteAll(c, Seen(c, []))
  }

  /** The expired entries such an iteration meets, and therefore deletes. */
  function SeenExpired(c: Cache, stack: seq<nat>, now: Time): set<Key> {
    set k | k in Seen(c, stack) && Expired(c.entries[k], now)
  }

  /** A complete walk with Ns_CacheFirstEntryT and Ns_CacheNextEntryT. */
  function Walk(c: Cache, stack: seq<nat>, now: Time): Cache {
    DeleteAll(c, SeenExpired(c, stack, now))
  }
}
