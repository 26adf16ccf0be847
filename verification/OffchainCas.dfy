/**
 Compare-and-set on offchain storage as interleaved steps of any number of threads, over a
 shared map of per-key locks whose entries are created on demand, shared by reference count
 and removed by the last user. Plain writes take no lock and are single steps.
 */
module OffchainCas {
  import opened Wrappers

  // Byte strings, of which only equality matters.
  type Key = nat
  type Value = nat
  type Lock = nat
  type Thread = nat

  type Store = map<Key, Value>

  datatype Call = Call(key: Key, expected: Option<Value>, update: Value)

  /** Where a thread is in a call; from `Queued` to `Unlocked` it owns a reference to the lock. */
  datatype Place =
    | Called(call: Call)
    | Queued(call: Call, lock: Lock)
    | Locked(call: Call, lock: Lock)
    | Matched(call: Call, lock: Lock)
    | Decided(call: Call, lock: Lock, isSet: bool)
    | Unlocked(call: Call, lock: Lock, isSet: bool)

  /** `Wrote` is a plain set, or a plain removal when the value is none. */
  datatype Event =
    | Invoked(thread: Thread, call: Call)
    | TookEffect(thread: Thread, call: Call, isSet: bool)
    | Returned(thread: Thread, isSet: bool)
    | Wrote(thread: Thread, key: Key, value: Option<Value>)

  /** `locks` is the shared map, `counts` the strong count of every lock, the map's own reference
      included, and `holders` says which thread is inside which lock. */
  datatype System = System(
    locks: map<Key, Lock>,
    counts: map<Lock, nat>,
    holders: map<Lock, Thread>,
    threads: map<Thread, Place>,
    store: Store,
    nextLock: Lock,
    log: seq<Event>)

  datatype Action =
    | Invoke(thread: Thread, call: Call)
    | TakeReference(thread: Thread)
    | Enter(thread: Thread)
    | Compare(thread: Thread)
    | Write(thread: Thread)
    | Leave(thread: Thread)
    | Clean(thread: Thread)
    | PlainSet(thread: Thread, key: Key, value: Value)
    | PlainRemove(thread: Thread, key: Key)

  function Get(store: Store, k: Key): Option<Value> {
    if k in store then Some(store[k]) else None
  }

  function Put(store: Store, k: Key, value: Option<Value>): Store {
    match value
    case None => store - {k}
    case Some(v) => store[k := v]
  }

  predicate HasReference(p: Place) {
    !p.Called?
  }

  predicate IsInside(p: Place) {
    p.Locked? || p.Matched? || p.Decided?
  }

  function CountOf(counts: map<Lock, nat>, l: Lock): nat {
    if l in counts then counts[l] else 0
  }

  function Cloned(counts: map<Lock, nat>, l: Lock): map<Lock, nat> {
    counts[l := CountOf(counts, l) + 1]
  }

  /** One reference less; the lock itself goes with its last reference. */
  function Dropped(counts: map<Lock, nat>, l: Lock): map<Lock, nat> {
    if CountOf(counts, l) <= 1 then counts - {l} else counts[l := counts[l] - 1]
  }

  predicate Enabled(s: System, a: Action) {
    match a
    case Invoke(t, _) => t !in s.threads
    case TakeReference(t) => t in s.threads && s.threads[t].Called?
    case Enter(t) => t in s.threads && s.threads[t].Queued? && s.threads[t].lock !in s.holders
    case Compare(t) => t in s.threads && s.threads[t].Locked?
    case Write(t) => t in s.threads && s.threads[t].Matched?
    case Leave(t) => t in s.threads && s.threads[t].Decided?
    case Clean(t) => t in s.threads && s.threads[t].Unlocked?
    case PlainSet(t, _, _) => t !in s.threads
    case PlainRemove(t, _) => t !in s.threads
  }

  /** One atomic step. Taking a reference and cleaning up each run under the lock of the shared map. */
  function Do(s: System, a: Action): System
    requires Enabled(s, a)
  {
    match a
    case Invoke(t, c) =>
      s.(threads := s.threads[t := Called(c)], log := s.log + [Invoked(t, c)])
    case TakeReference(t) => Taken(s, t, s.threads[t].call)
    case Enter(t) =>
      var p := s.threads[t];
      s.(threads := s.threads[t := Locked(p.call, p.lock)], holders := s.holders[p.lock := t])
    case Compare(t) =>
      var p := s.threads[t];
      if Get(s.store, p.call.key) == p.call.expected
      then s.(threads := s.threads[t := Matched(p.call, p.lock)])
      else s.(threads := s.threads[t := Decided(p.call, p.lock, false)],
              log := s.log + [TookEffect(t, p.call, false)])
    case Write(t) =>
      var p := s.threads[t];
      s.(threads := s.threads[t := Decided(p.call, p.lock, true)],
         store := s.store[p.call.key := p.call.update],
         log := s.log + [TookEffect(t, p.call, true)])
    case Leave(t) =>
      var p := s.threads[t];
      s.(threads := s.threads[t := Unlocked(p.call, p.lock, p.isSet)], holders := s.holders - {p.lock})
    case Clean(t) => Cleaned(s, t, s.threads[t])
    case PlainSet(t, k, v) =>
      s.(store := Put(s.store, k, Some(v)), log := s.log + [Wrote(t, k, Some(v))])
    case PlainRemove(t, k) =>
      s.(store := Put(s.store, k, None), log := s.log + [Wrote(t, k, None)])
  }

  /** The entry of the key is made if there is none, and its lock cloned. */
  function Taken(s: System, t: Thread, c: Call): System {
    if c.key in s.locks then
      s.(threads := s.threads[t := Queued(c, s.locks[c.key])], counts := Cloned(s.counts, s.locks[c.key]))
    else
      s.(threads := s.threads[t := Queued(c, s.nextLock)],
         locks := s.locks[c.key := s.nextLock],
         counts := Cloned(s.counts[s.nextLock := 1], s.nextLock),
         nextLock := s.nextLock + 1)
  }

  /** The thread's reference is dropped; an entry whose lock is left with the map's reference alone is removed. */
  function Cleaned(s: System, t: Thread, p: Place): System
    requires p.Unlocked?
  {
    var k := p.call.key;
    var counts := Dropped(s.counts, p.lock);
    var s1 := s.(threads := s.threads - {t}, counts := counts, log := s.log + [Returned(t, p.isSet)]);
    if k in s.locks && CountOf(counts, s.locks[k]) == 1
    then s1.(locks := s.locks - {k}, counts := Dropped(counts, s.locks[k])) else s1
  }

  // ----- the specification: one atomic compare-and-set

  datatype Status = Waiting(call: Call) | Finished(call: Call, isSet: bool)

  datatype View = View(store: Store, status: map<Thread, Status>)

  function ReplayStep(v: View, e: Event): View {
    match e
    case Invoked(t, c) => v.(status := v.status[t := Waiting(c)])
    case TookEffect(t, c, isSet) =>
      View(if isSet then v.store[c.key := c.update] else v.store, v.status[t := Finished(c, isSet)])
    case Returned(t, _) => v.(status := v.status - {t})
    case Wrote(_, k, value) => v.(store := Put(v.store, k, value))
  }

  function Replay(initial: Store, log: seq<Event>): View {
    if log == [] then View(initial, map[]) else ReplayStep(Replay(initial, log[..|log| - 1]), log[|log| - 1])
  }

  /** A call takes effect once between its invocation and its return, with the outcome a sequential
      compare-and-set has at that point, and that outcome is what it returns. */
  predicate EventFits(v: View, e: Event) {
    match e
    case Invoked(t, _) => t !in v.status
    case TookEffect(t, c, isSet) =>
      t in v.status && v.status[t] == Waiting(c) && (isSet <==> Get(v.store, c.key) == c.expected)
    case Returned(t, isSet) => t in v.status && v.status[t].Finished? && v.status[t].isSet == isSet
    case Wrote(t, _, _) => t !in v.status
  }

  predicate Linearized(initial: Store, log: seq<Event>) {
    log == [] ||
    (&& Linearized(initial, log[..|log| - 1])
     && EventFits(Replay(initial, log[..|log| - 1]), log[|log| - 1]))
  }

  lemma Appended(initial: Store, log: seq<Event>, e: Event)
    ensures Replay(initial, log + [e]) == ReplayStep(Replay(initial, log), e)
    ensures Linearized(initial, log + [e]) <==> Linearized(initial, log) && EventFits(Replay(initial, log), e)
  {
    assert (log + [e])[..|log|] == log;
  }

  // ----- the invariant

  function StatusOf(p: Place): Status {
    match p
    case Called(c) => Waiting(c)
    case Queued(c, _) => Waiting(c)
    case Locked(c, _) => Waiting(c)
    case Matched(c, _) => Waiting(c)
    case Decided(c, _, r) => Finished(c, r)
    case Unlocked(c, _, r) => Finished(c, r)
  }

  /** The threads that own a reference to a lock. */
  ghost function Referring(threads: map<Thread, Place>, l: Lock): set<Thread> {
    set t | t in threads && HasReference(threads[t]) && threads[t].lock == l
  }

  /** Every reference is to the lock the map has for that key now. */
  ghost predicate ReferencesAgree(s: System) {
    forall t :: t in s.threads && HasReference(s.threads[t]) ==>
                  s.threads[t].call.key in s.locks && s.locks[s.threads[t].call.key] == s.threads[t].lock
  }

  /** Locks of different keys differ, and locks yet to be made are new. */
  ghost predicate LocksDiffer(s: System) {
    && (forall k, l :: k in s.locks && l in s.locks && k != l ==> s.locks[k] != s.locks[l])
    && (forall k :: k in s.locks ==> s.locks[k] < s.nextLock)
  }

  /** The count of a lock is the map's reference and one for every referring thread, of which there is one. */
  ghost predicate CountExact(s: System, l: Lock) {
    CountOf(s.counts, l) == 1 + |Referring(s.threads, l)| >= 2
  }

  ghost predicate CountsAgree(s: System) {
    forall k :: k in s.locks ==> CountExact(s, s.locks[k])
  }

  /** A lock is counted as long as the map holds it, and gone with its entry. */
  ghost predicate NoneLeaks(s: System) {
    Tight(s.locks, s.counts.Keys)
  }

  ghost predicate Tight(locks: map<Key, Lock>, counted: set<Lock>) {
    && (forall k :: k in locks ==> locks[k] in counted)
    && (forall l :: l in counted ==> exists k :: k in locks && locks[k] == l)
  }

  ghost predicate LocksAgree(s: System) {
    ReferencesAgree(s) && LocksDiffer(s) && CountsAgree(s) && NoneLeaks(s)
  }

  /** A lock is held exactly by the one thread that is inside it. */
  ghost predicate HoldersAgree(s: System) {
    && (forall t :: InsideOf(s.threads, t).Some? ==>
                      InsideOf(s.threads, t).value in s.holders && s.holders[InsideOf(s.threads, t).value] == t)
    && (forall l :: l in s.holders ==> InsideOf(s.threads, s.holders[l]) == Some(l))
  }

  /** What a thread compared equal is still in the store. */
  ghost predicate MatchesHold(s: System) {
    forall t :: t in s.threads && s.threads[t].Matched? ==>
        Get(s.store, s.threads[t].call.key) == s.threads[t].call.expected
  }

  ghost function Statuses(threads: map<Thread, Place>): map<Thread, Status> {
    map t | t in threads :: StatusOf(threads[t])
  }

  /** Replaying the history gives the store and where every thread stands. */
  ghost predicate LogAgrees(s: System, initial: Store) {
    Replay(initial, s.log) == View(s.store, Statuses(s.threads))
  }

  ghost predicate Sound(s: System, initial: Store) {
    LocksAgree(s) && HoldersAgree(s) && LogAgrees(s, initial)
  }

  // ----- references and counts

  /** The call and the lock a thread refers to. */
  function ReferenceOf(threads: map<Thread, Place>, t: Thread): Option<(Call, Lock)> {
    if t in threads && HasReference(threads[t]) then Some((threads[t].call, threads[t].lock)) else None
  }

  /** Only taking a reference and cleaning up change what a thread refers to, or the tables of locks. */
  lemma ReferencesStay(s: System, a: Action, u: Thread)
    requires Enabled(s, a) && !a.TakeReference? && !a.Clean?
    ensures ReferenceOf(Do(s, a).threads, u) == ReferenceOf(s.threads, u)
    ensures Do(s, a).locks == s.locks && Do(s, a).counts == s.counts && Do(s, a).nextLock == s.nextLock
  {
    hide Taken, Cleaned, Put, Get;
  }

  /** Steps that keep every reference: the same threads own the same locks for the same keys. */
  lemma LocksKeptByReferences(s: System, s': System)
    requires LocksAgree(s) && s'.locks == s.locks && s'.nextLock == s.nextLock && s'.counts == s.counts
    requires forall t :: ReferenceOf(s'.threads, t) == ReferenceOf(s.threads, t)
    ensures LocksAgree(s')
  {
    forall t | t in s'.threads && HasReference(s'.threads[t])
      ensures s'.threads[t].call.key in s'.locks && s'.locks[s'.threads[t].call.key] == s'.threads[t].lock
    {
      assert ReferenceOf(s'.threads, t) == ReferenceOf(s.threads, t);
    }
    forall k | k in s'.locks
      ensures CountExact(s', s'.locks[k])
    {
      assert CountExact(s, s.locks[k]);
      SameReferring(s.threads, s'.threads, s.locks[k]);
    }
  }

  lemma SameReferring(threads: map<Thread, Place>, threads': map<Thread, Place>, l: Lock)
    requires forall t :: ReferenceOf(threads', t) == ReferenceOf(threads, t)
    ensures Referring(threads', l) == Referring(threads, l)
  {
    forall t
      ensures t in Referring(threads', l) <==> t in Referring(threads, l)
    {
      assert ReferenceOf(threads', t) == ReferenceOf(threads, t);
    }
  }

  /** Nobody refers to a lock that is not in the map. */
  lemma NoStrayReference(s: System, l: Lock)
    requires ReferencesAgree(s) && forall k :: k in s.locks ==> s.locks[k] != l
    ensures Referring(s.threads, l) == {}
  {
  }

  /** Another thread's step leaves the references to a lock alone unless it takes or gives one up. */
  lemma ReferringUpdates(threads: map<Thread, Place>, t: Thread, p: Place, l: Lock)
    requires t in threads ==> !HasReference(threads[t])
    ensures Referring(threads[t := p], l) ==
            Referring(threads, l) + if HasReference(p) && p.lock == l then {t} else {}
    ensures t !in Referring(threads, l)
  {
  }

  lemma CountAfterCloning(s: System, t: Thread, c: Call, k: Key)
    requires LocksDiffer(s) && t in s.threads && s.threads[t] == Called(c) && c.key in s.locks
    requires k in s.locks && CountExact(s, s.locks[k])
    ensures CountExact(Taken(s, t, c), s.locks[k])
  {
    ReferringUpdates(s.threads, t, Queued(c, s.locks[c.key]), s.locks[k]);
    hide Referring;
  }

  lemma CountAfterMaking(s: System, t: Thread, c: Call, k: Key)
    requires LocksDiffer(s) && t in s.threads && s.threads[t] == Called(c) && c.key !in s.locks
    requires if k == c.key then Referring(s.threads, s.nextLock) == {} else k in s.locks && CountExact(s, s.locks[k])
    ensures k in Taken(s, t, c).locks && CountExact(Taken(s, t, c), Taken(s, t, c).locks[k])
  {
    ReferringUpdates(s.threads, t, Queued(c, s.nextLock), if k == c.key then s.nextLock else s.locks[k]);
    hide Referring;
  }

  lemma CountsAfterTaking(s: System, t: Thread, c: Call)
    requires LocksAgree(s) && t in s.threads && s.threads[t] == Called(c)
    ensures CountsAgree(Taken(s, t, c))
  {
    var s' := Taken(s, t, c);
    NoStrayReference(s, s.nextLock);
    forall k | k in s'.locks
      ensures CountExact(s', s'.locks[k])
    {
      hide CountExact, ReferencesAgree;
      assert k in s.locks ==> CountExact(s, s.locks[k]);
      if c.key in s.locks {
        CountAfterCloning(s, t, c, k);
      } else {
        CountAfterMaking(s, t, c, k);
      }
    }
  }

  lemma LocksKeptByTaking(s: System, t: Thread, c: Call)
    requires LocksAgree(s) && t in s.threads && s.threads[t] == Called(c)
    ensures LocksAgree(Taken(s, t, c))
  {
    CountsAfterTaking(s, t, c);
    ReferencesAfterTaking(s, t, c);
    LocksDifferAfterTaking(s, t, c);
    NoneLeaksAfterTaking(s, t, c);
    hide CountsAgree, ReferencesAgree, LocksDiffer, NoneLeaks;
  }

  lemma NoneLeaksAfterTaking(s: System, t: Thread, c: Call)
    requires NoneLeaks(s)
    ensures NoneLeaks(Taken(s, t, c))
  {
    hide CountOf;
    var s' := Taken(s, t, c);
    forall l | l in s'.counts
      ensures exists k :: k in s'.locks && s'.locks[k] == l
    {
      if l in s.counts {
        var k :| k in s.locks && s.locks[k] == l;
        assert s'.locks[k] == l;
      } else {
        assert s'.locks[c.key] == l;
      }
    }
  }

  lemma ReferencesAfterTaking(s: System, t: Thread, c: Call)
    requires ReferencesAgree(s) && t in s.threads && s.threads[t] == Called(c)
    ensures ReferencesAgree(Taken(s, t, c))
  {
    hide Cloned;
  }

  lemma LocksDifferAfterTaking(s: System, t: Thread, c: Call)
    requires LocksDiffer(s)
    ensures LocksDiffer(Taken(s, t, c))
  {
    hide Cloned;
  }

  /** Cleaning up removes the entry exactly when nobody else refers to its lock. */
  lemma CleaningCounts(s: System, t: Thread)
    requires LocksAgree(s) && Enabled(s, Clean(t))
    ensures var p := s.threads[t];
            && p.call.key in s.locks && s.locks[p.call.key] == p.lock
            && Referring(s.threads - {t}, p.lock) == Referring(s.threads, p.lock) - {t}
            && CountOf(Dropped(s.counts, p.lock), p.lock) == 1 + |Referring(s.threads - {t}, p.lock)|
            && (p.call.key !in Cleaned(s, t, p).locks <==> Referring(s.threads, p.lock) == {t})
  {
    var p := s.threads[t];
    assert CountExact(s, s.locks[p.call.key]);
    assert t in Referring(s.threads, p.lock);
    assert Referring(s.threads - {t}, p.lock) == Referring(s.threads, p.lock) - {t};
    if Referring(s.threads, p.lock) - {t} == {} {
      assert Referring(s.threads, p.lock) == {t};
    }
  }

  lemma ReferringWithout(threads: map<Thread, Place>, t: Thread, l: Lock)
    requires t in threads && HasReference(threads[t]) && threads[t].lock != l
    ensures Referring(threads - {t}, l) == Referring(threads, l)
  {
  }

  lemma CountAfterCleaning(s: System, t: Thread, k: Key)
    requires LocksAgree(s) && Enabled(s, Clean(t)) && k in Cleaned(s, t, s.threads[t]).locks
    ensures CountExact(Cleaned(s, t, s.threads[t]), s.locks[k])
  {
    hide NoneLeaks;
    var p := s.threads[t];
    CleaningCounts(s, t);
    assert CountExact(s, s.locks[k]);
    if k != p.call.key {
      ReferringWithout(s.threads, t, s.locks[k]);
    } else {
      var u :| u in Referring(s.threads, p.lock) - {t};
      assert u in Referring(s.threads - {t}, p.lock);
    }
    hide Referring, ReferencesAgree, CountsAgree;
  }

  lemma ReferencesAfterCleaning(s: System, t: Thread)
    requires LocksAgree(s) && Enabled(s, Clean(t))
    ensures ReferencesAgree(Cleaned(s, t, s.threads[t]))
  {
    var p := s.threads[t];
    var s' := Cleaned(s, t, p);
    CleaningCounts(s, t);
    forall u | u in s'.threads && HasReference(s'.threads[u])
      ensures s'.threads[u].call.key in s'.locks && s'.locks[s'.threads[u].call.key] == s'.threads[u].lock
    {
      if s'.threads[u].call.key == p.call.key {
        assert u in Referring(s.threads, p.lock) && u != t;
      }
    }
  }

  lemma LocksKeptByCleaning(s: System, t: Thread)
    requires LocksAgree(s) && Enabled(s, Clean(t))
    ensures LocksAgree(Cleaned(s, t, s.threads[t]))
  {
    ReferencesAfterCleaning(s, t);
    NoneLeaksAfterCleaning(s, t);
    CleanedTables(s, t);
    hide CountExact, ReferencesAgree, NoneLeaks, Cleaned;
    var s' := Cleaned(s, t, s.threads[t]);
    forall k | k in s'.locks
      ensures CountExact(s', s'.locks[k])
    {
      CountAfterCleaning(s, t, k);
    }
    LocksDifferAfterCleaning(s, t);
  }

  lemma LocksDifferAfterCleaning(s: System, t: Thread)
    requires LocksDiffer(s) && Enabled(s, Clean(t))
    ensures LocksDiffer(Cleaned(s, t, s.threads[t]))
  {
    hide Dropped;
  }

  lemma NoneLeaksAfterCleaning(s: System, t: Thread)
    requires LocksAgree(s) && Enabled(s, Clean(t))
    ensures NoneLeaks(Cleaned(s, t, s.threads[t]))
  {
    CleanedTables(s, t);
    TightWithout(s.locks, s.counts.Keys, s.threads[t].call.key);
    hide ReferencesAgree, CountsAgree, Cleaned, Tight, LocksDiffer;
  }

  lemma TightWithout(locks: map<Key, Lock>, counted: set<Lock>, key: Key)
    requires Tight(locks, counted) && key in locks
    requires forall k, l :: k in locks && l in locks && k != l ==> locks[k] != locks[l]
    ensures Tight(locks - {key}, counted - {locks[key]})
  {
    forall l | l in counted - {locks[key]}
      ensures exists k :: k in locks - {key} && (locks - {key})[k] == l
    {
      var k :| k in locks && locks[k] == l;
      assert (locks - {key})[k] == l;
    }
  }

  /** The lock stays counted while its entry stays, and goes with it. */
  lemma CleanedTables(s: System, t: Thread)
    requires LocksAgree(s) && Enabled(s, Clean(t))
    ensures var p, s' := s.threads[t], Cleaned(s, t, s.threads[t]);
            && p.call.key in s.locks && s.locks[p.call.key] == p.lock
            && (|| (s'.locks == s.locks && s'.counts.Keys == s.counts.Keys)
                || (s'.locks == s.locks - {p.call.key} && s'.counts.Keys == s.counts.Keys - {p.lock}))
  {
    hide NoneLeaks, LocksDiffer;
    CleaningCounts(s, t);
    assert CountExact(s, s.locks[s.threads[t].call.key]);
    hide Referring, ReferencesAgree, CountsAgree;
  }

  lemma LocksKept(s: System, a: Action)
    requires Enabled(s, a) && LocksAgree(s)
    ensures LocksAgree(Do(s, a))
  {
    hide LocksAgree, Taken, Cleaned, ReferenceOf;
    match a
    case TakeReference(t) => LocksKeptByTaking(s, t, s.threads[t].call);
    case Clean(t) => LocksKeptByCleaning(s, t);
    case _ =>
      forall u
        ensures ReferenceOf(Do(s, a).threads, u) == ReferenceOf(s.threads, u)
      {
        ReferencesStay(s, a, u);
      }
      ReferencesStay(s, a, a.thread);
      LocksKeptByReferences(s, Do(s, a));
  }

  /** The lock a thread is inside. */
  function InsideOf(threads: map<Thread, Place>, t: Thread): Option<Lock> {
    if t in threads && IsInside(threads[t]) then Some(threads[t].lock) else None
  }

  /** Entering and leaving move a thread into its lock and out of it; no other step does. */
  lemma InsideStep(s: System, a: Action, u: Thread)
    requires Enabled(s, a)
    ensures InsideOf(Do(s, a).threads, u) ==
            (if a == Enter(u) then Some(s.threads[u].lock) else if a == Leave(u) then None else InsideOf(s.threads, u))
    ensures Do(s, a).holders ==
            (match a
             case Enter(t) => s.holders[s.threads[t].lock := t]
             case Leave(t) => s.holders - {s.threads[t].lock}
             case _ => s.holders)
  {
    hide Put, Get, Cloned, Dropped;
  }

  lemma HoldersKept(s: System, a: Action)
    requires Enabled(s, a) && HoldersAgree(s)
    ensures HoldersAgree(Do(s, a))
  {
    hide Do;
    forall u
      ensures InsideOf(Do(s, a).threads, u) ==
              (if a == Enter(u) then Some(s.threads[u].lock) else if a == Leave(u) then None
                  else InsideOf(s.threads, u))
    {
      InsideStep(s, a, u);
    }
    InsideStep(s, a, a.thread);
    assert a.Enter? ==> InsideOf(s.threads, a.thread) == None;
    assert a.Leave? ==> InsideOf(s.threads, a.thread) == Some(s.threads[a.thread].lock);
    hide InsideOf;
    if a.Enter? {
      EnterKeepsHolders(s, Do(s, a), a.thread, s.threads[a.thread].lock);
    } else if a.Leave? {
      LeaveKeepsHolders(s, Do(s, a), a.thread, s.threads[a.thread].lock);
    }
  }

  lemma EnterKeepsHolders(s: System, s': System, t: Thread, l: Lock)
    requires HoldersAgree(s) && l !in s.holders && s'.holders == s.holders[l := t] && InsideOf(s.threads, t) == None
    requires forall u :: InsideOf(s'.threads, u) == if u == t then Some(l) else InsideOf(s.threads, u)
    ensures HoldersAgree(s')
  {
    hide InsideOf;
  }

  lemma LeaveKeepsHolders(s: System, s': System, t: Thread, l: Lock)
    requires HoldersAgree(s) && s'.holders == s.holders - {l} && InsideOf(s.threads, t) == Some(l)
    requires forall u :: InsideOf(s'.threads, u) == if u == t then None else InsideOf(s.threads, u)
    ensures HoldersAgree(s')
  {
    hide InsideOf;
  }

  /** Two threads inside locks for the same key are the same thread. */
  lemma Exclusive(s: System, t: Thread, u: Thread)
    requires LocksAgree(s) && HoldersAgree(s) && t in s.threads && u in s.threads
    requires IsInside(s.threads[t]) && IsInside(s.threads[u]) && s.threads[t].call.key == s.threads[u].call.key
    ensures t == u
  {
    assert InsideOf(s.threads, t).Some? && InsideOf(s.threads, u).Some?;
  }

  // ----- the history

  /** The event a step records, if any. */
  function Recorded(s: System, a: Action): Option<Event>
    requires Enabled(s, a)
  {
    match a
    case Invoke(t, c) => Some(Invoked(t, c))
    case Compare(t) =>
      if Get(s.store, s.threads[t].call.key) == s.threads[t].call.expected then None
      else Some(TookEffect(t, s.threads[t].call, false))
    case Write(t) => Some(TookEffect(t, s.threads[t].call, true))
    case Clean(t) => Some(Returned(t, s.threads[t].isSet))
    case PlainSet(t, k, v) => Some(Wrote(t, k, Some(v)))
    case PlainRemove(t, k) => Some(Wrote(t, k, None))
    case _ => None
  }

  lemma StatusUpdates(threads: map<Thread, Place>, t: Thread, p: Place)
    ensures Statuses(threads[t := p]) == Statuses(threads)[t := StatusOf(p)]
    ensures Statuses(threads - {t}) == Statuses(threads) - {t}
    ensures t in Statuses(threads) <==> t in threads
    ensures t in threads ==> Statuses(threads)[t] == StatusOf(threads[t])
  {
  }

  /** A step extends the history by its event, and the view the history gives by the same event. */
  lemma StepIsRecorded(s: System, a: Action)
    requires Enabled(s, a)
    ensures var s', e := Do(s, a), Recorded(s, a);
            && s'.log == (if e.Some? then s.log + [e.value] else s.log)
            && View(s'.store, Statuses(s'.threads)) ==
               (if e.Some? then ReplayStep(View(s.store, Statuses(s.threads)), e.value)
                else View(s.store, Statuses(s.threads)))
  {
    var s', t := Do(s, a), a.thread;
    StatusUpdates(s.threads, t, if t in s'.threads then s'.threads[t] else Called(Call(0, None, 0)));
    if t in s.threads {
      assert Statuses(s.threads)[t := StatusOf(s.threads[t])] == Statuses(s.threads);
    }
    hide Statuses, Cloned, Dropped;
  }

  /** A write finds what its call expects. */
  predicate Finds(s: System, a: Action)
    requires Enabled(s, a)
  {
    a.Write? ==> Get(s.store, s.threads[a.thread].call.key) == s.threads[a.thread].call.expected
  }

  /** The event of a step fits what came before, unless it is a write that does not find what it expects. */
  lemma EventOfStepFits(s: System, a: Action)
    requires Enabled(s, a) && Recorded(s, a).Some?
    ensures EventFits(View(s.store, Statuses(s.threads)), Recorded(s, a).value) <==> Finds(s, a)
  {
    StatusUpdates(s.threads, a.thread, Called(Call(0, None, 0)));
    hide Statuses;
  }

  lemma LogKept(s: System, a: Action, initial: Store)
    requires Enabled(s, a) && LogAgrees(s, initial)
    ensures LogAgrees(Do(s, a), initial)
    ensures Linearized(initial, Do(s, a).log) <==> Linearized(initial, s.log) && Finds(s, a)
  {
    hide Replay, Linearized, Statuses, Do, EventFits, ReplayStep;
    StepIsRecorded(s, a);
    if Recorded(s, a).Some? {
      Appended(initial, s.log, Recorded(s, a).value);
      EventOfStepFits(s, a);
    }
  }

  lemma StepKeepsSound(s: System, a: Action, initial: Store)
    requires Enabled(s, a) && Sound(s, initial)
    ensures Sound(Do(s, a), initial)
    ensures Linearized(initial, Do(s, a).log) <==> Linearized(initial, s.log) && Finds(s, a)
  {
    hide LocksAgree, HoldersAgree, LogAgrees, Do, Finds, Linearized;
    LocksKept(s, a);
    HoldersKept(s, a);
    LogKept(s, a, initial);
  }

  // ----- every interleaving

  predicate LegalRun(s: System, actions: seq<Action>)
    decreases |actions|
  {
    actions == [] || (Enabled(s, actions[0]) && LegalRun(Do(s, actions[0]), actions[1..]))
  }

  function Run(s: System, actions: seq<Action>): System
    requires LegalRun(s, actions)
    decreases |actions|
  {
    if actions == [] then s else Run(Do(s, actions[0]), actions[1..])
  }

  function Start(initial: Store): System {
    System(map[], map[], map[], map[], initial, 0, [])
  }

  /** Every write of the run finds what its call expects. */
  predicate EveryWriteFinds(s: System, actions: seq<Action>)
    requires LegalRun(s, actions)
    decreases |actions|
  {
    actions == [] || (Finds(s, actions[0]) && EveryWriteFinds(Do(s, actions[0]), actions[1..]))
  }

  lemma StartIsSound(initial: Store)
    ensures Sound(Start(initial), initial) && Linearized(initial, Start(initial).log)
  {
  }

  lemma {:induction false} RunKeepsSound(s: System, actions: seq<Action>, initial: Store)
    requires Sound(s, initial) && LegalRun(s, actions)
    ensures Sound(Run(s, actions), initial)
    ensures Linearized(initial, Run(s, actions).log) <==> Linearized(initial, s.log) && EveryWriteFinds(s, actions)
    decreases |actions|
  {
    if actions != [] {
      hide Sound, Do, Enabled, Finds, Linearized;
      StepKeepsSound(s, actions[0], initial);
      RunKeepsSound(Do(s, actions[0]), actions[1..], initial);
    }
  }

  lemma ReachedIsSound(initial: Store, actions: seq<Action>)
    requires LegalRun(Start(initial), actions)
    ensures Sound(Run(Start(initial), actions), initial)
  {
    hide Run, Sound;
    StartIsSound(initial);
    RunKeepsSound(Start(initial), actions, initial);
  }

  /** Mutual exclusion in every interleaving: at most one thread is inside a lock for a key, and every owner
      of a reference owns the lock now in the map. */
  lemma LocksAreExclusive(initial: Store, actions: seq<Action>, t: Thread, u: Thread)
    requires LegalRun(Start(initial), actions)
    requires var s := Run(Start(initial), actions); t in s.threads && u in s.threads
    ensures var s := Run(Start(initial), actions);
            && (IsInside(s.threads[t]) && IsInside(s.threads[u]) && s.threads[t].call.key == s.threads[u].call.key ==>
                t == u)
            && (HasReference(s.threads[t]) ==>
                  s.threads[t].call.key in s.locks && s.locks[s.threads[t].call.key] == s.threads[t].lock)
  {
    ReachedIsSound(initial, actions);
    hide Run, LegalRun, LogAgrees, CountsAgree;
    var s := Run(Start(initial), actions);
    if IsInside(s.threads[t]) && IsInside(s.threads[u]) && s.threads[t].call.key == s.threads[u].call.key {
      Exclusive(s, t, u);
    }
  }

  /** In every interleaving the count of a lock in the map is the map's reference and those of the threads. */
  lemma CountsAreReferences(initial: Store, actions: seq<Action>, k: Key)
    requires LegalRun(Start(initial), actions) && k in Run(Start(initial), actions).locks
    ensures var s := Run(Start(initial), actions);
            s.locks[k] in s.counts && s.counts[s.locks[k]] == 1 + |Referring(s.threads, s.locks[k])|
  {
    ReachedIsSound(initial, actions);
    hide Run, LegalRun, LogAgrees, HoldersAgree;
    assert CountExact(Run(Start(initial), actions), Run(Start(initial), actions).locks[k]);
  }

  lemma MappedIsReferred(s: System, k: Key) returns (t: Thread)
    requires CountsAgree(s) && k in s.locks
    ensures t in s.threads && HasReference(s.threads[t]) && s.threads[t].lock == s.locks[k]
  {
    assert CountExact(s, s.locks[k]);
    t :| t in Referring(s.threads, s.locks[k]);
  }

  lemma QuietMeansEmpty(initial: Store, actions: seq<Action>)
    requires LegalRun(Start(initial), actions)
    ensures var s := Run(Start(initial), actions); s.threads == map[] ==> s.locks == map[] && s.counts == map[]
  {
    ReachedIsSound(initial, actions);
    hide Run, LegalRun, LogAgrees, HoldersAgree;
    var s := Run(Start(initial), actions);
    if s.locks != map[] {
      var k :| k in s.locks;
      var t := MappedIsReferred(s, k);
    }
    assert NoneLeaks(s);
  }

  /** In every interleaving the last step of a call, which tests the count, removes the entry of its key exactly
      when no other thread refers to the lock; no other step removes an entry. */
  lemma RemovedOnlyWhenUnused(initial: Store, actions: seq<Action>, a: Action, k: Key)
    requires LegalRun(Start(initial), actions)
    requires Enabled(Run(Start(initial), actions), a) && k in Run(Start(initial), actions).locks
    ensures var s := Run(Start(initial), actions);
            k !in Do(s, a).locks <==>
              a.Clean? && s.threads[a.thread].call.key == k && Referring(s.threads, s.locks[k]) == {a.thread}
  {
    ReachedIsSound(initial, actions);
    hide Run, LegalRun, LogAgrees, HoldersAgree;
    var s := Run(Start(initial), actions);
    if a.Clean? {
      CleaningCounts(s, a.thread);
      hide LocksAgree, Dropped;
    }
  }

  // ----- calls end

  /** The steps a call still has before it. */
  function StepsLeft(p: Place): nat {
    match p
    case Called(_) => 6
    case Queued(_, _) => 5
    case Locked(_, _) => 4
    case Matched(_, _) => 3
    case Decided(_, _, _) => 2
    case Unlocked(_, _, _) => 1
  }

  predicate Advances(a: Action, t: Thread) {
    a.thread == t && !a.Invoke? && !a.PlainSet? && !a.PlainRemove?
  }

  /** A step of a call leaves fewer before it, or none with the last, and leaves all other calls where they are. */
  lemma StepsShrink(s: System, a: Action, t: Thread)
    requires Enabled(s, a) && Advances(a, t)
    ensures t in s.threads
    ensures t in Do(s, a).threads ==> StepsLeft(Do(s, a).threads[t]) < StepsLeft(s.threads[t])
    ensures t !in Do(s, a).threads ==> StepsLeft(s.threads[t]) == 1
    ensures forall u :: u != t ==>
              && (u in Do(s, a).threads <==> u in s.threads)
              && (u in s.threads ==> Do(s, a).threads[u] == s.threads[u])
  {
    hide Get, Put, Cloned, Dropped;
  }

  /** Whatever the interleaving, as long as a call is in flight some call can take its next step. */
  lemma SomeCallAdvances(initial: Store, actions: seq<Action>, t: Thread) returns (a: Action, u: Thread)
    requires LegalRun(Start(initial), actions) && t in Run(Start(initial), actions).threads
    ensures Enabled(Run(Start(initial), actions), a) && Advances(a, u)
  {
    ReachedIsSound(initial, actions);
    hide Run, LegalRun, LogAgrees, LocksAgree;
    var s := Run(Start(initial), actions);
    u := t;
    if s.threads[t].Queued? && s.threads[t].lock in s.holders {
      u := s.holders[s.threads[t].lock];
      assert InsideOf(s.threads, u).Some?;
    }
    a := match s.threads[u]
      case Called(_) => TakeReference(u)
      case Queued(_, _) => Enter(u)
      case Locked(_, _) => Compare(u)
      case Matched(_, _) => Write(u)
      case Decided(_, _, _) => Leave(u)
      case Unlocked(_, _, _) => Clean(u);
  }

  // ----- when writes find what they expect

  /** The key a plain write touches. */
  predicate WritesPlainly(a: Action, k: Key) {
    (a.PlainSet? || a.PlainRemove?) && a.key == k
  }

  /** No plain write falls on a key between a thread's comparison and its write. */
  predicate Polite(s: System, a: Action) {
    forall t :: t in s.threads && s.threads[t].Matched? ==> !WritesPlainly(a, s.threads[t].call.key)
  }

  predicate PoliteRun(s: System, actions: seq<Action>)
    requires LegalRun(s, actions)
    decreases |actions|
  {
    actions == [] || (Polite(s, actions[0]) && PoliteRun(Do(s, actions[0]), actions[1..]))
  }

  /** A step changes a key of the store only by a write to it, plain or not. */
  lemma StoreStep(s: System, a: Action, k: Key)
    requires Enabled(s, a) && !WritesPlainly(a, k) && !(a.Write? && s.threads[a.thread].call.key == k)
    ensures Get(Do(s, a).store, k) == Get(s.store, k)
  {
  }

  /** A thread has matched by its own comparison, and stands there until its own next step. */
  lemma MatchedStep(s: System, a: Action, u: Thread)
    requires Enabled(s, a) && u in Do(s, a).threads && Do(s, a).threads[u].Matched?
    ensures u in s.threads && IsInside(s.threads[u]) && s.threads[u].call == Do(s, a).threads[u].call
    ensures !(a.Write? && a.thread == u)
    ensures s.threads[u].Matched? ||
            (a == Compare(u) && Get(s.store, s.threads[u].call.key) == s.threads[u].call.expected)
  {
    hide Get, Put, Cloned, Dropped;
  }

  // ----- what the schedule says about a write

  /** The call a thread last made. */
  function LastCall(past: seq<Action>, t: Thread): Option<Call> {
    if past == [] then None
    else
      var a := past[|past| - 1];
      if a.Invoke? && a.thread == t then Some(a.call) else LastCall(past[..|past| - 1], t)
  }

  /** What the last plain write on a key since a thread's last comparison left there, if there was one. */
  function LastPlain(past: seq<Action>, t: Thread, k: Key): Option<Option<Value>> {
    if past == [] then None
    else
      var a := past[|past| - 1];
      if a == Compare(t) then None
      else if WritesPlainly(a, k) then Some(if a.PlainSet? then Some(a.value) else None)
      else LastPlain(past[..|past| - 1], t, k)
  }

  /** If plain writes fell on the key of a call between its comparison and its write, the last of them put back
      what the call expects. */
  predicate Restores(past: seq<Action>, a: Action) {
    a.Write? ==>
      var c := LastCall(past, a.thread);
      c.Some? ==> LastPlain(past, a.thread, c.value.key) in {None, Some(c.value.expected)}
  }

  predicate EveryWriteRestored(past: seq<Action>, actions: seq<Action>)
    decreases |actions|
  {
    actions == [] || (Restores(past, actions[0]) && EveryWriteRestored(past + [actions[0]], actions[1..]))
  }

  /** The steps taken so far tell the call of every thread and, for one that has matched, what its key holds. */
  ghost predicate Told(s: System, past: seq<Action>, t: Thread) {
    t in s.threads ==>
      && LastCall(past, t) == Some(s.threads[t].call)
      && (s.threads[t].Matched? ==>
            var c := s.threads[t].call;
            var left := LastPlain(past, t, c.key);
            Get(s.store, c.key) == if left.Some? then left.value else c.expected)
  }

  lemma PastGrows(past: seq<Action>, a: Action, t: Thread, k: Key)
    ensures LastCall(past + [a], t) == if a.Invoke? && a.thread == t then Some(a.call) else LastCall(past, t)
    ensures LastPlain(past + [a], t, k) ==
            if a == Compare(t) then None
            else if WritesPlainly(a, k) then Some(if a.PlainSet? then Some(a.value) else None)
            else LastPlain(past, t, k)
  {
    assert (past + [a])[..|past|] == past;
  }

  /** A thread in a call came there by its invocation, or was there before, in the same call. */
  lemma CallStep(s: System, a: Action, u: Thread)
    requires Enabled(s, a) && u in Do(s, a).threads
    ensures if a.Invoke? && a.thread == u then Do(s, a).threads[u].call == a.call
            else u in s.threads && Do(s, a).threads[u].call == s.threads[u].call
  {
    hide Get, Put, Cloned, Dropped;
  }

  lemma PlainStep(s: System, a: Action, k: Key)
    requires Enabled(s, a) && WritesPlainly(a, k)
    ensures Get(Do(s, a).store, k) == if a.PlainSet? then Some(a.value) else None
  {
  }

  lemma StillTold(s: System, past: seq<Action>, a: Action, u: Thread)
    requires Enabled(s, a) && LocksAgree(s) && HoldersAgree(s) && Told(s, past, u)
    ensures Told(Do(s, a), past + [a], u)
  {
    hide Do, LocksAgree, HoldersAgree, LastCall, LastPlain;
    var s' := Do(s, a);
    if u in s'.threads {
      CallStep(s, a, u);
      var k := s'.threads[u].call.key;
      PastGrows(past, a, u, k);
      if s'.threads[u].Matched? {
        MatchedStep(s, a, u);
        if WritesPlainly(a, k) {
          PlainStep(s, a, k);
        } else {
          if a.Write? && s.threads[a.thread].call.key == k {
            Exclusive(s, a.thread, u);
          }
          StoreStep(s, a, k);
        }
      }
    }
  }

  lemma {:induction false} FindingIsRestoring(s: System, past: seq<Action>, actions: seq<Action>, initial: Store)
    requires Sound(s, initial) && LegalRun(s, actions) && forall t :: Told(s, past, t)
    ensures EveryWriteFinds(s, actions) <==> EveryWriteRestored(past, actions)
    decreases |actions|
  {
    if actions != [] {
      var a := actions[0];
      assert Finds(s, a) <==> Restores(past, a) by {
        assert Told(s, past, a.thread);
      }
      hide LocksAgree, HoldersAgree, LogAgrees, Do, Enabled, Finds, Restores, Told;
      forall t
        ensures Told(Do(s, a), past + [a], t)
      {
        StillTold(s, past, a, t);
      }
      StepKeepsSound(s, a, initial);
      FindingIsRestoring(Do(s, a), past + [a], actions[1..], initial);
    }
  }

  /** In every run, plain writes included, the recorded effects explain every result exactly when, by the schedule,
      the last plain write between a comparison and its write, if any, put back what was expected; they always
      explain the store. The recorded effect of a successful call is its write: a lost plain write that nobody
      could have read before it was overwritten may still fit another order. */
  lemma HistoriesAreLinearizable(initial: Store, actions: seq<Action>)
    requires LegalRun(Start(initial), actions)
    ensures var s := Run(Start(initial), actions);
            && (Linearized(initial, s.log) <==> EveryWriteRestored([], actions))
            && (Linearized(initial, s.log) <==> EveryWriteFinds(Start(initial), actions))
            && Replay(initial, s.log).store == s.store
  {
    StartIsSound(initial);
    RunKeepsSound(Start(initial), actions, initial);
    FindingIsRestoring(Start(initial), [], actions, initial);
  }

  // ----- polite runs

  lemma MatchesKept(s: System, a: Action)
    requires Enabled(s, a) && LocksAgree(s) && HoldersAgree(s) && MatchesHold(s) && Polite(s, a)
    ensures MatchesHold(Do(s, a))
  {
    hide Do, LocksAgree, HoldersAgree;
    var s' := Do(s, a);
    forall u | u in s'.threads && s'.threads[u].Matched?
      ensures Get(s'.store, s'.threads[u].call.key) == s'.threads[u].call.expected
    {
      MatchedStep(s, a, u);
      if a.Write? && s.threads[a.thread].call.key == s.threads[u].call.key {
        Exclusive(s, a.thread, u);
      }
      StoreStep(s, a, s.threads[u].call.key);
    }
  }

  lemma {:induction false} PoliteWritesFind(s: System, actions: seq<Action>, initial: Store)
    requires Sound(s, initial) && MatchesHold(s) && LegalRun(s, actions) && PoliteRun(s, actions)
    ensures EveryWriteFinds(s, actions)
    decreases |actions|
  {
    if actions != [] {
      MatchesKept(s, actions[0]);
      assert Finds(s, actions[0]);
      hide LocksAgree, HoldersAgree, LogAgrees, MatchesHold, Do, Enabled, Finds, Polite;
      StepKeepsSound(s, actions[0], initial);
      PoliteWritesFind(Do(s, actions[0]), actions[1..], initial);
    }
  }

  /** Every history is linearizable in which no plain write falls between a comparison and its write on the
      same key; among them are all histories of compare-and-set calls alone. */
  lemma PoliteHistoriesAreLinearizable(initial: Store, actions: seq<Action>)
    requires LegalRun(Start(initial), actions) && PoliteRun(Start(initial), actions)
    ensures Linearized(initial, Run(Start(initial), actions).log)
  {
    StartIsSound(initial);
    PoliteWritesFind(Start(initial), actions, initial);
    hide Run, PoliteRun, EveryWriteFinds;
    HistoriesAreLinearizable(initial, actions);
  }

  lemma {:induction false} CallsAloneArePolite(s: System, actions: seq<Action>)
    requires LegalRun(s, actions)
    requires forall i :: 0 <= i < |actions| ==> !actions[i].PlainSet? && !actions[i].PlainRemove?
    ensures PoliteRun(s, actions)
    decreases |actions|
  {
    if actions != [] {
      hide Do, Enabled;
      CallsAloneArePolite(Do(s, actions[0]), actions[1..]);
    }
  }

  // ----- what a linearized history says about one call

  ghost predicate Quiet(log: seq<Event>, t: Thread, from: nat, to: nat) {
    forall i :: from <= i < to && i < |log| ==> log[i].thread != t
  }

  ghost predicate InvokedAt(log: seq<Event>, t: Thread, c: Call, k: nat) {
    k < |log| && log[k] == Invoked(t, c)
  }

  ghost predicate EffectAt(log: seq<Event>, t: Thread, c: Call, isSet: bool, k: nat, m: nat) {
    k < m < |log| && InvokedAt(log, t, c, k) && log[m] == TookEffect(t, c, isSet) && Quiet(log, t, k + 1, m)
  }

  lemma {:induction false} StatusMeans(initial: Store, log: seq<Event>, t: Thread) returns (k: nat, m: nat)
    requires Linearized(initial, log) && t in Replay(initial, log).status
    ensures var status := Replay(initial, log).status[t];
            && (status.Waiting? ==> InvokedAt(log, t, status.call, k) && Quiet(log, t, k + 1, |log|))
            && (status.Finished? ==> EffectAt(log, t, status.call, status.isSet, k, m) && Quiet(log, t, m + 1, |log|))
    decreases |log|
  {
    var n := |log| - 1;
    var init := log[..n];
    var e := log[n];
    if e.thread != t {
      k, m := StatusMeans(initial, init, t);
    } else if e.Invoked? {
      k, m := n, 0;
    } else {
      k, m := StatusMeans(initial, init, t);
      m := n;
    }
  }

  /** Every returned call took effect at one moment strictly between its invocation and its return, and
      returned the outcome of that moment; so effects respect the real-time order of calls. */
  lemma EffectLiesInsideTheCall(initial: Store, log: seq<Event>, i: nat) returns (c: Call, k: nat, m: nat)
    requires Linearized(initial, log) && i < |log| && log[i].Returned?
    ensures k < m < i && EffectAt(log, log[i].thread, c, log[i].isSet, k, m) && Quiet(log, log[i].thread, m + 1, i)
  {
    PrefixLinearized(initial, log, i + 1);
    var prefix := log[..i + 1];
    assert prefix[..i] == log[..i];
    var t := log[i].thread;
    c := Replay(initial, log[..i]).status[t].call;
    k, m := StatusMeans(initial, log[..i], t);
  }

  lemma {:induction false} PrefixLinearized(initial: Store, log: seq<Event>, n: nat)
    requires Linearized(initial, log) && n <= |log|
    ensures Linearized(initial, log[..n])
    decreases |log|
  {
    if n == |log| {
      assert log[..n] == log;
    } else {
      assert log[..|log| - 1][..n] == log[..n];
      PrefixLinearized(initial, log[..|log| - 1], n);
    }
  }

  // ----- a plain write in between

  /** A call that expects no value matches, another thread writes plainly, and the call writes. */
  function LostWrite(k: Key, mine: Value, other: Value): seq<Action> {
    [Invoke(0, Call(k, None, mine)), TakeReference(0), Enter(0), Compare(0), PlainSet(1, k, other), Write(0)]
  }

  lemma RunPrepends(s: System, a: Action, rest: seq<Action>)
    requires Enabled(s, a) && LegalRun(Do(s, a), rest)
    ensures LegalRun(s, [a] + rest) && Run(s, [a] + rest) == Run(Do(s, a), rest)
    ensures EveryWriteFinds(s, [a] + rest) <==> Finds(s, a) && EveryWriteFinds(Do(s, a), rest)
  {
    assert ([a] + rest)[1..] == rest;
  }

  /**
   A run in which the plain write is lost: the call succeeds and the store ends with
   its value. No order of the two explains that: after the plain write the call would
   fail, and before it the plain value would remain.
   */
  lemma PlainWriteBetweenIsLost(k: Key, mine: Value, other: Value)
    requires mine != other
    ensures LegalRun(Start(map[]), LostWrite(k, mine, other))
    ensures var s := Run(Start(map[]), LostWrite(k, mine, other));
            && !Linearized(map[], s.log)
            && s.threads == map[0 := Decided(Call(k, None, mine), 0, true)]
            && s.store == map[k := mine]
    ensures Get(map[k := other], k) != None && map[k := mine][k := other] != map[k := mine]
  {
    var s0 := Start(map[]);
    var call := Call(k, None, mine);
    var s1 := Do(s0, Invoke(0, call));
    var s2 := Do(s1, TakeReference(0));
    var s3 := Do(s2, Enter(0));
    var s4 := Do(s3, Compare(0));
    assert s4.threads == map[0 := Matched(call, 0)] && s4.store == map[];
    var s5 := Do(s4, PlainSet(1, k, other));
    assert s5.threads == s4.threads && s5.store == map[k := other];
    var s6 := Do(s5, Write(0));
    assert s6.threads == map[0 := Decided(call, 0, true)] && s6.store == map[k := mine];
    assert map[k := mine][k := other][k] == other;
    assert !Finds(s5, Write(0));
    hide Do, Enabled, Finds;
    assert LegalRun(s6, []) && Run(s6, []) == s6;
    RunPrepends(s5, Write(0), []);
    RunPrepends(s4, PlainSet(1, k, other), [Write(0)] + []);
    RunPrepends(s3, Compare(0), [PlainSet(1, k, other)] + ([Write(0)] + []));
    RunPrepends(s2, Enter(0), [Compare(0)] + ([PlainSet(1, k, other)] + ([Write(0)] + [])));
    var rest := [Enter(0)] + ([Compare(0)] + ([PlainSet(1, k, other)] + ([Write(0)] + [])));
    RunPrepends(s1, TakeReference(0), rest);
    RunPrepends(s0, Invoke(0, call), [TakeReference(0)] + rest);
    assert [Invoke(0, call)] + ([TakeReference(0)] + rest) == LostWrite(k, mine, other);
    HistoriesAreLinearizable(map[], LostWrite(k, mine, other));
  }
}
