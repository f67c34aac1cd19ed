/** The reference-counted order lock: `orderLocks`, `createLock`, `LockOrder` and `UnlockOrder`.

    Any number of threads run `LockOrder(k); ...; UnlockOrder(k)` and are interleaved at every access to
    shared memory.  Each program counter below names the next shared access of the thread.  `refCount++`
    and `refCount--` are two accesses, a read and a write.  `UnlockOrder` looks its mutex up again in the
    map, and does so without holding `createLock`. */
module LockProtocol {
  import opened Wrappers

  type Tid = nat
  type Key = string
  type MutexId = nat

  datatype Pc =
    | Idle
    | LockWait              // createLock.Lock()
    | LockLoad              // orderLocks.Load
    | LockStore             // orderLocks.Store of a fresh mutex
    | LockRead              // read refCount
    | LockWrite             // refCount = seen + 1
    | LockRelease           // createLock.Unlock()
    | MutexWait             // rcm.mu.Lock()
    | Inside                // LockOrder has returned
    | UnlockLoad            // orderLocks.Load, without createLock
    | MutexRelease          // rcm.mu.Unlock()
    | DropWait              // createLock.Lock()
    | DropRead              // read refCount
    | DropWrite             // refCount = seen - 1
    | DropTest              // if refCount == 0 then orderLocks.Delete
    | DropRelease           // createLock.Unlock()
    | Crashed               // unlock of a mutex nobody holds: the runtime aborts

  /** `mine` is the mutex `LockOrder` chose, `found` the one `UnlockOrder` loaded, and `seen` the value
      read by the `refCount++` or `refCount--` under way. */
  datatype Thread = Thread(pc: Pc, key: Key, mine: MutexId, found: MutexId, seen: int)

  datatype Mutex = Mutex(owner: Option<Tid>, refCount: int)

  /** A mutex is named by its position in `mutexes`, so storing a fresh one appends. */
  datatype Shared = Shared(createLock: Option<Tid>, locks: map<Key, MutexId>, mutexes: seq<Mutex>)

  datatype State = State(mem: Shared, threads: map<Tid, Thread>)

  datatype Action = Enter(t: Tid, key: Key) | Step(t: Tid) | Leave(t: Tid)

  predicate Initial(s: State) {
    && s.mem == Shared(None, map[], [])
    && forall t <- s.threads :: s.threads[t].pc == Idle
  }

  function SetMutex(mem: Shared, m: MutexId, mu: Mutex): (mem': Shared) {
    if m < |mem.mutexes| then mem.(mutexes := mem.mutexes[m := mu]) else mem
  }

  /** What a mutex identifier reads as; identifiers are always in range in reachable states. */
  function Deref(mem: Shared, m: MutexId): (mu: Mutex) {
    if m < |mem.mutexes| then mem.mutexes[m] else Mutex(None, 0)
  }

  /** A thread can move unless it waits for a lock that is taken, or has crashed. */
  predicate Enabled(s: State, a: Action) {
    && a.t in s.threads
    && var th := s.threads[a.t];
       match a
       case Enter(_, _) => th.pc == Idle
       case Leave(_) => th.pc == Inside
       case Step(_) =>
         match th.pc
         case Idle | Inside | Crashed => false
         case LockWait | DropWait => s.mem.createLock == None
         case MutexWait => Deref(s.mem, th.mine).owner == None
         case _ => true
  }

  /** The shared memory after the next access of thread `t`, which is in state `th`. */
  function Effect(mem: Shared, t: Tid, th: Thread): (mem': Shared) {
    match th.pc
    case LockWait | DropWait => mem.(createLock := Some(t))
    case LockRelease | DropRelease => mem.(createLock := None)
    case LockStore => mem.(mutexes := mem.mutexes + [Mutex(None, 0)], locks := mem.locks[th.key := |mem.mutexes|])
    case LockWrite => SetMutex(mem, th.mine, Deref(mem, th.mine).(refCount := th.seen + 1))
    case DropWrite => SetMutex(mem, th.found, Deref(mem, th.found).(refCount := th.seen - 1))
    case MutexWait => SetMutex(mem, th.mine, Deref(mem, th.mine).(owner := Some(t)))
    case MutexRelease => SetMutex(mem, th.found, Deref(mem, th.found).(owner := None))
    case DropTest => if Deref(mem, th.found).refCount == 0 then mem.(locks := mem.locks - {th.key}) else mem
    case _ => mem
  }

  /** The thread itself after that access. */
  function Local(mem: Shared, th: Thread): (th': Thread) {
    match th.pc
    case LockWait => th.(pc := LockLoad)
    case LockLoad =>
      if th.key in mem.locks then th.(pc := LockRead, mine := mem.locks[th.key]) else th.(pc := LockStore)
    case LockStore => th.(pc := LockRead, mine := |mem.mutexes|)
    case LockRead => th.(pc := LockWrite, seen := Deref(mem, th.mine).refCount)
    case LockWrite => th.(pc := LockRelease)
    case LockRelease => th.(pc := MutexWait)
    case MutexWait => th.(pc := Inside)
    case UnlockLoad =>
      if th.key in mem.locks then th.(pc := MutexRelease, found := mem.locks[th.key]) else th.(pc := Idle)
    case MutexRelease => if Deref(mem, th.found).owner == None then th.(pc := Crashed) else th.(pc := DropWait)
    case DropWait => th.(pc := DropRead)
    case DropRead => th.(pc := DropWrite, seen := Deref(mem, th.found).refCount)
    case DropWrite => th.(pc := DropTest)
    case DropTest => th.(pc := DropRelease)
    case DropRelease => th.(pc := Idle)
    case Idle | Inside | Crashed => th
  }

  function Next(s: State, a: Action): (s': State)
    requires Enabled(s, a)
  {
    var th := s.threads[a.t];
    match a
    case Enter(t, k) => s.(threads := s.threads[t := th.(pc := LockWait, key := k)])
    case Leave(t) => s.(threads := s.threads[t := th.(pc := UnlockLoad)])
    case Step(t) => State(Effect(s.mem, t, th), s.threads[t := Local(s.mem, th)])
  }

  // ---- The invariant ------------------------------------------------------------------------------

  predicate HoldsCreate(pc: Pc) {
    || pc.LockLoad? || pc.LockStore? || pc.LockRead? || pc.LockWrite? || pc.LockRelease?
    || pc.DropRead? || pc.DropWrite? || pc.DropTest? || pc.DropRelease?
  }

  /** Between the write of `refCount++` and the write of `refCount--`. */
  predicate Counted(pc: Pc) {
    || pc.LockRelease? || pc.MutexWait? || pc.Inside? || pc.UnlockLoad? || pc.MutexRelease?
    || pc.DropWait? || pc.DropRead? || pc.DropWrite?
  }

  /** The thread relies on its mutex being the one in the map. */
  predicate Refers(pc: Pc) {
    Counted(pc) || pc.LockRead? || pc.LockWrite? || pc.DropTest?
  }

  /** The counters before the section. */
  predicate Locking(pc: Pc) {
    || pc.LockWait? || pc.LockLoad? || pc.LockStore? || pc.LockRead? || pc.LockWrite? || pc.LockRelease? || pc.MutexWait?
  }

  /** The thread has `mu` locked. */
  predicate Holding(pc: Pc) {
    pc.Inside? || pc.UnlockLoad? || pc.MutexRelease?
  }

  predicate Loaded(pc: Pc) {
    pc.MutexRelease? || pc.DropWait? || pc.DropRead? || pc.DropWrite? || pc.DropTest?
  }

  function Users(s: State, k: Key): (us: set<Tid>) {
    set t | t in s.threads && Counted(s.threads[t].pc) && s.threads[t].key == k
  }

  ghost predicate CreateLockInv(s: State) {
    && (s.mem.createLock.Some? ==> s.mem.createLock.value in s.threads)
    && forall t <- s.threads :: HoldsCreate(s.threads[t].pc) <==> s.mem.createLock == Some(t)
  }

  ghost predicate MapInv(s: State) {
    && (forall k <- s.mem.locks :: s.mem.locks[k] < |s.mem.mutexes|)
    && (forall k, k' :: k in s.mem.locks && k' in s.mem.locks && s.mem.locks[k] == s.mem.locks[k'] ==> k == k')
  }

  ghost predicate ThreadInv(s: State, t: Tid)
    requires t in s.threads
  {
    var th := s.threads[t];
    && (Refers(th.pc) ==> th.key in s.mem.locks && s.mem.locks[th.key] == th.mine)
    && (Loaded(th.pc) ==> th.found == th.mine)
    && (th.pc.LockStore? ==> th.key !in s.mem.locks)
    && (th.pc.LockWrite? ==> th.seen == Deref(s.mem, th.mine).refCount)
    && (th.pc.DropWrite? ==> th.seen == Deref(s.mem, th.mine).refCount)
    && (Holding(th.pc) ==> Deref(s.mem, th.mine).owner == Some(t))
    && !th.pc.Crashed?
  }

  ghost predicate OwnerInv(s: State) {
    forall m: MutexId :: m < |s.mem.mutexes| && s.mem.mutexes[m].owner.Some? ==>
      var t := s.mem.mutexes[m].owner.value;
      t in s.threads && Holding(s.threads[t].pc) && s.threads[t].mine == m
  }

  ghost predicate CountInv(s: State) {
    forall k <- s.mem.locks :: Deref(s.mem, s.mem.locks[k]).refCount == |Users(s, k)|
  }

  ghost predicate Needed(s: State, k: Key) {
    exists t :: t in s.threads && Refers(s.threads[t].pc) && s.threads[t].key == k
  }

  ghost predicate NoGarbage(s: State) {
    forall k <- s.mem.locks :: Needed(s, k)
  }

  ghost predicate Inv(s: State) {
    && CreateLockInv(s) && MapInv(s) && OwnerInv(s) && CountInv(s) && NoGarbage(s)
    && forall t <- s.threads :: ThreadInv(s, t)
  }

  // ---- Preservation -------------------------------------------------------------------------------

  /** Only `t` changes between `s` and `s'`, and it stays with its key. */
  ghost predicate Moves(s: State, s': State, t: Tid) {
    && t in s.threads && s'.threads.Keys == s.threads.Keys
    && s'.threads[t].key == s.threads[t].key
    && forall u <- s.threads :: u != t ==> s'.threads[u] == s.threads[u]
  }

  /** Changing one member's standing changes the size of a set by one. */
  lemma SetMove(a: set<Tid>, b: set<Tid>, t: Tid)
    requires a - {t} == b - {t}
    ensures |a| + (if t in b then 1 else 0) == |b| + (if t in a then 1 else 0)
  {
    assert t in a ==> a == a - {t} + {t};
    assert t in b ==> b == b - {t} + {t};
    assert t !in a ==> a == a - {t};
    assert t !in b ==> b == b - {t};
  }

  /** How the users of every key move when one thread moves. */
  lemma UsersMove(s: State, s': State, t: Tid)
    requires Moves(s, s', t)
    ensures forall k :: k != s.threads[t].key ==> Users(s', k) == Users(s, k)
    ensures var k := s.threads[t].key;
            |Users(s', k)| + (if Counted(s.threads[t].pc) then 1 else 0)
            == |Users(s, k)| + (if Counted(s'.threads[t].pc) then 1 else 0)
  {
    var k := s.threads[t].key;
    assert Users(s', k) - {t} == Users(s, k) - {t};
    SetMove(Users(s, k), Users(s', k), t);
  }

  /** Needed survives a move of `t` that keeps it referring, or that concerns another key. */
  lemma NeededMove(s: State, s': State, t: Tid, k: Key)
    requires Moves(s, s', t) && Needed(s, k)
    requires s.threads[t].key != k || Refers(s'.threads[t].pc) || !Refers(s.threads[t].pc)
    ensures Needed(s', k)
  {
    var u :| u in s.threads && Refers(s.threads[u].pc) && s.threads[u].key == k;
    var w := if s.threads[t].key == k && Refers(s'.threads[t].pc) then t else u;
    assert w in s'.threads && Refers(s'.threads[w].pc) && s'.threads[w].key == k;
  }

  lemma EnterKeepsUsers(s: State, t: Tid, k: Key, k': Key)
    requires Inv(s) && Enabled(s, Enter(t, k)) && k' in s.mem.locks
    ensures Users(Next(s, Enter(t, k)), k') == Users(s, k')
  {
  }

  lemma EnterKeepsNeeded(s: State, t: Tid, k: Key, k': Key)
    requires Inv(s) && Enabled(s, Enter(t, k)) && k' in s.mem.locks
    ensures Needed(Next(s, Enter(t, k)), k')
  {
    var s' := Next(s, Enter(t, k));
    var u :| u in s.threads && Refers(s.threads[u].pc) && s.threads[u].key == k';
    assert u != t && s'.threads[u] == s.threads[u];
  }

  lemma EnterKeepsUse(s: State, t: Tid, k: Key)
    requires Inv(s) && Enabled(s, Enter(t, k))
    ensures CountInv(Next(s, Enter(t, k))) && NoGarbage(Next(s, Enter(t, k)))
  {
    var s' := Next(s, Enter(t, k));
    forall k' | k' in s.mem.locks ensures Users(s', k') == Users(s, k') && Needed(s', k') {
      EnterKeepsUsers(s, t, k, k');
      EnterKeepsNeeded(s, t, k, k');
    }
  }

  lemma EnterKeepsInv(s: State, t: Tid, k: Key)
    requires Inv(s) && Enabled(s, Enter(t, k))
    ensures Inv(Next(s, Enter(t, k)))
  {
    EnterKeepsUse(s, t, k);
    forall u | u in s.threads ensures ThreadInv(Next(s, Enter(t, k)), u) {
      assert ThreadInv(s, u);
    }
  }

  lemma LeaveKeepsUse(s: State, t: Tid)
    requires Inv(s) && Enabled(s, Leave(t))
    ensures CountInv(Next(s, Leave(t))) && NoGarbage(Next(s, Leave(t)))
  {
    var s' := Next(s, Leave(t));
    forall k | k in s'.mem.locks ensures Needed(s', k) && Users(s', k) == Users(s, k) {
      var u :| u in s.threads && Refers(s.threads[u].pc) && s.threads[u].key == k;
      assert Refers(s'.threads[u].pc) && s'.threads[u].key == k;
    }
  }

  lemma LeaveKeepsThread(s: State, t: Tid, u: Tid)
    requires Inv(s) && Enabled(s, Leave(t)) && u in s.threads
    ensures ThreadInv(Next(s, Leave(t)), u)
  {
    assert ThreadInv(s, u);
  }

  lemma LeaveKeepsInv(s: State, t: Tid)
    requires Inv(s) && Enabled(s, Leave(t))
    ensures Inv(Next(s, Leave(t)))
  {
    var s' := Next(s, Leave(t));
    LeaveKeepsUse(s, t);
    forall u | u in s.threads ensures ThreadInv(s', u) {
      LeaveKeepsThread(s, t, u);
    }
  }

  lemma StepKeepsCreateLock(s: State, t: Tid)
    requires CreateLockInv(s) && Enabled(s, Step(t))
    requires !s.threads[t].pc.MutexRelease? || Deref(s.mem, s.threads[t].found).owner.Some?
    ensures CreateLockInv(Next(s, Step(t)))
  {
  }

  lemma StepKeepsMap(s: State, t: Tid)
    requires MapInv(s) && Enabled(s, Step(t))
    ensures MapInv(Next(s, Step(t)))
  {
  }

  lemma StepKeepsOwners(s: State, t: Tid)
    requires Inv(s) && Enabled(s, Step(t))
    ensures OwnerInv(Next(s, Step(t)))
  {
    assert ThreadInv(s, t);
  }

  lemma NoUsersWithoutEntry(s: State, k: Key)
    requires Inv(s) && k !in s.mem.locks
    ensures Users(s, k) == {}
  {
    forall u | u in s.threads && s.threads[u].key == k ensures !Counted(s.threads[u].pc) {
      assert ThreadInv(s, u);
    }
  }

  /** The count stored in a mutex changes exactly as the standing of the moving thread does. */
  lemma EffectOnCount(mem: Shared, t: Tid, th: Thread, m: MutexId)
    requires m < |mem.mutexes|
    requires th.pc.LockWrite? ==> th.mine < |mem.mutexes| && th.seen == Deref(mem, th.mine).refCount
    requires th.pc.DropWrite? ==> th.found == th.mine < |mem.mutexes| && th.seen == Deref(mem, th.found).refCount
    requires th.pc.UnlockLoad? ==> th.key in mem.locks
    requires th.pc.MutexRelease? ==> Deref(mem, th.found).owner.Some?
    ensures m != th.mine ==> Deref(Effect(mem, t, th), m).refCount == Deref(mem, m).refCount
    ensures Deref(Effect(mem, t, th), th.mine).refCount + (if Counted(th.pc) then 1 else 0)
            == Deref(mem, th.mine).refCount + (if Counted(Local(mem, th).pc) then 1 else 0)
  {
  }

  lemma StepKeepsCount(s: State, t: Tid, k: Key)
    requires Inv(s) && Enabled(s, Step(t)) && k in s.mem.locks && k in Next(s, Step(t)).mem.locks
    ensures var s' := Next(s, Step(t)); Deref(s'.mem, s'.mem.locks[k]).refCount == |Users(s', k)|
  {
    var s' := Next(s, Step(t));
    assert ThreadInv(s, t);
    assert s'.mem.locks[k] == s.mem.locks[k];
    EffectOnCount(s.mem, t, s.threads[t], s.mem.locks[k]);
    UsersMove(s, s', t);
    assert Deref(s.mem, s.mem.locks[k]).refCount == |Users(s, k)|;
  }

  lemma StepKeepsFreshCount(s: State, t: Tid, k: Key)
    requires Inv(s) && Enabled(s, Step(t)) && k !in s.mem.locks && k in Next(s, Step(t)).mem.locks
    ensures var s' := Next(s, Step(t)); Deref(s'.mem, s'.mem.locks[k]).refCount == |Users(s', k)|
  {
    NoUsersWithoutEntry(s, k);
    UsersMove(s, Next(s, Step(t)), t);
  }

  lemma StepKeepsNoGarbage(s: State, t: Tid)
    requires Inv(s) && Enabled(s, Step(t))
    ensures NoGarbage(Next(s, Step(t)))
  {
    var s' := Next(s, Step(t));
    var k := s.threads[t].key;
    assert ThreadInv(s, t);
    forall k' | k' in s'.mem.locks ensures Needed(s', k') {
      if k' != k || Refers(s'.threads[t].pc) == Refers(s.threads[t].pc) {
        NeededMove(s, s', t, k');
      } else if Refers(s'.threads[t].pc) {
        assert t in s'.threads && Refers(s'.threads[t].pc) && s'.threads[t].key == k';
      } else {
        // only the test in UnlockOrder stops referring: the entry stays because others are counted
        assert |Users(s, k)| != 0;
        var u :| u in Users(s, k);
        assert s'.threads[u] == s.threads[u];
      }
    }
  }

  lemma LockingKeepsThread(s: State, t: Tid)
    requires Enabled(s, Step(t)) && MapInv(s) && ThreadInv(s, t) && Locking(s.threads[t].pc)
    ensures ThreadInv(Next(s, Step(t)), t)
  {
  }

  lemma UnlockingKeepsThread(s: State, t: Tid)
    requires Enabled(s, Step(t)) && MapInv(s) && ThreadInv(s, t) && !Locking(s.threads[t].pc)
    ensures ThreadInv(Next(s, Step(t)), t)
  {
  }

  lemma StepKeepsThread(s: State, t: Tid)
    requires Inv(s) && Enabled(s, Step(t))
    ensures ThreadInv(Next(s, Step(t)), t)
  {
    assert ThreadInv(s, t);
    if Locking(s.threads[t].pc) {
      LockingKeepsThread(s, t);
    } else {
      UnlockingKeepsThread(s, t);
    }
  }

  lemma StepKeepsOthers(s: State, t: Tid, u: Tid)
    requires Inv(s) && Enabled(s, Step(t)) && u in s.threads && u != t
    ensures ThreadInv(Next(s, Step(t)), u)
  {
    assert ThreadInv(s, t) && ThreadInv(s, u);
    if s.threads[t].pc.DropTest? && s.threads[u].key == s.threads[t].key && Refers(s.threads[u].pc) {
      assert u in Users(s, s.threads[t].key);
    }
  }

  lemma NextKeepsInv(s: State, a: Action)
    requires Inv(s) && Enabled(s, a)
    ensures Inv(Next(s, a))
  {
    match a
    case Enter(t, k) => EnterKeepsInv(s, t, k);
    case Leave(t) => LeaveKeepsInv(s, t);
    case Step(t) =>
      assert ThreadInv(s, t);
      StepKeepsCreateLock(s, t);
      StepKeepsMap(s, t);
      StepKeepsOwners(s, t);
      forall k | k in s.mem.locks && k in Next(s, Step(t)).mem.locks { StepKeepsCount(s, t, k); }
      forall k | k !in s.mem.locks && k in Next(s, Step(t)).mem.locks { StepKeepsFreshCount(s, t, k); }
      StepKeepsNoGarbage(s, t);
      StepKeepsThread(s, t);
      forall u | u in s.threads && u != t ensures ThreadInv(Next(s, Step(t)), u) {
        StepKeepsOthers(s, t, u);
      }
  }

  // ---- Whole runs ---------------------------------------------------------------------------------

  /** Every state of a run of the protocol, in order. */
  ghost predicate IsRun(run: seq<State>, acts: seq<Action>) {
    && |run| == |acts| + 1
    && Initial(run[0])
    && forall i :: 0 <= i < |acts| ==> Enabled(run[i], acts[i]) && run[i + 1] == Next(run[i], acts[i])
  }

  lemma {:induction false} RunKeepsInv(run: seq<State>, acts: seq<Action>, i: nat)
    requires IsRun(run, acts) && i < |run|
    ensures Inv(run[i])
  {
    if i == 0 {
      assert forall k :: Users(run[0], k) == {};
    } else {
      RunKeepsInv(run, acts, i - 1);
      NextKeepsInv(run[i - 1], acts[i - 1]);
    }
  }

  /** The trade number of the thread's last call of `LockOrder`. */
  function LastEntered(acts: seq<Action>, t: Tid): (k: Option<Key>) {
    if acts == [] then None
    else
      var a := acts[|acts| - 1];
      if a.Enter? && a.t == t then Some(a.key) else LastEntered(acts[..|acts| - 1], t)
  }

  /** A thread in the protocol works on the trade number it last asked for. */
  lemma {:induction false} KeyIsEntered(run: seq<State>, acts: seq<Action>, i: nat, t: Tid)
    requires IsRun(run, acts) && i < |run| && t in run[i].threads
    ensures LastEntered(acts[..i], t).Some? ==> run[i].threads[t].key == LastEntered(acts[..i], t).value
    ensures !run[i].threads[t].pc.Idle? ==> LastEntered(acts[..i], t).Some?
  {
    if i > 0 {
      assert acts[..i][..i - 1] == acts[..i - 1] && acts[..i][i - 1] == acts[i - 1];
      KeyIsEntered(run, acts, i - 1, t);
    }
  }

  /** At most one thread is between the return of LockOrder(k) and the unlock in UnlockOrder(k). */
  lemma MutualExclusion(run: seq<State>, acts: seq<Action>, i: nat, t: Tid, u: Tid)
    requires IsRun(run, acts) && i < |run| && t in run[i].threads && u in run[i].threads
    requires Holding(run[i].threads[t].pc) && Holding(run[i].threads[u].pc)
    requires LastEntered(acts[..i], t) == LastEntered(acts[..i], u)
    ensures t == u
  {
    KeyIsEntered(run, acts, i, t);
    KeyIsEntered(run, acts, i, u);
    RunKeepsInv(run, acts, i);
    assert ThreadInv(run[i], t) && ThreadInv(run[i], u);
  }

  /** While a thread is counted, the map holds under the trade number it asked for the very mutex it locked,
      `refCount` is the number of counted threads, and the mutex its unlock finds is the one it locked and still owns. */
  lemma LookupIsStable(run: seq<State>, acts: seq<Action>, i: nat, t: Tid)
    requires IsRun(run, acts) && i < |run| && t in run[i].threads && Counted(run[i].threads[t].pc)
    ensures LastEntered(acts[..i], t).Some?
    ensures var s := run[i]; var th := s.threads[t]; var k := LastEntered(acts[..i], t).value;
            && k in s.mem.locks && s.mem.locks[k] == th.mine < |s.mem.mutexes|
            && s.mem.mutexes[th.mine].refCount == |Users(s, k)|
            && (th.pc.MutexRelease? ==> th.found == th.mine && s.mem.mutexes[th.found].owner == Some(t))
  {
    KeyIsEntered(run, acts, i, t);
    RunKeepsInv(run, acts, i);
    assert ThreadInv(run[i], t);
  }

  /** No run unlocks a mutex that is not locked, and `UnlockOrder` never misses its entry. */
  lemma UnlockNeverFails(run: seq<State>, acts: seq<Action>, i: nat, t: Tid)
    requires IsRun(run, acts) && i < |run| && t in run[i].threads
    ensures !run[i].threads[t].pc.Crashed?
    ensures run[i].threads[t].pc.UnlockLoad? ==> Next(run[i], Step(t)).threads[t].pc.MutexRelease?
  {
    RunKeepsInv(run, acts, i);
    assert ThreadInv(run[i], t);
  }

  /** An entry of the map is always in use: when every thread is idle the map is empty. */
  lemma NoEntryOnceIdle(run: seq<State>, acts: seq<Action>, i: nat, k: Key)
    requires IsRun(run, acts) && i < |run|
    requires forall t <- run[i].threads :: run[i].threads[t].pc.Idle? || LastEntered(acts[..i], t) != Some(k)
    ensures k !in run[i].mem.locks
  {
    RunKeepsInv(run, acts, i);
    forall t | t in run[i].threads ensures run[i].threads[t].pc.Idle? || run[i].threads[t].key != k {
      KeyIsEntered(run, acts, i, t);
    }
    assert k in run[i].mem.locks ==> Needed(run[i], k);
  }

  /** No deadlock: a thread that is busy, and not merely working inside its section, implies a thread
      that can take a step of the protocol or is inside a section. */
  lemma DeadlockFree(run: seq<State>, acts: seq<Action>, i: nat, t: Tid)
    requires IsRun(run, acts) && i < |run| && t in run[i].threads && !run[i].threads[t].pc.Idle?
    ensures exists u :: u in run[i].threads && (run[i].threads[u].pc.Inside? || Enabled(run[i], Step(u)))
  {
    RunKeepsInv(run, acts, i);
    var s := run[i];
    assert ThreadInv(s, t);
    if s.mem.createLock.Some? {
      var u := s.mem.createLock.value;
      assert HoldsCreate(s.threads[u].pc);
      assert Enabled(s, Step(u));
    } else if s.threads[t].pc.MutexWait? && Deref(s.mem, s.threads[t].mine).owner.Some? {
      var u := Deref(s.mem, s.threads[t].mine).owner.value;
      assert s.threads[u].pc.Inside? || Enabled(s, Step(u));
    } else {
      assert s.threads[t].pc.Inside? || Enabled(s, Step(t));
    }
  }
}
