/** The per-namespace quota lock: a table of reference-counted locks that drops
    entries nobody uses, and the tasks that go through it.  Every critical
    section of `lock_namespace_quota` and of the lock itself is one step. */
module QuotaLock {

  datatype Namespace = Namespace(name: string)

  /** An admission in flight.  `Released` has unlocked but its guard has not let
      go of the lock's reference yet. */
  datatype Phase = Waiting | Holding | Released

  datatype Task = Task(ns: Namespace, lock: nat, phase: Phase)

  /** `table` is the lock table, `owner` says which task has taken each locked
      lock, `nextLock` is the identity of the next lock to be allocated. */
  datatype State = State(table: map<Namespace, nat>, tasks: map<nat, Task>, owner: map<nat, nat>, nextLock: nat)

  const INITIAL := State(map[], map[], map[], 0)

  datatype Action =
    | Acquire(task: nat, ns: Namespace)
    | Grant(task: nat)
    | Cancel(task: nat)
    | Release(task: nat)
    | Drop(task: nat)

  /** `Arc::strong_count`: the table's references and the tasks'. */
  function StrongCount(st: State, lock: nat): nat {
    |set ns | ns in st.table && st.table[ns] == lock| + |set t | t in st.tasks && st.tasks[t].lock == lock|
  }

  /** `retain`: the entries that survive a call for `ns`. */
  function Retained(st: State, ns: Namespace): map<Namespace, nat> {
    map n | n in st.table && (n == ns || StrongCount(st, st.table[n]) > 1) :: st.table[n]
  }

  predicate InPhase(st: State, t: nat, phase: Phase) {
    t in st.tasks && st.tasks[t].phase == phase
  }

  predicate Enabled(st: State, a: Action) {
    match a
    case Acquire(t, _) => t !in st.tasks
    case Grant(t) => InPhase(st, t, Waiting) && st.tasks[t].lock !in st.owner
    case Cancel(t) => InPhase(st, t, Waiting)
    case Release(t) => InPhase(st, t, Holding)
    case Drop(t) => InPhase(st, t, Released)
  }

  function Next(st: State, a: Action): State
    requires Enabled(st, a)
  {
    match a
    case Acquire(t, ns) =>
      var kept := Retained(st, ns);
      if ns in kept then
        st.(table := kept, tasks := st.tasks[t := Task(ns, kept[ns], Waiting)])
      else
        st.(table := kept[ns := st.nextLock], tasks := st.tasks[t := Task(ns, st.nextLock, Waiting)], nextLock := st.nextLock + 1)
    case Grant(t) =>
      st.(tasks := st.tasks[t := st.tasks[t].(phase := Holding)], owner := st.owner[st.tasks[t].lock := t])
    case Cancel(t) => st.(tasks := st.tasks - {t})
    case Release(t) =>
      st.(tasks := st.tasks[t := st.tasks[t].(phase := Released)], owner := st.owner - {st.tasks[t].lock})
    case Drop(t) => st.(tasks := st.tasks - {t})
  }

  // ----------------------------------------------------------- invariant

  /** Every live task's lock is the one its namespace has in the table. */
  ghost predicate Anchored(st: State) {
    forall t | t in st.tasks :: st.tasks[t].ns in st.table && st.table[st.tasks[t].ns] == st.tasks[t].lock
  }

  /** Namespaces do not share locks, and lock identities are not reused. */
  ghost predicate Separate(st: State) {
    && (forall m, n | m in st.table && n in st.table && st.table[m] == st.table[n] :: m == n)
    && (forall n | n in st.table :: st.table[n] < st.nextLock)
  }

  /** A lock is taken exactly while its owner holds it. */
  ghost predicate Exclusive(st: State) {
    && (forall t | InPhase(st, t, Holding) :: st.tasks[t].lock in st.owner && st.owner[st.tasks[t].lock] == t)
    && (forall l | l in st.owner :: InPhase(st, st.owner[l], Holding) && st.tasks[st.owner[l]].lock == l)
  }

  ghost predicate Inv(st: State) {
    Anchored(st) && Separate(st) && Exclusive(st)
  }

  ghost predicate Used(st: State, ns: Namespace) {
    exists t :: t in st.tasks && st.tasks[t].ns == ns
  }

  /** The reference count tells whether an entry is in use. */
  lemma CountTellsUse(st: State, ns: Namespace)
    requires Inv(st) && ns in st.table
    ensures StrongCount(st, st.table[ns]) > 1 <==> Used(st, ns)
  {
    var lock := st.table[ns];
    var entries := set n | n in st.table && st.table[n] == lock;
    var users := set t | t in st.tasks && st.tasks[t].lock == lock;
    assert entries == {ns};
    if t :| t in st.tasks && st.tasks[t].ns == ns {
      assert t in users;
    }
    if users != {} {
      var t :| t in users;
      assert st.tasks[t].ns == ns;
    }
  }

  /** What survives a call for `ns`: its own entry and every entry in use. */
  lemma RetainedInUse(st: State, ns: Namespace, n: Namespace)
    requires Inv(st)
    ensures n in Retained(st, ns) <==> n in st.table && (n == ns || Used(st, n))
  {
    if n in st.table {
      CountTellsUse(st, n);
    }
  }

  lemma AcquireAnchored(st: State, t: nat, ns: Namespace)
    requires Inv(st) && t !in st.tasks
    ensures Anchored(Next(st, Acquire(t, ns)))
  {
    var next := Next(st, Acquire(t, ns));
    forall u | u in next.tasks
      ensures next.tasks[u].ns in next.table && next.table[next.tasks[u].ns] == next.tasks[u].lock
    {
      if u != t {
        assert u in st.tasks;
        RetainedInUse(st, ns, st.tasks[u].ns);
      }
    }
  }

  /** A table that only lost entries, but for a possibly new lock at `ns`. */
  lemma SeparateKept(st: State, next: State, ns: Namespace)
    requires Separate(st) && st.nextLock <= next.nextLock && ns in next.table
    requires forall n | n in next.table && n != ns :: n in st.table && next.table[n] == st.table[n]
    requires (ns in st.table && next.table[ns] == st.table[ns]) || next.table[ns] == st.nextLock < next.nextLock
    ensures Separate(next)
  {
  }

  /** Tasks other than `t` are untouched and `t` does not hold before or after. */
  lemma ExclusiveKept(st: State, next: State, t: nat)
    requires Exclusive(st) && next.owner == st.owner
    requires !InPhase(st, t, Holding) && !InPhase(next, t, Holding)
    requires forall u | u != t :: (u in st.tasks <==> u in next.tasks) && (u in st.tasks ==> next.tasks[u] == st.tasks[u])
    ensures Exclusive(next)
  {
  }

  lemma AcquireKeeps(st: State, t: nat, ns: Namespace)
    requires Inv(st) && t !in st.tasks
    ensures Inv(Next(st, Acquire(t, ns)))
  {
    AcquireAnchored(st, t, ns);
    SeparateKept(st, Next(st, Acquire(t, ns)), ns);
    ExclusiveKept(st, Next(st, Acquire(t, ns)), t);
  }

  lemma GrantKeeps(st: State, t: nat)
    requires Inv(st) && Enabled(st, Grant(t))
    ensures Inv(Next(st, Grant(t)))
  {
    var next := Next(st, Grant(t));
    assert next.table == st.table && next.tasks.Keys == st.tasks.Keys;
    assert forall u | u in next.tasks :: next.tasks[u].ns == st.tasks[u].ns && next.tasks[u].lock == st.tasks[u].lock;
    assert Exclusive(next) by {
      assert forall u :: InPhase(next, u, Holding) <==> u == t || InPhase(st, u, Holding);
    }
  }

  lemma ReleaseKeeps(st: State, t: nat)
    requires Inv(st) && Enabled(st, Release(t))
    ensures Inv(Next(st, Release(t)))
  {
    var next := Next(st, Release(t));
    assert next.table == st.table && next.tasks.Keys == st.tasks.Keys;
    assert forall u | u in next.tasks :: next.tasks[u].ns == st.tasks[u].ns && next.tasks[u].lock == st.tasks[u].lock;
    assert Exclusive(next) by {
      assert forall u :: InPhase(next, u, Holding) <==> InPhase(st, u, Holding) && u != t;
    }
  }

  lemma LeaveKeeps(st: State, a: Action)
    requires Inv(st) && Enabled(st, a) && (a.Cancel? || a.Drop?)
    ensures Inv(Next(st, a))
  {
    ExclusiveKept(st, Next(st, a), a.task);
  }

  /** Every step keeps the invariant. */
  lemma StepKeeps(st: State, a: Action)
    requires Inv(st) && Enabled(st, a)
    ensures Inv(Next(st, a))
  {
    match a
    case Acquire(t, ns) => AcquireKeeps(st, t, ns);
    case Grant(t) => GrantKeeps(st, t);
    case Release(t) => ReleaseKeeps(st, t);
    case Cancel(_) => LeaveKeeps(st, a);
    case Drop(_) => LeaveKeeps(st, a);
  }

  // -------------------------------------------------- the intended mutex

  /** What the table is meant to be: one mutex per namespace, for ever.  Tasks
      have a namespace and a phase; there are no locks and no table. */
  datatype Claim = Claim(ns: Namespace, phase: Phase)
  type Ideal = map<nat, Claim>

  predicate Claims(s: Ideal, t: nat, phase: Phase) {
    t in s && s[t].phase == phase
  }

  ghost predicate Free(s: Ideal, ns: Namespace) {
    forall t | Claims(s, t, Holding) :: s[t].ns != ns
  }

  ghost predicate IdealEnabled(s: Ideal, a: Action) {
    match a
    case Acquire(t, _) => t !in s
    case Grant(t) => Claims(s, t, Waiting) && Free(s, s[t].ns)
    case Cancel(t) => Claims(s, t, Waiting)
    case Release(t) => Claims(s, t, Holding)
    case Drop(t) => Claims(s, t, Released)
  }

  function IdealNext(s: Ideal, a: Action): Ideal
    requires a.Acquire? || a.task in s
  {
    match a
    case Acquire(t, ns) => s[t := Claim(ns, Waiting)]
    case Grant(t) => s[t := s[t].(phase := Holding)]
    case Release(t) => s[t := s[t].(phase := Released)]
    case Cancel(t) => s - {t}
    case Drop(t) => s - {t}
  }

  function View(st: State): Ideal {
    map t | t in st.tasks :: Claim(st.tasks[t].ns, st.tasks[t].phase)
  }

  /** The lock of a namespace is free exactly when no guard of it is held. */
  lemma FreeIsUnlocked(st: State, t: nat)
    requires Inv(st) && t in st.tasks
    ensures st.tasks[t].lock !in st.owner <==> Free(View(st), st.tasks[t].ns)
  {
    if st.tasks[t].lock in st.owner {
      var u := st.owner[st.tasks[t].lock];
      assert Claims(View(st), u, Holding) && st.tasks[u].ns == st.tasks[t].ns;
    } else {
      forall u | Claims(View(st), u, Holding) ensures View(st)[u].ns != st.tasks[t].ns {
        assert InPhase(st, u, Holding);
      }
    }
  }

  lemma SameSteps(st: State, a: Action)
    requires Inv(st)
    ensures Enabled(st, a) <==> IdealEnabled(View(st), a)
  {
    if a.Grant? && a.task in st.tasks {
      FreeIsUnlocked(st, a.task);
    }
  }

  lemma ViewPut(st: State, next: State, t: nat, task: Task)
    requires next.tasks == st.tasks[t := task]
    ensures View(next) == View(st)[t := Claim(task.ns, task.phase)]
  {
  }

  lemma ViewRemove(st: State, next: State, t: nat)
    requires next.tasks == st.tasks - {t}
    ensures View(next) == View(st) - {t}
  {
  }

  /** Step by step the table behaves as one mutex per namespace: the same steps
      are possible and they lead to the same tasks. */
  lemma StepRefines(st: State, a: Action)
    requires Inv(st)
    ensures Enabled(st, a) <==> IdealEnabled(View(st), a)
    ensures Enabled(st, a) ==> (a.Acquire? || a.task in View(st)) && View(Next(st, a)) == IdealNext(View(st), a)
  {
    SameSteps(st, a);
    if Enabled(st, a) {
      var next := Next(st, a);
      match a
      case Cancel(t) => ViewRemove(st, next, t);
      case Drop(t) => ViewRemove(st, next, t);
      case Acquire(t, _) => ViewPut(st, next, t, next.tasks[t]);
      case Grant(t) => ViewPut(st, next, t, next.tasks[t]);
      case Release(t) => ViewPut(st, next, t, next.tasks[t]);
    }
  }

  // ------------------------------------------------------------ whole runs

  ghost predicate Legal(st: State, run: seq<Action>)
    decreases |run|
  {
    run == [] || (Enabled(st, run[0]) && Legal(Next(st, run[0]), run[1..]))
  }

  function End(st: State, run: seq<Action>): State
    requires Legal(st, run)
    decreases |run|
  {
    if run == [] then st else End(Next(st, run[0]), run[1..])
  }

  ghost predicate IdealLegal(s: Ideal, run: seq<Action>)
    decreases |run|
  {
    run == [] || (IdealEnabled(s, run[0]) && IdealLegal(IdealNext(s, run[0]), run[1..]))
  }

  ghost function IdealEnd(s: Ideal, run: seq<Action>): Ideal
    requires IdealLegal(s, run)
    decreases |run|
  {
    if run == [] then s else IdealEnd(IdealNext(s, run[0]), run[1..])
  }

  lemma {:induction false} RunRefines(st: State, run: seq<Action>)
    requires Inv(st)
    ensures Legal(st, run) <==> IdealLegal(View(st), run)
    ensures Legal(st, run) ==> Inv(End(st, run)) && View(End(st, run)) == IdealEnd(View(st), run)
    decreases |run|
  {
    if run != [] {
      StepRefines(st, run[0]);
      if Enabled(st, run[0]) {
        StepKeeps(st, run[0]);
        RunRefines(Next(st, run[0]), run[1..]);
      }
    }
  }

  /** In every interleaving, dropping unused entries included: the table admits
      exactly the runs of one permanent mutex per namespace, at most one guard
      per namespace is held, and all live tasks of a namespace use one lock. */
  lemma {:induction false} QuotaLockCorrect(run: seq<Action>)
    ensures Legal(INITIAL, run) <==> IdealLegal(map[], run)
    ensures Legal(INITIAL, run) ==>
              var st := End(INITIAL, run);
              && View(st) == IdealEnd(map[], run)
              && (forall t, u | InPhase(st, t, Holding) && InPhase(st, u, Holding) && st.tasks[t].ns == st.tasks[u].ns :: t == u)
              && (forall t, u | t in st.tasks && u in st.tasks && st.tasks[t].ns == st.tasks[u].ns ::
                    st.tasks[t].lock == st.tasks[u].lock)
  {
    assert View(INITIAL) == map[];
    RunRefines(INITIAL, run);
  }

  /** Right after an acquire the table has exactly the namespaces with an
      admission in flight. */
  lemma {:induction false} AcquireCollects(run: seq<Action>, t: nat, ns: Namespace)
    requires Legal(INITIAL, run) && Enabled(End(INITIAL, run), Acquire(t, ns))
    ensures var st := Next(End(INITIAL, run), Acquire(t, ns));
            forall n :: n in st.table <==> Used(st, n)
  {
    RunRefines(INITIAL, run);
    var before := End(INITIAL, run);
    var st := Next(before, Acquire(t, ns));
    forall n ensures n in st.table <==> Used(st, n) {
      RetainedInUse(before, ns, n);
      assert st.tasks[t].ns == ns;
      if Used(before, n) {
        var u :| u in before.tasks && before.tasks[u].ns == n;
        assert u in st.tasks && st.tasks[u].ns == n;
        assert n in before.table;
      }
    }
  }
}
