/** What the state file holds compared with memory, which reported expiries survive a restart,
    and when exactly the pool is exhausted. */
module LeaseProperties {
  import opened Wrappers
  import opened LeaseStore
  import opened LeaseRuns
  import opened LeaseLaws

  // ---------- Disk and memory ----------

  /** Loading the file now would give the unexpired leases that are in memory. */
  ghost predicate Synced(s: State, now: int) {
    Reap(s.disk, now) == Reap(s.leases, now)
  }

  lemma ReapTwice(leases: Leases, now: int, later: int)
    requires now <= later
    ensures Reap(Reap(leases, now), later) == Reap(leases, later)
  {
  }

  /** Then loading it at any later time does as well. */
  lemma SyncedLoad(s: State, now: int, later: int, vms: seq<VM>)
    requires Synced(s, now) && now <= later
    ensures Load(State(vms, map[], s.disk), later).leases == Reap(s.leases, later)
  {
    ReapTwice(s.disk, now, later);
    ReapTwice(s.leases, now, later);
    assert map[] + Reap(s.disk, later) == Reap(s.disk, later);
  }

  /** The calls after which the file can be behind memory: a write that failed after a lease
      was extended or removed, and a CreateOrRecover that dropped the client's lease and then
      granted none. */
  ghost predicate Lossy(s: State, at: int, e: Event, o: Outcome) {
    match e
    case HeartbeatEvent(_, _, _) => o == Rejected(PersistFailed)
    case ReleaseEvent(_, _, _) => o == Rejected(PersistFailed)
    case AdminReleaseEvent(_, _) => o == Rejected(PersistFailed)
    case CreateEvent(owner, deviceId, _, _, _) => HasClient(Reap(s.leases, at), owner, deviceId) && o.Rejected?
    case _ => false
  }

  lemma GrantKeepsFile(s: State, ttl: int, at: int, e: Event)
    requires e.CreateEvent? || e.AssignEvent?
    ensures var (s', o) := Apply(s, ttl, at, e);
            (s'.disk == s.disk || s'.disk == s'.leases) && (o.Granted? || o.Rejected?)
  {
    hide Reap, HasClient, FirstFree, UsableVM, FindVM, Occupied, Available;
  }

  lemma FileKeptOrReplaced(s: State, ttl: int, at: int, e: Event)
    ensures var s' := Apply(s, ttl, at, e).0; s'.disk == s.disk || s'.disk == s'.leases
  {
    hide Reap, CreateOrRecover, AdminAssign, FindVM, Available;
    if e.CreateEvent? || e.AssignEvent? {
      GrantKeepsFile(s, ttl, at, e);
    }
  }

  /** A call that is not lossy and leaves the file alone only reaps (or restarts). */
  ghost predicate OnlyReaps(s: State, s': State, at: int) {
    s'.disk == s'.leases || Reap(s'.leases, at) == Reap(s.leases, at)
  }

  lemma InsertOnlyReaps(s: State, s1: State, l: Lease, vm: VM, ok: bool, at: int)
    requires s1 == s.(leases := Reap(s.leases, at)) && l.id !in s1.leases
    ensures OnlyReaps(s, Insert(s1, l, vm, ok).0, at)
  {
    ReapTwice(s.leases, at, at);
    assert s1.leases[l.id := l] - {l.id} == s1.leases;
  }

  /** A granted lease has just been persisted. */
  lemma InsertPersists(ok: bool)
    ensures forall s, l, vm {:trigger Insert(s, l, vm, ok)} ::
              var (s', o) := Insert(s, l, vm, ok); o.Rejected? || s'.disk == s'.leases
  {
  }

  lemma CreateOnlyReaps(s: State, ttl: int, at: int, e: Event)
    requires e.CreateEvent? && (e.newId.Some? ==> e.newId.value !in s.leases)
    ensures var (s', o) := CreateOrRecover(s, ttl, at, e.owner, e.deviceId, e.deviceName, e.newId, e.ok);
            (HasClient(Reap(s.leases, at), e.owner, e.deviceId) && o.Rejected?) || OnlyReaps(s, s', at)
  {
    hide Insert, HasClient, UsableVM;
    ReapTwice(s.leases, at, at);
    var s1 := s.(leases := Reap(s.leases, at));
    var vm := FirstFree(s1.vms, s1.leases);
    if vm.Some? && e.newId.Some? {
      var l := NewLease(e.owner, e.deviceId, e.deviceName, at, ttl).(id := e.newId.value, vmId := vm.value.id);
      InsertOnlyReaps(s, s1, l, vm.value, e.ok, at);
    }
    InsertPersists(e.ok);
  }

  lemma AssignOnlyReaps(s: State, ttl: int, at: int, e: Event)
    requires e.AssignEvent? && (e.newId.Some? ==> e.newId.value !in s.leases)
    ensures var (s', o) := AdminAssign(s, ttl, at, e.vmId, e.owner, e.deviceId, e.deviceName, e.newId, e.ok, e.vmFirst);
            OnlyReaps(s, s', at)
  {
    hide Insert, HasClient, Occupied;
    ReapTwice(s.leases, at, at);
    var vm := FindVM(s.vms, e.vmId);
    if vm.Some? && e.newId.Some? {
      var l := NewLease(e.owner, e.deviceId, e.deviceName, at, ttl).(id := e.newId.value, vmId := vm.value.id);
      InsertOnlyReaps(s, s.(leases := Reap(s.leases, at)), l, vm.value, e.ok, at);
    }
  }

  lemma OthersOnlyReap(s: State, ttl: int, at: int, e: Event)
    requires !e.CreateEvent? && !e.AssignEvent? && !e.RestartEvent?
    ensures var (s', o) := Apply(s, ttl, at, e); Lossy(s, at, e, o) || OnlyReaps(s, s', at)
  {
    hide Reap, FindVM, Available, CreateOrRecover, AdminAssign, Load;
    ReapTwice(s.leases, at, at);
  }

  lemma LossyOnly(s: State, ttl: int, at: int, e: Event)
    requires NewId(e).Some? ==> NewId(e).value !in s.leases
    requires Reap(s.disk, at) == Reap(s.leases, at)
    ensures var (s', o) := Apply(s, ttl, at, e); Lossy(s, at, e, o) || OnlyReaps(s, s', at)
  {
    if e.CreateEvent? {
      CreateOnlyReaps(s, ttl, at, e);
    } else if e.AssignEvent? {
      AssignOnlyReaps(s, ttl, at, e);
    } else if e.RestartEvent? {
      SyncedLoad(s, at, at, e.vms);
      ReapTwice(s.leases, at, at);
    } else {
      OthersOnlyReap(s, ttl, at, e);
    }
  }

  /** Every call either replaces the file by what is in memory or leaves it; it leaves it behind
      memory exactly when it changed an unexpired lease. */
  lemma SyncedStep(s: State, ttl: int, now: int, at: int, e: Event)
    requires Exclusive(s.leases) && now <= at && Synced(s, now)
    requires NewId(e).Some? ==> NewId(e).value !in s.leases
    ensures var (s', o) := Apply(s, ttl, at, e);
            (s'.disk == s.disk || s'.disk == s'.leases)
            && (Synced(s', at) <==> s'.disk == s'.leases || Reap(s'.leases, at) == Reap(s.leases, at))
            && (!Lossy(s, at, e, o) ==> Synced(s', at))
  {
    ReapTwice(s.disk, now, at);
    ReapTwice(s.leases, now, at);
    FileKeptOrReplaced(s, ttl, at, e);
    LossyOnly(s, ttl, at, e);
  }

  /** A call that returns a lease to use, or ends one, without an error has brought the file up to
      date, whatever it held before. */
  lemma PersistRestores(s: State, ttl: int, at: int, e: Event)
    requires Exclusive(s.leases) && (NewId(e).Some? ==> NewId(e).value !in s.leases)
    ensures var (s', o) := Apply(s, ttl, at, e);
            o.Granted? || o.Renewed? || (e.AdminReleaseEvent? && o == Done)
            || (e.ReleaseEvent? && e.id in s.leases && o == Done) ==>
              s'.disk == s'.leases && Synced(s', at)
  {
    if !e.RestartEvent? {
      EveryStepGood(s, ttl, at, e);
    }
    hide CreateOrRecover, AdminAssign;
  }

  /** No call of the run was lossy. */
  ghost predicate NoLoss(w: World, ttl: int, run: Run) {
    forall k :: 0 <= k < |run| ==>
      var s := After(w, ttl, run[..k]).s;
      !Lossy(s, run[k].1, run[k].0, Apply(s, ttl, run[k].1, run[k].0).1)
  }

  lemma NextSynced(w: World, ttl: int, e: Event, at: int)
    requires Inv(w, ttl) && Synced(w.s, w.now) && Allowed(w, e, at) && !Lossy(w.s, at, e, Apply(w.s, ttl, at, e).1)
    ensures var w' := Step(w, ttl, e, at); Synced(w'.s, w'.now)
  {
    hide Lossy, Apply, Synced, Latest, NoOverlap, PromisesKept, Observe, Promise, Revoked;
    SyncedStep(w.s, ttl, w.now, at, e);
  }

  lemma {:induction false} NoLossSynced(w: World, ttl: int, run: Run)
    requires Inv(w, ttl) && Synced(w.s, w.now) && AllowedRun(w, ttl, run) && NoLoss(w, ttl, run)
    ensures var w' := After(w, ttl, run); Synced(w'.s, w'.now)
  {
    hide Inv, Synced, Lossy, Apply, Allowed, Observe, Promise, Revoked;
    if run != [] {
      var n := |run| - 1;
      var front := run[..n];
      forall k | 0 <= k < n
        ensures var s := After(w, ttl, front[..k]).s; !Lossy(s, front[k].1, front[k].0, Apply(s, ttl, front[k].1, front[k].0).1)
      {
        assert front[..k] == run[..k];
      }
      NoLossSynced(w, ttl, front);
      RunKeepsInv(w, ttl, front);
      NextSynced(After(w, ttl, front), ttl, run[n].0, run[n].1);
    }
  }

  /** In every run: from a reachable state whose file has just been replaced (or a first start) on,
      as long as no call was lossy, a restart at any later time gives the unexpired leases of
      memory. */
  lemma RestartLosesNothing(w: World, ttl: int, run: Run, later: int, vms: seq<VM>)
    requires Reachable(w, ttl) && w.s.disk == w.s.leases && AllowedRun(w, ttl, run) && NoLoss(w, ttl, run)
    requires After(w, ttl, run).now <= later
    ensures var s := After(w, ttl, run).s;
            Load(State(vms, map[], s.disk), later).leases == Reap(s.leases, later)
  {
    assert Synced(w.s, w.now);
    hide Reachable, Inv, Synced, NoLoss, AllowedRun, After, Load, Reap;
    ReachableInv(w, ttl);
    NoLossSynced(w, ttl, run);
    SyncedLoad(After(w, ttl, run).s, After(w, ttl, run).now, later, vms);
  }

  // ---------- Reported expiries ----------

  /** The state file holds the lease with at least this expiry. */
  predicate Durable(s: State, l: Lease) {
    l.id in s.disk && s.disk[l.id].expiresAt >= l.expiresAt
  }

  /** Two histories that differ only in the promises go through the same states. */
  lemma {:induction false} PromisesDoNotMatter(w: World, v: World, ttl: int, run: Run)
    requires v == w.(promises := v.promises)
    ensures var w', v' := After(w, ttl, run), After(v, ttl, run); v' == w'.(promises := v'.promises)
    ensures AllowedRun(w, ttl, run) == AllowedRun(v, ttl, run)
  {
    hide Apply, Observe, Promise, Revoked;
    if run != [] {
      PromisesDoNotMatter(w, v, ttl, run[..|run| - 1]);
    }
  }

  lemma PromisesDoNotBreak(w: World, v: World, ttl: int, l: Lease, run: Run, l2: Lease)
    requires v == w.(promises := v.promises)
    ensures Breaks(w, ttl, l, run, l2) == Breaks(v, ttl, l, run, l2)
  {
    hide Apply, Revoked, AllowedRun, After;
    PromisesDoNotMatter(w, v, ttl, run);
    if run != [] {
      PromisesDoNotMatter(w, v, ttl, run[..|run| - 1]);
    }
    forall k | 0 <= k < |run| ensures After(w, ttl, run[..k]).s == After(v, ttl, run[..k]).s {
      PromisesDoNotMatter(w, v, ttl, run[..k]);
    }
  }

  lemma SameButPromises(w: World, v: World, ttl: int)
    requires Inv(w, ttl) && v == w.(promises := v.promises)
    ensures HistoryMatches(v, ttl) && Latest(v)
  {
  }

  lemma DurableUnbroken(w: World, ttl: int, l: Lease, run: Run, l2: Lease)
    requires Inv(w, ttl) && l.id in w.s.leases && w.s.leases[l.id] == l && l.expiresAt > w.now && Durable(w.s, l)
    ensures !Breaks(w, ttl, l, run, l2)
  {
    hide Breaks, Latest, NoOverlap, Exclusive;
    var v := w.(promises := map[l.id := l.expiresAt]);
    assert PromiseKept(v, l.id, l.expiresAt);
    assert HistoryMatches(v, ttl) && Latest(v) by { SameButPromises(w, v, ttl); }
    assert Promised(v, ttl, l.id, l.vmId, l.expiresAt);
    PromisesDoNotBreak(w, v, ttl, l, run, l2);
    PromisedUnbroken(v, ttl, l, run, l2);
  }

  lemma {:induction false} LongerThanAll(strings: set<string>) returns (s: string)
    ensures forall t :: t in strings ==> |t| < |s|
  {
    if strings == {} {
      s := "x";
    } else {
      var t :| t in strings;
      var rest := LongerThanAll(strings - {t});
      s := rest + t + "x";
    }
  }

  lemma NewOwner(leases: Leases) returns (owner: string)
    ensures forall id :: id in leases ==> |leases[id].owner| < |owner|
  {
    owner := LongerThanAll(set id | id in leases :: leases[id].owner);
  }

  lemma UnusedId(granted: History) returns (id: string)
    ensures id !in granted
  {
    id := LongerThanAll(granted.Keys);
  }

  /** When the file's lease under this id has run out, from now on. */
  function FileExpiry(s: State, now: int, id: string): (t: int)
    ensures now <= t && (id in s.disk ==> s.disk[id].expiresAt <= t)
  {
    if id in s.disk && s.disk[id].expiresAt > now then s.disk[id].expiresAt else now
  }

  lemma FileBehind(w: World, ttl: int, l: Lease)
    requires Inv(w, ttl) && l.id in w.s.leases && w.s.leases[l.id] == l && l.expiresAt > w.now && !Durable(w.s, l)
    ensures FileExpiry(w.s, w.now, l.id) < l.expiresAt && l.id in w.granted
  {
    hide Exclusive, Latest, NoOverlap, PromisesKept;
  }

  lemma FreeAfterRestart(w: World, ttl: int, l: Lease, vm: VM, t: int, owner: string)
    requires Inv(w, ttl) && l.id in w.s.leases && w.s.leases[l.id] == l && t >= w.now
    requires l.id in w.s.disk ==> w.s.disk[l.id].expiresAt <= t
    requires Available(vm) && vm.id == l.vmId
    requires forall id :: id in w.s.disk ==> |w.s.disk[id].owner| < |owner|
    ensures var live := Reap(Load(State([vm], map[], w.s.disk), w.now).leases, t);
            !HasClient(live, owner, "") && FirstFree([vm], live) == Some(vm)
  {
    hide NoOverlap, PromisesKept, HistoryMatches, Exclusive;
  }

  function TakenLease(owner: string, id: string, vm: VM, t: int, ttl: int): (l: Lease)
    ensures l.id == id && l.vmId == vm.id
  {
    NewLease(owner, "", "", t, ttl).(id := id, vmId := vm.id)
  }

  lemma AvailableHost(vm: VM)
    requires vm.enabled && vm.streamAddress == "host" && vm.streamPort == 47989
    ensures Available(vm)
  {
  }

  lemma RestartAllowed(w: World, vms: seq<VM>)
    ensures Allowed(w, RestartEvent(vms), w.now)
  {
  }

  lemma TakenAfterRestart(w: World, ttl: int, vm: VM, t: int, owner: string, id: string)
    requires var live := Reap(Load(State([vm], map[], w.s.disk), w.now).leases, t);
             !HasClient(live, owner, "") && FirstFree([vm], live) == Some(vm)
    ensures var s1 := Step(w, ttl, RestartEvent([vm]), w.now).s;
            var create := CreateEvent(owner, "", "", Some(id), true);
            Returned(s1, ttl, t, create) == Some(TakenLease(owner, id, vm, t, ttl))
            && Revoked(s1, t, create) == {}
    ensures Revoked(w.s, w.now, RestartEvent([vm])) == {}
  {
    hide Reap, HasClient, FirstFree;
  }

  lemma RestartGranted(w: World, ttl: int, vms: seq<VM>, at: int)
    requires Inv(w, ttl)
    ensures var w' := Step(w, ttl, RestartEvent(vms), at); w'.granted.Keys == w.granted.Keys && w'.now == at
  {
  }

  lemma CreateAllowed(w: World, owner: string, id: string, t: int)
    requires w.now <= t && id !in w.granted
    ensures Allowed(w, CreateEvent(owner, "", "", Some(id), true), t)
  {
  }

  lemma TwoStepsBreak(w: World, ttl: int, l: Lease, e1: Event, t1: int, e2: Event, t2: int, l2: Lease)
    requires Allowed(w, e1, t1) && Allowed(Step(w, ttl, e1, t1), e2, t2) && t2 < l.expiresAt
    requires Returned(Step(w, ttl, e1, t1).s, ttl, t2, e2) == Some(l2)
    requires l2.vmId == l.vmId && l2.id != l.id
    requires l.id !in Revoked(w.s, t1, e1) && l.id !in Revoked(Step(w, ttl, e1, t1).s, t2, e2)
    ensures Breaks(w, ttl, l, [(e1, t1), (e2, t2)], l2)
  {
    hide Allowed, Step, Returned, Revoked;
    var run: Run := [(e1, t1), (e2, t2)];
    assert run[..1] == [(e1, t1)] && run[..0] == [] && run[..1][..0] == [] && run[..|run| - 1] == run[..1];
    assert After(w, ttl, run[..0]) == w;
    assert After(w, ttl, run[..1]) == Step(After(w, ttl, run[..0]), ttl, e1, t1);
    assert AllowedRun(w, ttl, run[..0]);
    assert AllowedRun(w, ttl, run[..1]);
    assert AllowedRun(w, ttl, run);
    forall k | 0 <= k < 2 ensures l.id !in Revoked(After(w, ttl, run[..k]).s, run[k].1, run[k].0) {
      assert k == 0 || k == 1;
    }
  }

  /** When the file is behind, a restart and a new client take the VM before the reported
      expiry. */
  lemma NotDurableBroken(w: World, ttl: int, l: Lease) returns (run: Run, l2: Lease)
    requires Inv(w, ttl) && l.id in w.s.leases && w.s.leases[l.id] == l && l.expiresAt > w.now && !Durable(w.s, l)
    ensures Breaks(w, ttl, l, run, l2)
  {
    hide *;
    var vm := VM(l.vmId, "", "host", 47989, true);
    AvailableHost(vm);
    FileBehind(w, ttl, l);
    var t := FileExpiry(w.s, w.now, l.id);
    var owner := NewOwner(w.s.disk);
    var id := UnusedId(w.granted);
    var restart, create := RestartEvent([vm]), CreateEvent(owner, "", "", Some(id), true);
    run := [(restart, w.now), (create, t)];
    l2 := TakenLease(owner, id, vm, t, ttl);
    FreeAfterRestart(w, ttl, l, vm, t, owner);
    TakenAfterRestart(w, ttl, vm, t, owner, id);
    RestartGranted(w, ttl, [vm], w.now);
    CreateAllowed(Step(w, ttl, restart, w.now), owner, id, t);
    RestartAllowed(w, [vm]);
    TwoStepsBreak(w, ttl, l, restart, w.now, create, t, l2);
  }

  lemma MemoryExpiry(w: World, ttl: int, l: Lease)
    requires Inv(w, ttl) && l.id in w.s.leases && w.s.leases[l.id] == l && l.expiresAt > w.now
    ensures Durable(w.s, l) <==> !exists run, l2 :: Breaks(w, ttl, l, run, l2)
  {
    hide *;
    if Durable(w.s, l) {
      forall run, l2 ensures !Breaks(w, ttl, l, run, l2) {
        DurableUnbroken(w, ttl, l, run, l2);
      }
    } else {
      var run, l2 := NotDurableBroken(w, ttl, l);
    }
  }

  /** The lease is part of what a call reported without an error: LeaseVM, AdminLease or
      AdminSnapshot, which need not have written the file. */
  predicate Reports(o: Outcome, l: Lease) {
    match o
    case Reported(r, _) => r == l
    case Snapshot(_, leases) => l.id in leases && leases[l.id] == l
    case _ => false
  }

  lemma ReapedLease(leases: Leases, at: int, id: string)
    requires Exclusive(leases) && id in Reap(leases, at)
    ensures Reap(leases, at)[id].id == id && Reap(leases, at)[id].expiresAt > at
  {
  }

  /** A lease that is reported is in memory and has not expired. */
  lemma ReportedBy(s: State, ttl: int, at: int, e: Event, l: Lease)
    requires Exclusive(s.leases) && Reports(Apply(s, ttl, at, e).1, l)
    ensures var s' := Apply(s, ttl, at, e).0; l.id in s'.leases && s'.leases[l.id] == l && l.expiresAt > at
  {
    hide Reap, Exclusive, CreateOrRecover, AdminAssign, FindVM, Available, Load;
    if e.CreateEvent? || e.AssignEvent? {
      GrantKeepsFile(s, ttl, at, e);
    }
    var id := match e
              case LeaseVMEvent(id, _) => id
              case AdminLeaseEvent(id) => id
              case _ => l.id;
    if id in Reap(s.leases, at) {
      ReapedLease(s.leases, at, id);
    }
  }

  lemma ReportedLease(w: World, ttl: int, e: Event, at: int, l: Lease)
    requires Inv(w, ttl) && Reports(Apply(w.s, ttl, at, e).1, l)
    ensures var w' := Step(w, ttl, e, at);
            l.id in w'.s.leases && w'.s.leases[l.id] == l && l.expiresAt > w'.now
  {
    hide Apply, Exclusive, Reports, Latest, NoOverlap, PromisesKept, HistoryMatches, Observe, Promise, Revoked;
    ReportedBy(w.s, ttl, at, e, l);
  }

  /** A reported expiry is as safe as a granted one exactly when the state file already holds the
      lease with at least that expiry. */
  lemma ReportedExpiry(w: World, ttl: int, e: Event, at: int, l: Lease)
    requires Reachable(w, ttl) && Allowed(w, e, at) && Reports(Apply(w.s, ttl, at, e).1, l)
    ensures var w' := Step(w, ttl, e, at);
            Durable(w'.s, l) <==> !exists run, l2 :: Breaks(w', ttl, l, run, l2)
  {
    hide *;
    ReachableInv(w, ttl);
    StepKeepsInv(w, ttl, e, at);
    ReportedLease(w, ttl, e, at, l);
    MemoryExpiry(Step(w, ttl, e, at), ttl, l);
  }

  lemma TwoStepsReach(vms: seq<VM>, ttl: int, e1: Event, t1: int, e2: Event, t2: int)
    requires var w := Initial(vms, 0); Allowed(w, e1, t1) && Allowed(Step(w, ttl, e1, t1), e2, t2)
    ensures Reachable(Step(Step(Initial(vms, 0), ttl, e1, t1), ttl, e2, t2), ttl)
  {
    hide Step, Allowed, Initial;
    var run: Run := [(e1, t1), (e2, t2)];
    var w := Initial(vms, 0);
    assert run[..|run| - 1] == [(e1, t1)] && run[..1][..0] == [];
    assert After(w, ttl, run[..1][..0]) == w && AllowedRun(w, ttl, run[..1][..0]);
    assert After(w, ttl, run[..1]) == Step(w, ttl, e1, t1) && AllowedRun(w, ttl, run[..1]);
    assert AllowedRun(w, ttl, run);
    assert After(w, ttl, run) == Step(Step(w, ttl, e1, t1), ttl, e2, t2);
  }

  /** LeaseVM does report expiries that the file does not hold: a lease granted at 0 for 10,
      a heartbeat at 5 whose write fails, and a look at 6. */
  lemma ReportedNotDurable(vm: VM) returns (w: World)
    requires Available(vm)
    ensures Reachable(w, 10) && w.now == 5
    ensures var l := Lease("a", vm.id, "o", "d", "n", 0, 15);
            LeaseVM(w.s, 6, "a", "o") == (w.s, Reported(l, vm)) && !Durable(w.s, l)
  {
    var w0 := Initial([vm], 0);
    var create, heartbeat := CreateEvent("o", "d", "n", Some("a"), true), HeartbeatEvent("a", "o", false);
    var l := Lease("a", vm.id, "o", "d", "n", 0, 10);
    assert Reap(map[], 0) == map[];
    assert Apply(w0.s, 10, 0, create) == (State([vm], map["a" := l], map["a" := l]), Granted(l, vm));
    var w1 := Step(w0, 10, create, 0);
    assert Reap(map["a" := l], 5) == map["a" := l];
    w := Step(w1, 10, heartbeat, 5);
    assert w.s == State([vm], map["a" := l.(expiresAt := 15)], map["a" := l]);
    assert Reap(w.s.leases, 6) == w.s.leases;
    TwoStepsReach([vm], 10, create, 0, heartbeat, 5);
  }

  // ---------- When the pool is exhausted ----------

  predicate DistinctVMs(vms: seq<VM>) {
    forall i, j :: 0 <= i < j < |vms| ==> vms[i].id != vms[j].id
  }

  /** An unexpired lease of the client on an available VM. */
  predicate HoldsUsable(s: State, now: int, owner: string, deviceId: string, id: string) {
    id in s.leases && s.leases[id].expiresAt > now && IsClient(s.leases[id], owner, deviceId)
    && exists vm :: vm in s.vms && vm.id == s.leases[id].vmId && Available(vm)
  }

  predicate HeldAt(s: State, now: int, vm: VM) {
    exists id :: id in s.leases && s.leases[id].expiresAt > now && s.leases[id].vmId == vm.id
  }

  lemma UsableIs(vms: seq<VM>, id: string)
    requires DistinctVMs(vms)
    ensures UsableVM(vms, id).Some? <==> exists vm :: vm in vms && vm.id == id && Available(vm)
    ensures UsableVM(vms, id).Some? ==> UsableVM(vms, id).value in vms && UsableVM(vms, id).value.id == id
  {
    if exists vm :: vm in vms && vm.id == id && Available(vm) {
      var vm :| vm in vms && vm.id == id && Available(vm);
      assert FindVM(vms, id).Some?;
      assert FindVM(vms, id).value == vm;
    }
  }

  ghost predicate HasUsable(s: State, now: int, owner: string, deviceId: string) {
    exists id :: HoldsUsable(s, now, owner, deviceId, id)
  }

  /** VM k is the first in pool order that is available and not held by an unexpired lease. */
  predicate FirstUnheld(s: State, now: int, k: nat) {
    k < |s.vms| && Available(s.vms[k]) && !HeldAt(s, now, s.vms[k])
    && forall j :: 0 <= j < k ==> !Available(s.vms[j]) || HeldAt(s, now, s.vms[j])
  }

  lemma AllocateExact(s: State, now: int, leases: Leases, draft: Lease, newId: string, ok: bool)
    requires forall vm :: vm in s.vms ==> (IsFree(vm, leases) <==> Available(vm) && !HeldAt(s, now, vm))
    ensures var o := Allocate(s.(leases := leases), draft, Some(newId), ok).1;
            (o == Rejected(PoolExhausted) <==> forall vm :: vm in s.vms && Available(vm) ==> HeldAt(s, now, vm))
            && forall k: nat :: FirstUnheld(s, now, k) ==>
                 o == if ok then Granted(draft.(id := newId, vmId := s.vms[k].id), s.vms[k]) else Rejected(PersistFailed)
  {
    hide IsFree, HeldAt;
    var r := FirstFree(s.vms, leases);
    forall k: nat | FirstUnheld(s, now, k) ensures r == Some(s.vms[k]) {
      assert s.vms[k] in s.vms && IsFree(s.vms[k], leases);
    }
  }

  lemma RecoverExact(s: State, now: int, id: string, draft: Lease, newId: string, ok: bool)
    requires Exclusive(s.leases) && DistinctVMs(s.vms)
    requires HoldsUsable(s, now, draft.owner, draft.deviceId, id)
    ensures var live := s.(leases := Reap(s.leases, now));
            HasClient(live.leases, draft.owner, draft.deviceId)
            && ClientLease(live.leases, draft.owner, draft.deviceId) == id
            && UsableVM(s.vms, s.leases[id].vmId).Some?
  {
    UsableIs(s.vms, s.leases[id].vmId);
    ClientLeaseUnique(Reap(s.leases, now), draft.owner, draft.deviceId, id);
  }

  /** Dropping a lease on an unusable VM frees no available VM. */
  lemma FreeIs(s: State, now: int, leases: Leases, dropped: string)
    requires Exclusive(s.leases) && DistinctVMs(s.vms)
    requires leases == Reap(s.leases, now) || (dropped in Reap(s.leases, now) && leases == Reap(s.leases, now) - {dropped})
    ensures leases == Reap(s.leases, now) || UsableVM(s.vms, s.leases[dropped].vmId).None? ==>
              forall vm :: vm in s.vms ==> (IsFree(vm, leases) <==> Available(vm) && !HeldAt(s, now, vm))
  {
    if leases == Reap(s.leases, now) || UsableVM(s.vms, s.leases[dropped].vmId).None? {
      if leases != Reap(s.leases, now) {
        UsableIs(s.vms, s.leases[dropped].vmId);
      }
      hide UsableVM;
      forall vm | vm in s.vms ensures IsFree(vm, leases) <==> Available(vm) && !HeldAt(s, now, vm) {
        if Available(vm) && HeldAt(s, now, vm) {
          var id :| id in s.leases && s.leases[id].expiresAt > now && s.leases[id].vmId == vm.id;
          assert id in leases;
        }
      }
    }
  }

  lemma ClientRecovers(s: State, ttl: int, now: int, owner: string, deviceId: string, name: string, newId: string, ok: bool, id: string)
    requires Exclusive(s.leases) && DistinctVMs(s.vms) && HoldsUsable(s, now, owner, deviceId, id)
    ensures var o := CreateOrRecover(s, ttl, now, owner, deviceId, name, Some(newId), ok).1;
            if ok then
              o.Granted? && o.lease == s.leases[id].(expiresAt := now + ttl)
              && o.vm in s.vms && o.vm.id == s.leases[id].vmId && Serves(o.vm)
            else o == Rejected(PersistFailed)
    ensures forall other :: HoldsUsable(s, now, owner, deviceId, other) ==> other == id
  {
    hide Allocate, HoldsUsable, UsableVM, HasClient, Exclusive, DistinctVMs, Serves;
    AnswerServes(s, ttl, now, CreateEvent(owner, deviceId, name, Some(newId), ok));
    var draft := NewLease(owner, deviceId, name, now, ttl);
    RecoverExact(s, now, id, draft, newId, ok);
    forall other | HoldsUsable(s, now, owner, deviceId, other) ensures other == id {
      RecoverExact(s, now, other, draft, newId, ok);
    }
  }

  /** The leases that are left when nothing is recovered. */
  ghost function LeftOver(s: State, now: int, owner: string, deviceId: string): Leases {
    var live := Reap(s.leases, now);
    if HasClient(live, owner, deviceId) then live - {ClientLease(live, owner, deviceId)} else live
  }

  lemma NothingUsable(s: State, now: int, owner: string, deviceId: string)
    requires DistinctVMs(s.vms) && !HasUsable(s, now, owner, deviceId)
    requires HasClient(Reap(s.leases, now), owner, deviceId)
    ensures UsableVM(s.vms, s.leases[ClientLease(Reap(s.leases, now), owner, deviceId)].vmId).None?
  {
    hide UsableVM, DistinctVMs;
    var id := ClientLease(Reap(s.leases, now), owner, deviceId);
    UsableIs(s.vms, s.leases[id].vmId);
    assert !HoldsUsable(s, now, owner, deviceId, id);
  }

  lemma ClientAllocates(s: State, ttl: int, now: int, owner: string, deviceId: string, name: string, newId: string, ok: bool)
    requires Exclusive(s.leases) && DistinctVMs(s.vms) && !HasUsable(s, now, owner, deviceId)
    ensures CreateOrRecover(s, ttl, now, owner, deviceId, name, Some(newId), ok)
         == Allocate(s.(leases := LeftOver(s, now, owner, deviceId)), NewLease(owner, deviceId, name, now, ttl), Some(newId), ok)
    ensures forall vm :: vm in s.vms ==> (IsFree(vm, LeftOver(s, now, owner, deviceId)) <==> Available(vm) && !HeldAt(s, now, vm))
  {
    hide Allocate, IsFree, HeldAt, Available, HasUsable, UsableVM, DistinctVMs, HasClient;
    var live := Reap(s.leases, now);
    if HasClient(live, owner, deviceId) {
      var id := ClientLease(live, owner, deviceId);
      NothingUsable(s, now, owner, deviceId);
      DroppedLease(live, id, live[id].(expiresAt := now + ttl));
      FreeIs(s, now, live - {id}, id);
    } else {
      FreeIs(s, now, live, "");
    }
  }

  /** CreateOrRecover, whatever the order in which the map gives the leases: the client's own
      usable lease is recovered; otherwise the first available VM in pool order that no
      unexpired lease holds is granted; otherwise, and only then, the pool is exhausted. */
  lemma AllocatorExact(s: State, ttl: int, now: int, owner: string, deviceId: string, name: string, newId: string, ok: bool)
    requires Exclusive(s.leases) && DistinctVMs(s.vms)
    ensures var o := CreateOrRecover(s, ttl, now, owner, deviceId, name, Some(newId), ok).1;
            var draft := NewLease(owner, deviceId, name, now, ttl);
            (forall id :: HoldsUsable(s, now, owner, deviceId, id) ==>
               if ok then
                 o.Granted? && o.lease == s.leases[id].(expiresAt := now + ttl)
                 && o.vm in s.vms && o.vm.id == s.leases[id].vmId && Serves(o.vm)
               else o == Rejected(PersistFailed))
            && (forall k: nat :: !HasUsable(s, now, owner, deviceId) && FirstUnheld(s, now, k) ==>
                  o == if ok then Granted(draft.(id := newId, vmId := s.vms[k].id), s.vms[k]) else Rejected(PersistFailed))
            && (o == Rejected(PoolExhausted) <==>
                  !HasUsable(s, now, owner, deviceId)
                  && forall vm :: vm in s.vms && Available(vm) ==> HeldAt(s, now, vm))
  {
    hide CreateOrRecover, Allocate, LeftOver, IsFree, HeldAt, FirstUnheld, HoldsUsable, Available, Exclusive, DistinctVMs;
    if HasUsable(s, now, owner, deviceId) {
      var id :| HoldsUsable(s, now, owner, deviceId, id);
      ClientRecovers(s, ttl, now, owner, deviceId, name, newId, ok, id);
    } else {
      ClientAllocates(s, ttl, now, owner, deviceId, name, newId, ok);
      AllocateExact(s, now, LeftOver(s, now, owner, deviceId), NewLease(owner, deviceId, name, now, ttl), newId, ok);
    }
  }
}
