/** Runs of the lease store: any interleaving of method calls, clock advances, failed writes of
    the state file, endpoint updates and restarts. The clock never goes back, also not across
    a restart, and random ids are new. */
module LeaseRuns {
  import opened Wrappers
  import opened LeaseStore

  datatype Event =
    | CreateEvent(owner: string, deviceId: string, deviceName: string, newId: Option<string>, ok: bool)
    | HeartbeatEvent(id: string, owner: string, ok: bool)
    | ReleaseEvent(id: string, owner: string, ok: bool)
    | LeaseVMEvent(id: string, owner: string)
    | SnapshotEvent(ok: bool)
    | AdminLeaseEvent(id: string)
    | AdminReleaseEvent(id: string, ok: bool)
    | AssignEvent(vmId: string, owner: string, deviceId: string, deviceName: string, newId: Option<string>, ok: bool, vmFirst: bool)
    | UpdateEvent(updates: map<string, VM>)
    | RestartEvent(vms: seq<VM>)

  ghost function Apply(s: State, ttl: int, at: int, e: Event): (State, Outcome) {
    match e
    case CreateEvent(owner, deviceId, deviceName, newId, ok) =>
      CreateOrRecover(s, ttl, at, owner, deviceId, deviceName, newId, ok)
    case HeartbeatEvent(id, owner, ok) => Heartbeat(s, ttl, at, id, owner, ok)
    case ReleaseEvent(id, owner, ok) => Release(s, id, owner, ok)
    case LeaseVMEvent(id, owner) => LeaseVM(s, at, id, owner)
    case SnapshotEvent(ok) => AdminSnapshot(s, at, ok)
    case AdminLeaseEvent(id) => AdminLease(s, at, id)
    case AdminReleaseEvent(id, ok) => AdminRelease(s, id, ok)
    case AssignEvent(vmId, owner, deviceId, deviceName, newId, ok, vmFirst) =>
      AdminAssign(s, ttl, at, vmId, owner, deviceId, deviceName, newId, ok, vmFirst)
    case UpdateEvent(updates) => (UpdateVMs(s, updates), Done)
    case RestartEvent(vms) => (Load(State(vms, map[], s.disk), at), Done)
  }

  /** The lease, if any, that the call ends on purpose: released, released by an admin, or
      dropped because its VM is missing or unavailable. */
  ghost function Revoked(s: State, at: int, e: Event): set<string> {
    match e
    case CreateEvent(owner, deviceId, _, _, _) =>
      var live := Reap(s.leases, at);
      if !HasClient(live, owner, deviceId) then {}
      else
        var id := ClientLease(live, owner, deviceId);
        if UsableVM(s.vms, live[id].vmId).Some? then {} else {id}
    case ReleaseEvent(id, owner, _) => if id in s.leases && s.leases[id].owner == owner then {id} else {}
    case AdminReleaseEvent(id, _) => {id}
    case _ => {}
  }

  // ---------- The history ----------

  /** The time a lease held its VM; the end is its expiry while it is in the store. */
  datatype Grant = Grant(vmId: string, owner: string, deviceId: string, from: int, until: int)

  type History = map<string, Grant>

  /** The history after the leases in the store have been looked at once more. */
  ghost function Observe(granted: History, leases: Leases, now: int): History {
    map id | id in granted.Keys + leases.Keys ::
      if id in leases then
        var l := leases[id];
        Grant(l.vmId, l.owner, l.deviceId, l.createdAt, l.expiresAt)
      else if granted[id].until > now then granted[id].(until := now)
      else granted[id]
  }

  /** The expiry that a call returned together with the lease, as long as the lease is not
      ended on purpose. */
  ghost function Promise(promises: map<string, int>, revoked: set<string>, o: Outcome): map<string, int> {
    var kept := promises - revoked;
    match o
    case Granted(l, _) => kept[l.id := l.expiresAt]
    case Renewed(l) => kept[l.id := l.expiresAt]
    case _ => kept
  }

  datatype World = World(s: State, now: int, granted: History, promises: map<string, int>)

  ghost function Step(w: World, ttl: int, e: Event, at: int): World {
    var (s, o) := Apply(w.s, ttl, at, e);
    World(s, at, Observe(w.granted, s.leases, at), Promise(w.promises, Revoked(w.s, at, e), o))
  }

  function NewId(e: Event): Option<string> {
    if e.CreateEvent? || e.AssignEvent? then e.newId else None
  }

  /** The clock does not go back, and a new id has never been used. */
  ghost predicate Allowed(w: World, e: Event, at: int) {
    at >= w.now
    && (NewId(e).Some? ==> NewId(e).value !in w.granted)
  }

  // ---------- The three kinds of step ----------

  predicate SameLease(l: Lease, k: Lease, at: int, ttl: int) {
    k == l.(expiresAt := k.expiresAt) && (k.expiresAt == l.expiresAt || k.expiresAt == at + ttl)
  }

  /** No lease is added; a lease that is kept is extended at most. */
  ghost predicate Shrinks(s: State, s': State, at: int, ttl: int) {
    (forall id :: id in s'.leases ==> id in s.leases && SameLease(s.leases[id], s'.leases[id], at, ttl))
    && (s'.disk == s.disk || s'.disk == s'.leases)
  }

  /** The lease l is added to unexpired leases of other VMs and clients. */
  ghost predicate Grants(s: State, s': State, at: int, ttl: int, l: Lease) {
    l.id in s'.leases && s'.leases[l.id] == l && l.createdAt == at && l.expiresAt == at + ttl
    && s'.disk == s'.leases
    && forall id :: id in s'.leases && id != l.id ==>
         id in s.leases && s'.leases[id] == s.leases[id]
         && s.leases[id].vmId != l.vmId && !IsClient(s.leases[id], l.owner, l.deviceId)
  }

  /** A lease that a call returned is in the store and in the state file with its expiry. */
  predicate Recorded(s: State, l: Lease) {
    l.id in s.leases && s.leases[l.id] == l && s.disk == s.leases
  }

  ghost predicate Retains(s: State, s': State, at: int, ttl: int, revoked: set<string>) {
    forall id :: id in s.leases && s.leases[id].expiresAt > at && id !in revoked ==>
      id in s'.leases && SameLease(s.leases[id], s'.leases[id], at, ttl)
  }

  /** What one call does, given what it returned and the leases it ended on purpose. */
  ghost predicate GoodStep(s: State, s': State, o: Outcome, ttl: int, at: int, revoked: set<string>, newId: Option<string>) {
    Retains(s, s', at, ttl, revoked)
    && (match o
        case Granted(l, _) => Recorded(s', l) && (Shrinks(s, s', at, ttl) || (Grants(s, s', at, ttl, l) && newId == Some(l.id)))
        case Renewed(l) => Recorded(s', l) && Shrinks(s, s', at, ttl)
        case _ => Shrinks(s, s', at, ttl))
  }

  /** s1 is s with some leases removed: none of the unexpired ones but those in `revoked`. */
  ghost predicate Reaped(s: State, s1: State, at: int, revoked: set<string>) {
    s1 == s.(leases := s1.leases)
    && (forall id :: id in s1.leases ==> id in s.leases && s1.leases[id] == s.leases[id])
    && (forall id :: id in s.leases && s.leases[id].expiresAt > at && id !in revoked ==> id in s1.leases)
  }

  lemma InsertSteps(s: State, s1: State, l: Lease, vm: VM, ok: bool, at: int, ttl: int, revoked: set<string>)
    requires Reaped(s, s1, at, revoked) && l.id !in s.leases
    requires !HasClient(s1.leases, l.owner, l.deviceId) && !Occupied(s1.leases, l.vmId)
    requires l.createdAt == at && l.expiresAt == at + ttl
    ensures var (s', o) := Insert(s1, l, vm, ok); GoodStep(s, s', o, ttl, at, revoked, Some(l.id))
  {
    assert s1.leases[l.id := l] - {l.id} == s1.leases;
  }

  lemma AllocateSteps(s: State, s1: State, draft: Lease, newId: Option<string>, ok: bool, at: int, ttl: int, revoked: set<string>)
    requires Reaped(s, s1, at, revoked) && !HasClient(s1.leases, draft.owner, draft.deviceId)
    requires newId.Some? ==> newId.value !in s.leases
    requires draft.createdAt == at && draft.expiresAt == at + ttl
    ensures var (s', o) := Allocate(s1, draft, newId, ok); GoodStep(s, s', o, ttl, at, revoked, newId)
  {
    hide Insert, HasClient;
    var vm := FirstFree(s1.vms, s1.leases);
    if vm.Some? && newId.Some? {
      InsertSteps(s, s1, draft.(id := newId.value, vmId := vm.value.id), vm.value, ok, at, ttl, revoked);
    }
  }

  /** A lease is extended and the store persisted, if that succeeds. */
  lemma ExtendSteps(s: State, ttl: int, at: int, id: string, vm: VM, ok: bool, newId: Option<string>)
    requires Exclusive(s.leases) && id in Reap(s.leases, at)
    ensures var l := s.leases[id].(expiresAt := at + ttl);
            var s' := Persist(s.(leases := Reap(s.leases, at)[id := l]), ok);
            GoodStep(s, s', if ok then Granted(l, vm) else Rejected(PersistFailed), ttl, at, {}, newId)
            && GoodStep(s, s', if ok then Renewed(l) else Rejected(PersistFailed), ttl, at, {}, newId)
  {
  }

  lemma OthersHaveNoClient(leases: Leases, at: int, id: string)
    requires Exclusive(leases) && id in Reap(leases, at)
    ensures leases[id].id == id && Exclusive(Reap(leases, at))
    ensures !HasClient(Reap(leases, at) - {id}, leases[id].owner, leases[id].deviceId)
  {
  }

  lemma RecoverSteps(s: State, ttl: int, at: int, id: string, draft: Lease, newId: Option<string>, ok: bool)
    requires Exclusive(s.leases) && id in Reap(s.leases, at)
    requires newId.Some? ==> newId.value !in s.leases
    requires draft.createdAt == at && draft.expiresAt == at + ttl && IsClient(s.leases[id], draft.owner, draft.deviceId)
    ensures var (s', o) := Recover(s.(leases := Reap(s.leases, at)), id, draft, newId, ok);
            GoodStep(s, s', o, ttl, at, if UsableVM(s.vms, s.leases[id].vmId).Some? then {} else {id}, newId)
  {
    hide Allocate, UsableVM, GoodStep, HasClient, Exclusive, Persist;
    var vm := UsableVM(s.vms, s.leases[id].vmId);
    if vm.Some? {
      ExtendSteps(s, ttl, at, id, vm.value, ok, newId);
    } else {
      OthersHaveNoClient(s.leases, at, id);
      DroppedLease(Reap(s.leases, at), id, s.leases[id].(expiresAt := at + ttl));
      AllocateSteps(s, s.(leases := Reap(s.leases, at) - {id}), draft, newId, ok, at, ttl, {id});
    }
  }

  lemma CreateSteps(s: State, ttl: int, at: int, e: Event)
    requires Exclusive(s.leases) && e.CreateEvent?
    requires e.newId.Some? ==> e.newId.value !in s.leases
    ensures var (s', o) := CreateOrRecover(s, ttl, at, e.owner, e.deviceId, e.deviceName, e.newId, e.ok);
            GoodStep(s, s', o, ttl, at, Revoked(s, at, e), e.newId)
  {
    hide Allocate, Recover, UsableVM, GoodStep, Exclusive, HasClient;
    var live := Reap(s.leases, at);
    var draft := NewLease(e.owner, e.deviceId, e.deviceName, at, ttl);
    if HasClient(live, e.owner, e.deviceId) {
      RecoverSteps(s, ttl, at, ClientLease(live, e.owner, e.deviceId), draft, e.newId, e.ok);
    } else {
      AllocateSteps(s, s.(leases := live), draft, e.newId, e.ok, at, ttl, {});
    }
  }

  /** A call that only reaps, or persists after that. */
  lemma ReapSteps(s: State, ttl: int, at: int, o: Outcome, newId: Option<string>)
    ensures var s' := s.(leases := Reap(s.leases, at));
            Reaped(s, s', at, {})
            && (!o.Granted? && !o.Renewed? ==>
                  GoodStep(s, s', o, ttl, at, {}, newId) && GoodStep(s, Persist(s', true), o, ttl, at, {}, newId))
  {
  }

  lemma UpdateSteps(s: State, ttl: int, at: int, updates: map<string, VM>)
    ensures GoodStep(s, UpdateVMs(s, updates), Done, ttl, at, {}, None)
  {
  }

  lemma AssignSteps(s: State, ttl: int, at: int, e: Event)
    requires Exclusive(s.leases) && e.AssignEvent?
    requires e.newId.Some? ==> e.newId.value !in s.leases
    ensures var (s', o) := AdminAssign(s, ttl, at, e.vmId, e.owner, e.deviceId, e.deviceName, e.newId, e.ok, e.vmFirst);
            GoodStep(s, s', o, ttl, at, {}, e.newId)
  {
    hide FindVM, Available, Insert, HasClient, Occupied, Reap, Reaped, GoodStep, Exclusive;
    var s1 := s.(leases := Reap(s.leases, at));
    var vm := FindVM(s.vms, e.vmId);
    ReapSteps(s, ttl, at, AdminAssign(s, ttl, at, e.vmId, e.owner, e.deviceId, e.deviceName, e.newId, e.ok, e.vmFirst).1, e.newId);
    if e.newId.Some? && vm.Some? && !HasClient(s1.leases, e.owner, e.deviceId) && !Occupied(s1.leases, e.vmId) {
      var l := NewLease(e.owner, e.deviceId, e.deviceName, at, ttl).(id := e.newId.value, vmId := e.vmId);
      InsertSteps(s, s1, l, vm.value, e.ok, at, ttl, {});
    }
  }

  lemma HeartbeatSteps(s: State, ttl: int, at: int, id: string, owner: string, ok: bool)
    requires Exclusive(s.leases)
    ensures var (s', o) := Heartbeat(s, ttl, at, id, owner, ok); GoodStep(s, s', o, ttl, at, {}, None)
  {
    if id in Reap(s.leases, at) {
      ExtendSteps(s, ttl, at, id, VM("", "", "", 0, false), ok, None);
    }
  }

  lemma ReleaseSteps(s: State, ttl: int, at: int, id: string, owner: string, ok: bool)
    ensures var (s', o) := Release(s, id, owner, ok);
            GoodStep(s, s', o, ttl, at, Revoked(s, at, ReleaseEvent(id, owner, ok)), None)
    ensures var (s', o) := AdminRelease(s, id, ok); GoodStep(s, s', o, ttl, at, {id}, None)
  {
  }

  lemma QuerySteps(s: State, ttl: int, at: int, id: string, owner: string, ok: bool)
    ensures var (s', o) := LeaseVM(s, at, id, owner); GoodStep(s, s', o, ttl, at, {}, None)
    ensures var (s', o) := AdminLease(s, at, id); GoodStep(s, s', o, ttl, at, {}, None)
    ensures var (s', o) := AdminSnapshot(s, at, ok); GoodStep(s, s', o, ttl, at, {}, None)
  {
    hide GoodStep, Reap, Reaped, FindVM, Persist;
    ReapSteps(s, ttl, at, LeaseVM(s, at, id, owner).1, None);
    ReapSteps(s, ttl, at, AdminLease(s, at, id).1, None);
    ReapSteps(s, ttl, at, AdminSnapshot(s, at, ok).1, None);
  }

  lemma EveryStepGood(s: State, ttl: int, at: int, e: Event)
    requires Exclusive(s.leases) && !e.RestartEvent?
    requires NewId(e).Some? ==> NewId(e).value !in s.leases
    ensures var (s', o) := Apply(s, ttl, at, e); GoodStep(s, s', o, ttl, at, Revoked(s, at, e), NewId(e))
  {
    hide GoodStep, CreateOrRecover, AdminAssign, Heartbeat, Release, AdminRelease, LeaseVM, AdminLease, AdminSnapshot, UpdateVMs;
    match e
    case CreateEvent(_, _, _, _, _) => CreateSteps(s, ttl, at, e);
    case AssignEvent(_, _, _, _, _, _, _) => AssignSteps(s, ttl, at, e);
    case HeartbeatEvent(id, owner, ok) => HeartbeatSteps(s, ttl, at, id, owner, ok);
    case ReleaseEvent(id, owner, ok) => ReleaseSteps(s, ttl, at, id, owner, ok);
    case AdminReleaseEvent(id, ok) => ReleaseSteps(s, ttl, at, id, "", ok);
    case LeaseVMEvent(id, owner) => QuerySteps(s, ttl, at, id, owner, true);
    case AdminLeaseEvent(id) => QuerySteps(s, ttl, at, id, "", true);
    case SnapshotEvent(ok) => QuerySteps(s, ttl, at, "", "", ok);
    case UpdateEvent(updates) => UpdateSteps(s, ttl, at, updates);
    case RestartEvent(_) =>
  }

  // ---------- The invariant of runs ----------

  predicate Describes(g: Grant, l: Lease) {
    g.vmId == l.vmId && g.owner == l.owner && g.deviceId == l.deviceId && g.from == l.createdAt
  }

  ghost predicate HistoryMatches(w: World, ttl: int) {
    (forall id :: id in w.s.leases ==>
       id in w.granted && Describes(w.granted[id], w.s.leases[id])
       && w.granted[id].until == w.s.leases[id].expiresAt <= w.now + ttl)
    && (forall id :: id in w.s.disk ==>
          id in w.granted && Describes(w.granted[id], w.s.disk[id]) && w.s.disk[id].expiresAt <= w.now + ttl)
    && (forall id :: id in w.granted && id !in w.s.leases ==> w.granted[id].until <= w.now)
    && (forall id :: id in w.granted ==> w.granted[id].from <= w.now)
  }

  /** A lease in the store or in the state file is the last one granted on its VM. */
  ghost predicate Latest(w: World) {
    (forall id, b ::
       id in w.granted && b in w.granted && id != b && w.granted[id].vmId == w.granted[b].vmId
       && (id in w.s.leases || id in w.s.disk)
       ==> w.granted[b].until <= w.granted[id].from)
    && (forall id, b :: id in w.s.disk && b in w.s.leases && w.s.disk[id].vmId == w.s.leases[b].vmId ==> id == b)
  }

  /** The times of two leases on one VM never overlap. */
  ghost predicate NoOverlap(granted: History) {
    forall a, b :: a in granted && b in granted && a != b && granted[a].vmId == granted[b].vmId ==>
      granted[a].until <= granted[b].from || granted[b].until <= granted[a].from
  }

  /** A promise that has not run out is kept by the store and by the state file. */
  ghost predicate PromiseKept(w: World, id: string, expiry: int) {
    id in w.granted
    && (expiry > w.now ==>
          id in w.s.leases && w.s.leases[id].expiresAt >= expiry
          && id in w.s.disk && w.s.disk[id].expiresAt >= expiry)
  }

  ghost predicate PromisesKept(w: World) {
    forall id :: id in w.promises ==> PromiseKept(w, id, w.promises[id])
  }

  ghost predicate Inv(w: World, ttl: int) {
    Exclusive(w.s.leases) && Exclusive(w.s.disk) && HistoryMatches(w, ttl) && Latest(w) && NoOverlap(w.granted)
    && PromisesKept(w)
  }

  /** Where the leases and the state file of the next state come from. */
  ghost predicate Sourced(w: World, s': State, ttl: int, at: int) {
    Exclusive(s'.leases) && Exclusive(s'.disk) && at >= w.now
    && (forall id :: id in s'.leases ==>
          s'.leases[id].expiresAt <= at + ttl
          && if id in w.granted then Describes(w.granted[id], s'.leases[id]) && (id in w.s.leases || id in w.s.disk)
             else s'.leases[id].createdAt == at)
    && (forall id :: id in s'.disk ==>
          (id in w.s.disk && s'.disk[id] == w.s.disk[id]) || (id in s'.leases && s'.disk[id] == s'.leases[id]))
    && (forall id, b :: id in s'.disk && b in s'.leases && s'.disk[id].vmId == s'.leases[b].vmId ==> id == b)
  }

  /** One lease in the history after a look at the store. */
  lemma ObserveAt(granted: History, leases: Leases, now: int, id: string)
    ensures var g' := Observe(granted, leases, now);
            (id in g' <==> id in granted || id in leases)
            && (id in leases ==> Describes(g'[id], leases[id]) && g'[id].until == leases[id].expiresAt)
            && (id in granted && id !in leases ==>
                  g'[id] == granted[id].(until := g'[id].until) && g'[id].until <= granted[id].until && g'[id].until <= now)
  {
  }

  lemma SourcedHistory(w: World, ttl: int, s': State, at: int, promises: map<string, int>)
    requires HistoryMatches(w, ttl) && Sourced(w, s', ttl, at)
    ensures HistoryMatches(World(s', at, Observe(w.granted, s'.leases, at), promises), ttl)
  {
    hide Observe, Exclusive;
    var g' := Observe(w.granted, s'.leases, at);
    forall id ensures
      (id in s'.leases ==> id in g' && Describes(g'[id], s'.leases[id]) && g'[id].until == s'.leases[id].expiresAt <= at + ttl)
      && (id in s'.disk ==> id in g' && Describes(g'[id], s'.disk[id]) && s'.disk[id].expiresAt <= at + ttl)
      && (id in g' && id !in s'.leases ==> g'[id].until <= at)
      && (id in g' ==> g'[id].from <= at)
    {
      ObserveAt(w.granted, s'.leases, at, id);
    }
  }

  /** No other lease is in the store on the VM of a lease that is stored. */
  lemma LaterIsAlone(w: World, ttl: int, s': State, at: int, id: string, b: string)
    requires HistoryMatches(w, ttl) && Latest(w) && Sourced(w, s', ttl, at)
    requires (id in w.granted || id in s'.leases) && (b in w.granted || b in s'.leases) && id != b
    requires id in s'.leases || id in s'.disk
    requires Observe(w.granted, s'.leases, at)[id].vmId == Observe(w.granted, s'.leases, at)[b].vmId
    ensures Observe(w.granted, s'.leases, at)[b].until <= Observe(w.granted, s'.leases, at)[id].from
  {
    hide Observe;
    ObserveAt(w.granted, s'.leases, at, id);
    ObserveAt(w.granted, s'.leases, at, b);
    if b in s'.leases {
      assert false;
    } else if id in w.granted {
      assert w.granted[b].until <= w.granted[id].from;
    }
  }

  lemma SourcedLatest(w: World, ttl: int, s': State, at: int, promises: map<string, int>)
    requires HistoryMatches(w, ttl) && Latest(w) && Sourced(w, s', ttl, at)
    ensures Latest(World(s', at, Observe(w.granted, s'.leases, at), promises))
  {
    hide Observe;
    var g, g' := w.granted, Observe(w.granted, s'.leases, at);
    forall id, b | id in g' && b in g' && id != b && g'[id].vmId == g'[b].vmId && (id in s'.leases || id in s'.disk)
      ensures g'[b].until <= g'[id].from
    {
      ObserveAt(g, s'.leases, at, id);
      ObserveAt(g, s'.leases, at, b);
      LaterIsAlone(w, ttl, s', at, id, b);
    }
  }

  lemma SourcedNoOverlap(w: World, ttl: int, s': State, at: int)
    requires HistoryMatches(w, ttl) && Latest(w) && NoOverlap(w.granted) && Sourced(w, s', ttl, at)
    ensures NoOverlap(Observe(w.granted, s'.leases, at))
  {
    hide Observe;
    var g, g' := w.granted, Observe(w.granted, s'.leases, at);
    forall a, b | a in g' && b in g' && a != b && g'[a].vmId == g'[b].vmId
      ensures g'[a].until <= g'[b].from || g'[b].until <= g'[a].from
    {
      ObserveAt(g, s'.leases, at, a);
      ObserveAt(g, s'.leases, at, b);
      if a in s'.leases {
        LaterIsAlone(w, ttl, s', at, a, b);
      } else if b in s'.leases {
        LaterIsAlone(w, ttl, s', at, b, a);
      } else {
        assert g[a].until <= g[b].from || g[b].until <= g[a].from;
      }
    }
  }

  lemma ShrinkSourced(w: World, ttl: int, s': State, at: int)
    requires Inv(w, ttl) && at >= w.now && Shrinks(w.s, s', at, ttl)
    ensures Sourced(w, s', ttl, at)
  {
    hide NoOverlap, PromisesKept;
  }

  lemma GrantExclusive(w: World, s': State, ttl: int, at: int, l: Lease)
    requires Exclusive(w.s.leases) && Grants(w.s, s', at, ttl, l)
    ensures Exclusive(s'.leases)
    ensures forall a, b :: a in s'.leases && b in s'.leases && s'.leases[a].vmId == s'.leases[b].vmId ==> a == b
  {
  }

  lemma GrantSourced(w: World, ttl: int, s': State, at: int, l: Lease)
    requires Inv(w, ttl) && at >= w.now && Grants(w.s, s', at, ttl, l) && l.id !in w.granted
    ensures Sourced(w, s', ttl, at)
  {
    hide NoOverlap, PromisesKept, Latest, Exclusive, IsClient;
    GrantExclusive(w, s', ttl, at, l);
  }

  lemma RestartSourced(w: World, ttl: int, vms: seq<VM>, at: int)
    requires Inv(w, ttl) && at >= w.now
    ensures Sourced(w, Load(State(vms, map[], w.s.disk), at), ttl, at)
  {
    hide NoOverlap, PromisesKept, Latest;
  }

  lemma PromiseStays(w: World, ttl: int, s': State, o: Outcome, at: int, revoked: set<string>, newId: Option<string>)
    requires Inv(w, ttl) && at >= w.now && GoodStep(w.s, s', o, ttl, at, revoked, newId)
    ensures PromisesKept(World(s', at, Observe(w.granted, s'.leases, at), Promise(w.promises, revoked, o)))
  {
    hide NoOverlap, Latest, Exclusive, Observe;
    var w' := World(s', at, Observe(w.granted, s'.leases, at), Promise(w.promises, revoked, o));
    forall id | id in w'.promises ensures PromiseKept(w', id, w'.promises[id]) {
      ObserveAt(w.granted, s'.leases, at, id);
      if id in w.promises && w'.promises[id] == w.promises[id] {
        assert PromiseKept(w, id, w.promises[id]);
      }
    }
  }

  lemma PromiseSurvivesRestart(w: World, ttl: int, vms: seq<VM>, at: int)
    requires Inv(w, ttl) && at >= w.now
    ensures PromisesKept(Step(w, ttl, RestartEvent(vms), at))
  {
    hide NoOverlap, Latest, Exclusive;
    var w' := Step(w, ttl, RestartEvent(vms), at);
    forall id | id in w'.promises ensures PromiseKept(w', id, w'.promises[id]) {
      assert PromiseKept(w, id, w.promises[id]);
    }
  }

  /** Every allowed step keeps the invariant. */
  lemma StepKeepsInv(w: World, ttl: int, e: Event, at: int)
    requires Inv(w, ttl) && Allowed(w, e, at)
    ensures Inv(Step(w, ttl, e, at), ttl)
  {
    var (s', o) := Apply(w.s, ttl, at, e);
    if e.RestartEvent? {
      RestartSourced(w, ttl, e.vms, at);
      PromiseSurvivesRestart(w, ttl, e.vms, at);
    } else {
      EveryStepGood(w.s, ttl, at, e);
      PromiseStays(w, ttl, s', o, at, Revoked(w.s, at, e), NewId(e));
      if Shrinks(w.s, s', at, ttl) {
        ShrinkSourced(w, ttl, s', at);
      } else {
        GrantSourced(w, ttl, s', at, o.lease);
      }
    }
    hide Apply, Observe, Promise, Revoked, HistoryMatches, Latest, NoOverlap, PromisesKept, Shrinks, Grants, GoodStep;
    var promises := Step(w, ttl, e, at).promises;
    SourcedHistory(w, ttl, s', at, promises);
    SourcedLatest(w, ttl, s', at, promises);
    SourcedNoOverlap(w, ttl, s', at);
  }

  // ---------- Whole runs ----------

  type Run = seq<(Event, int)>

  ghost function After(w: World, ttl: int, run: Run): World {
    if run == [] then w
    else
      var last := run[|run| - 1];
      Step(After(w, ttl, run[..|run| - 1]), ttl, last.0, last.1)
  }

  ghost predicate AllowedRun(w: World, ttl: int, run: Run) {
    run == []
    || (AllowedRun(w, ttl, run[..|run| - 1])
        && Allowed(After(w, ttl, run[..|run| - 1]), run[|run| - 1].0, run[|run| - 1].1))
  }

  /** A coordinator that starts for the first time. */
  ghost function Initial(vms: seq<VM>, now: int): World {
    World(State(vms, map[], map[]), now, map[], map[])
  }

  lemma {:induction false} RunKeepsInv(w: World, ttl: int, run: Run)
    requires Inv(w, ttl) && AllowedRun(w, ttl, run)
    ensures Inv(After(w, ttl, run), ttl)
  {
    hide Inv, Step, Allowed;
    if run != [] {
      RunKeepsInv(w, ttl, run[..|run| - 1]);
      StepKeepsInv(After(w, ttl, run[..|run| - 1]), ttl, run[|run| - 1].0, run[|run| - 1].1);
    }
  }

  lemma InitialInv(vms: seq<VM>, start: int, ttl: int)
    ensures Inv(Initial(vms, start), ttl)
  {
  }

  ghost predicate Reachable(w: World, ttl: int) {
    exists vms, start, run :: AllowedRun(Initial(vms, start), ttl, run) && w == After(Initial(vms, start), ttl, run)
  }

  lemma ReachableInv(w: World, ttl: int)
    requires Reachable(w, ttl)
    ensures Inv(w, ttl)
  {
    var vms, start, run :| AllowedRun(Initial(vms, start), ttl, run) && w == After(Initial(vms, start), ttl, run);
    hide AllowedRun, After, Inv, Initial;
    InitialInv(vms, start, ttl);
    RunKeepsInv(Initial(vms, start), ttl, run);
  }

  /** Exclusive allocation over every run, with any failed writes and restarts: one lease per
      VM and per client at any time, and the times of two leases ever granted on one VM do not
      overlap. */
  lemma ExclusiveAllocation(w: World, ttl: int)
    requires Reachable(w, ttl)
    ensures Exclusive(w.s.leases) && NoOverlap(w.granted)
  {
    hide Reachable;
    ReachableInv(w, ttl);
  }

  /** Some step of the run ended the lease on purpose. */
  ghost predicate RevokedIn(w: World, ttl: int, run: Run, id: string) {
    exists k :: 0 <= k < |run| && id in Revoked(After(w, ttl, run[..k]).s, run[k].1, run[k].0)
  }

  ghost predicate Promised(w: World, ttl: int, id: string, vmId: string, expiry: int) {
    id in w.promises && w.promises[id] >= expiry && expiry <= w.now + ttl
    && id in w.granted && w.granted[id].vmId == vmId
  }

  lemma SameVM(w: World, ttl: int, e: Event, at: int, id: string)
    requires Inv(w, ttl) && Allowed(w, e, at) && id in w.granted
    ensures var g := Step(w, ttl, e, at).granted; id in g && g[id].vmId == w.granted[id].vmId
  {
    var (s', o) := Apply(w.s, ttl, at, e);
    if e.RestartEvent? {
      RestartSourced(w, ttl, e.vms, at);
    } else {
      EveryStepGood(w.s, ttl, at, e);
      if Shrinks(w.s, s', at, ttl) {
        ShrinkSourced(w, ttl, s', at);
      } else {
        GrantSourced(w, ttl, s', at, o.lease);
      }
    }
    hide Apply, Revoked, Promise;
    ObserveAt(w.granted, s'.leases, at, id);
  }

  /** A returned lease always runs for the full time to live. */
  lemma RenewalExpiry(s: State, ttl: int, at: int, e: Event)
    ensures match Apply(s, ttl, at, e).1
            case Granted(l, _) => l.expiresAt == at + ttl
            case Renewed(l) => l.expiresAt == at + ttl
            case _ => true
  {
  }

  lemma StepKeepsPromise(w: World, ttl: int, e: Event, at: int, id: string, vmId: string, expiry: int)
    requires Inv(w, ttl) && Allowed(w, e, at) && Promised(w, ttl, id, vmId, expiry)
    requires id !in Revoked(w.s, at, e)
    ensures Promised(Step(w, ttl, e, at), ttl, id, vmId, expiry)
  {
    hide Inv, Apply, Observe, Revoked;
    SameVM(w, ttl, e, at, id);
    RenewalExpiry(w.s, ttl, at, e);
  }

  lemma {:induction false} RunKeepsPromise(w: World, ttl: int, run: Run, id: string, vmId: string, expiry: int)
    requires Inv(w, ttl) && AllowedRun(w, ttl, run) && Promised(w, ttl, id, vmId, expiry)
    requires !RevokedIn(w, ttl, run, id)
    ensures Promised(After(w, ttl, run), ttl, id, vmId, expiry)
  {
    hide Inv, Step, Allowed, Promised, Revoked;
    if run != [] {
      var n := |run| - 1;
      var front := run[..n];
      forall k | 0 <= k < n ensures id !in Revoked(After(w, ttl, front[..k]).s, front[k].1, front[k].0) {
        assert front[..k] == run[..k];
      }
      RunKeepsPromise(w, ttl, front, id, vmId, expiry);
      RunKeepsInv(w, ttl, front);
      StepKeepsPromise(After(w, ttl, front), ttl, run[n].0, run[n].1, id, vmId, expiry);
    }
  }

  /** The lease that CreateOrRecover, AdminAssign or Heartbeat returned after it was persisted. */
  ghost function Returned(s: State, ttl: int, at: int, e: Event): Option<Lease> {
    match Apply(s, ttl, at, e).1
    case Granted(l, _) => Some(l)
    case Renewed(l) => Some(l)
    case _ => None
  }

  lemma ReturnPromises(w: World, ttl: int, e: Event, at: int, l: Lease)
    requires Inv(w, ttl) && Allowed(w, e, at) && Returned(w.s, ttl, at, e) == Some(l)
    ensures var w' := Step(w, ttl, e, at);
            Promised(w', ttl, l.id, l.vmId, l.expiresAt) && Recorded(w'.s, l)
  {
    hide Revoked;
    RenewalExpiry(w.s, ttl, at, e);
    if !e.RestartEvent? {
      EveryStepGood(w.s, ttl, at, e);
    }
    var s' := Apply(w.s, ttl, at, e).0;
    ObserveAt(w.granted, s'.leases, at, l.id);
  }

  /** The last call of the run returns l2 on the VM of l before l expires, and nothing in the
      run ended l on purpose. */
  ghost predicate Breaks(w: World, ttl: int, l: Lease, run: Run, l2: Lease) {
    run != [] && AllowedRun(w, ttl, run)
    && run[|run| - 1].1 < l.expiresAt
    && Returned(After(w, ttl, run[..|run| - 1]).s, ttl, run[|run| - 1].1, run[|run| - 1].0) == Some(l2)
    && l2.vmId == l.vmId && l2.id != l.id
    && !RevokedIn(w, ttl, run, l.id)
  }

  lemma TwoOnOneVM(w: World, ttl: int, l: Lease, l2: Lease, at: int)
    requires Inv(w, ttl) && w.now == at < l.expiresAt
    requires Promised(w, ttl, l.id, l.vmId, l.expiresAt) && Recorded(w.s, l2)
    requires l2.vmId == l.vmId
    ensures l2.id == l.id
  {
    hide Latest, NoOverlap;
    assert PromiseKept(w, l.id, w.promises[l.id]);
    assert Describes(w.granted[l.id], w.s.leases[l.id]);
  }

  lemma PromisedUnbroken(w: World, ttl: int, l: Lease, run: Run, l2: Lease)
    requires Inv(w, ttl) && Promised(w, ttl, l.id, l.vmId, l.expiresAt)
    ensures !Breaks(w, ttl, l, run, l2)
  {
    if Breaks(w, ttl, l, run, l2) {
      var n := |run| - 1;
      RunKeepsPromise(w, ttl, run, l.id, l.vmId, l.expiresAt);
      RunKeepsInv(w, ttl, run);
      RunKeepsInv(w, ttl, run[..n]);
      ReturnPromises(After(w, ttl, run[..n]), ttl, run[n].0, run[n].1, l2);
      hide Apply, Step, AllowedRun, RevokedIn, Revoked, Observe, Latest, NoOverlap;
      TwoOnOneVM(After(w, ttl, run), ttl, l, l2, run[n].1);
    }
  }

  /** Crash-safe leases. In every reachable state, once CreateOrRecover, AdminAssign or Heartbeat
      has returned a lease with expiry e, its VM is not granted as another lease before e,
      whatever happens in between (calls, failed writes, restarts), unless the lease was
      released, released by an admin, or dropped because its VM was missing or unavailable.
      For the calls that only report leases see LeaseProperties.ReportedExpiry. */
  lemma CrashSafeLease(w: World, ttl: int, e: Event, at: int, l: Lease, run: Run, l2: Lease)
    requires Reachable(w, ttl) && Allowed(w, e, at) && Returned(w.s, ttl, at, e) == Some(l)
    ensures !Breaks(Step(w, ttl, e, at), ttl, l, run, l2)
  {
    hide Reachable, Breaks, Promised, Inv, Step, Allowed, Returned;
    ReachableInv(w, ttl);
    ReturnPromises(w, ttl, e, at, l);
    StepKeepsInv(w, ttl, e, at);
    PromisedUnbroken(Step(w, ttl, e, at), ttl, l, run, l2);
  }
}
