/** The VM lease store (coordinator/store.go): every mutex-protected method is one step on the
    VM list, the lease map and the state file. Times are integers; the clock value read by a
    method, the random id and whether the state file could be replaced are parameters. */
module LeaseStore {
  import opened Wrappers

  datatype VM = VM(id: string, displayName: string, streamAddress: string, streamPort: int, enabled: bool)

  predicate Available(vm: VM) {
    vm.enabled && vm.streamAddress != "" && 0 < vm.streamPort <= 65535
  }

  datatype Lease = Lease(
    id: string, vmId: string, owner: string, deviceId: string, deviceName: string,
    createdAt: int, expiresAt: int)

  datatype Error =
    | PoolExhausted | LeaseNotFound | LeaseForbidden | VMNotFound | VMUnavailable | VMOccupied
    | ClientHasLease | PersistFailed | NoRandom | LoadFailed

  datatype Outcome =
    | Granted(lease: Lease, vm: VM)
    | Renewed(renewed: Lease)
    | Reported(reported: Lease, on: VM)
    | Snapshot(vms: seq<VM>, leases: map<string, Lease>)
    | Done
    | Rejected(error: Error)

  type Leases = map<string, Lease>

  /** The store; `disk` is the content of the state file (empty when there is none). */
  datatype State = State(vms: seq<VM>, leases: Leases, disk: Leases)

  // ---------- What each method does to the state ----------

  function Reap(leases: Leases, now: int): Leases {
    map id | id in leases && leases[id].expiresAt > now :: leases[id]
  }

  predicate IsClient(l: Lease, owner: string, deviceId: string) {
    l.owner == owner && l.deviceId == deviceId
  }

  predicate HasClient(leases: Leases, owner: string, deviceId: string) {
    exists id :: id in leases && IsClient(leases[id], owner, deviceId)
  }

  ghost function ClientLease(leases: Leases, owner: string, deviceId: string): (id: string)
    requires HasClient(leases, owner, deviceId)
    ensures id in leases && IsClient(leases[id], owner, deviceId)
  {
    var id :| id in leases && IsClient(leases[id], owner, deviceId);
    id
  }

  /** The first VM of the list with this id. */
  function FindVM(vms: seq<VM>, id: string): (r: Option<VM>)
    ensures match r
            case Some(vm) => vm in vms && vm.id == id
            case None => forall vm :: vm in vms ==> vm.id != id
  {
    if vms == [] then None
    else if vms[0].id == id then Some(vms[0])
    else FindVM(vms[1..], id)
  }

  predicate Occupied(leases: Leases, vmId: string) {
    exists id :: id in leases && leases[id].vmId == vmId
  }

  predicate IsFree(vm: VM, leases: Leases) {
    Available(vm) && !Occupied(leases, vm.id)
  }

  /** The first free VM in pool order. */
  function FirstFree(vms: seq<VM>, leases: Leases): (r: Option<VM>)
    ensures match r
            case Some(vm) =>
              exists k :: 0 <= k < |vms| && vms[k] == vm && IsFree(vm, leases)
                          && forall j :: 0 <= j < k ==> !IsFree(vms[j], leases)
            case None => forall vm :: vm in vms ==> !IsFree(vm, leases)
  {
    if vms == [] then None
    else if IsFree(vms[0], leases) then Some(vms[0])
    else
      var r := FirstFree(vms[1..], leases);
      assert r.Some? ==> exists k :: 0 <= k < |vms[1..]| && vms[1..][k] == r.value && IsFree(r.value, leases)
                                     && forall j :: 0 <= j < k ==> !IsFree(vms[1..][j], leases);
      assert forall j :: 0 <= j < |vms[1..]| ==> vms[1..][j] == vms[j + 1];
      r
  }

  /** persistLocked: the state file is replaced, or left as it was. */
  function Persist(s: State, ok: bool): State {
    if ok then s.(disk := s.leases) else s
  }

  /** A new lease is stored and persisted, or taken back when that fails. */
  function Insert(s: State, l: Lease, vm: VM, ok: bool): (State, Outcome) {
    var s' := s.(leases := s.leases[l.id := l]);
    if ok then (Persist(s', true), Granted(l, vm))
    else (s'.(leases := s'.leases - {l.id}), Rejected(PersistFailed))
  }

  /** The part of CreateOrRecover after no lease was recovered. */
  function Allocate(s: State, lease: Lease, newId: Option<string>, ok: bool): (State, Outcome) {
    match FirstFree(s.vms, s.leases)
    case None => (s, Rejected(PoolExhausted))
    case Some(vm) =>
      if newId == None then (s, Rejected(NoRandom))
      else
        Insert(s, lease.(id := newId.value, vmId := vm.id), vm, ok)
  }

  function NewLease(owner: string, deviceId: string, deviceName: string, now: int, ttl: int): Lease {
    Lease("", "", owner, deviceId, deviceName, now, now + ttl)
  }

  /** The VM of a lease, when it is still in the list and available. */
  function UsableVM(vms: seq<VM>, id: string): Option<VM> {
    var vm := FindVM(vms, id);
    if vm.Some? && Available(vm.value) then vm else None
  }

  /** The part of CreateOrRecover that handles the lease the client already has. */
  function Recover(s: State, id: string, draft: Lease, newId: Option<string>, ok: bool): (State, Outcome)
    requires id in s.leases
  {
    var l := s.leases[id].(expiresAt := draft.expiresAt);
    match UsableVM(s.vms, l.vmId)
    case None => Allocate(s.(leases := s.leases[id := l] - {l.id}), draft, newId, ok)
    case Some(vm) => (Persist(s.(leases := s.leases[id := l]), ok), if ok then Granted(l, vm) else Rejected(PersistFailed))
  }

  ghost function CreateOrRecover(s: State, ttl: int, now: int, owner: string, deviceId: string, deviceName: string,
                                 newId: Option<string>, ok: bool): (State, Outcome) {
    var s := s.(leases := Reap(s.leases, now));
    var draft := NewLease(owner, deviceId, deviceName, now, ttl);
    if HasClient(s.leases, owner, deviceId) then Recover(s, ClientLease(s.leases, owner, deviceId), draft, newId, ok)
    else Allocate(s, draft, newId, ok)
  }

  function Heartbeat(s: State, ttl: int, now: int, id: string, owner: string, ok: bool): (State, Outcome) {
    var live := Reap(s.leases, now);
    var s := s.(leases := live);
    if id !in live then (s, Rejected(LeaseNotFound))
    else if live[id].owner != owner then (s, Rejected(LeaseForbidden))
    else
      var l := live[id].(expiresAt := now + ttl);
      (Persist(s.(leases := live[id := l]), ok), if ok then Renewed(l) else Rejected(PersistFailed))
  }

  function Release(s: State, id: string, owner: string, ok: bool): (State, Outcome) {
    if id !in s.leases then (s, Done)
    else if s.leases[id].owner != owner then (s, Rejected(LeaseForbidden))
    else (Persist(s.(leases := s.leases - {id}), ok), if ok then Done else Rejected(PersistFailed))
  }

  function LeaseVM(s: State, now: int, id: string, owner: string): (State, Outcome) {
    var live := Reap(s.leases, now);
    var s := s.(leases := live);
    if id !in live then (s, Rejected(LeaseNotFound))
    else if live[id].owner != owner then (s, Rejected(LeaseForbidden))
    else match FindVM(s.vms, live[id].vmId)
         case None => (s, Rejected(LeaseNotFound))
         case Some(vm) => (s, if Available(vm) then Reported(live[id], vm) else Rejected(LeaseNotFound))
  }

  function AdminSnapshot(s: State, now: int, ok: bool): (State, Outcome) {
    var live := Reap(s.leases, now);
    var s' := s.(leases := live);
    if |live| != |s.leases| && !ok then (s', Rejected(PersistFailed))
    else ((if |live| != |s.leases| then Persist(s', true) else s'), Snapshot(s.vms, live))
  }

  function AdminLease(s: State, now: int, id: string): (State, Outcome) {
    var live := Reap(s.leases, now);
    var s := s.(leases := live);
    if id !in live then (s, Rejected(LeaseNotFound))
    else match FindVM(s.vms, live[id].vmId)
         case None => (s, Rejected(VMNotFound))
         case Some(vm) => (s, Reported(live[id], vm))
  }

  function AdminRelease(s: State, id: string, ok: bool): (State, Outcome) {
    if id !in s.leases then (s, Rejected(LeaseNotFound))
    else (Persist(s.(leases := s.leases - {id}), ok), if ok then Done else Rejected(PersistFailed))
  }

  /** AdminAssign; when the VM is occupied and the client has a lease as well, the map decides
      which of the two errors is met first (`vmFirst`). */
  function AdminAssign(s: State, ttl: int, now: int, vmId: string, owner: string, deviceId: string, deviceName: string,
                       newId: Option<string>, ok: bool, vmFirst: bool): (State, Outcome) {
    var live := Reap(s.leases, now);
    var s := s.(leases := live);
    match FindVM(s.vms, vmId)
    case None => (s, Rejected(VMNotFound))
    case Some(vm) =>
      if !Available(vm) then (s, Rejected(VMUnavailable))
      else if Occupied(live, vmId) && (vmFirst || !HasClient(live, owner, deviceId)) then (s, Rejected(VMOccupied))
      else if HasClient(live, owner, deviceId) then (s, Rejected(ClientHasLease))
      else if newId == None then (s, Rejected(NoRandom))
      else
        Insert(s, NewLease(owner, deviceId, deviceName, now, ttl).(id := newId.value, vmId := vm.id), vm, ok)
  }

  function Updated(vm: VM, updates: map<string, VM>): VM {
    if vm.id in updates then updates[vm.id] else vm
  }

  function UpdateVMs(s: State, updates: map<string, VM>): State {
    s.(vms := seq(|s.vms|, i requires 0 <= i < |s.vms| => Updated(s.vms[i], updates)))
  }

  function Load(s: State, now: int): State {
    s.(leases := s.leases + Reap(s.disk, now))
  }

  // ---------- The invariant ----------

  /** Each lease is stored under its own id; no two leases share a VM or a client. */
  ghost predicate Exclusive(leases: Leases) {
    (forall id :: id in leases ==> leases[id].id == id)
    && forall a, b :: a in leases && b in leases && a != b ==>
         leases[a].vmId != leases[b].vmId && !IsClient(leases[a], leases[b].owner, leases[b].deviceId)
  }

  lemma ClientLeaseUnique(leases: Leases, owner: string, deviceId: string, id: string)
    requires Exclusive(leases) && id in leases && IsClient(leases[id], owner, deviceId)
    ensures ClientLease(leases, owner, deviceId) == id
  {
  }

  /** A dropped lease leaves nothing behind under its id. */
  lemma DroppedLease(leases: Leases, id: string, l: Lease)
    requires Exclusive(leases) && id in leases && l.id == leases[id].id
    ensures leases[id := l] - {l.id} == leases - {id}
  {
  }

  /** What the loop over the file has loaded once it has seen some of the ids. */
  function Loaded(leases: Leases, disk: Leases, seen: set<string>, now: int): Leases {
    leases + map id | id in disk && id in seen && disk[id].expiresAt > now :: disk[id]
  }

  lemma LoadedOne(leases: Leases, disk: Leases, seen: set<string>, id: string, now: int)
    requires id in disk
    ensures Loaded(leases, disk, seen + {id}, now)
         == if disk[id].expiresAt > now then Loaded(leases, disk, seen, now)[id := disk[id]] else Loaded(leases, disk, seen, now)
  {
  }

  lemma LoadedAll(leases: Leases, disk: Leases, now: int)
    ensures Loaded(leases, disk, {}, now) == leases
    ensures Loaded(leases, disk, disk.Keys, now) == leases + Reap(disk, now)
  {
    assert (map id | id in disk && id in disk.Keys && disk[id].expiresAt > now :: disk[id]) == Reap(disk, now);
  }

  // ---------- The class ----------

  class Store {
    var vms: seq<VM>
    var leases: Leases
    var disk: Leases
    const ttl: int

    ghost function Abs(): State
      reads this
    {
      State(vms, leases, disk)
    }

    constructor (vms: seq<VM>, ttl: int, disk: Leases)
      ensures Abs() == State(vms, map[], disk) && this.ttl == ttl
    {
      this.vms := vms;
      this.leases := map[];
      this.ttl := ttl;
      this.disk := disk;
    }

    method LoadFile(now: int, readable: bool) returns (o: Outcome)
      modifies this`leases
      ensures if readable then Abs() == Load(old(Abs()), now) && o == Done
              else Abs() == old(Abs()) && o == Rejected(LoadFailed)
    {
      if !readable {
        return Rejected(LoadFailed);
      }
      hide Loaded, Reap;
      var rest := disk.Keys;
      ghost var seen: set<string> := {};
      LoadedAll(leases, disk, now);
      while rest != {}
        invariant seen <= disk.Keys && rest == disk.Keys - seen
        invariant leases == Loaded(old(leases), disk, seen, now)
        decreases rest
      {
        var id :| id in rest;
        LoadedOne(old(leases), disk, seen, id, now);
        if disk[id].expiresAt > now {
          leases := leases[id := disk[id]];
        }
        rest := rest - {id};
        seen := seen + {id};
      }
      assert seen == disk.Keys;
      return Done;
    }

    method ReapLocked(now: int)
      modifies this`leases
      ensures leases == Reap(old(leases), now)
    {
      var rest := leases.Keys;
      while rest != {}
        invariant rest <= old(leases).Keys
        invariant leases == map id | id in old(leases) && (id in rest || old(leases)[id].expiresAt > now) :: old(leases)[id]
        decreases rest
      {
        var id :| id in rest;
        if leases[id].expiresAt <= now {
          leases := leases - {id};
        }
        rest := rest - {id};
      }
    }

    method VmById(id: string) returns (r: Option<VM>)
      ensures r == FindVM(vms, id)
    {
      assert vms[0..] == vms;
      for i := 0 to |vms|
        invariant FindVM(vms[i..], id) == FindVM(vms, id)
      {
        if vms[i].id == id {
          return Some(vms[i]);
        }
      }
      return None;
    }

    method FindClient(owner: string, deviceId: string) returns (r: Option<string>)
      ensures match r
              case Some(id) => id in leases && IsClient(leases[id], owner, deviceId)
              case None => !HasClient(leases, owner, deviceId)
    {
      var rest := leases.Keys;
      while rest != {}
        invariant rest <= leases.Keys
        invariant forall id :: id in leases && id !in rest ==> !IsClient(leases[id], owner, deviceId)
        decreases rest
      {
        var id :| id in rest;
        if leases[id].owner == owner && leases[id].deviceId == deviceId {
          return Some(id);
        }
        rest := rest - {id};
      }
      return None;
    }

    /** The set of VM ids that the loop of CreateOrRecover marks as occupied. */
    method OccupiedIds() returns (occupied: set<string>)
      ensures forall vmId :: vmId in occupied <==> Occupied(leases, vmId)
    {
      occupied := {};
      var rest := leases.Keys;
      while rest != {}
        invariant rest <= leases.Keys
        invariant forall vmId :: vmId in occupied <==> exists id :: id in leases && id !in rest && leases[id].vmId == vmId
        decreases rest
      {
        var id :| id in rest;
        occupied := occupied + {leases[id].vmId};
        rest := rest - {id};
      }
    }

    method PersistLocked(ok: bool)
      modifies this`disk
      ensures Abs() == Persist(old(Abs()), ok)
    {
      if ok {
        disk := leases;
      }
    }

    method AllocateFirst(draft: Lease, newId: Option<string>, ok: bool) returns (o: Outcome)
      modifies this
      ensures (Abs(), o) == Allocate(old(Abs()), draft, newId, ok)
    {
      var occupied := OccupiedIds();
      assert vms[0..] == vms;
      for i := 0 to |vms|
        invariant Abs() == old(Abs()) && FirstFree(vms[i..], leases) == FirstFree(vms, leases)
      {
        if !Available(vms[i]) || vms[i].id in occupied {
          continue;
        }
        if newId == None {
          return Rejected(NoRandom);
        }
        var lease := draft.(id := newId.value, vmId := vms[i].id);
        leases := leases[lease.id := lease];
        PersistLocked(ok);
        if !ok {
          leases := leases - {lease.id};
          return Rejected(PersistFailed);
        }
        return Granted(lease, vms[i]);
      }
      return Rejected(PoolExhausted);
    }

    method RecoverLease(now: int, id: string, draft: Lease, newId: Option<string>, ok: bool) returns (o: Outcome)
      requires id in leases && draft.expiresAt == now + ttl
      modifies this
      ensures (Abs(), o) == Recover(old(Abs()), id, draft, newId, ok)
    {
      leases := leases[id := leases[id].(expiresAt := now + ttl)];
      var lease := leases[id];
      var vm := VmById(lease.vmId);
      if vm == None || !Available(vm.value) {
        leases := leases - {lease.id};
        o := AllocateFirst(draft, newId, ok);
      } else {
        PersistLocked(ok);
        o := if ok then Granted(lease, vm.value) else Rejected(PersistFailed);
      }
    }

    /** The loop stops at whichever lease of the client the map gives first. */
    method CreateOrRecoverLease(now: int, owner: string, deviceId: string, deviceName: string, newId: Option<string>, ok: bool)
      returns (o: Outcome)
      modifies this
      ensures var s, draft := old(Abs()).(leases := Reap(old(leases), now)), NewLease(owner, deviceId, deviceName, now, ttl);
              if HasClient(s.leases, owner, deviceId) then
                exists id :: id in s.leases && IsClient(s.leases[id], owner, deviceId)
                             && (Abs(), o) == Recover(s, id, draft, newId, ok)
              else (Abs(), o) == Allocate(s, draft, newId, ok)
      ensures Exclusive(old(leases)) ==>
                (Abs(), o) == CreateOrRecover(old(Abs()), ttl, now, owner, deviceId, deviceName, newId, ok)
    {
      ReapLocked(now);
      ghost var s, draft := Abs(), NewLease(owner, deviceId, deviceName, now, ttl);
      var found := FindClient(owner, deviceId);
      if found == None {
        o := AllocateFirst(NewLease(owner, deviceId, deviceName, now, ttl), newId, ok);
        return;
      }
      o := RecoverLease(now, found.value, NewLease(owner, deviceId, deviceName, now, ttl), newId, ok);
      if Exclusive(s.leases) {
        ClientLeaseUnique(s.leases, owner, deviceId, found.value);
      }
    }

    method HeartbeatLease(now: int, id: string, owner: string, ok: bool) returns (o: Outcome)
      modifies this
      ensures (Abs(), o) == Heartbeat(old(Abs()), ttl, now, id, owner, ok)
    {
      ReapLocked(now);
      if id !in leases {
        return Rejected(LeaseNotFound);
      }
      if leases[id].owner != owner {
        return Rejected(LeaseForbidden);
      }
      leases := leases[id := leases[id].(expiresAt := now + ttl)];
      PersistLocked(ok);
      return if ok then Renewed(leases[id]) else Rejected(PersistFailed);
    }

    method ReleaseLease(id: string, owner: string, ok: bool) returns (o: Outcome)
      modifies this
      ensures (Abs(), o) == Release(old(Abs()), id, owner, ok)
    {
      if id !in leases {
        return Done;
      }
      if leases[id].owner != owner {
        return Rejected(LeaseForbidden);
      }
      leases := leases - {id};
      PersistLocked(ok);
      return if ok then Done else Rejected(PersistFailed);
    }

    method LeaseAndVM(now: int, id: string, owner: string) returns (o: Outcome)
      modifies this
      ensures (Abs(), o) == LeaseVM(old(Abs()), now, id, owner)
    {
      ReapLocked(now);
      if id !in leases {
        return Rejected(LeaseNotFound);
      }
      if leases[id].owner != owner {
        return Rejected(LeaseForbidden);
      }
      var vm := VmById(leases[id].vmId);
      if vm == None || !Available(vm.value) {
        return Rejected(LeaseNotFound);
      }
      return Reported(leases[id], vm.value);
    }

    method SnapshotForAdmin(now: int, ok: bool) returns (o: Outcome)
      modifies this
      ensures (Abs(), o) == AdminSnapshot(old(Abs()), now, ok)
    {
      var before := |leases|;
      ReapLocked(now);
      if |leases| != before {
        PersistLocked(ok);
        if !ok {
          return Rejected(PersistFailed);
        }
      }
      return Snapshot(vms, leases);
    }

    method LeaseForAdmin(now: int, id: string) returns (o: Outcome)
      modifies this
      ensures (Abs(), o) == AdminLease(old(Abs()), now, id)
    {
      ReapLocked(now);
      if id !in leases {
        return Rejected(LeaseNotFound);
      }
      var vm := VmById(leases[id].vmId);
      if vm == None {
        return Rejected(VMNotFound);
      }
      return Reported(leases[id], vm.value);
    }

    method ReleaseForAdmin(id: string, ok: bool) returns (o: Outcome)
      modifies this
      ensures (Abs(), o) == AdminRelease(old(Abs()), id, ok)
    {
      if id !in leases {
        return Rejected(LeaseNotFound);
      }
      leases := leases - {id};
      PersistLocked(ok);
      return if ok then Done else Rejected(PersistFailed);
    }

    /** The loop of AdminAssign over the leases, in whatever order the map gives them. */
    method AssignConflict(vmId: string, owner: string, deviceId: string) returns (r: Option<Error>)
      ensures match r
              case None => !Occupied(leases, vmId) && !HasClient(leases, owner, deviceId)
              case Some(e) => (e == VMOccupied && Occupied(leases, vmId)) || (e == ClientHasLease && HasClient(leases, owner, deviceId))
    {
      var rest := leases.Keys;
      while rest != {}
        invariant rest <= leases.Keys
        invariant forall id :: id in leases && id !in rest ==> leases[id].vmId != vmId && !IsClient(leases[id], owner, deviceId)
        decreases rest
      {
        var id :| id in rest;
        if leases[id].vmId == vmId {
          return Some(VMOccupied);
        }
        if leases[id].owner == owner && leases[id].deviceId == deviceId {
          return Some(ClientHasLease);
        }
        rest := rest - {id};
      }
      return None;
    }

    method AssignForAdmin(now: int, vmId: string, owner: string, deviceId: string, deviceName: string, newId: Option<string>, ok: bool)
      returns (o: Outcome)
      modifies this
      ensures exists vmFirst ::
                (Abs(), o) == AdminAssign(old(Abs()), ttl, now, vmId, owner, deviceId, deviceName, newId, ok, vmFirst)
    {
      ReapLocked(now);
      var vm := VmById(vmId);
      if vm == None {
        assert (Abs(), Rejected(VMNotFound)) == AdminAssign(old(Abs()), ttl, now, vmId, owner, deviceId, deviceName, newId, ok, true);
        return Rejected(VMNotFound);
      }
      if !Available(vm.value) {
        assert (Abs(), Rejected(VMUnavailable)) == AdminAssign(old(Abs()), ttl, now, vmId, owner, deviceId, deviceName, newId, ok, true);
        return Rejected(VMUnavailable);
      }
      var conflict := AssignConflict(vmId, owner, deviceId);
      if conflict.Some? {
        ghost var vmFirst := conflict.value == VMOccupied;
        assert (Abs(), Rejected(conflict.value)) == AdminAssign(old(Abs()), ttl, now, vmId, owner, deviceId, deviceName, newId, ok, vmFirst);
        return Rejected(conflict.value);
      }
      if newId == None {
        assert (Abs(), Rejected(NoRandom)) == AdminAssign(old(Abs()), ttl, now, vmId, owner, deviceId, deviceName, newId, ok, true);
        return Rejected(NoRandom);
      }
      var lease := NewLease(owner, deviceId, deviceName, now, ttl).(id := newId.value, vmId := vm.value.id);
      leases := leases[lease.id := lease];
      PersistLocked(ok);
      if !ok {
        leases := leases - {lease.id};
        o := Rejected(PersistFailed);
      } else {
        o := Granted(lease, vm.value);
      }
      assert (Abs(), o) == AdminAssign(old(Abs()), ttl, now, vmId, owner, deviceId, deviceName, newId, ok, true);
    }

    method Update(updates: map<string, VM>)
      modifies this`vms
      ensures Abs() == UpdateVMs(old(Abs()), updates)
    {
      for i := 0 to |vms|
        invariant |vms| == |old(vms)|
        invariant forall k :: 0 <= k < |vms| ==> vms[k] == if k < i then Updated(old(vms)[k], updates) else old(vms)[k]
      {
        var vm := vms[i];
        if vm.id in updates {
          vms := vms[i := updates[vm.id]];
        }
      }
    }
  }
}
