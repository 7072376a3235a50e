/** What every call of the lease store answers and does, said of single leases and VMs: for each
    call, its error cases, the VM that goes with a lease, every lease and the state file after
    it. */
module LeaseLaws {
  import opened Wrappers
  import opened LeaseStore
  import opened LeaseRuns

  /** A VM that can serve a client. */
  predicate Serves(vm: VM) {
    vm.enabled && vm.streamAddress != "" && 1 <= vm.streamPort <= 65535
  }

  /** The first VM of the pool with this id. */
  predicate FirstWith(vms: seq<VM>, id: string, vm: VM) {
    vm.id == id && exists k :: 0 <= k < |vms| && vms[k] == vm && forall j :: 0 <= j < k ==> vms[j].id != id
  }

  predicate NoneWith(vms: seq<VM>, id: string) {
    forall k :: 0 <= k < |vms| ==> vms[k].id != id
  }

  /** In memory and not expired. */
  predicate Live(s: State, now: int, id: string) {
    id in s.leases && s.leases[id].expiresAt > now
  }

  /** The VMs are as they were, and so is every lease but those in the set, except that expired
      ones are gone. */
  ghost predicate LiveKept(s: State, s': State, now: int, but: set<string>) {
    s'.vms == s.vms
    && forall id :: id !in but ==> (id in s'.leases <==> Live(s, now, id)) && (id in s'.leases ==> s'.leases[id] == s.leases[id])
  }

  /** The same without a look at the clock. */
  ghost predicate AllKept(s: State, s': State, but: set<string>) {
    s'.vms == s.vms
    && forall id :: id !in but ==> (id in s'.leases <==> id in s.leases) && (id in s'.leases ==> s'.leases[id] == s.leases[id])
  }

  lemma {:induction false} FindFirst(vms: seq<VM>, id: string)
    ensures match FindVM(vms, id)
            case Some(vm) => FirstWith(vms, id, vm)
            case None => NoneWith(vms, id)
  {
    if vms != [] && vms[0].id != id {
      FindFirst(vms[1..], id);
      if FindVM(vms[1..], id).Some? {
        var vm := FindVM(vms[1..], id).value;
        var k :| 0 <= k < |vms[1..]| && vms[1..][k] == vm && forall j :: 0 <= j < k ==> vms[1..][j].id != id;
        assert vms[k + 1] == vm;
        forall j | 0 <= j < k + 1 ensures vms[j].id != id {
          assert j > 0 ==> vms[1..][j - 1] == vms[j];
        }
      }
    }
  }

  lemma FirstUnique(vms: seq<VM>, id: string, a: VM, b: VM)
    requires FirstWith(vms, id, a) && FirstWith(vms, id, b)
    ensures a == b
  {
  }

  // ---------- The VM of an answer ----------

  lemma NotBoth(vms: seq<VM>, id: string, vm: VM)
    requires FirstWith(vms, id, vm)
    ensures !NoneWith(vms, id)
  {
  }

  lemma UsableServes(vms: seq<VM>, id: string)
    ensures match UsableVM(vms, id)
            case Some(vm) => FirstWith(vms, id, vm) && Serves(vm)
            case None => forall vm :: FirstWith(vms, id, vm) ==> !Serves(vm)
  {
    hide FirstWith, NoneWith, FindVM;
    FindFirst(vms, id);
    forall vm | FirstWith(vms, id, vm) && Serves(vm) ensures UsableVM(vms, id) == Some(vm) {
      NotBoth(vms, id, vm);
      FirstUnique(vms, id, vm, FindVM(vms, id).value);
    }
  }

  lemma FreeServes(vms: seq<VM>, leases: Leases)
    ensures match FirstFree(vms, leases)
            case Some(vm) => vm in vms && Serves(vm) && forall id :: id in leases ==> leases[id].vmId != vm.id
            case None => true
  {
  }

  lemma FirstIn(vms: seq<VM>, id: string)
    ensures forall vm :: FirstWith(vms, id, vm) ==> vm in vms
  {
  }

  /** Whoever is granted a lease is sent to a VM of the pool with the id of the lease that can
      serve; so is whoever asks LeaseVM; AdminLease names a VM of the pool with that id. */
  lemma AnswerServes(s: State, ttl: int, at: int, e: Event)
    ensures match Apply(s, ttl, at, e).1
            case Granted(l, vm) => vm in s.vms && vm.id == l.vmId && Serves(vm)
            case Reported(l, vm) => FirstWith(s.vms, l.vmId, vm) && (e.LeaseVMEvent? ==> Serves(vm))
            case _ => true
  {
    hide FirstWith, NoneWith, FindVM, FirstFree, HasClient, Occupied, Reap, Load, UpdateVMs;
    match e
    case CreateEvent(owner, deviceId, _, _, _) =>
      var live := Reap(s.leases, at);
      if HasClient(live, owner, deviceId) {
        var id := ClientLease(live, owner, deviceId);
        UsableServes(s.vms, live[id].vmId);
        FirstIn(s.vms, live[id].vmId);
        FreeServes(s.vms, live[id := live[id].(expiresAt := at + ttl)] - {live[id].id});
      } else {
        FreeServes(s.vms, live);
      }
    case LeaseVMEvent(id, _) =>
      if id in Reap(s.leases, at) {
        FindFirst(s.vms, Reap(s.leases, at)[id].vmId);
      }
    case AdminLeaseEvent(id) =>
      if id in Reap(s.leases, at) {
        FindFirst(s.vms, Reap(s.leases, at)[id].vmId);
      }
    case _ =>
  }

  // ---------- Each call ----------

  /** Heartbeat: only the owner extends, by one time-to-live from now, and only a lease that has
      not expired; a failed write leaves the file as it was. */
  lemma HeartbeatExact(s: State, ttl: int, now: int, id: string, owner: string, ok: bool)
    ensures var (s', o) := Heartbeat(s, ttl, now, id, owner, ok);
            LiveKept(s, s', now, {id}) && s'.disk == (if o.Renewed? then s'.leases else s.disk)
            && if !Live(s, now, id) then id !in s'.leases && o == Rejected(LeaseNotFound)
               else if s.leases[id].owner != owner then
                 id in s'.leases && s'.leases[id] == s.leases[id] && o == Rejected(LeaseForbidden)
               else
                 id in s'.leases && s'.leases[id] == s.leases[id].(expiresAt := now + ttl)
                 && o == if ok then Renewed(s'.leases[id]) else Rejected(PersistFailed)
  {
  }

  /** Release: only the owner removes the lease; releasing what is not there is no error. */
  lemma ReleaseExact(s: State, id: string, owner: string, ok: bool)
    ensures var (s', o) := Release(s, id, owner, ok);
            AllKept(s, s', {id})
            && if id !in s.leases then id !in s'.leases && s'.disk == s.disk && o == Done
               else if s.leases[id].owner != owner then
                 id in s'.leases && s'.leases[id] == s.leases[id] && s'.disk == s.disk && o == Rejected(LeaseForbidden)
               else
                 id !in s'.leases
                 && if ok then s'.disk == s'.leases && o == Done else s'.disk == s.disk && o == Rejected(PersistFailed)
  {
  }

  /** AdminRelease: removes the lease of any owner. */
  lemma AdminReleaseExact(s: State, id: string, ok: bool)
    ensures var (s', o) := AdminRelease(s, id, ok);
            AllKept(s, s', {id}) && id !in s'.leases
            && if id !in s.leases then s'.disk == s.disk && o == Rejected(LeaseNotFound)
               else if ok then s'.disk == s'.leases && o == Done
               else s'.disk == s.disk && o == Rejected(PersistFailed)
  {
  }

  lemma NoneOrFirst(vms: seq<VM>, id: string)
    ensures match FindVM(vms, id)
            case Some(vm) => FirstWith(vms, id, vm) && forall other :: FirstWith(vms, id, other) ==> other == vm
            case None => forall other :: !FirstWith(vms, id, other)
  {
    hide FirstWith, NoneWith, FindVM;
    FindFirst(vms, id);
    forall other | FirstWith(vms, id, other) ensures FindVM(vms, id) == Some(other) {
      NotBoth(vms, id, other);
      FirstUnique(vms, id, other, FindVM(vms, id).value);
    }
  }

  /** LeaseVM: only the owner, only an unexpired lease, only while its VM can serve. */
  lemma LeaseVMExact(s: State, now: int, id: string, owner: string)
    ensures var (s', o) := LeaseVM(s, now, id, owner);
            LiveKept(s, s', now, {}) && s'.disk == s.disk
            && if !Live(s, now, id) then o == Rejected(LeaseNotFound)
               else if s.leases[id].owner != owner then o == Rejected(LeaseForbidden)
               else if exists vm :: FirstWith(s.vms, s.leases[id].vmId, vm) && Serves(vm) then
                 o.Reported? && o.reported == s.leases[id] && FirstWith(s.vms, s.leases[id].vmId, o.on) && Serves(o.on)
               else o == Rejected(LeaseNotFound)
  {
    hide FirstWith, NoneWith, FindVM;
    if Live(s, now, id) {
      NoneOrFirst(s.vms, s.leases[id].vmId);
    }
  }

  /** AdminLease: any unexpired lease whose VM is in the pool. */
  lemma AdminLeaseExact(s: State, now: int, id: string)
    ensures var (s', o) := AdminLease(s, now, id);
            LiveKept(s, s', now, {}) && s'.disk == s.disk
            && if !Live(s, now, id) then o == Rejected(LeaseNotFound)
               else if exists vm :: FirstWith(s.vms, s.leases[id].vmId, vm) then
                 o.Reported? && o.reported == s.leases[id] && FirstWith(s.vms, s.leases[id].vmId, o.on)
               else o == Rejected(VMNotFound)
  {
    hide FirstWith, NoneWith, FindVM;
    if Live(s, now, id) {
      NoneOrFirst(s.vms, s.leases[id].vmId);
    }
  }

  lemma {:induction false} SubsetSize(a: set<string>, b: set<string>)
    requires a <= b
    ensures |a| <= |b|
  {
    if a != {} {
      var x :| x in a;
      SubsetSize(a - {x}, b - {x});
    }
  }

  lemma FewerKeys(a: Leases, b: Leases, id: string)
    requires a.Keys <= b.Keys && id in b && id !in a
    ensures |a| < |b|
  {
    assert |a.Keys| <= |b.Keys - {id}| by { SubsetSize(a.Keys, b.Keys - {id}); }
    assert |a| == |a.Keys| && |b| == |b.Keys|;
  }

  lemma SomeExpired(s: State, now: int)
    ensures |Reap(s.leases, now)| != |s.leases| <==> exists id :: id in s.leases && !Live(s, now, id)
  {
    var live := Reap(s.leases, now);
    if id :| id in s.leases && !Live(s, now, id) {
      assert id !in live.Keys;
      FewerKeys(live, s.leases, id);
    } else {
      assert live == s.leases;
    }
  }

  /** AdminSnapshot: all VMs and all unexpired leases; the file is written exactly when a lease has
      expired, and only then can the call fail. */
  lemma AdminSnapshotExact(s: State, now: int, ok: bool)
    ensures var (s', o) := AdminSnapshot(s, now, ok);
            LiveKept(s, s', now, {})
            && if (exists id :: id in s.leases && !Live(s, now, id)) && !ok then s'.disk == s.disk && o == Rejected(PersistFailed)
               else
                 o == Snapshot(s.vms, s'.leases)
                 && s'.disk == if exists id :: id in s.leases && !Live(s, now, id) then s'.leases else s.disk
  {
    SomeExpired(s, now);
  }

  lemma ReapKept(s: State, now: int)
    ensures LiveKept(s, s.(leases := Reap(s.leases, now)), now, {})
  {
  }

  /** A new lease with its write, or neither. */
  lemma InsertExact(s: State, now: int, l: Lease, vm: VM, ok: bool)
    requires l.id !in s.leases
    ensures var (s', o) := Insert(s.(leases := Reap(s.leases, now)), l, vm, ok);
            if ok then
              o == Granted(l, vm) && LiveKept(s, s', now, {l.id}) && l.id in s'.leases && s'.leases[l.id] == l && s'.disk == s'.leases
            else o == Rejected(PersistFailed) && LiveKept(s, s', now, {}) && s'.disk == s.disk
  {
    assert Reap(s.leases, now)[l.id := l] - {l.id} == Reap(s.leases, now);
  }

  lemma LiveClient(s: State, now: int, vmId: string, owner: string, deviceId: string)
    ensures Occupied(Reap(s.leases, now), vmId) <==> exists id :: Live(s, now, id) && s.leases[id].vmId == vmId
    ensures HasClient(Reap(s.leases, now), owner, deviceId) <==>
            exists id :: Live(s, now, id) && s.leases[id].owner == owner && s.leases[id].deviceId == deviceId
  {
    var live := Reap(s.leases, now);
    if id :| Live(s, now, id) && s.leases[id].vmId == vmId {
      assert id in live && live[id].vmId == vmId;
    }
    if id :| Live(s, now, id) && s.leases[id].owner == owner && s.leases[id].deviceId == deviceId {
      assert id in live && IsClient(live[id], owner, deviceId);
    }
  }

  lemma FirstId(vms: seq<VM>, id: string, vm: VM)
    requires FirstWith(vms, id, vm)
    ensures vm.id == id
  {
  }

  /** AdminAssign: exactly when the VM can serve and neither it nor the client has an unexpired
      lease, and id and file are there, the lease is added with all its fields. */
  lemma AdminAssignExact(s: State, ttl: int, now: int, vmId: string, owner: string, deviceId: string, deviceName: string,
                         newId: Option<string>, ok: bool, vmFirst: bool)
    requires newId.Some? ==> newId.value !in s.leases
    ensures var (s', o) := AdminAssign(s, ttl, now, vmId, owner, deviceId, deviceName, newId, ok, vmFirst);
            var taken := exists id :: Live(s, now, id) && s.leases[id].vmId == vmId;
            var holds := exists id :: Live(s, now, id) && s.leases[id].owner == owner && s.leases[id].deviceId == deviceId;
            s'.disk == (if o.Granted? then s'.leases else s.disk)
            && (if o.Granted? then
                  newId.Some? && LiveKept(s, s', now, {newId.value}) && newId.value in s'.leases && s'.leases[newId.value] == o.lease
                  && o.lease == Lease(newId.value, vmId, owner, deviceId, deviceName, now, now + ttl) && FirstWith(s.vms, vmId, o.vm)
                else LiveKept(s, s', now, {}))
            && (if forall vm :: !FirstWith(s.vms, vmId, vm) then o == Rejected(VMNotFound)
                else if forall vm :: FirstWith(s.vms, vmId, vm) ==> !Serves(vm) then o == Rejected(VMUnavailable)
                else if taken || holds then
                  (o == Rejected(VMOccupied) && taken) || (o == Rejected(ClientHasLease) && holds)
                else if newId == None then o == Rejected(NoRandom)
                else if !ok then o == Rejected(PersistFailed)
                else o.Granted?)
  {
    hide FirstWith, NoneWith, FindVM, Insert, Reap, Occupied, HasClient, LiveKept, Live;
    NoneOrFirst(s.vms, vmId);
    LiveClient(s, now, vmId, owner, deviceId);
    ReapKept(s, now);
    var vm := FindVM(s.vms, vmId);
    if vm.Some? && newId.Some? {
      var l := NewLease(owner, deviceId, deviceName, now, ttl).(id := newId.value, vmId := vm.value.id);
      FirstId(s.vms, vmId, vm.value);
      InsertExact(s, now, l, vm.value, ok);
    }
  }

  // ---------- CreateOrRecover ----------

  /** An unexpired lease of the client. */
  predicate Mine(s: State, now: int, owner: string, deviceId: string, id: string) {
    Live(s, now, id) && s.leases[id].owner == owner && s.leases[id].deviceId == deviceId
  }

  /** Another client holds the VM. */
  ghost predicate HeldByOther(s: State, now: int, owner: string, deviceId: string, vmId: string) {
    exists id :: Live(s, now, id) && !Mine(s, now, owner, deviceId, id) && s.leases[id].vmId == vmId
  }

  /** VM k is the first of the pool that can serve and that no other client holds. */
  ghost predicate FirstOpen(s: State, now: int, owner: string, deviceId: string, k: nat) {
    k < |s.vms| && Serves(s.vms[k]) && !HeldByOther(s, now, owner, deviceId, s.vms[k].id)
    && forall j :: 0 <= j < k ==> !Serves(s.vms[j]) || HeldByOther(s, now, owner, deviceId, s.vms[j].id)
  }

  /** The VM of the lease can still serve. */
  predicate Usable(s: State, id: string, vm: VM)
    requires id in s.leases
  {
    FirstWith(s.vms, s.leases[id].vmId, vm) && Serves(vm)
  }

  ghost function MyLeases(s: State, now: int, owner: string, deviceId: string): set<string> {
    set id | id in s.leases && Mine(s, now, owner, deviceId, id)
  }

  lemma RecoverLaw(s: State, ttl: int, now: int, owner: string, deviceId: string, name: string, newId: Option<string>, ok: bool,
                   id: string, vm: VM)
    requires Exclusive(s.leases) && Mine(s, now, owner, deviceId, id) && Usable(s, id, vm)
    ensures var (s', o) := CreateOrRecover(s, ttl, now, owner, deviceId, name, newId, ok);
            var l := s.leases[id].(expiresAt := now + ttl);
            LiveKept(s, s', now, {id}) && id in s'.leases && s'.leases[id] == l
            && if ok then o == Granted(l, vm) && s'.disk == s'.leases else o == Rejected(PersistFailed) && s'.disk == s.disk
  {
    hide FirstWith, NoneWith, Allocate, UsableVM;
    var live := Reap(s.leases, now);
    assert IsClient(live[id], owner, deviceId);
    ClientLeaseUnique(live, owner, deviceId, id);
    UsableServes(s.vms, s.leases[id].vmId);
    if UsableVM(s.vms, s.leases[id].vmId).Some? {
      FirstUnique(s.vms, s.leases[id].vmId, vm, UsableVM(s.vms, s.leases[id].vmId).value);
    }
  }

  lemma OpenIs(s: State, now: int, owner: string, deviceId: string, leases: Leases, vm: VM)
    requires forall id :: (id in leases <==> Live(s, now, id) && !Mine(s, now, owner, deviceId, id))
                          && (id in leases ==> leases[id] == s.leases[id])
    ensures IsFree(vm, leases) <==> Serves(vm) && !HeldByOther(s, now, owner, deviceId, vm.id)
  {
    hide Mine;
    if id :| Live(s, now, id) && !Mine(s, now, owner, deviceId, id) && s.leases[id].vmId == vm.id {
      assert id in leases && leases[id].vmId == vm.id;
    }
  }

  /** What a call without a lease to recover answers and leaves behind. */
  ghost predicate CreateResult(s: State, s': State, o: Outcome, ttl: int, now: int, owner: string, deviceId: string, name: string,
                               newId: Option<string>, ok: bool)
  {
    (if forall k: nat :: !FirstOpen(s, now, owner, deviceId, k) then o == Rejected(PoolExhausted)
     else if newId == None then o == Rejected(NoRandom)
     else if !ok then o == Rejected(PersistFailed)
     else
       forall k: nat :: FirstOpen(s, now, owner, deviceId, k) ==>
         o == Granted(Lease(newId.value, s.vms[k].id, owner, deviceId, name, now, now + ttl), s.vms[k]))
    && (if o.Granted? then
          newId.Some? && LiveKept(s, s', now, MyLeases(s, now, owner, deviceId) + {newId.value})
          && newId.value in s'.leases && s'.leases[newId.value] == o.lease && s'.disk == s'.leases
        else LiveKept(s, s', now, MyLeases(s, now, owner, deviceId)) && s'.disk == s.disk)
    && forall id :: id in MyLeases(s, now, owner, deviceId) ==> id !in s'.leases
  }

  lemma FirstOpenIs(s: State, now: int, owner: string, deviceId: string, leases: Leases)
    requires forall id :: (id in leases <==> Live(s, now, id) && !Mine(s, now, owner, deviceId, id))
                          && (id in leases ==> leases[id] == s.leases[id])
    ensures match FirstFree(s.vms, leases)
            case Some(vm) =>
              (exists k: nat :: FirstOpen(s, now, owner, deviceId, k))
              && forall k: nat :: FirstOpen(s, now, owner, deviceId, k) ==> vm == s.vms[k]
            case None => forall k: nat :: !FirstOpen(s, now, owner, deviceId, k)
  {
    hide Mine, HeldByOther, Serves, IsFree, Live;
    forall vm ensures IsFree(vm, leases) <==> Serves(vm) && !HeldByOther(s, now, owner, deviceId, vm.id) {
      OpenIs(s, now, owner, deviceId, leases, vm);
    }
    var r := FirstFree(s.vms, leases);
    if r.Some? {
      var k :| 0 <= k < |s.vms| && s.vms[k] == r.value && IsFree(r.value, leases) && forall j :: 0 <= j < k ==> !IsFree(s.vms[j], leases);
      assert FirstOpen(s, now, owner, deviceId, k);
      forall m: nat | FirstOpen(s, now, owner, deviceId, m) ensures m == k {
        assert m < |s.vms| && IsFree(s.vms[m], leases);
      }
    } else {
      forall k: nat ensures !FirstOpen(s, now, owner, deviceId, k) {
        assert k < |s.vms| ==> s.vms[k] in s.vms;
      }
    }
  }

  lemma NotMineKept(s: State, now: int, owner: string, deviceId: string, leases: Leases)
    requires forall id :: (id in leases <==> Live(s, now, id) && !Mine(s, now, owner, deviceId, id))
                          && (id in leases ==> leases[id] == s.leases[id])
    ensures forall id :: id in MyLeases(s, now, owner, deviceId) <==> Mine(s, now, owner, deviceId, id)
    ensures LiveKept(s, s.(leases := leases), now, MyLeases(s, now, owner, deviceId))
    ensures forall id :: id in leases || id in MyLeases(s, now, owner, deviceId) ==> id in s.leases
  {
  }

  lemma InsertLaw(s: State, l: Lease, vm: VM, ok: bool)
    requires l.id !in s.leases
    ensures var (s', o) := Insert(s, l, vm, ok);
            s'.vms == s.vms
            && if ok then o == Granted(l, vm) && s'.leases == s.leases[l.id := l] && s'.disk == s'.leases
               else o == Rejected(PersistFailed) && s'.leases == s.leases && s'.disk == s.disk
  {
    assert s.leases[l.id := l] - {l.id} == s.leases;
  }

  lemma AllocateLaw(s: State, ttl: int, now: int, owner: string, deviceId: string, name: string, newId: Option<string>, ok: bool, leases: Leases)
    requires newId.Some? ==> newId.value !in s.leases
    requires forall id :: (id in leases <==> Live(s, now, id) && !Mine(s, now, owner, deviceId, id))
                          && (id in leases ==> leases[id] == s.leases[id])
    ensures var (s', o) := Allocate(s.(leases := leases), NewLease(owner, deviceId, name, now, ttl), newId, ok);
            CreateResult(s, s', o, ttl, now, owner, deviceId, name, newId, ok)
  {
    hide Mine, FirstOpen, FirstFree, Insert, Live, MyLeases;
    FirstOpenIs(s, now, owner, deviceId, leases);
    NotMineKept(s, now, owner, deviceId, leases);
    var vm := FirstFree(s.vms, leases);
    if vm.Some? && newId.Some? {
      var l := NewLease(owner, deviceId, name, now, ttl).(id := newId.value, vmId := vm.value.id);
      InsertLaw(s.(leases := leases), l, vm.value, ok);
    }
  }

  lemma OnlyMine(s: State, now: int, owner: string, deviceId: string, id: string)
    requires Exclusive(s.leases) && Mine(s, now, owner, deviceId, id)
    ensures forall other :: Mine(s, now, owner, deviceId, other) <==> other == id
  {
  }

  lemma NoneMine(s: State, now: int, owner: string, deviceId: string)
    requires !HasClient(Reap(s.leases, now), owner, deviceId)
    ensures forall id :: !Mine(s, now, owner, deviceId, id)
  {
    forall id ensures !Mine(s, now, owner, deviceId, id) {
      assert Mine(s, now, owner, deviceId, id) ==> id in Reap(s.leases, now) && IsClient(Reap(s.leases, now)[id], owner, deviceId);
    }
  }

  lemma CreateLaw(s: State, ttl: int, now: int, owner: string, deviceId: string, name: string, newId: Option<string>, ok: bool)
    requires Exclusive(s.leases) && (newId.Some? ==> newId.value !in s.leases)
    requires forall id, vm :: Mine(s, now, owner, deviceId, id) ==> !Usable(s, id, vm)
    ensures var (s', o) := CreateOrRecover(s, ttl, now, owner, deviceId, name, newId, ok);
            CreateResult(s, s', o, ttl, now, owner, deviceId, name, newId, ok)
  {
    hide CreateResult, Allocate, UsableVM, FirstWith, Serves;
    var live := Reap(s.leases, now);
    if HasClient(live, owner, deviceId) {
      var id := ClientLease(live, owner, deviceId);
      assert Mine(s, now, owner, deviceId, id);
      UsableServes(s.vms, live[id].vmId);
      assert UsableVM(s.vms, live[id].vmId).Some? ==> Usable(s, id, UsableVM(s.vms, live[id].vmId).value);
      DroppedLease(live, id, live[id].(expiresAt := now + ttl));
      OnlyMine(s, now, owner, deviceId, id);
      AllocateLaw(s, ttl, now, owner, deviceId, name, newId, ok, live - {id});
    } else {
      NoneMine(s, now, owner, deviceId);
      AllocateLaw(s, ttl, now, owner, deviceId, name, newId, ok, live);
    }
  }

  /** CreateOrRecover: the client's unexpired lease is extended while its VM can serve, and comes
      back with that VM; otherwise it is dropped, and the first VM of the pool that can serve and
      that no other client holds is granted, with a new lease of all these fields. */
  lemma CreateExact(s: State, ttl: int, now: int, owner: string, deviceId: string, name: string, newId: Option<string>, ok: bool)
    requires Exclusive(s.leases) && (newId.Some? ==> newId.value !in s.leases)
    ensures var (s', o) := CreateOrRecover(s, ttl, now, owner, deviceId, name, newId, ok);
            (forall id, vm :: Mine(s, now, owner, deviceId, id) && Usable(s, id, vm) ==>
               var l := s.leases[id].(expiresAt := now + ttl);
               LiveKept(s, s', now, {id}) && id in s'.leases && s'.leases[id] == l
               && if ok then o == Granted(l, vm) && s'.disk == s'.leases else o == Rejected(PersistFailed) && s'.disk == s.disk)
            && ((forall id, vm :: Mine(s, now, owner, deviceId, id) ==> !Usable(s, id, vm)) ==>
                  CreateResult(s, s', o, ttl, now, owner, deviceId, name, newId, ok))
  {
    hide Usable, CreateResult, CreateOrRecover, Exclusive, LiveKept;
    forall id, vm | Mine(s, now, owner, deviceId, id) && Usable(s, id, vm)
      ensures var (s', o) := CreateOrRecover(s, ttl, now, owner, deviceId, name, newId, ok);
              var l := s.leases[id].(expiresAt := now + ttl);
              LiveKept(s, s', now, {id}) && id in s'.leases && s'.leases[id] == l
              && if ok then o == Granted(l, vm) && s'.disk == s'.leases else o == Rejected(PersistFailed) && s'.disk == s.disk
    {
      RecoverLaw(s, ttl, now, owner, deviceId, name, newId, ok, id, vm);
    }
    if forall id, vm :: Mine(s, now, owner, deviceId, id) ==> !Usable(s, id, vm) {
      CreateLaw(s, ttl, now, owner, deviceId, name, newId, ok);
    }
  }

  /** UpdateVMs: every VM that has an update becomes it, in its place. */
  lemma UpdateExact(s: State, updates: map<string, VM>)
    ensures var s' := UpdateVMs(s, updates);
            s'.leases == s.leases && s'.disk == s.disk && |s'.vms| == |s.vms|
            && forall k :: 0 <= k < |s.vms| ==> s'.vms[k] == if s.vms[k].id in updates then updates[s.vms[k].id] else s.vms[k]
  {
  }

  /** A start: exactly the unexpired leases of the file, as they stand there. */
  lemma LoadExact(vms: seq<VM>, disk: Leases, now: int)
    ensures var s := Load(State(vms, map[], disk), now);
            s.vms == vms && s.disk == disk
            && forall id :: (id in s.leases <==> id in disk && disk[id].expiresAt > now) && (id in s.leases ==> s.leases[id] == disk[id])
  {
  }
}
