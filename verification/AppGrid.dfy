/** The app grid model (app/gui/appmodel.cpp): the visible list is edited in place towards a
    new list, and every edit is announced to the view. */
module AppGrid {
  import opened Wrappers
  import opened AppList

  /** An announced edit: a row was replaced, removed or inserted. */
  datatype Edit = Change(at: nat, app: App) | Remove(at: nat) | Add(at: nat, app: App)

  /** A row list after one edit; None if the edit does not fit. */
  function Edited(list: seq<App>, e: Edit): Option<seq<App>> {
    match e
    case Change(i, a) => if i < |list| then Some(list[i := a]) else None
    case Remove(i) => if i < |list| then Some(list[..i] + list[i + 1..]) else None
    case Add(i, a) => if i <= |list| then Some(list[..i] + [a] + list[i..]) else None
  }

  /** A view that applies every announced edit in turn. */
  function Replay(list: seq<App>, edits: seq<Edit>): Option<seq<App>>
    decreases edits
  {
    if edits == [] then Some(list)
    else
      match Edited(list, edits[0])
      case None => None
      case Some(next) => Replay(next, edits[1..])
  }

  /** Every edit changes the list. */
  predicate Effective(list: seq<App>, edits: seq<Edit>)
    decreases edits
  {
    edits == []
    || (match Edited(list, edits[0])
        case None => false
        case Some(next) => next != list && Effective(next, edits[1..]))
  }

  lemma {:induction false} EffectiveConcat(list: seq<App>, first: seq<Edit>, second: seq<Edit>)
    requires Effective(list, first) && Replay(list, first).Some? && Effective(Replay(list, first).value, second)
    ensures Effective(list, first + second)
    decreases first
  {
    if first == [] {
      assert first + second == second;
    } else {
      assert (first + second)[0] == first[0] && (first + second)[1..] == first[1..] + second;
      EffectiveConcat(Edited(list, first[0]).value, first[1..], second);
    }
  }

  lemma OneEdit(list: seq<App>, e: Edit)
    requires Edited(list, e).Some? && Edited(list, e).value != list
    ensures Effective(list, [e]) && Replay(list, [e]) == Edited(list, e)
  {
  }

  lemma {:induction false} ReplayConcat(list: seq<App>, first: seq<Edit>, second: seq<Edit>)
    ensures Replay(list, first + second) ==
            match Replay(list, first) { case None => None case Some(next) => Replay(next, second) }
    decreases first
  {
    if first == [] {
      assert first + second == second;
    } else {
      assert (first + second)[0] == first[0] && (first + second)[1..] == first[1..] + second;
      if Edited(list, first[0]).Some? {
        ReplayConcat(Edited(list, first[0]).value, first[1..], second);
      }
    }
  }

  /** The edits lead from one list to the other, and none of them is idle. */
  predicate Announced(before: seq<App>, edits: seq<Edit>, after: seq<App>) {
    Replay(before, edits) == Some(after) && Effective(before, edits)
  }

  lemma NoEdits(list: seq<App>)
    ensures Announced(list, [], list)
  {
  }

  lemma AnnounceMore(before: seq<App>, edits: seq<Edit>, list: seq<App>, more: seq<Edit>, after: seq<App>)
    requires Announced(before, edits, list) && Announced(list, more, after)
    ensures Announced(before, edits + more, after)
  {
    ReplayConcat(before, edits, more);
    EffectiveConcat(before, edits, more);
  }

  lemma AnnounceOne(before: seq<App>, edits: seq<Edit>, list: seq<App>, e: Edit)
    requires Announced(before, edits, list) && Edited(list, e).Some? && Edited(list, e).value != list
    ensures Announced(before, edits + [e], Edited(list, e).value)
  {
    hide Replay, Effective, Edited;
    OneEdit(list, e);
    AnnounceMore(before, edits, list, [e], Edited(list, e).value);
  }

  predicate HasId(list: seq<App>, id: int) {
    exists k :: 0 <= k < |list| && list[k].id == id
  }

  /** The first app with this id. */
  function Find(list: seq<App>, id: int): (r: Option<App>)
    ensures match r
            case Some(a) => a in list && a.id == id
            case None => !HasId(list, id)
  {
    if list == [] then None
    else if list[0].id == id then Some(list[0])
    else
      var r := Find(list[1..], id);
      assert HasId(list, id) ==> HasId(list[1..], id) by {
        if HasId(list, id) {
          var k :| 0 <= k < |list| && list[k].id == id;
          assert list[1..][k - 1].id == id;
        }
      }
      r
  }

  // ---------- What updateAppList does to the visible list ----------

  /** First loop: apps that are gone are removed, the others get their new data. */
  function Survivors(shown: seq<App>, target: seq<App>): seq<App> {
    if shown == [] then []
    else
      (match Find(target, shown[0].id)
       case Some(a) => [a]
       case None => [])
      + Survivors(shown[1..], target)
  }

  /** Second loop, for one app: where it is inserted, or None if its id is met first. */
  function InsertPos(lower: string -> string, list: seq<App>, a: App, from: nat): (r: Option<nat>)
    requires from <= |list|
    ensures r.Some? ==> from <= r.value <= |list|
    decreases |list| - from
  {
    if from == |list| then Some(from)
    else if list[from].id == a.id then None
    else if Before(lower, a, list[from]) then Some(from)
    else InsertPos(lower, list, a, from + 1)
  }

  function InsertAt(list: seq<App>, i: nat, a: App): seq<App>
    requires i <= |list|
  {
    list[..i] + [a] + list[i..]
  }

  function AddOne(lower: string -> string, list: seq<App>, a: App): seq<App> {
    match InsertPos(lower, list, a, 0)
    case None => list
    case Some(i) => InsertAt(list, i, a)
  }

  function AddAll(lower: string -> string, list: seq<App>, target: seq<App>): seq<App>
    decreases target
  {
    if target == [] then list else AddAll(lower, AddOne(lower, list, target[0]), target[1..])
  }

  function Reconcile(lower: string -> string, shown: seq<App>, target: seq<App>): seq<App> {
    AddAll(lower, Survivors(shown, target), target)
  }

  // ---------- When the target is reached ----------

  /** The apps of the list whose id is in the set, in order. */
  function Keep(list: seq<App>, ids: set<int>): seq<App> {
    if list == [] then []
    else (if list[0].id in ids then [list[0]] else []) + Keep(list[1..], ids)
  }

  function Ids(list: seq<App>): set<int> {
    set k | 0 <= k < |list| :: list[k].id
  }

  /** The apps that stay visible come in the same relative order in the old and in the new list. */
  predicate SameOrder(shown: seq<App>, target: seq<App>) {
    Survivors(shown, target) == Keep(target, Ids(shown))
  }

  /** A new app that comes before one that stays has a smaller lower-cased name, not an equal one. */
  predicate NoTieAhead(lower: string -> string, shown: seq<App>, target: seq<App>) {
    forall p, q :: 0 <= p < q < |target| && target[p].id !in Ids(shown) && target[q].id in Ids(shown) ==>
      Before(lower, target[p], target[q])
  }

  // ---------- Lemmas about the parts ----------

  lemma {:induction false} KeepConcat(a: seq<App>, b: seq<App>, ids: set<int>)
    ensures Keep(a + b, ids) == Keep(a, ids) + Keep(b, ids)
  {
    if a == [] {
      assert a + b == b;
    } else {
      var head := if a[0].id in ids then [a[0]] else [];
      assert Keep(a, ids) == head + Keep(a[1..], ids);
      assert Keep(a + b, ids) == head + Keep(a[1..] + b, ids) by {
        assert (a + b)[1..] == a[1..] + b;
      }
      hide *;
      KeepConcat(a[1..], b, ids);
    }
  }

  lemma {:induction false} KeepNothing(list: seq<App>, ids: set<int>)
    requires forall k :: 0 <= k < |list| ==> list[k].id !in ids
    ensures Keep(list, ids) == []
  {
    if list != [] {
      KeepNothing(list[1..], ids);
    }
  }

  lemma {:induction false} KeepAll(list: seq<App>, ids: set<int>)
    requires forall k :: 0 <= k < |list| ==> list[k].id in ids
    ensures Keep(list, ids) == list
  {
    if list != [] {
      KeepAll(list[1..], ids);
      assert [list[0]] + list[1..] == list;
    }
  }

  lemma {:induction false} KeepIn(list: seq<App>, ids: set<int>)
    ensures forall a :: a in Keep(list, ids) ==> a in list && a.id in ids
  {
    if list != [] {
      KeepIn(list[1..], ids);
    }
  }

  lemma KeepInsert(list: seq<App>, i: nat, a: App, ids: set<int>)
    requires i <= |list| && a.id !in ids
    ensures Keep(InsertAt(list, i, a), ids) == Keep(list, ids)
  {
    var front, tail := list[..i], list[i..];
    assert Keep([a] + tail, ids) == Keep(tail, ids) by {
      assert ([a] + tail)[1..] == tail;
    }
    assert front + ([a] + tail) == InsertAt(list, i, a) && front + tail == list;
    hide Keep;
    KeepConcat(front, [a] + tail, ids);
    KeepConcat(front, tail, ids);
  }

  lemma {:induction false} SurvivorsIn(shown: seq<App>, target: seq<App>)
    ensures forall a :: a in Survivors(shown, target) ==> a in target && HasId(shown, a.id)
  {
    hide Find;
    if shown != [] {
      SurvivorsIn(shown[1..], target);
      var rest, all := Survivors(shown[1..], target), Survivors(shown, target);
      forall a | a in all ensures a in target && HasId(shown, a.id) {
        if a in rest {
          var k :| 0 <= k < |shown[1..]| && shown[1..][k].id == a.id;
          assert shown[k + 1].id == a.id;
        } else {
          assert shown[0].id == a.id;
        }
      }
    }
  }

  lemma {:induction false} SurvivorsHave(shown: seq<App>, target: seq<App>, id: int)
    requires HasId(shown, id) && HasId(target, id)
    ensures HasId(Survivors(shown, target), id)
  {
    hide Find;
    var rest, all := Survivors(shown[1..], target), Survivors(shown, target);
    if id == shown[0].id {
      assert all[0].id == id;
    } else {
      var k :| 0 <= k < |shown| && shown[k].id == id;
      assert shown[1..][k - 1].id == id;
      SurvivorsHave(shown[1..], target, id);
      var j :| 0 <= j < |rest| && rest[j].id == id;
      assert all[|all| - |rest| + j] == rest[j];
    }
  }

  lemma SurvivorIds(shown: seq<App>, target: seq<App>)
    ensures forall a :: a in Survivors(shown, target) ==> a in target && a.id in Ids(shown)
    ensures forall id :: id in Ids(shown) && HasId(target, id) ==> HasId(Survivors(shown, target), id)
  {
    hide Survivors;
    SurvivorsIn(shown, target);
    forall id | id in Ids(shown) && HasId(target, id) ensures HasId(Survivors(shown, target), id) {
      assert HasId(shown, id);
      SurvivorsHave(shown, target, id);
    }
  }

  lemma InsertDistinct(list: seq<App>, i: nat, a: App)
    requires i <= |list| && DistinctIds(InsertAt(list, i, a))
    ensures DistinctIds(list) && !HasId(list, a.id)
  {
    var r := InsertAt(list, i, a);
    assert forall k :: 0 <= k < |list| ==> list[k] == r[if k < i then k else k + 1];
    assert r[i] == a;
  }

  lemma InsertKeepsIds(list: seq<App>, i: nat, a: App, id: int)
    requires i <= |list| && HasId(list, id)
    ensures HasId(InsertAt(list, i, a), id)
  {
    var k :| 0 <= k < |list| && list[k].id == id;
    assert InsertAt(list, i, a)[if k < i then k else k + 1] == list[k];
  }

  /** If the result has distinct ids, nothing with a known id was inserted on the way. */
  lemma {:induction false} AddAllKeeps(lower: string -> string, list: seq<App>, target: seq<App>, ids: set<int>)
    requires DistinctIds(AddAll(lower, list, target))
    requires forall k :: 0 <= k < |target| && target[k].id in ids ==> HasId(list, target[k].id)
    ensures DistinctIds(list)
    ensures Keep(AddAll(lower, list, target), ids) == Keep(list, ids)
    decreases target
  {
    if target != [] {
      var next := AddOne(lower, list, target[0]);
      forall k | 0 <= k < |target[1..]| && target[1..][k].id in ids ensures HasId(next, target[1..][k].id) {
        assert target[1..][k] == target[k + 1];
        if next != list {
          InsertKeepsIds(list, InsertPos(lower, list, target[0], 0).value, target[0], target[k + 1].id);
        }
      }
      AddAllKeeps(lower, next, target[1..], ids);
      var i := InsertPos(lower, list, target[0], 0);
      if i.Some? {
        InsertDistinct(list, i.value, target[0]);
        KeepInsert(list, i.value, target[0], ids);
      }
    }
  }

  /** The scan passes over apps with other ids that a is not before. */
  lemma {:induction false} InsertPosSkips(lower: string -> string, list: seq<App>, a: App, from: nat, to: nat)
    requires from <= to <= |list|
    requires forall k :: from <= k < to ==> list[k].id != a.id && !Before(lower, a, list[k])
    ensures InsertPos(lower, list, a, from) == InsertPos(lower, list, a, to)
    decreases |list| - from
  {
    if from < to {
      InsertPosSkips(lower, list, a, from + 1, to);
    }
  }

  /** The visible list once k apps of the target are processed. */
  function Halfway(target: seq<App>, k: nat, ids: set<int>): seq<App>
    requires k <= |target|
  {
    target[..k] + Keep(target[k..], ids)
  }

  /** The app that InsertPos meets after the first k. */
  lemma NextKept(lower: string -> string, target: seq<App>, k: nat, ids: set<int>)
    requires k < |target| && DistinctIds(target) && Sorted(lower, target)
    ensures var list := Halfway(target, k, ids);
            InsertPos(lower, list, target[k], 0) == InsertPos(lower, list, target[k], k)
    ensures target[k].id in ids ==>
              AddOne(lower, Halfway(target, k, ids), target[k]) == Halfway(target, k, ids) == Halfway(target, k + 1, ids)
  {
    var list := Halfway(target, k, ids);
    InsertPosSkips(lower, list, target[k], 0, k);
    assert target[k..][1..] == target[k + 1..];
    if target[k].id in ids {
      assert list[k] == target[k];
      assert list == target[..k] + ([target[k]] + Keep(target[k + 1..], ids));
      assert target[..k + 1] == target[..k] + [target[k]];
    }
  }

  lemma KeptBehind(target: seq<App>, k: nat, ids: set<int>) returns (q: nat)
    requires k < |target| && target[k].id !in ids && Keep(target[k + 1..], ids) != []
    ensures k < q < |target| && Keep(target[k + 1..], ids)[0] == target[q] && target[q].id in ids
    ensures Halfway(target, k, ids) == target[..k] + Keep(target[k + 1..], ids)
  {
    var rest := Keep(target[k + 1..], ids);
    KeepIn(target[k + 1..], ids);
    assert rest[0] in rest;
    var r :| 0 <= r < |target[k + 1..]| && target[k + 1..][r] == rest[0];
    q := k + 1 + r;
    assert target[k..][1..] == target[k + 1..];
  }

  /** The list at step k, when the next app is new and another one stays. */
  lemma HalfwayAt(target: seq<App>, k: nat, ids: set<int>)
    requires k < |target| && DistinctIds(target) && target[k].id !in ids && Keep(target[k + 1..], ids) != []
    ensures var list, y := Halfway(target, k, ids), Keep(target[k + 1..], ids)[0];
            |list| > k && list[..k] == target[..k] && list[k] == y && y.id != target[k].id && y.id in ids &&
            (forall j :: 0 <= j < k ==> list[j].id != target[k].id && list[j].id != y.id && target[j] == list[j])
  {
    hide Keep, Halfway;
    var q := KeptBehind(target, k, ids);
    var rest := Keep(target[k + 1..], ids);
    assert (target[..k] + rest)[k] == rest[0] && (target[..k] + rest)[..k] == target[..k];
    forall j | 0 <= j < k ensures (target[..k] + rest)[j] == target[j] && target[j].id != target[k].id && target[j].id != target[q].id {
    }
  }

  lemma InsertBetween(target: seq<App>, k: nat, rest: seq<App>)
    requires k < |target|
    ensures InsertAt(target[..k] + rest, k, target[k]) == target[..k + 1] + rest
  {
    assert (target[..k] + rest)[..k] == target[..k] && (target[..k] + rest)[k..] == rest;
    assert target[..k + 1] == target[..k] + [target[k]];
  }

  lemma NewAppInserted(lower: string -> string, target: seq<App>, k: nat, ids: set<int>)
    requires k < |target| && DistinctIds(target) && Sorted(lower, target) && target[k].id !in ids
    requires Keep(target[k + 1..], ids) != [] ==> Before(lower, target[k], Keep(target[k + 1..], ids)[0])
    ensures AddOne(lower, Halfway(target, k, ids), target[k]) == Halfway(target, k + 1, ids)
  {
    var list, rest := Halfway(target, k, ids), Keep(target[k + 1..], ids);
    NextKept(lower, target, k, ids);
    assert target[k..][1..] == target[k + 1..];
    assert Keep(target[k..], ids) == rest;
    KeepIn(target[k + 1..], ids);
    if rest != [] {
      HalfwayAt(target, k, ids);
    }
    assert InsertPos(lower, list, target[k], k) == Some(k);
    assert Halfway(target, k + 1, ids) == target[..k + 1] + rest;
    InsertBetween(target, k, rest);
  }

  // ---------- Sufficient ----------

  lemma {:induction false} AddAllReaches(lower: string -> string, shown: seq<App>, target: seq<App>, k: nat)
    requires k <= |target| && DistinctIds(target) && Sorted(lower, target) && NoTieAhead(lower, shown, target)
    ensures AddAll(lower, Halfway(target, k, Ids(shown)), target[k..]) == target
    decreases |target| - k
  {
    var ids := Ids(shown);
    if k == |target| {
      assert target[..k] + [] == target;
    } else {
      if target[k].id in ids {
        NextKept(lower, target, k, ids);
      } else {
        var rest := Keep(target[k + 1..], ids);
        if rest != [] {
          KeepIn(target[k + 1..], ids);
          assert rest[0] in rest;
          var q :| 0 <= q < |target[k + 1..]| && target[k + 1..][q] == rest[0];
          assert target[k + 1 + q] == rest[0];
        }
        NewAppInserted(lower, target, k, ids);
      }
      assert target[k..][1..] == target[k + 1..] && target[k..][0] == target[k];
      hide Halfway, AddOne, Keep, Sorted, DistinctIds, NoTieAhead;
      AddAllReaches(lower, shown, target, k + 1);
    }
  }

  // ---------- Necessary ----------

  lemma InsertBehind(list: seq<App>, i: nat, a: App, k: nat)
    requires k < i <= |list|
    ensures var r := InsertAt(list, i, a);
            |r| == |list| + 1 && r[..k] == list[..k] && r[k] == list[k] && r[i] == a
  {
  }

  /** A scan that ends without a position has met the id. */
  lemma {:induction false} NotFound(lower: string -> string, list: seq<App>, a: App, from: nat)
    requires from <= |list| && InsertPos(lower, list, a, from) == None
    ensures HasId(list, a.id)
    decreases |list| - from
  {
    if from < |list| && list[from].id != a.id {
      NotFound(lower, list, a, from + 1);
    }
  }

  /** An app that is not before the next one that stays is inserted behind it. */
  lemma TieNext(lower: string -> string, list: seq<App>, x: App, k: nat)
    requires k < |list| && InsertPos(lower, list, x, 0) == InsertPos(lower, list, x, k)
    requires !Before(lower, x, list[k]) && list[k].id != x.id
    requires forall j :: 0 <= j < k ==> list[j].id != x.id && list[j].id != list[k].id
    ensures var next := AddOne(lower, list, x);
            |next| > k && next[..k] == list[..k] && next[k] == list[k] && HasId(next, x.id)
  {
    var next, pos := AddOne(lower, list, x), InsertPos(lower, list, x, k);
    if pos.Some? {
      InsertBehind(list, pos.value, x, k);
      assert next[pos.value] == x;
    } else {
      NotFound(lower, list, x, k);
    }
  }

  lemma KeepStarts(front: seq<App>, a: App, tail: seq<App>, ids: set<int>)
    requires a.id in ids && forall j :: 0 <= j < |front| ==> front[j].id !in ids
    ensures Keep(front + ([a] + tail), ids) != [] && Keep(front + ([a] + tail), ids)[0] == a
  {
    KeepConcat(front, [a] + tail, ids);
    KeepNothing(front, ids);
  }

  lemma StartsWith(list: seq<App>, k: nat, ids: set<int>)
    requires k < |list| && list[k].id in ids && forall j :: 0 <= j < k ==> list[j].id !in ids
    ensures Keep(list, ids) != [] && Keep(list, ids)[0] == list[k]
  {
    assert list == list[..k] + ([list[k]] + list[k + 1..]);
    KeepStarts(list[..k], list[k], list[k + 1..], ids);
  }

  /** Adding more apps keeps the order of two apps that are there. */
  lemma OrderKept(lower: string -> string, list: seq<App>, more: seq<App>, k: nat, x: App, both: set<int>)
    requires k < |list| && HasId(list, x.id) && list[k].id in both
    requires forall j :: 0 <= j < k ==> list[j].id !in both
    requires forall id :: id in both ==> id == x.id || id == list[k].id
    requires DistinctIds(AddAll(lower, list, more))
    ensures Keep(AddAll(lower, list, more), both) != [] && Keep(AddAll(lower, list, more), both)[0] == list[k]
  {
    StartsWith(list, k, both);
    assert HasId(list, list[k].id);
    hide Keep, AddAll;
    AddAllKeeps(lower, list, more, both);
  }

  lemma TieLost(lower: string -> string, target: seq<App>, k: nat, ids: set<int>)
    requires k < |target| && DistinctIds(target) && Sorted(lower, target) && target[k].id !in ids
    requires Keep(target[k + 1..], ids) != [] && !Before(lower, target[k], Keep(target[k + 1..], ids)[0])
    ensures AddAll(lower, Halfway(target, k, ids), target[k..]) != target
  {
    var list, x, y := Halfway(target, k, ids), target[k], Keep(target[k + 1..], ids)[0];
    var both := {x.id, y.id};
    HalfwayAt(target, k, ids);
    NextKept(lower, target, k, ids);
    assert target[k..][1..] == target[k + 1..];
    var next := AddOne(lower, list, x);
    assert AddAll(lower, list, target[k..]) == AddAll(lower, next, target[k + 1..]);
    hide *;
    TieNext(lower, list, x, k);
    if AddAll(lower, next, target[k + 1..]) == target {
      forall j | 0 <= j < k ensures next[j].id !in both && target[j].id !in both {
        assert next[..k][j] == list[..k][j];
      }
      OrderKept(lower, next, target[k + 1..], k, x, both);
      StartsWith(target, k, both);
    }
  }

  lemma {:induction false} FirstKept(list: seq<App>, ids: set<int>, q: nat) returns (first: nat)
    requires q < |list| && list[q].id in ids
    ensures first <= q && Keep(list, ids) != [] && Keep(list, ids)[0] == list[first]
  {
    if list[0].id in ids {
      first := 0;
    } else {
      first := FirstKept(list[1..], ids, q - 1);
      first := first + 1;
    }
  }

  lemma NoTieAt(lower: string -> string, target: seq<App>, k: nat, ids: set<int>)
    requires k < |target| && Sorted(lower, target)
    requires Keep(target[k + 1..], ids) != [] ==> Before(lower, target[k], Keep(target[k + 1..], ids)[0])
    ensures forall q :: k < q < |target| && target[q].id in ids ==> Before(lower, target[k], target[q])
  {
    forall q | k < q < |target| && target[q].id in ids ensures Before(lower, target[k], target[q]) {
      var first := FirstKept(target[k + 1..], ids, q - k - 1);
      LessTrans(lower(target[k].name), lower(target[k + 1 + first].name), lower(target[q].name));
    }
  }

  /** If the target is reached from the list at step k, no later step met a tie. */
  lemma {:induction false} AddAllOnlyReaches(lower: string -> string, target: seq<App>, k: nat, ids: set<int>)
    requires k <= |target| && DistinctIds(target) && Sorted(lower, target)
    requires AddAll(lower, Halfway(target, k, ids), target[k..]) == target
    ensures forall p, q :: k <= p < q < |target| && target[p].id !in ids && target[q].id in ids ==>
              Before(lower, target[p], target[q])
    decreases |target| - k
  {
    if k < |target| {
      assert target[k..][1..] == target[k + 1..];
      var rest := Keep(target[k + 1..], ids);
      if target[k].id in ids {
        NextKept(lower, target, k, ids);
      } else {
        if rest != [] && !Before(lower, target[k], rest[0]) {
          TieLost(lower, target, k, ids);
        }
        NewAppInserted(lower, target, k, ids);
        NoTieAt(lower, target, k, ids);
      }
      AddAllOnlyReaches(lower, target, k + 1, ids);
    }
  }

  /** updateAppList ends with the new visible list, which its final assertion claims, exactly
      when the apps that stay keep their relative order and no new app is put before one that
      stays with the same lower-cased name. */
  lemma ReconcileExact(lower: string -> string, shown: seq<App>, target: seq<App>)
    requires DistinctIds(target) && Sorted(lower, target)
    ensures Reconcile(lower, shown, target) == target <==> SameOrder(shown, target) && NoTieAhead(lower, shown, target)
  {
    var ids := Ids(shown);
    assert target[..0] + Keep(target, ids) == Keep(target, ids) && target[0..] == target;
    if SameOrder(shown, target) && NoTieAhead(lower, shown, target) {
      AddAllReaches(lower, shown, target, 0);
    }
    if Reconcile(lower, shown, target) == target {
      SurvivorIds(shown, target);
      var s := Survivors(shown, target);
      AddAllKeeps(lower, s, target, ids);
      KeepAll(s, ids);
      AddAllOnlyReaches(lower, target, 0, ids);
    }
  }

  // ---------- Strictly sorted names ----------

  predicate StrictlySorted(lower: string -> string, s: seq<App>) {
    forall i, j :: 0 <= i < j < |s| ==> Before(lower, s[i], s[j])
  }

  /** No app that stays changes its lower-cased name. */
  predicate NoRename(lower: string -> string, shown: seq<App>, target: seq<App>) {
    forall i, j :: 0 <= i < |shown| && 0 <= j < |target| && shown[i].id == target[j].id ==>
      lower(shown[i].name) == lower(target[j].name)
  }

  lemma SomeMember(s: seq<App>)
    ensures s == [] || exists x :: x in s
  {
    assert s != [] ==> s[0] in s;
  }

  lemma {:induction false} StrictlySortedEqual(lower: string -> string, a: seq<App>, b: seq<App>)
    requires StrictlySorted(lower, a) && StrictlySorted(lower, b)
    requires forall x :: x in a <==> x in b
    ensures a == b
  {
    if a == [] || b == [] {
      SomeMember(a);
      SomeMember(b);
    } else {
      assert a[0] in b && b[0] in a;
      if a[0] != b[0] {
        LessTotal(lower(a[0].name), lower(b[0].name));
      }
      LessTotal(lower(a[0].name), lower(a[0].name));
      assert a == [a[0]] + a[1..] && b == [b[0]] + b[1..];
      forall x ensures x in a[1..] <==> x in b[1..] {
        assert x in a <==> x in b;
        assert a[0] !in a[1..] && b[0] !in b[1..];
      }
      StrictlySortedEqual(lower, a[1..], b[1..]);
      assert a == [a[0]] + a[1..] && b == [b[0]] + b[1..];
    }
  }

  lemma {:induction false} KeepStrict(lower: string -> string, list: seq<App>, ids: set<int>)
    requires StrictlySorted(lower, list)
    ensures StrictlySorted(lower, Keep(list, ids))
    ensures forall a :: a in Keep(list, ids) <==> a in list && a.id in ids
  {
    hide Before;
    if list != [] {
      var rest := Keep(list[1..], ids);
      KeepStrict(lower, list[1..], ids);
      assert list == [list[0]] + list[1..];
      forall j | 0 <= j < |rest| ensures exists k :: 0 < k < |list| && list[k] == rest[j] {
        assert rest[j] in rest;
        var k :| 0 <= k < |list[1..]| && list[1..][k] == rest[j];
        assert list[k + 1] == rest[j];
      }
    }
  }

  lemma {:induction false} SurvivorsStrict(lower: string -> string, shown: seq<App>, target: seq<App>)
    requires StrictlySorted(lower, shown) && NoRename(lower, shown, target)
    ensures StrictlySorted(lower, Survivors(shown, target))
    ensures forall a :: a in Survivors(shown, target) ==>
              exists k :: 0 <= k < |shown| && lower(shown[k].name) == lower(a.name)
  {
    if shown != [] {
      var rest := Survivors(shown[1..], target);
      SurvivorsStrict(lower, shown[1..], target);
      forall a | a in rest
        ensures exists k :: 0 < k < |shown| && lower(shown[k].name) == lower(a.name)
      {
        var k :| 0 <= k < |shown[1..]| && lower(shown[1..][k].name) == lower(a.name);
        assert shown[k + 1] == shown[1..][k];
      }
    }
  }

  lemma {:induction false} FoundItself(target: seq<App>, a: App)
    requires DistinctIds(target) && a in target
    ensures Find(target, a.id) == Some(a)
  {
    if target[0] != a {
      FoundItself(target[1..], a);
      var k :| 0 <= k < |target| && target[k] == a;
    }
  }

  lemma {:induction false} SurvivorsAll(shown: seq<App>, target: seq<App>)
    requires DistinctIds(target)
    ensures forall a :: a in target && a.id in Ids(shown) ==> a in Survivors(shown, target)
  {
    if shown != [] {
      SurvivorsAll(shown[1..], target);
      forall a | a in target && a.id in Ids(shown) ensures a in Survivors(shown, target) {
        FoundItself(target, a);
        if shown[0].id != a.id {
          var k :| 0 <= k < |shown| && shown[k].id == a.id;
          assert shown[1..][k - 1].id == a.id;
        }
      }
    }
  }

  /** With strictly sorted names and no renames the new list is always reached. */
  lemma StrictNamesReach(lower: string -> string, shown: seq<App>, target: seq<App>)
    requires DistinctIds(target) && StrictlySorted(lower, shown) && StrictlySorted(lower, target)
    requires NoRename(lower, shown, target)
    ensures Reconcile(lower, shown, target) == target
  {
    var ids := Ids(shown);
    SurvivorsStrict(lower, shown, target);
    KeepStrict(lower, target, ids);
    SurvivorsAll(shown, target);
    SurvivorIds(shown, target);
    StrictlySortedEqual(lower, Survivors(shown, target), Keep(target, ids));
    forall i, j | 0 <= i < j < |target| ensures !Before(lower, target[j], target[i]) {
      LessTotal(lower(target[i].name), lower(target[j].name));
    }
    ReconcileExact(lower, shown, target);
  }

  /** The new list is not reached when a new app has the name of one that stays behind it ... */
  lemma TieNotReached(lower: string -> string)
    requires lower("a") == "a"
    ensures var a, b := App(1, "a", false, false, false, false), App(2, "a", false, false, false, false);
            DistinctIds([b, a]) && Sorted(lower, [b, a]) && Reconcile(lower, [a], [b, a]) == [a, b]
  {
    var a, b := App(1, "a", false, false, false, false), App(2, "a", false, false, false, false);
    LessTotal("a", "a");
    assert Survivors([a], [b, a]) == [a] by {
      assert Find([b, a], 1) == Find([b, a][1..], 1) == Some(a);
    }
    assert InsertPos(lower, [a], b, 0) == InsertPos(lower, [a], b, 1) == Some(1);
    assert AddOne(lower, [a], b) == [a, b] && AddOne(lower, [a, b], a) == [a, b];
    assert AddAll(lower, [a, b], [a]) == AddAll(lower, [a, b], []) by {
      assert [a][1..] == [];
    }
    assert AddAll(lower, [a], [b, a]) == AddAll(lower, [a, b], [a]) by {
      assert [b, a][1..] == [a];
    }
  }

  /** ... and when two apps exchange their names: one of them is then shown twice. */
  lemma SwapNotReached(lower: string -> string)
    requires lower("a") == "a" && lower("b") == "b"
    ensures var a, b := App(1, "a", false, false, false, false), App(2, "b", false, false, false, false);
            var x, y := a.(name := "b"), b.(name := "a");
            DistinctIds([y, x]) && StrictlySorted(lower, [a, b]) && StrictlySorted(lower, [y, x]) &&
            Reconcile(lower, [a, b], [y, x]) == [y, x, y]
  {
    var a, b := App(1, "a", false, false, false, false), App(2, "b", false, false, false, false);
    var x, y := a.(name := "b"), b.(name := "a");
    assert Less("a", "b");
    LessTotal("a", "b");
    assert Survivors([a, b], [y, x]) == [x, y] by {
      assert Find([y, x], 1) == Find([y, x][1..], 1) == Some(x) && Find([y, x], 2) == Some(y);
      assert [a, b][1..] == [b] && Survivors([b], [y, x]) == [y];
    }
    assert InsertPos(lower, [x, y], y, 0) == Some(0);
    assert InsertPos(lower, [y, x, y], x, 0) == InsertPos(lower, [y, x, y], x, 1) == None;
    assert AddAll(lower, [y, x, y], [x]) == AddAll(lower, [y, x, y], []) by {
      assert [x][1..] == [];
    }
    assert AddAll(lower, [x, y], [y, x]) == AddAll(lower, [y, x, y], [x]) by {
      assert AddOne(lower, [x, y], y) == [y, x, y];
      assert [y, x][1..] == [x];
    }
  }

  // ---------- For any lists ----------

  /** A new app goes before the first app with a larger name, or to the end; it is not added when
      its id is met before that. */
  lemma {:induction false} InsertPosExact(lower: string -> string, list: seq<App>, a: App, from: nat)
    requires from <= |list|
    ensures match InsertPos(lower, list, a, from)
            case Some(i) =>
              from <= i <= |list| && (forall k :: from <= k < i ==> list[k].id != a.id && !Before(lower, a, list[k]))
              && (i < |list| ==> list[i].id != a.id && Before(lower, a, list[i]))
            case None =>
              exists k :: from <= k < |list| && list[k].id == a.id && forall j :: from <= j < k ==> !Before(lower, a, list[j])
    decreases |list| - from
  {
    if from < |list| && list[from].id != a.id && !Before(lower, a, list[from]) {
      InsertPosExact(lower, list, a, from + 1);
    }
  }

  /** The apps that stay keep their order. */
  lemma {:induction false} SurvivorOrder(shown: seq<App>, target: seq<App>)
    ensures var kept := Keep(shown, Ids(target));
            |Survivors(shown, target)| == |kept|
            && forall k :: 0 <= k < |kept| ==> Survivors(shown, target)[k].id == kept[k].id
  {
    if shown != [] {
      SurvivorOrder(shown[1..], target);
      assert shown[0].id in Ids(target) <==> HasId(target, shown[0].id);
    }
  }

  lemma InsertedHasId(list: seq<App>, i: nat, a: App)
    requires i <= |list|
    ensures HasId(InsertAt(list, i, a), a.id)
  {
    assert InsertAt(list, i, a)[i] == a;
  }

  lemma AddOneContent(lower: string -> string, list: seq<App>, a: App)
    ensures forall x :: x in AddOne(lower, list, a) ==> x in list || x == a
    ensures HasId(AddOne(lower, list, a), a.id)
    ensures forall id :: HasId(list, id) ==> HasId(AddOne(lower, list, a), id)
  {
    hide Before, HasId;
    match InsertPos(lower, list, a, 0)
    case None =>
      NotFound(lower, list, a, 0);
    case Some(i) =>
      InsertedHasId(list, i, a);
      forall id | HasId(list, id) ensures HasId(InsertAt(list, i, a), id) {
        InsertKeepsIds(list, i, a, id);
      }
  }

  lemma {:induction false} AddAllContent(lower: string -> string, list: seq<App>, target: seq<App>)
    ensures forall x :: x in AddAll(lower, list, target) ==> x in list || x in target
    ensures forall k :: 0 <= k < |target| ==> HasId(AddAll(lower, list, target), target[k].id)
    ensures forall id :: HasId(list, id) ==> HasId(AddAll(lower, list, target), id)
    decreases target
  {
    hide HasId, AddOne;
    if target != [] {
      AddOneContent(lower, list, target[0]);
      AddAllContent(lower, AddOne(lower, list, target[0]), target[1..]);
      forall k | 0 <= k < |target| ensures HasId(AddAll(lower, list, target), target[k].id) {
        assert k > 0 ==> target[k] == target[1..][k - 1];
      }
    }
  }

  /** Whatever was shown and whatever the order: the grid then shows apps of the new list only,
      with their new data, and every id of the new list. */
  lemma ReconcileContent(lower: string -> string, shown: seq<App>, target: seq<App>)
    ensures forall a :: a in Reconcile(lower, shown, target) ==> a in target
    ensures forall k :: 0 <= k < |target| ==> HasId(Reconcile(lower, shown, target), target[k].id)
  {
    hide HasId;
    SurvivorIds(shown, target);
    AddAllContent(lower, Survivors(shown, target), target);
  }

  // ---------- The model object ----------

  /** The apps to show: not hidden, or hidden ones asked for or already on screen. */
  function Visible(showHidden: bool, shown: seq<App>, list: seq<App>): seq<App> {
    if list == [] then []
    else
      (if showHidden || !list[0].hidden || HasId(shown, list[0].id) then [list[0]] else [])
      + Visible(showHidden, shown, list[1..])
  }

  lemma {:induction false} VisibleExact(showHidden: bool, shown: seq<App>, list: seq<App>, a: App)
    ensures a in Visible(showHidden, shown, list) <==> a in list && (showHidden || !a.hidden || HasId(shown, a.id))
  {
    hide HasId;
    if list != [] {
      VisibleExact(showHidden, shown, list[1..], a);
      assert list == [list[0]] + list[1..];
    }
  }

  /** Each app is judged by itself, in order. */
  lemma {:induction false} VisibleConcat(showHidden: bool, shown: seq<App>, a: seq<App>, b: seq<App>)
    ensures Visible(showHidden, shown, a + b) == Visible(showHidden, shown, a) + Visible(showHidden, shown, b)
    ensures |a| == 1 ==> Visible(showHidden, shown, a) == if showHidden || !a[0].hidden || HasId(shown, a[0].id) then a else []
  {
    hide HasId;
    if a == [] {
      assert a + b == b;
    } else {
      assert (a + b)[1..] == a[1..] + b;
      VisibleConcat(showHidden, shown, a[1..], b);
    }
  }

  /** Leaving apps out keeps ids distinct and the list sorted. */
  lemma {:induction false} VisibleKeeps(lower: string -> string, showHidden: bool, shown: seq<App>, list: seq<App>)
    ensures DistinctIds(list) ==> DistinctIds(Visible(showHidden, shown, list))
    ensures Sorted(lower, list) ==> Sorted(lower, Visible(showHidden, shown, list))
  {
    hide HasId, Before;
    if list != [] {
      var rest := Visible(showHidden, shown, list[1..]);
      VisibleKeeps(lower, showHidden, shown, list[1..]);
      forall j | 0 <= j < |rest| ensures exists k :: 0 < k < |list| && list[k] == rest[j] {
        VisibleExact(showHidden, shown, list[1..], rest[j]);
        var k :| 0 <= k < |list[1..]| && list[1..][k] == rest[j];
        assert list[k + 1] == rest[j];
      }
    }
  }

  lemma VisibleStep(showHidden: bool, shown: seq<App>, list: seq<App>, i: nat, r: seq<App>)
    requires i < |list|
    ensures r + Visible(showHidden, shown, list[i..]) ==
            (if showHidden || !list[i].hidden || HasId(shown, list[i].id) then r + [list[i]] else r)
            + Visible(showHidden, shown, list[i + 1..])
  {
    hide HasId;
    assert list[i..][1..] == list[i + 1..];
  }

  /** The first list is shown as it is. */
  lemma FirstListReached(lower: string -> string, showHidden: bool, list: seq<App>)
    requires DistinctIds(list) && Sorted(lower, list)
    ensures Reconcile(lower, [], Visible(showHidden, [], list)) == Visible(showHidden, [], list)
  {
    var target := Visible(showHidden, [], list);
    VisibleKeeps(lower, showHidden, [], list);
    KeepNothing(target, Ids([]));
    ReconcileExact(lower, [], target);
  }

  /** From the server to the grid: whatever is known of the computer's list and on screen, after a
      server list with distinct ids the grid shows exactly the visible part of the merged list if
      and only if the apps that stay keep their order and no tie comes ahead of them. */
  lemma ServerListShown(lower: string -> string, known: seq<App>, server: seq<App>, showHidden: bool, shown: seq<App>)
    requires Sorted(lower, known) && DistinctIds(server)
    ensures var target := Visible(showHidden, shown, Merge(lower, known, server));
            Reconcile(lower, shown, target) == target <==> SameOrder(shown, target) && NoTieAhead(lower, shown, target)
  {
    hide Merge, Reconcile, SameOrder, NoTieAhead, Visible;
    MergeSorted(lower, known, server);
    VisibleKeeps(lower, showHidden, shown, Merge(lower, known, server));
    ReconcileExact(lower, shown, Visible(showHidden, shown, Merge(lower, known, server)));
  }

  /** One round of the first loop. */
  lemma SurvivorsStep(list: seq<App>, i: nat, target: seq<App>)
    requires i < |list|
    ensures list[..i] + Survivors(list[i..], target) ==
            match Find(target, list[i].id)
            case Some(a) => list[i := a][..i + 1] + Survivors(list[i := a][i + 1..], target)
            case None => (list[..i] + list[i + 1..])[..i] + Survivors((list[..i] + list[i + 1..])[i..], target)
  {
    assert list[i..][1..] == list[i + 1..];
    var rest := Survivors(list[i + 1..], target);
    match Find(target, list[i].id)
    case Some(a) =>
      assert list[i := a][i + 1..] == list[i + 1..];
      assert list[i := a][..i + 1] == list[..i] + [a];
      assert list[..i] + ([a] + rest) == list[..i] + [a] + rest;
    case None =>
      assert (list[..i] + list[i + 1..])[i..] == list[i + 1..];
      assert [] + rest == rest;
  }

  /** One round of the second loop. */
  lemma AddAllStep(lower: string -> string, list: seq<App>, target: seq<App>, k: nat)
    requires k < |target|
    ensures AddAll(lower, list, target[k..]) == AddAll(lower, AddOne(lower, list, target[k]), target[k + 1..])
  {
    hide AddOne;
    assert target[k..][1..] == target[k + 1..];
  }

  lemma AddAllDone(lower: string -> string, list: seq<App>)
    ensures AddAll(lower, list, []) == list
  {
  }

  /** One round of its inner loop. */
  lemma ScanStep(lower: string -> string, list: seq<App>, a: App, i: nat)
    requires i <= |list|
    ensures InsertPos(lower, list, a, i)
         == if i == |list| then Some(i) else if list[i].id == a.id then None
            else if Before(lower, a, list[i]) then Some(i) else InsertPos(lower, list, a, i + 1)
  {
  }

  class AppModel {
    const lower: string -> string
    var visibleApps: seq<App>
    var allApps: seq<App>
    var showHidden: bool

    method IsAppCurrentlyVisible(app: App) returns (r: bool)
      ensures r <==> HasId(visibleApps, app.id)
    {
      for i := 0 to |visibleApps|
        invariant forall k :: 0 <= k < i ==> visibleApps[k].id != app.id
      {
        if app.id == visibleApps[i].id {
          return true;
        }
      }
      return false;
    }

    method GetVisibleApps(appList: seq<App>) returns (r: seq<App>)
      ensures r == Visible(showHidden, visibleApps, appList)
    {
      hide HasId;
      r := [];
      assert appList[0..] == appList;
      for i := 0 to |appList|
        invariant r + Visible(showHidden, visibleApps, appList[i..]) == Visible(showHidden, visibleApps, appList)
      {
        VisibleStep(showHidden, visibleApps, appList, i, r);
        var current := IsAppCurrentlyVisible(appList[i]);
        if showHidden || !appList[i].hidden || current {
          r := r + [appList[i]];
        }
      }
    }

    /** The first loop of updateAppList: apps that are gone leave, the others get their new data. */
    method RemoveAndUpdate(newVisible: seq<App>) returns (edits: seq<Edit>)
      modifies this`visibleApps
      ensures visibleApps == Survivors(old(visibleApps), newVisible)
      ensures Announced(old(visibleApps), edits, visibleApps)
    {
      hide Replay, Effective;
      edits := [];
      NoEdits(visibleApps);
      var i := 0;
      while i < |visibleApps|
        invariant 0 <= i <= |visibleApps|
        invariant visibleApps[..i] + Survivors(visibleApps[i..], newVisible) == Survivors(old(visibleApps), newVisible)
        invariant Announced(old(visibleApps), edits, visibleApps)
        decreases |visibleApps| - i
      {
        ghost var list, before := visibleApps, edits;
        var existing := visibleApps[i];
        SurvivorsStep(list, i, newVisible);
        var found := false;
        var j := 0;
        while j < |newVisible| && !found
          invariant 0 <= j <= |newVisible|
          invariant !found ==> visibleApps == list && edits == before
          invariant !found ==> Find(newVisible[j..], existing.id) == Find(newVisible, existing.id)
          invariant found ==> |visibleApps| == |list| && Find(newVisible, existing.id) == Some(visibleApps[i])
          invariant found ==> visibleApps == list[i := visibleApps[i]] && Announced(old(visibleApps), edits, visibleApps)
        {
          assert newVisible[j..][1..] == newVisible[j + 1..];
          if existing.id == newVisible[j].id {
            if existing != newVisible[j] {
              assert list[i := newVisible[j]][i] != list[i];
              AnnounceOne(old(visibleApps), edits, list, Change(i, newVisible[j]));
              visibleApps := visibleApps[i := newVisible[j]];
              edits := edits + [Change(i, newVisible[j])];
            }
            found := true;
          }
          j := j + 1;
        }
        if !found {
          assert |list[..i] + list[i + 1..]| == |list| - 1;
          AnnounceOne(old(visibleApps), edits, list, Remove(i));
          visibleApps := visibleApps[..i] + visibleApps[i + 1..];
          edits := edits + [Remove(i)];
          i := i - 1;
        }
        i := i + 1;
      }
    }

    /** The second loop of updateAppList: a new app goes before the first app with a larger name. */
    method AddNew(newVisible: seq<App>) returns (edits: seq<Edit>)
      modifies this`visibleApps
      ensures visibleApps == AddAll(lower, old(visibleApps), newVisible)
      ensures Announced(old(visibleApps), edits, visibleApps)
    {
      hide Replay, Effective, AddAll, InsertPos, Before;
      edits := [];
      NoEdits(visibleApps);
      assert newVisible[0..] == newVisible;
      for k := 0 to |newVisible|
        invariant AddAll(lower, visibleApps, newVisible[k..]) == AddAll(lower, old(visibleApps), newVisible)
        invariant Announced(old(visibleApps), edits, visibleApps)
      {
        AddAllStep(lower, visibleApps, newVisible, k);
        ghost var list := visibleApps;
        var newApp := newVisible[k];
        var insertionIndex := |visibleApps|;
        var found, stop := false, false;
        var i := 0;
        while i < |visibleApps| && !found && !stop
          invariant 0 <= i <= |visibleApps|
          invariant visibleApps == list && (!found && !stop ==> insertionIndex == |visibleApps|)
          invariant !found && !stop ==> InsertPos(lower, visibleApps, newApp, 0) == InsertPos(lower, visibleApps, newApp, i)
          invariant found ==> InsertPos(lower, visibleApps, newApp, 0) == None
          invariant 0 <= insertionIndex <= |visibleApps|
          invariant stop && !found ==> InsertPos(lower, visibleApps, newApp, 0) == Some(insertionIndex)
        {
          ScanStep(lower, visibleApps, newApp, i);
          if visibleApps[i].id == newApp.id {
            found := true;
          } else if Before(lower, newApp, visibleApps[i]) {
            insertionIndex := i;
            stop := true;
          }
          i := i + 1;
        }
        ScanStep(lower, visibleApps, newApp, |visibleApps|);
        if !found {
          assert |visibleApps[..insertionIndex] + [newApp] + visibleApps[insertionIndex..]| == |visibleApps| + 1;
          AnnounceOne(old(visibleApps), edits, visibleApps, Add(insertionIndex, newApp));
          visibleApps := visibleApps[..insertionIndex] + [newApp] + visibleApps[insertionIndex..];
          edits := edits + [Add(insertionIndex, newApp)];
        }
      }
      assert newVisible[|newVisible|..] == [];
      AddAllDone(lower, visibleApps);
    }

    method UpdateAppList(newList: seq<App>) returns (edits: seq<Edit>)
      modifies this
      ensures allApps == newList && showHidden == old(showHidden)
      ensures visibleApps == Reconcile(lower, old(visibleApps), Visible(showHidden, old(visibleApps), newList))
      ensures Announced(old(visibleApps), edits, visibleApps)
    {
      allApps := newList;
      var newVisible := GetVisibleApps(newList);
      edits := RemoveAndUpdate(newVisible);
      ghost var list := visibleApps;
      var added := AddNew(newVisible);
      AnnounceMore(old(visibleApps), edits, list, added, visibleApps);
      edits := edits + added;
    }

    /** initialize, which runs the first update on the list of the computer. */
    constructor (lower: string -> string, showHidden: bool, appList: seq<App>)
      ensures this.lower == lower && this.showHidden == showHidden && allApps == appList
      ensures visibleApps == Reconcile(lower, [], Visible(showHidden, [], appList))
    {
      this.lower, this.showHidden, visibleApps, allApps := lower, showHidden, [], [];
      new;
      var edits := UpdateAppList(appList);
    }
  }
}
