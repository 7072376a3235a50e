/** The app list of a computer (app/backend/nvcomputer.cpp): merging a list from the server and
    sorting it. The lower-casing of names is any function. */
module AppList {
  datatype App = App(id: int, name: string, hdrSupported: bool, isAppCollectorGame: bool, hidden: bool, directLaunch: bool)

  /** The order of QString. */
  predicate Less(a: string, b: string) {
    b != [] && (a == [] || a[0] < b[0] || (a[0] == b[0] && Less(a[1..], b[1..])))
  }

  lemma {:induction false} LessTrans(a: string, b: string, c: string)
    ensures Less(a, b) && !Less(c, b) ==> Less(a, c)
    ensures !Less(a, a)
  {
    if a != [] && b != [] && c != [] {
      LessTrans(a[1..], b[1..], c[1..]);
    } else if a != [] {
      LessTrans(a[1..], a[1..], a[1..]);
    }
  }

  lemma {:induction false} LessTotal(a: string, b: string)
    ensures Less(a, b) || Less(b, a) || a == b
    ensures !(Less(a, b) && Less(b, a))
  {
    if a != [] && b != [] {
      LessTotal(a[1..], b[1..]);
      assert a == [a[0]] + a[1..] && b == [b[0]] + b[1..];
    }
  }

  predicate Before(lower: string -> string, a: App, b: App) {
    Less(lower(a.name), lower(b.name))
  }

  predicate Sorted(lower: string -> string, s: seq<App>) {
    forall i, j :: 0 <= i < j < |s| ==> !Before(lower, s[j], s[i])
  }

  predicate DistinctIds(s: seq<App>) {
    forall i, j :: 0 <= i < j < |s| ==> s[i].id != s[j].id
  }

  // ---------- Stable sorting ----------

  /** The apps whose lower-cased name is this key, in order. */
  function WithKey(lower: string -> string, s: seq<App>, key: string): seq<App> {
    if s == [] then []
    else (if lower(s[0].name) == key then [s[0]] else []) + WithKey(lower, s[1..], key)
  }

  /** r is s sorted by lower-cased name, with equal names in their old order. */
  ghost predicate StableSorted(lower: string -> string, s: seq<App>, r: seq<App>) {
    Sorted(lower, r) && forall key :: WithKey(lower, r, key) == WithKey(lower, s, key)
  }

  function Insert(lower: string -> string, a: App, s: seq<App>): seq<App> {
    if s == [] then [a]
    else if Before(lower, s[0], a) then [s[0]] + Insert(lower, a, s[1..])
    else [a] + s
  }

  function StableSort(lower: string -> string, s: seq<App>): seq<App> {
    if s == [] then [] else Insert(lower, s[0], StableSort(lower, s[1..]))
  }

  lemma {:induction false} InsertContent(lower: string -> string, a: App, s: seq<App>)
    ensures multiset(Insert(lower, a, s)) == multiset{a} + multiset(s)
  {
    hide Before;
    if s != [] {
      assert s == [s[0]] + s[1..];
      InsertContent(lower, a, s[1..]);
    }
  }

  lemma SortedCons(lower: string -> string, x: App, s: seq<App>, content: multiset<App>)
    requires Sorted(lower, s) && multiset(s) == content
    requires forall y :: y in content ==> !Before(lower, y, x)
    ensures Sorted(lower, [x] + s)
  {
    forall j | 0 <= j < |s| ensures !Before(lower, s[j], x) {
      assert s[j] in multiset(s);
    }
  }

  lemma {:induction false} InsertSorted(lower: string -> string, a: App, s: seq<App>)
    requires Sorted(lower, s)
    ensures Sorted(lower, Insert(lower, a, s))
  {
    if s != [] {
      if Before(lower, s[0], a) {
        InsertSorted(lower, a, s[1..]);
        InsertContent(lower, a, s[1..]);
        LessTotal(lower(s[0].name), lower(a.name));
        forall y | y in multiset{a} + multiset(s[1..]) ensures !Before(lower, y, s[0]) {
          if y != a {
            var k :| 0 <= k < |s[1..]| && s[1..][k] == y;
            assert s[k + 1] == y;
          }
        }
        SortedCons(lower, s[0], Insert(lower, a, s[1..]), multiset{a} + multiset(s[1..]));
      } else {
        forall x | x in s ensures !Before(lower, x, a) {
          var k :| 0 <= k < |s| && s[k] == x;
          LessTrans(lower(x.name), lower(a.name), lower(s[0].name));
        }
        SortedCons(lower, a, s, multiset(s));
      }
    }
  }

  lemma {:induction false} InsertWithKey(lower: string -> string, a: App, s: seq<App>, key: string)
    ensures WithKey(lower, Insert(lower, a, s), key) == WithKey(lower, [a] + s, key)
  {
    assert ([a] + s)[1..] == s;
    if s != [] && Before(lower, s[0], a) {
      InsertWithKey(lower, a, s[1..], key);
      LessTrans(lower(a.name), lower(a.name), lower(a.name));
      assert ([s[0]] + Insert(lower, a, s[1..]))[1..] == Insert(lower, a, s[1..]);
      assert ([a] + s[1..])[1..] == s[1..];
    }
  }

  lemma {:induction false} StableSortIs(lower: string -> string, s: seq<App>)
    ensures StableSorted(lower, s, StableSort(lower, s))
    ensures multiset(StableSort(lower, s)) == multiset(s)
  {
    if s != [] {
      var r := StableSort(lower, s[1..]);
      StableSortIs(lower, s[1..]);
      InsertSorted(lower, s[0], r);
      InsertContent(lower, s[0], r);
      assert s == [s[0]] + s[1..];
      forall key ensures WithKey(lower, StableSort(lower, s), key) == WithKey(lower, s, key) {
        InsertWithKey(lower, s[0], r, key);
        assert ([s[0]] + r)[1..] == r;
      }
    }
  }

  lemma HasOwnKey(lower: string -> string, s: seq<App>)
    ensures s != [] ==> exists key :: WithKey(lower, s, key) != []
  {
    if s != [] {
      assert WithKey(lower, s, lower(s[0].name)) != [];
    }
  }

  /** A key that occurs in a sorted list is not less than the first one. */
  lemma {:induction false} KeyLater(lower: string -> string, s: seq<App>, key: string)
    requires WithKey(lower, s, key) != []
    ensures exists k :: 0 <= k < |s| && lower(s[k].name) == key
    ensures Sorted(lower, s) ==> s != [] && !Less(key, lower(s[0].name))
  {
    if lower(s[0].name) != key {
      KeyLater(lower, s[1..], key);
      var k :| 0 <= k < |s[1..]| && lower(s[1..][k].name) == key;
      assert s[k + 1] == s[1..][k];
    } else {
      LessTrans(key, key, key);
      assert lower(s[0].name) == key;
    }
  }

  /** There is only one stable sort of a list. */
  lemma {:induction false} StableSortUnique(lower: string -> string, r: seq<App>, t: seq<App>)
    requires Sorted(lower, r) && Sorted(lower, t)
    requires forall key :: WithKey(lower, r, key) == WithKey(lower, t, key)
    ensures r == t
  {
    HasOwnKey(lower, t);
    if r != [] {
      var key := lower(r[0].name);
      assert WithKey(lower, r, key) != [];
      KeyLater(lower, t, key);
      assert t != [];
      var other := lower(t[0].name);
      KeyLater(lower, r, other);
      LessTotal(key, other);
      assert key == other;
      forall k ensures WithKey(lower, r[1..], k) == WithKey(lower, t[1..], k) {
        assert WithKey(lower, r, k) == WithKey(lower, t, k);
        assert [] + WithKey(lower, r[1..], k) == WithKey(lower, r[1..], k);
        assert [] + WithKey(lower, t[1..], k) == WithKey(lower, t[1..], k);
        if k == key {
          assert ([r[0]] + WithKey(lower, r[1..], k))[1..] == ([t[0]] + WithKey(lower, t[1..], k))[1..];
        }
      }
      assert ([r[0]] + WithKey(lower, r[1..], key))[0] == ([t[0]] + WithKey(lower, t[1..], key))[0];
      StableSortUnique(lower, r[1..], t[1..]);
    }
  }

  // ---------- Merging the server's list ----------

  function TakeFlags(existing: App, a: App): App {
    if existing.id == a.id then a.(hidden := existing.hidden, directLaunch := existing.directLaunch) else a
  }

  /** The app with the client-side flags of the last known app with this id. */
  function WithFlags(known: seq<App>, a: App): App {
    if known == [] then a
    else
      var last := known[|known| - 1];
      if last.id == a.id then a.(hidden := last.hidden, directLaunch := last.directLaunch)
      else WithFlags(known[..|known| - 1], a)
  }

  function Propagate(known: seq<App>, server: seq<App>): seq<App> {
    seq(|server|, i requires 0 <= i < |server| => WithFlags(known, server[i]))
  }

  function Merge(lower: string -> string, known: seq<App>, server: seq<App>): seq<App> {
    if known == server then known else StableSort(lower, Propagate(known, server))
  }

  lemma {:induction false} WithFlagsOf(known: seq<App>, a: App)
    ensures WithFlags(known, a) == a.(hidden := WithFlags(known, a).hidden, directLaunch := WithFlags(known, a).directLaunch)
    ensures DistinctIds(known) ==> forall k :: 0 <= k < |known| && known[k].id == a.id ==>
              WithFlags(known, a) == a.(hidden := known[k].hidden, directLaunch := known[k].directLaunch)
  {
    if known != [] {
      WithFlagsOf(known[..|known| - 1], a);
    }
  }

  lemma PropagatedIds(known: seq<App>, server: seq<App>)
    ensures forall i :: 0 <= i < |server| ==> Propagate(known, server)[i].id == server[i].id
  {
    forall i | 0 <= i < |server| ensures Propagate(known, server)[i].id == server[i].id {
      WithFlagsOf(known, server[i]);
    }
  }

  lemma {:induction false} AtMostOnce(s: seq<App>, a: App)
    requires DistinctIds(s)
    ensures multiset(s)[a] <= 1
  {
    if s != [] {
      assert s == [s[0]] + s[1..];
      AtMostOnce(s[1..], a);
      if s[0] == a {
        assert a !in s[1..];
      }
    }
  }

  lemma DistinctPermutation(s: seq<App>, r: seq<App>)
    requires DistinctIds(s) && multiset(r) == multiset(s)
    ensures DistinctIds(r)
  {
    forall i, j | 0 <= i < j < |r| ensures r[i].id != r[j].id {
      if r[i].id == r[j].id {
        assert r[i] in multiset(s) && r[j] in multiset(s);
        assert r[i] == r[j];
        assert r == r[..i] + [r[i]] + r[i + 1..j] + [r[j]] + r[j + 1..];
        assert multiset(r)[r[i]] >= 2;
        AtMostOnce(s, r[i]);
      }
    }
  }

  /** After an update the list is sorted, holds exactly the server's apps, and every app that
      was known keeps its hidden and directLaunch flags. */
  lemma MergeKeepsFlags(lower: string -> string, known: seq<App>, server: seq<App>)
    requires DistinctIds(known) && DistinctIds(server) && known != server
    ensures var r := Merge(lower, known, server);
            Sorted(lower, r) && multiset(r) == multiset(Propagate(known, server))
            && forall i, k :: 0 <= i < |server| && 0 <= k < |known| && known[k].id == server[i].id ==>
                 server[i].(hidden := known[k].hidden, directLaunch := known[k].directLaunch) in r
  {
    StableSortIs(lower, Propagate(known, server));
    var r := Merge(lower, known, server);
    forall i, k | 0 <= i < |server| && 0 <= k < |known| && known[k].id == server[i].id
      ensures server[i].(hidden := known[k].hidden, directLaunch := known[k].directLaunch) in r
    {
      WithFlagsOf(known, server[i]);
      assert Propagate(known, server)[i] in multiset(r);
    }
  }

  lemma SameHead(a: string, b: string, k: nat)
    requires k <= |a| && k <= |b| && a[..k] == b[..k]
    ensures k > 0 ==> a[0] == b[0]
  {
    if k > 0 {
      assert a[0] == a[..k][0] && b[0] == b[..k][0];
    }
  }

  /** a comes before b: at the first place where they differ, a ends or has the smaller
      character. */
  lemma {:induction false} LessExact(a: string, b: string)
    ensures Less(a, b) <==> exists k :: 0 <= k <= |a| && k < |b| && a[..k] == b[..k] && (k == |a| || a[k] < b[k])
  {
    if a != [] && b != [] && a[0] == b[0] {
      LessExact(a[1..], b[1..]);
      if Less(a, b) {
        var k :| 0 <= k <= |a[1..]| && k < |b[1..]| && a[1..][..k] == b[1..][..k] && (k == |a[1..]| || a[1..][k] < b[1..][k]);
        assert a[..k + 1] == [a[0]] + a[1..][..k] && b[..k + 1] == [b[0]] + b[1..][..k];
      }
      if k :| 0 <= k <= |a| && k < |b| && a[..k] == b[..k] && (k == |a| || a[k] < b[k]) {
        assert k > 0;
        assert a[1..][..k - 1] == a[..k][1..] && b[1..][..k - 1] == b[..k][1..];
      }
    } else if a != [] && b != [] {
      if k :| 0 <= k <= |a| && k < |b| && a[..k] == b[..k] && (k == |a| || a[k] < b[k]) {
        SameHead(a, b, k);
      }
      assert a[..0] == b[..0];
    } else {
      assert a[..0] == b[..0];
    }
  }

  /** The order of the list: lower-cased names, compared character by character. */
  lemma BeforeExact(lower: string -> string, a: App, b: App)
    ensures var x, y := lower(a.name), lower(b.name);
            Before(lower, a, b) <==> exists k :: 0 <= k <= |x| && k < |y| && x[..k] == y[..k] && (k == |x| || x[k] < y[k])
  {
    hide Less;
    LessExact(lower(a.name), lower(b.name));
  }

  lemma {:induction false} UnknownKept(known: seq<App>, a: App)
    requires forall k :: 0 <= k < |known| ==> known[k].id != a.id
    ensures WithFlags(known, a) == a
  {
    if known != [] {
      UnknownKept(known[..|known| - 1], a);
    }
  }

  lemma {:induction false} LastKnown(known: seq<App>, a: App, k: nat)
    requires k < |known| && known[k].id == a.id && forall m :: k < m < |known| ==> known[m].id != a.id
    ensures WithFlags(known, a) == a.(hidden := known[k].hidden, directLaunch := known[k].directLaunch)
  {
    if k < |known| - 1 {
      LastKnown(known[..|known| - 1], a, k);
    }
  }

  /** The whole result of an update, for any two different lists: it is the stable sort of the
      server's list in which an app that was not known is as the server sent it, and an app that
      was known has the two flags of its last known entry. */
  lemma MergeExact(lower: string -> string, known: seq<App>, server: seq<App>) returns (merged: seq<App>)
    requires known != server
    ensures |merged| == |server|
    ensures forall i :: 0 <= i < |server| && (forall k :: 0 <= k < |known| ==> known[k].id != server[i].id) ==>
              merged[i] == server[i]
    ensures forall i, k :: 0 <= i < |server| && 0 <= k < |known| && known[k].id == server[i].id
                           && (forall m :: k < m < |known| ==> known[m].id != server[i].id) ==>
              merged[i] == server[i].(hidden := known[k].hidden, directLaunch := known[k].directLaunch)
    ensures StableSorted(lower, merged, Merge(lower, known, server))
    ensures multiset(Merge(lower, known, server)) == multiset(merged)
  {
    hide WithFlags, StableSorted;
    merged := Propagate(known, server);
    StableSortIs(lower, merged);
    forall i | 0 <= i < |server| && (forall k :: 0 <= k < |known| ==> known[k].id != server[i].id)
      ensures merged[i] == server[i]
    {
      UnknownKept(known, server[i]);
    }
    forall i, k | 0 <= i < |server| && 0 <= k < |known| && known[k].id == server[i].id
                  && (forall m :: k < m < |known| ==> known[m].id != server[i].id)
      ensures merged[i] == server[i].(hidden := known[k].hidden, directLaunch := known[k].directLaunch)
    {
      LastKnown(known, server[i], k);
    }
  }

  /** A new app arrives as the server sent it. */
  lemma NewAppKept(lower: string -> string, known: seq<App>, server: seq<App>, i: nat)
    requires i < |server| && forall k :: 0 <= k < |known| ==> known[k].id != server[i].id
    ensures server[i] in Merge(lower, known, server)
  {
    if known != server {
      var merged := MergeExact(lower, known, server);
      assert merged[i] in multiset(merged);
      assert server[i] in multiset(Merge(lower, known, server));
    }
  }

  /** A sorted list stays sorted, and ids stay distinct. */
  lemma MergeSorted(lower: string -> string, known: seq<App>, server: seq<App>)
    requires Sorted(lower, known)
    ensures Sorted(lower, Merge(lower, known, server))
    ensures DistinctIds(server) ==> DistinctIds(Merge(lower, known, server))
  {
    if known != server {
      var p := Propagate(known, server);
      StableSortIs(lower, p);
      PropagatedIds(known, server);
      if DistinctIds(server) {
        DistinctPermutation(p, Merge(lower, known, server));
      }
    }
  }

  /** Applying the same server list again changes nothing. */
  lemma MergeIdempotent(lower: string -> string, known: seq<App>, server: seq<App>)
    requires DistinctIds(known) && DistinctIds(server)
    ensures Merge(lower, Merge(lower, known, server), server) == Merge(lower, known, server)
  {
    if known != server {
      var p, r := Propagate(known, server), Merge(lower, known, server);
      StableSortIs(lower, p);
      assert DistinctIds(p) by { PropagatedIds(known, server); }
      DistinctPermutation(p, r);
      forall i | 0 <= i < |server| ensures WithFlags(r, server[i]) == p[i] {
        assert p[i] in multiset(r);
        var k :| 0 <= k < |r| && r[k] == p[i];
        WithFlagsOf(known, server[i]);
        WithFlagsOf(r, server[i]);
      }
      assert Propagate(r, server) == p;
    }
  }

  class Computer {
    var appList: seq<App>
    const lower: string -> string

    /** std::stable_sort on the list. */
    method SortAppList()
      modifies this
      ensures StableSorted(lower, old(appList), appList) && appList == StableSort(lower, old(appList))
    {
      StableSortIs(lower, appList);
      appList := StableSort(lower, appList);
    }

    /** The constructor that reads a stored list and sorts it. */
    constructor (lower: string -> string, stored: seq<App>)
      ensures this.lower == lower && appList == StableSort(lower, stored) && Sorted(lower, appList)
    {
      this.lower := lower;
      appList := stored;
      new;
      SortAppList();
    }

    /** The inner loop: every new app with this id takes over the flags. */
    method CopyFlags(existing: App, list: seq<App>) returns (r: seq<App>)
      ensures |r| == |list|
      ensures forall j :: 0 <= j < |list| ==> r[j] == TakeFlags(existing, list[j])
    {
      r := list;
      for j := 0 to |list|
        invariant |r| == |list| && r[j..] == list[j..]
        invariant forall k :: 0 <= k < j ==> r[k] == TakeFlags(existing, list[k])
      {
        assert r[j] == r[j..][0] == list[j];
        if existing.id == r[j].id {
          r := r[j := r[j].(hidden := existing.hidden, directLaunch := existing.directLaunch)];
        }
      }
    }

    method UpdateAppList(server: seq<App>) returns (changed: bool)
      modifies this
      ensures appList == Merge(lower, old(appList), server) && changed == (old(appList) != server)
      ensures !changed ==> appList == old(appList)
    {
      if appList == server {
        return false;
      }
      var newList := server;
      for i := 0 to |appList|
        invariant appList == old(appList) && newList == Propagate(appList[..i], server)
      {
        newList := CopyFlags(appList[i], newList);
        forall j | 0 <= j < |server| ensures newList[j] == WithFlags(appList[..i + 1], server[j]) {
          assert appList[..i + 1][..i] == appList[..i];
          WithFlagsOf(appList[..i], server[j]);
        }
      }
      assert appList[..|appList|] == appList;
      appList := newList;
      SortAppList();
      return true;
    }
  }
}
