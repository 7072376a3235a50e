/** Runs of the login broker: any interleaving of logins, polls, callbacks (each split in two
    steps around its network requests), development logins, token checks and expiry. Random
    ids are new and not empty. */
module AuthRuns {
  import opened Wrappers
  import opened Auth

  type Hash = string -> string

  /** `read` is a clock reading taken before the lock, `at` is the time of the step. */
  datatype Event =
    | StartEvent(read: int, device: Option<(string, string)>, requestId: Option<string>, state: Option<string>)
    | StatusEvent(read: int, polled: string)
    | BeginEvent(checked: int, callbackState: string, flight: nat)
    | FinishEvent(flight: nat, exchange: Exchange)
    | DevEvent(enabled: bool, devDevice: Option<string>, devToken: Option<string>)
    | TokenEvent(read: int, presented: string)

  /** What has happened: a login was started, a callback accepted, the login failed or got a
      token, a session was opened for a token, a poll returned a token. */
  datatype Entry =
    | Began(requestId: string, state: string)
    | Took(state: string, requestId: string)
    | Failed(requestId: string)
    | Minted(requestId: string, token: string, profile: Profile)
    | Opened(token: string, owner: string, expiresAt: int)
    | Returned(requestId: string, token: string, profile: Profile)

  type Log = seq<Entry>

  /** The broker, the callbacks under way with their login requests, the log, every random id
      used so far, and the time. */
  datatype World = World(b: Broker, flights: map<nat, string>, log: Log, used: set<string>, now: int)

  function Apply(w: World, hash: Hash, e: Event, at: int): (Broker, Reply)
    requires e.FinishEvent? ==> e.flight in w.flights
  {
    match e
    case StartEvent(read, device, requestId, state) => Start(w.b, read, device, requestId, state)
    case StatusEvent(read, polled) => Status(w.b, read, polled)
    case BeginEvent(checked, callbackState, _) => Begin(w.b, checked, callbackState)
    case FinishEvent(flight, x) => Finish(w.b, hash, at, w.flights[flight], x)
    case DevEvent(enabled, device, token) => DevLogin(w.b, hash, enabled, at, device, token)
    case TokenEvent(read, _) => (Cleanup(w.b, read), SignedIn)
  }

  function News(w: World, e: Event, at: int, reply: Reply): Log
    requires e.FinishEvent? ==> e.flight in w.flights
  {
    match e
    case StartEvent(_, _, _, _) => if reply.Started? then [Began(reply.requestId, reply.state)] else []
    case StatusEvent(_, polled) => if reply.Authenticated? then [Returned(polled, reply.accessToken, reply.profile)] else []
    case BeginEvent(_, callbackState, _) => if reply.Accepted? then [Took(callbackState, reply.request)] else []
    case FinishEvent(flight, x) =>
      var r := w.flights[flight];
      if r !in w.b.pending then []
      else if x.Succeeded? then [Minted(r, x.token, x.profile), Opened(x.token, x.profile.id, at + COORDINATOR_SESSION_LIFETIME)]
      else [Failed(r)]
    case DevEvent(_, _, token) =>
      if reply.Authenticated? then [Opened(reply.accessToken, reply.profile.id, at + COORDINATOR_SESSION_LIFETIME)] else []
    case TokenEvent(_, _) => []
  }

  function Listed(o: Option<string>): seq<string> {
    if o.Some? then [o.value] else []
  }

  function NewIds(e: Event): seq<string> {
    match e
    case StartEvent(_, _, requestId, state) => Listed(requestId) + Listed(state)
    case FinishEvent(_, Succeeded(_, token)) => [token]
    case DevEvent(_, _, token) => Listed(token)
    case _ => []
  }

  function IdSet(e: Event): (r: set<string>)
    ensures e.StartEvent? && e.requestId.Some? && e.state.Some? ==>
              r == {e.requestId.value, e.state.value} && NewIds(e) == [e.requestId.value, e.state.value]
    ensures e.FinishEvent? && e.exchange.Succeeded? ==> r == {e.exchange.token} && NewIds(e) == [e.exchange.token]
    ensures e.DevEvent? && e.devToken.Some? ==> r == {e.devToken.value} && NewIds(e) == [e.devToken.value]
    ensures NewIds(e) == [] ==> r == {}
  {
    set id | id in NewIds(e)
  }

  function Flights(w: World, e: Event, reply: Reply): map<nat, string> {
    match e
    case BeginEvent(_, _, flight) => if reply.Accepted? then w.flights[flight := reply.request] else w.flights
    case FinishEvent(flight, _) => w.flights - {flight}
    case _ => w.flights
  }

  /** Fresh ids, known callbacks, and clock readings that are not from the future. The identity
      provider never gives an empty profile id: such a response counts as a failed exchange. */
  predicate Allowed(w: World, e: Event, at: int) {
    w.now <= at
    && (forall i :: 0 <= i < |NewIds(e)| ==> NewIds(e)[i] != "" && NewIds(e)[i] !in w.used)
    && (forall i, j :: 0 <= i < j < |NewIds(e)| ==> NewIds(e)[i] != NewIds(e)[j])
    && match e
       case StartEvent(read, _, _, _) => read <= at
       case StatusEvent(read, _) => read <= at
       case BeginEvent(_, _, flight) => flight !in w.flights
       case FinishEvent(flight, x) => flight in w.flights && (x.Succeeded? ==> x.profile.id != "")
       case DevEvent(_, _, _) => true
       case TokenEvent(read, _) => read <= at
  }

  function Step(w: World, hash: Hash, e: Event, at: int): World
    requires Allowed(w, e, at)
  {
    var (b, reply) := Apply(w, hash, e, at);
    World(b, Flights(w, e, reply), w.log + News(w, e, at, reply), w.used + IdSet(e), at)
  }

  // ---------- What must never happen ----------

  /** Two log entries that exclude each other: a state accepted twice, a login that ends twice
      (by failing or with a token), a token given out or returned twice. */
  predicate Clash(a: Entry, b: Entry) {
    match (a, b)
    case (Began(r, s), Began(q, t)) => r == q || s == t
    case (Took(s, r), Took(t, q)) => s == t || r == q
    case (Failed(r), Failed(q)) => r == q
    case (Failed(r), Minted(q, _, _)) => r == q
    case (Minted(r, _, _), Failed(q)) => r == q
    case (Minted(r, t, _), Minted(q, u, _)) => r == q || t == u
    case (Opened(t, _, _), Opened(u, _, _)) => t == u
    case (Returned(r, t, _), Returned(q, u, _)) => r == q || t == u
    case _ => false
  }

  predicate Once(log: Log) {
    forall i, j :: 0 <= i < j < |log| ==> !Clash(log[i], log[j])
  }

  /** Each entry rests on an earlier one: a callback on a started login with its state, an end
      on an accepted callback, a returned token on the end that made it. */
  ghost predicate Rests(e: Entry, before: Log) {
    match e
    case Began(_, _) => true
    case Took(s, r) => Began(r, s) in before
    case Failed(r) => exists s :: Took(s, r) in before
    case Minted(r, _, _) => exists s :: Took(s, r) in before
    case Opened(_, _, _) => true
    case Returned(r, t, p) => Minted(r, t, p) in before
  }

  ghost predicate Justified(log: Log) {
    forall i :: 0 <= i < |log| ==> Rests(log[i], log[..i])
  }

  // ---------- The invariant ----------

  /** The login has failed or got a token. */
  predicate Settled(log: Log, r: string) {
    exists e :: e in log && (e.Failed? || e.Minted?) && e.requestId == r
  }

  predicate Delivered(log: Log, r: string) {
    exists e :: e in log && e.Returned? && e.requestId == r
  }

  predicate Answered(log: Log, r: string) {
    exists e :: e in log && e.Took? && e.requestId == r
  }

  /** A login that still waits for its callback to end. */
  predicate Waiting(p: PendingAuth) {
    p.accessToken == "" && p.error == ""
  }

  /** Every entry of stateToRequest points to a pending login with that state that has no token
      and no error. */
  predicate Pointers(b: Broker) {
    (forall s :: s in b.stateToRequest ==>
       b.stateToRequest[s] in b.pending && b.pending[b.stateToRequest[s]].state == s
       && Waiting(b.pending[b.stateToRequest[s]]))
    && (forall r :: r in b.pending ==> b.pending[r].requestId == r)
    && (forall r, q :: r in b.pending && q in b.pending && r != q ==> b.pending[r].state != b.pending[q].state)
  }

  predicate LoginOk(p: PendingAuth, pointed: bool, log: Log) {
    Began(p.requestId, p.state) in log
    && (Waiting(p) ==> !Settled(log, p.requestId))
    && (p.accessToken != "" ==> Minted(p.requestId, p.accessToken, p.profile) in log && !Delivered(log, p.requestId))
    && (pointed ==> !Answered(log, p.requestId))
  }

  predicate FlightOk(b: Broker, log: Log, r: string) {
    Answered(log, r) && !Settled(log, r)
    && (r in b.pending ==> Waiting(b.pending[r]) && b.pending[r].state !in b.stateToRequest)
  }

  function IdsOf(e: Entry): set<string> {
    match e
    case Began(r, s) => {r, s}
    case Took(s, r) => {r, s}
    case Failed(r) => {r}
    case Minted(r, t, _) => {r, t}
    case Opened(t, _, _) => {t}
    case Returned(r, t, _) => {r, t}
  }

  predicate IdsUsed(log: Log, used: set<string>) {
    forall e :: e in log ==> IdsOf(e) <= used
  }

  predicate LoginsOk(b: Broker, log: Log) {
    forall r :: r in b.pending ==> LoginOk(b.pending[r], b.pending[r].state in b.stateToRequest, log)
  }

  predicate FlightsOk(b: Broker, flights: map<nat, string>, log: Log) {
    (forall f :: f in flights ==> FlightOk(b, log, flights[f]))
    && (forall f, g :: f in flights && g in flights && f != g ==> flights[f] != flights[g])
  }

  /** The maps, the callbacks under way and the log agree. */
  predicate Sound(b: Broker, flights: map<nat, string>, log: Log) {
    Pointers(b) && LoginsOk(b, log) && FlightsOk(b, flights, log)
  }

  ghost predicate GoodLog(log: Log, used: set<string>) {
    IdsUsed(log, used) && Once(log) && Justified(log)
  }

  ghost predicate Inv(w: World) {
    Sound(w.b, w.flights, w.log) && GoodLog(w.log, w.used) && "" !in w.used
  }

  // ---------- Steps ----------

  /** c has some of the logins and states of b. */
  predicate Smaller(b: Broker, c: Broker) {
    (forall r :: r in c.pending ==> r in b.pending && c.pending[r] == b.pending[r])
    && c.stateToRequest.Keys <= b.stateToRequest.Keys
    && (forall s :: s in c.stateToRequest ==> c.stateToRequest[s] == b.stateToRequest[s] && c.stateToRequest[s] in c.pending)
  }

  lemma SmallerKeeps(b: Broker, c: Broker, flights: map<nat, string>, log: Log)
    requires Sound(b, flights, log) && Smaller(b, c)
    ensures Sound(c, flights, log)
  {
    hide Settled, Delivered, Answered, Waiting;
  }

  lemma CleanupSmaller(b: Broker, now: int)
    requires Pointers(b)
    ensures Smaller(b, Cleanup(b, now)) && Pointers(Cleanup(b, now))
  {
    var c := Cleanup(b, now);
    forall s | s in c.stateToRequest ensures c.stateToRequest[s] in c.pending {
      var r := b.stateToRequest[s];
      assert b.pending[r].expiresAt <= now ==> s in ExpiredStates(b.pending, now);
    }
  }

  lemma LogGrows(log: Log, e: Entry, r: string)
    ensures Settled(log + [e], r) <==> Settled(log, r) || ((e.Failed? || e.Minted?) && e.requestId == r)
    ensures Delivered(log + [e], r) <==> Delivered(log, r) || (e.Returned? && e.requestId == r)
    ensures Answered(log + [e], r) <==> Answered(log, r) || (e.Took? && e.requestId == r)
  {
    assert forall x :: x in log + [e] <==> x in log || x == e;
    assert e in log + [e];
  }

  lemma LogAppend(log: Log, used: set<string>, e: Entry, ids: set<string>)
    requires GoodLog(log, used)
    requires IdsOf(e) <= used + ids && Rests(e, log)
    requires forall x :: x in log ==> !Clash(x, e)
    ensures GoodLog(log + [e], used + ids)
  {
    var more := log + [e];
    forall i | 0 <= i < |more| ensures Rests(more[i], more[..i]) {
      assert i < |log| ==> more[..i] == log[..i] && more[i] == log[i] && Rests(log[i], log[..i]);
      assert more[..|log|] == log;
    }
  }

  lemma Unused(log: Log, used: set<string>, r: string)
    requires IdsUsed(log, used) && r !in used
    ensures !Settled(log, r) && !Delivered(log, r) && !Answered(log, r)
    ensures forall e :: e in log ==> r !in IdsOf(e)
  {
  }

  lemma LoginsUsed(b: Broker, log: Log, used: set<string>)
    requires Pointers(b) && LoginsOk(b, log) && IdsUsed(log, used)
    ensures forall r :: r in b.pending ==> r in used && b.pending[r].state in used
  {
    hide Settled, Delivered, Answered, Waiting;
    forall r | r in b.pending ensures r in used && b.pending[r].state in used {
      assert LoginOk(b.pending[r], b.pending[r].state in b.stateToRequest, log);
      assert IdsOf(Began(r, b.pending[r].state)) <= used;
    }
  }

  /** The request that an entry is about. */
  function About(e: Entry): Option<string> {
    if e.Opened? then None else Some(e.requestId)
  }

  lemma LoginGrows(p: PendingAuth, pointed: bool, log: Log, e: Entry)
    requires LoginOk(p, pointed, log) && About(e) != Some(p.requestId)
    ensures LoginOk(p, pointed, log + [e])
  {
    LogGrows(log, e, p.requestId);
  }

  lemma FlightGrows(b: Broker, log: Log, r: string, e: Entry)
    requires FlightOk(b, log, r) && About(e) != Some(r)
    ensures FlightOk(b, log + [e], r)
  {
    LogGrows(log, e, r);
  }

  /** b and c differ in the login r only, and the entry is about r. */
  ghost predicate OnlyLogin(b: Broker, c: Broker, r: string) {
    (forall q :: q != r ==> (q in c.pending <==> q in b.pending))
    && (forall q :: q in c.pending && q != r ==> c.pending[q] == b.pending[q])
    && (forall q :: q in b.pending && q != r ==> (b.pending[q].state in c.stateToRequest <==> b.pending[q].state in b.stateToRequest))
  }

  /** Then only that login, and the callback that has it, need a look. */
  lemma OneLogin(b: Broker, c: Broker, flights: map<nat, string>, after: map<nat, string>, log: Log, e: Entry, r: string)
    requires Sound(b, flights, log) && OnlyLogin(b, c, r) && About(e) == Some(r) && Pointers(c)
    requires r in c.pending ==> LoginOk(c.pending[r], c.pending[r].state in c.stateToRequest, log + [e])
    requires forall f :: f in after && after[f] != r ==> f in flights && after[f] == flights[f]
    requires forall f :: f in after && after[f] == r ==> FlightOk(c, log + [e], r)
    requires forall f, g :: f in after && g in after && f != g ==> after[f] != after[g]
    ensures Sound(c, after, log + [e])
  {
    forall q | q in c.pending && q != r ensures LoginOk(c.pending[q], c.pending[q].state in c.stateToRequest, log + [e]) {
      LoginGrows(c.pending[q], c.pending[q].state in c.stateToRequest, log, e);
    }
    forall f | f in after && after[f] != r ensures FlightOk(c, log + [e], after[f]) {
      FlightGrows(b, log, after[f], e);
    }
  }

  lemma StartPointers(b: Broker, p: PendingAuth)
    requires Pointers(b) && Waiting(p) && p.requestId !in b.pending && p.state !in b.stateToRequest
    requires forall r :: r in b.pending ==> b.pending[r].state != p.state
    ensures Pointers(b.(pending := b.pending[p.requestId := p], stateToRequest := b.stateToRequest[p.state := p.requestId]))
  {
  }

  lemma StartSound(b: Broker, flights: map<nat, string>, log: Log, p: PendingAuth)
    requires Sound(b, flights, log) && Waiting(p) && p.accessToken == ""
    requires !Settled(log, p.requestId) && !Answered(log, p.requestId)
    requires p.requestId !in b.pending && p.state !in b.stateToRequest
    requires forall r :: r in b.pending ==> b.pending[r].state != p.state
    ensures Sound(b.(pending := b.pending[p.requestId := p], stateToRequest := b.stateToRequest[p.state := p.requestId]),
                  flights, log + [Began(p.requestId, p.state)])
  {
    var e := Began(p.requestId, p.state);
    var c := b.(pending := b.pending[p.requestId := p], stateToRequest := b.stateToRequest[p.state := p.requestId]);
    LogGrows(log, e, p.requestId);
    forall f | f in flights ensures flights[f] != p.requestId {
      assert FlightOk(b, log, flights[f]);
    }
    assert e in log + [e];
    assert LoginOk(p, true, log + [e]);
    StartPointers(b, p);
    hide Settled, Delivered, Answered, FlightOk, LoginOk, Pointers, Waiting;
    OneLogin(b, c, flights, flights, log, e, p.requestId);
  }

  lemma StartLogged(b: Broker, flights: map<nat, string>, log: Log, used: set<string>, r: string, s: string)
    requires Sound(b, flights, log) && GoodLog(log, used) && r !in used && s !in used
    ensures GoodLog(log + [Began(r, s)], used + {r, s})
    ensures !Settled(log, r) && !Answered(log, r) && r !in b.pending && s !in b.stateToRequest
    ensures forall q :: q in b.pending ==> b.pending[q].state != s
  {
    LoginsUsed(b, log, used);
    Unused(log, used, r);
    Unused(log, used, s);
    LogAppend(log, used, Began(r, s), {r, s});
  }

  /** A callback takes its state: the login waits for the callback now. */
  lemma BeginSound(b: Broker, flights: map<nat, string>, log: Log, s: string, f: nat)
    requires Sound(b, flights, log) && s in b.stateToRequest && f !in flights
    ensures var r := b.stateToRequest[s];
            Sound(b.(stateToRequest := b.stateToRequest - {s}), flights[f := r], log + [Took(s, r)])
  {
    var r := b.stateToRequest[s];
    var e := Took(s, r);
    var c := b.(stateToRequest := b.stateToRequest - {s});
    LogGrows(log, e, r);
    forall g | g in flights ensures flights[g] != r {
      assert FlightOk(b, log, flights[g]);
    }
    assert LoginOk(b.pending[r], true, log);
    assert LoginOk(c.pending[r], false, log + [e]) && FlightOk(c, log + [e], r);
    assert Pointers(c);
    hide Settled, Delivered, Answered, FlightOk, LoginOk, Waiting;
    OneLogin(b, c, flights, flights[f := r], log, e, r);
  }

  lemma TookFollows(log: Log, x: Entry)
    requires Justified(log) && x in log
    ensures x.Took? ==> Began(x.requestId, x.state) in log
    ensures x.Returned? ==> Minted(x.requestId, x.token, x.profile) in log
    ensures x.Failed? || x.Minted? ==> Answered(log, x.requestId)
  {
    var i :| 0 <= i < |log| && log[i] == x;
    assert Rests(log[i], log[..i]);
    forall y | y in log[..i] ensures y in log {
    }
    if x.Failed? || x.Minted? {
      var s :| Took(s, x.requestId) in log[..i];
      assert Took(s, x.requestId) in log;
    }
  }

  /** A state belongs to one login and a login to one state. */
  lemma StateOfLogin(log: Log, x: Entry, r: string, s: string)
    requires Once(log) && x.Took? && Began(x.requestId, x.state) in log && Began(r, s) in log
    ensures x.requestId == r <==> x.state == s
  {
    var i :| 0 <= i < |log| && log[i] == Began(x.requestId, x.state);
    var j :| 0 <= j < |log| && log[j] == Began(r, s);
    assert i < j ==> !Clash(log[i], log[j]);
    assert j < i ==> !Clash(log[j], log[i]);
  }

  lemma BeginLogged(b: Broker, flights: map<nat, string>, log: Log, used: set<string>, s: string)
    requires Sound(b, flights, log) && GoodLog(log, used) && s in b.stateToRequest
    ensures GoodLog(log + [Took(s, b.stateToRequest[s])], used)
  {
    var r := b.stateToRequest[s];
    LoginsUsed(b, log, used);
    assert LoginOk(b.pending[r], true, log);
    forall x | x in log && x.Took? ensures !Clash(x, Took(s, r)) {
      TookFollows(log, x);
      StateOfLogin(log, x, r, s);
    }
    LogAppend(log, used, Took(s, r), {});
    assert used + {} == used;
  }

  lemma SettledPointers(b: Broker, r: string, p: PendingAuth)
    requires Pointers(b) && r in b.pending && p.requestId == r && p.state == b.pending[r].state && p.state !in b.stateToRequest
    ensures Pointers(b.(pending := b.pending[r := p]))
  {
  }

  /** The callback ends: its login fails, or gets a token. */
  lemma FinishSound(b: Broker, flights: map<nat, string>, log: Log, f: nat, p: PendingAuth, e: Entry)
    requires Sound(b, flights, log) && f in flights && flights[f] in b.pending && !Delivered(log, flights[f])
    requires var q := b.pending[flights[f]];
             (e == Failed(q.requestId) && p == q.(error := p.error) && p.error != "")
             || (e == Minted(q.requestId, p.accessToken, p.profile) && p == q.(accessToken := p.accessToken, profile := p.profile)
                 && p.accessToken != "")
    ensures Sound(b.(pending := b.pending[flights[f] := p]), flights - {f}, log + [e])
  {
    var r := flights[f];
    var c := b.(pending := b.pending[r := p]);
    assert FlightOk(b, log, r);
    LogGrows(log, e, r);
    assert LoginOk(b.pending[r], false, log);
    assert e in log + [e];
    assert LoginOk(p, false, log + [e]);
    SettledPointers(b, r, p);
    hide Settled, Delivered, Answered, FlightOk, LoginOk, Waiting, Pointers;
    OneLogin(b, c, flights, flights - {f}, log, e, r);
  }

  lemma AnsweredRests(log: Log, r: string)
    ensures Answered(log, r) ==> exists s :: Took(s, r) in log
  {
    if Answered(log, r) {
      var e :| e in log && e.Took? && e.requestId == r;
      assert e == Took(e.state, r);
    }
  }

  lemma FinishLogged(b: Broker, flights: map<nat, string>, log: Log, used: set<string>, f: nat, e: Entry, ids: set<string>)
    requires Sound(b, flights, log) && GoodLog(log, used) && f in flights && flights[f] in b.pending
    requires e.Failed? || (e.Minted? && e.token !in used && ids == {e.token})
    requires e.requestId == flights[f]
    ensures GoodLog(log + [e], used + ids) && !Delivered(log, flights[f])
  {
    var r := flights[f];
    assert FlightOk(b, log, r);
    LoginsUsed(b, log, used);
    forall x | x in log ensures !Clash(x, e) && !(x.Returned? && x.requestId == r) {
      TookFollows(log, x);
      assert IdsOf(x) <= used;
    }
    AnsweredRests(log, r);
    LogAppend(log, used, e, ids);
  }

  /** A session is opened. */
  lemma OpenSound(b: Broker, c: Broker, flights: map<nat, string>, log: Log, e: Entry)
    requires Sound(b, flights, log) && c == b.(sessions := c.sessions) && e.Opened?
    ensures Sound(c, flights, log + [e])
  {
    forall r | r in b.pending ensures LoginOk(b.pending[r], b.pending[r].state in b.stateToRequest, log + [e]) {
      LoginGrows(b.pending[r], b.pending[r].state in b.stateToRequest, log, e);
    }
    forall f | f in flights ensures FlightOk(b, log + [e], flights[f]) {
      FlightGrows(b, log, flights[f], e);
    }
  }

  lemma OpenLogged(log: Log, used: set<string>, e: Entry, isNew: bool)
    requires GoodLog(log, used) && e.Opened?
    requires if isNew then e.token !in used else e.token in used && forall x :: x in log && x.Opened? ==> x.token != e.token
    ensures GoodLog(log + [e], used + {e.token})
  {
    forall x | x in log ensures !Clash(x, e) {
      assert IdsOf(x) <= used;
    }
    LogAppend(log, used, e, {e.token});
  }

  lemma FlightsApart(b: Broker, flights: map<nat, string>, log: Log)
    requires Sound(b, flights, log)
    ensures forall f, g :: f in flights && g in flights && f != g ==> flights[f] != flights[g]
  {
    hide Pointers, LoginsOk, FlightOk;
  }

  /** A login with a token has no callback under way. */
  lemma TokenSettled(b: Broker, flights: map<nat, string>, log: Log, r: string)
    requires Sound(b, flights, log) && r in b.pending && b.pending[r].accessToken != ""
    ensures forall f :: f in flights ==> flights[f] != r
  {
    var p := b.pending[r];
    assert LoginOk(p, p.state in b.stateToRequest, log);
    assert Settled(log, r);
    hide Settled, Delivered, Answered;
    forall f | f in flights ensures flights[f] != r {
      assert FlightOk(b, log, flights[f]);
    }
  }

  lemma ReturnSmaller(b: Broker, r: string)
    requires Pointers(b) && r in b.pending && b.pending[r].accessToken != ""
    ensures Smaller(b, b.(pending := b.pending - {r}, stateToRequest := b.stateToRequest - {b.pending[r].state}))
  {
  }

  /** A poll takes the token: the login leaves. */
  lemma ReturnSound(b: Broker, flights: map<nat, string>, log: Log, r: string)
    requires Sound(b, flights, log) && r in b.pending && b.pending[r].accessToken != ""
    ensures var p := b.pending[r];
            Sound(b.(pending := b.pending - {r}, stateToRequest := b.stateToRequest - {p.state}), flights,
                  log + [Returned(r, p.accessToken, p.profile)])
  {
    hide Settled, Delivered, Answered, FlightOk, LoginOk, Pointers, LoginsOk, FlightsOk, Smaller;
    var p := b.pending[r];
    var c := b.(pending := b.pending - {r}, stateToRequest := b.stateToRequest - {p.state});
    TokenSettled(b, flights, log, r);
    ReturnSmaller(b, r);
    SmallerKeeps(b, c, flights, log);
    FlightsApart(c, flights, log);
    OneLogin(c, c, flights, flights, log, Returned(r, p.accessToken, p.profile), r);
  }

  lemma TokenOfLogin(log: Log, x: Entry, r: string, t: string, profile: Profile)
    requires Once(log) && x.Returned? && Minted(x.requestId, x.token, x.profile) in log && Minted(r, t, profile) in log
    ensures x.token == t ==> x.requestId == r
  {
    var i :| 0 <= i < |log| && log[i] == Minted(x.requestId, x.token, x.profile);
    var j :| 0 <= j < |log| && log[j] == Minted(r, t, profile);
    assert i < j ==> !Clash(log[i], log[j]);
    assert j < i ==> !Clash(log[j], log[i]);
  }

  lemma ReturnLogged(b: Broker, flights: map<nat, string>, log: Log, used: set<string>, r: string)
    requires Sound(b, flights, log) && GoodLog(log, used) && r in b.pending && b.pending[r].accessToken != ""
    ensures var p := b.pending[r];
            GoodLog(log + [Returned(r, p.accessToken, p.profile)], used)
  {
    var p := b.pending[r];
    var e := Returned(r, p.accessToken, p.profile);
    assert LoginOk(p, p.state in b.stateToRequest, log);
    forall x | x in log && x.Returned? ensures !Clash(x, e) {
      TookFollows(log, x);
      TokenOfLogin(log, x, r, p.accessToken, p.profile);
    }
    assert IdsOf(Minted(r, p.accessToken, p.profile)) <= used;
    LogAppend(log, used, e, {});
    assert used + {} == used;
  }

  lemma CleanupSound(b: Broker, flights: map<nat, string>, log: Log, now: int)
    requires Sound(b, flights, log)
    ensures Sound(Cleanup(b, now), flights, log)
  {
    CleanupSmaller(b, now);
    SmallerKeeps(b, Cleanup(b, now), flights, log);
  }

  lemma MoreUsed(log: Log, used: set<string>, ids: set<string>)
    requires GoodLog(log, used)
    ensures GoodLog(log, used + ids) && log + [] == log
  {
  }

  lemma StartedStep(w: World, hash: Hash, e: Event, at: int)
    requires Allowed(w, e, at) && e.StartEvent? && Apply(w, hash, e, at).1.Started?
    ensures var (r, s, c) := (e.requestId.value, e.state.value, Cleanup(w.b, e.read));
            var p := PendingAuth(r, s, e.device.value.0, e.device.value.1, e.read + AUTH_REQUEST_LIFETIME, "", NO_PROFILE, "");
            Step(w, hash, e, at) ==
            World(c.(pending := c.pending[r := p], stateToRequest := c.stateToRequest[s := r]), w.flights,
                  w.log + [Began(r, s)], w.used + {r, s}, at)
            && r !in w.used && s !in w.used && r != "" && s != ""
            && Apply(w, hash, e, at).1 == Started(r, s, p.expiresAt)
  {
    hide Cleanup, IdSet;
    assert NewIds(e)[0] == e.requestId.value && NewIds(e)[1] == e.state.value;
  }

  lemma StartKeeps(w: World, hash: Hash, e: Event, at: int)
    requires Inv(w) && Allowed(w, e, at) && e.StartEvent?
    ensures Inv(Step(w, hash, e, at))
  {
    if Apply(w, hash, e, at).1.Started? {
      StartedStep(w, hash, e, at);
      hide Sound, GoodLog, Cleanup, Start, Step, Allowed, Apply;
      var r, s, c := e.requestId.value, e.state.value, Cleanup(w.b, e.read);
      var p := PendingAuth(r, s, e.device.value.0, e.device.value.1, e.read + AUTH_REQUEST_LIFETIME, "", NO_PROFILE, "");
      CleanupSound(w.b, w.flights, w.log, e.read);
      StartLogged(c, w.flights, w.log, w.used, r, s);
      StartSound(c, w.flights, w.log, p);
    } else {
      MoreUsed(w.log, w.used, IdSet(e));
      hide Sound, GoodLog;
    }
  }

  /** A login that has failed is not pointed to. */
  lemma LeaveSmaller(b: Broker, flights: map<nat, string>, log: Log, r: string)
    requires Sound(b, flights, log) && r in b.pending && b.pending[r].error != ""
    ensures Smaller(b, b.(pending := b.pending - {r}))
  {
  }

  lemma StatusKeeps(w: World, hash: Hash, e: Event, at: int)
    requires Inv(w) && Allowed(w, e, at) && e.StatusEvent?
    ensures Inv(Step(w, hash, e, at))
  {
    var c := Cleanup(w.b, e.read);
    CleanupSound(w.b, w.flights, w.log, e.read);
    MoreUsed(w.log, w.used, {});
    if e.polled in c.pending {
      assert c.pending[e.polled].requestId == e.polled;
      var p := c.pending[e.polled];
      if p.error != "" {
        LeaveSmaller(c, w.flights, w.log, e.polled);
        hide Sound, GoodLog, Cleanup;
        SmallerKeeps(c, c.(pending := c.pending - {e.polled}), w.flights, w.log);
      } else if p.accessToken != "" {
        hide Sound, GoodLog, Cleanup;
        ReturnSound(c, w.flights, w.log, e.polled);
        ReturnLogged(c, w.flights, w.log, w.used, e.polled);
      }
    }
  }

  lemma BeginStep(w: World, hash: Hash, e: Event, at: int)
    requires Inv(w) && Allowed(w, e, at) && e.BeginEvent?
    ensures var s, w' := e.callbackState, Step(w, hash, e, at);
            var c := w.b.(stateToRequest := w.b.stateToRequest - {s});
            if s !in w.b.stateToRequest then w' == w.(now := at)
            else
              w' == w.(now := at, b := c)
              || w' == w.(now := at, b := c, flights := w.flights[e.flight := w.b.stateToRequest[s]],
                          log := w.log + [Took(s, w.b.stateToRequest[s])])
    ensures e.callbackState in w.b.stateToRequest ==> w.b.stateToRequest[e.callbackState] in w.b.pending
  {
    LoginsUsed(w.b, w.log, w.used);
    MoreUsed(w.log, w.used, {});
    assert w.used + {} == w.used;
    assert "" !in w.b.pending;
    hide GoodLog, LoginsOk, FlightsOk;
  }

  lemma TakenSmaller(b: Broker, s: string)
    requires Pointers(b)
    ensures Smaller(b, b.(stateToRequest := b.stateToRequest - {s}))
  {
  }

  lemma BeginKeeps(w: World, hash: Hash, e: Event, at: int)
    requires Inv(w) && Allowed(w, e, at) && e.BeginEvent?
    ensures Inv(Step(w, hash, e, at))
  {
    var s, b := e.callbackState, w.b;
    BeginStep(w, hash, e, at);
    assert e.flight !in w.flights;
    hide Step, Allowed, GoodLog;
    if s in b.stateToRequest {
      var c := b.(stateToRequest := b.stateToRequest - {s});
      hide Pointers, LoginsOk, FlightsOk;
      TakenSmaller(b, s);
      SmallerKeeps(b, c, w.flights, w.log);
      BeginSound(b, w.flights, w.log, s, e.flight);
      BeginLogged(b, w.flights, w.log, w.used, s);
    }
  }

  lemma SucceededStep(w: World, hash: Hash, e: Event, at: int)
    requires Allowed(w, e, at) && e.FinishEvent? && e.exchange.Succeeded? && w.flights[e.flight] in w.b.pending
    ensures var r, x, until := w.flights[e.flight], e.exchange, at + COORDINATOR_SESSION_LIFETIME;
            Step(w, hash, e, at) ==
            World(w.b.(pending := w.b.pending[r := w.b.pending[r].(accessToken := x.token, profile := x.profile)],
                       sessions := w.b.sessions[hash(x.token) := Session(x.profile.id, x.profile, until)]),
                  w.flights - {e.flight},
                  w.log + [Minted(r, x.token, x.profile)] + [Opened(x.token, x.profile.id, until)],
                  w.used + {x.token}, at)
    ensures e.exchange.token !in w.used && e.exchange.token != ""
  {
    assert NewIds(e)[0] == e.exchange.token;
    var r, x := w.flights[e.flight], e.exchange;
    var minted, session := Minted(r, x.token, x.profile), Opened(x.token, x.profile.id, at + COORDINATOR_SESSION_LIFETIME);
    assert w.log + [minted, session] == w.log + [minted] + [session];
  }

  lemma OpenedUsed(log: Log, used: set<string>)
    requires GoodLog(log, used)
    ensures forall x :: x in log && x.Opened? ==> x.token in used
  {
    forall x | x in log && x.Opened? ensures x.token in used {
      assert IdsOf(x) <= used;
    }
  }

  lemma FlightKnown(w: World, e: Event, at: int)
    requires Allowed(w, e, at) && e.FinishEvent?
    ensures e.flight in w.flights
  {
  }

  /** A login under its own id, with a state that is not empty. */
  lemma LoginIds(w: World, r: string)
    requires Inv(w) && r in w.b.pending
    ensures w.b.pending[r].requestId == r && w.b.pending[r].state != ""
  {
    hide LoginsOk, FlightsOk, Once, Justified, IdsUsed;
    LoginsUsed(w.b, w.log, w.used);
  }

  lemma SucceededKeeps(w: World, hash: Hash, e: Event, at: int)
    requires Inv(w) && Allowed(w, e, at) && e.FinishEvent? && e.exchange.Succeeded? && w.flights[e.flight] in w.b.pending
    ensures Inv(Step(w, hash, e, at))
  {
    hide Sound, GoodLog, Step, Allowed;
    var f, x, b := e.flight, e.exchange, w.b;
    FlightKnown(w, e, at);
    SucceededStep(w, hash, e, at);
    var r := w.flights[f];
    LoginIds(w, r);
    var p := b.pending[r].(accessToken := x.token, profile := x.profile);
    var minted, session := Minted(r, x.token, x.profile), Opened(x.token, x.profile.id, at + COORDINATOR_SESSION_LIFETIME);
    OpenedUsed(w.log, w.used);
    FinishLogged(b, w.flights, w.log, w.used, f, minted, {x.token});
    FinishSound(b, w.flights, w.log, f, p, minted);
    OpenSound(b.(pending := b.pending[r := p]), Step(w, hash, e, at).b, w.flights - {f}, w.log + [minted], session);
    OpenLogged(w.log + [minted], w.used + {x.token}, session, false);
    assert w.used + {x.token} + {x.token} == w.used + {x.token};
  }

  lemma FewerFlights(b: Broker, flights: map<nat, string>, log: Log, f: nat)
    requires Sound(b, flights, log)
    ensures Sound(b, flights - {f}, log)
  {
    hide Pointers, LoginsOk, FlightOk;
  }

  lemma FailedStep(w: World, hash: Hash, e: Event, at: int)
    requires Allowed(w, e, at) && e.FinishEvent? && !e.exchange.Succeeded? && w.flights[e.flight] in w.b.pending
    ensures var r := w.flights[e.flight];
            var p := w.b.pending[r].(error := Message(e.exchange));
            Step(w, hash, e, at) ==
            World(w.b.(pending := w.b.pending[r := p]), w.flights - {e.flight}, w.log + [Failed(r)], w.used, at)
            && p.error != ""
  {
    hide IdSet;
    assert w.used + {} == w.used;
  }

  lemma FailedKeeps(w: World, hash: Hash, e: Event, at: int)
    requires Inv(w) && Allowed(w, e, at) && e.FinishEvent? && !e.exchange.Succeeded? && w.flights[e.flight] in w.b.pending
    ensures Inv(Step(w, hash, e, at))
  {
    hide Sound, GoodLog, Step, Allowed, Message;
    FlightKnown(w, e, at);
    FailedStep(w, hash, e, at);
    var r := w.flights[e.flight];
    LoginIds(w, r);
    FinishLogged(w.b, w.flights, w.log, w.used, e.flight, Failed(r), {});
    FinishSound(w.b, w.flights, w.log, e.flight, w.b.pending[r].(error := Message(e.exchange)), Failed(r));
    assert w.used + {} == w.used;
  }

  lemma GoneStep(w: World, hash: Hash, e: Event, at: int)
    requires Allowed(w, e, at) && e.FinishEvent? && w.flights[e.flight] !in w.b.pending
    ensures Step(w, hash, e, at) == World(w.b, w.flights - {e.flight}, w.log + [], w.used + IdSet(e), at)
    ensures "" !in IdSet(e)
  {
  }

  /** The login has expired in the meantime. */
  lemma GoneKeeps(w: World, hash: Hash, e: Event, at: int)
    requires Inv(w) && Allowed(w, e, at) && e.FinishEvent? && w.flights[e.flight] !in w.b.pending
    ensures Inv(Step(w, hash, e, at))
  {
    hide Sound, GoodLog, Step, Allowed, IdSet, NewIds;
    GoneStep(w, hash, e, at);
    MoreUsed(w.log, w.used, IdSet(e));
    FewerFlights(w.b, w.flights, w.log, e.flight);
  }

  lemma FinishKeeps(w: World, hash: Hash, e: Event, at: int)
    requires Inv(w) && Allowed(w, e, at) && e.FinishEvent?
    ensures Inv(Step(w, hash, e, at))
  {
    hide Inv, Step;
    if w.flights[e.flight] !in w.b.pending {
      GoneKeeps(w, hash, e, at);
    } else if e.exchange.Succeeded? {
      SucceededKeeps(w, hash, e, at);
    } else {
      FailedKeeps(w, hash, e, at);
    }
  }

  lemma DevKeeps(w: World, hash: Hash, e: Event, at: int)
    requires Inv(w) && Allowed(w, e, at) && e.DevEvent?
    ensures Inv(Step(w, hash, e, at))
  {
    var ids := IdSet(e);
    var (c, reply) := DevLogin(w.b, hash, e.enabled, at, e.devDevice, e.devToken);
    MoreUsed(w.log, w.used, ids);
    if reply.Authenticated? {
      var session := Opened(reply.accessToken, reply.profile.id, at + COORDINATOR_SESSION_LIFETIME);
      assert NewIds(e)[0] == reply.accessToken;
      hide Sound, GoodLog;
      OpenSound(w.b, c, w.flights, w.log, session);
      OpenLogged(w.log, w.used, session, true);
    }
  }

  lemma TokenKeeps(w: World, hash: Hash, e: Event, at: int)
    requires Inv(w) && Allowed(w, e, at) && e.TokenEvent?
    ensures Inv(Step(w, hash, e, at))
  {
    MoreUsed(w.log, w.used, {});
    hide Sound, GoodLog;
    CleanupSound(w.b, w.flights, w.log, e.read);
  }

  /** Every allowed step keeps the invariant. */
  lemma StepKeepsInv(w: World, hash: Hash, e: Event, at: int)
    requires Inv(w) && Allowed(w, e, at)
    ensures Inv(Step(w, hash, e, at))
  {
    hide Inv, Step, Allowed;
    match e
    case StartEvent(_, _, _, _) => StartKeeps(w, hash, e, at);
    case StatusEvent(_, _) => StatusKeeps(w, hash, e, at);
    case BeginEvent(_, _, _) => BeginKeeps(w, hash, e, at);
    case FinishEvent(_, _) => FinishKeeps(w, hash, e, at);
    case DevEvent(_, _, _) => DevKeeps(w, hash, e, at);
    case TokenEvent(_, _) => TokenKeeps(w, hash, e, at);
  }

  // ---------- Sessions ----------

  ghost predicate Injective(hash: Hash) {
    forall a, b :: hash(a) == hash(b) ==> a == b
  }

  predicate Holds(sessions: map<string, Session>, hash: Hash, e: Entry)
    requires e.Opened?
  {
    hash(e.token) in sessions && sessions[hash(e.token)].owner == e.owner && sessions[hash(e.token)].expiresAt == e.expiresAt
  }

  predicate HasOpened(log: Log, token: string, owner: string) {
    exists e :: e in log && e.Opened? && e.token == token && e.owner == owner
  }

  /** An unexpired session that was opened is stored under the hash of its token, and nothing
      else is stored; a token given to a login has a session of its profile. */
  ghost predicate SessionsOk(sessions: map<string, Session>, hash: Hash, log: Log, now: int) {
    (forall e :: e in log && e.Opened? ==> e.owner != "" && (e.expiresAt > now ==> Holds(sessions, hash, e)))
    && (forall h :: h in sessions ==> exists e :: e in log && e.Opened? && h == hash(e.token) && Holds(sessions, hash, e))
    && (forall e :: e in log && e.Minted? ==> HasOpened(log, e.token, e.profile.id))
  }

  lemma SessionsStay(sessions: map<string, Session>, fewer: map<string, Session>, hash: Hash, log: Log, more: Log, now: int, at: int)
    requires SessionsOk(sessions, hash, log, now) && now <= at
    requires forall e :: e in more ==> !e.Opened? && !e.Minted?
    requires forall h :: h in fewer ==> h in sessions && fewer[h] == sessions[h]
    requires forall h :: h in sessions && sessions[h].expiresAt > at ==> h in fewer
    ensures SessionsOk(fewer, hash, log + more, at)
  {
    forall h | h in fewer ensures exists e :: e in log + more && e.Opened? && h == hash(e.token) && Holds(fewer, hash, e) {
      var e :| e in log && e.Opened? && h == hash(e.token) && Holds(sessions, hash, e);
      assert e in log + more && Holds(fewer, hash, e);
    }
    forall e | e in log + more && e.Minted? ensures HasOpened(log + more, e.token, e.profile.id) {
      var x :| x in log && x.Opened? && x.token == e.token && x.owner == e.profile.id;
      assert x in log + more;
    }
  }

  lemma SessionOpens(sessions: map<string, Session>, hash: Hash, log: Log, front: Log, e: Entry, profile: Profile, now: int, at: int)
    requires SessionsOk(sessions, hash, log, now) && now <= at && Injective(hash)
    requires e.Opened? && e.owner != "" && forall x :: x in log && x.Opened? ==> x.token != e.token
    requires forall x :: x in front ==> x.Minted? && x.token == e.token && x.profile.id == e.owner
    ensures SessionsOk(sessions[hash(e.token) := Session(e.owner, profile, e.expiresAt)], hash, log + front + [e], at)
  {
    var more, all := sessions[hash(e.token) := Session(e.owner, profile, e.expiresAt)], log + front + [e];
    assert all[|all| - 1] == e;
    forall h | h in more ensures exists x :: x in all && x.Opened? && h == hash(x.token) && Holds(more, hash, x) {
      if h == hash(e.token) {
        assert e in all && Holds(more, hash, e);
      } else {
        var x :| x in log && x.Opened? && h == hash(x.token) && Holds(sessions, hash, x);
        assert x in all && Holds(more, hash, x);
      }
    }
    forall x | x in all && x.Minted? ensures HasOpened(all, x.token, x.profile.id) {
      if x in log {
        var y :| y in log && y.Opened? && y.token == x.token && y.owner == x.profile.id;
        assert y in all;
      } else {
        assert x in front;
        assert e in all;
      }
    }
  }

  lemma FinishOpens(w: World, hash: Hash, e: Event, at: int)
    requires Inv(w) && Allowed(w, e, at) && Injective(hash) && SessionsOk(w.b.sessions, hash, w.log, w.now)
    requires e.FinishEvent? && e.exchange.Succeeded? && w.flights[e.flight] in w.b.pending
    ensures var w' := Step(w, hash, e, at); SessionsOk(w'.b.sessions, hash, w'.log, w'.now)
  {
    var x := e.exchange;
    OpenedUsed(w.log, w.used);
    var minted, session := Minted(w.flights[e.flight], x.token, x.profile), Opened(x.token, x.profile.id, at + COORDINATOR_SESSION_LIFETIME);
    SucceededStep(w, hash, e, at);
    hide SessionsOk, Inv, Injective, Step;
    SessionOpens(w.b.sessions, hash, w.log, [minted], session, x.profile, w.now, at);
  }

  lemma DevOpens(w: World, hash: Hash, e: Event, at: int)
    requires Inv(w) && Allowed(w, e, at) && Injective(hash) && SessionsOk(w.b.sessions, hash, w.log, w.now)
    requires e.DevEvent? && Apply(w, hash, e, at).1.Authenticated?
    ensures var w' := Step(w, hash, e, at); SessionsOk(w'.b.sessions, hash, w'.log, w'.now)
  {
    var reply := Apply(w, hash, e, at).1;
    assert NewIds(e)[0] == reply.accessToken;
    OpenedUsed(w.log, w.used);
    var session := Opened(reply.accessToken, reply.profile.id, at + COORDINATOR_SESSION_LIFETIME);
    assert Step(w, hash, e, at).log == w.log + [] + [session];
    hide SessionsOk, Inv, Injective;
    SessionOpens(w.b.sessions, hash, w.log, [], session, reply.profile, w.now, at);
  }

  lemma OthersOpenNone(w: World, hash: Hash, e: Event, at: int)
    requires Allowed(w, e, at)
    requires !(e.FinishEvent? && e.exchange.Succeeded? && w.flights[e.flight] in w.b.pending)
    requires !(e.DevEvent? && Apply(w, hash, e, at).1.Authenticated?)
    ensures forall x :: x in News(w, e, at, Apply(w, hash, e, at).1) ==> !x.Opened? && !x.Minted?
  {
    hide NewIds, Cleanup;
  }

  /** The other steps open no session and drop expired ones at most. */
  lemma OthersStay(w: World, hash: Hash, e: Event, at: int)
    requires Allowed(w, e, at)
    requires !(e.FinishEvent? && e.exchange.Succeeded? && w.flights[e.flight] in w.b.pending)
    requires !(e.DevEvent? && Apply(w, hash, e, at).1.Authenticated?)
    ensures var (b, reply) := Apply(w, hash, e, at);
            (forall x :: x in News(w, e, at, reply) ==> !x.Opened? && !x.Minted?)
            && (forall h :: h in b.sessions ==> h in w.b.sessions && b.sessions[h] == w.b.sessions[h])
            && (forall h :: h in w.b.sessions && w.b.sessions[h].expiresAt > at ==> h in b.sessions)
  {
    hide NewIds, News;
    OthersOpenNone(w, hash, e, at);
  }

  lemma StepKeepsSessions(w: World, hash: Hash, e: Event, at: int)
    requires Inv(w) && Allowed(w, e, at) && Injective(hash) && SessionsOk(w.b.sessions, hash, w.log, w.now)
    ensures var w' := Step(w, hash, e, at); SessionsOk(w'.b.sessions, hash, w'.log, w'.now)
  {
    if e.FinishEvent? && e.exchange.Succeeded? && w.flights[e.flight] in w.b.pending {
      FinishOpens(w, hash, e, at);
    } else if e.DevEvent? && Apply(w, hash, e, at).1.Authenticated? {
      DevOpens(w, hash, e, at);
    } else {
      OthersStay(w, hash, e, at);
      hide SessionsOk, Inv, Injective, Apply, News;
      var (b, reply) := Apply(w, hash, e, at);
      SessionsStay(w.b.sessions, b.sessions, hash, w.log, News(w, e, at, reply), w.now, at);
    }
  }

  // ---------- Whole runs ----------

  type Run = seq<(Event, int)>

  /** The states along a run. */
  predicate AllowedRun(w: World, hash: Hash, run: Run)
    decreases run
  {
    run == []
    || (Allowed(w, run[0].0, run[0].1) && AllowedRun(Step(w, hash, run[0].0, run[0].1), hash, run[1..]))
  }

  function After(w: World, hash: Hash, run: Run): World
    requires AllowedRun(w, hash, run)
    decreases run
  {
    if run == [] then w else After(Step(w, hash, run[0].0, run[0].1), hash, run[1..])
  }

  /** A broker that starts; it keeps nothing over a restart. */
  function Initial(now: int): World {
    World(Broker(map[], map[], map[]), map[], [], {}, now)
  }

  ghost predicate Reachable(w: World, hash: Hash) {
    exists start, run :: AllowedRun(Initial(start), hash, run) && w == After(Initial(start), hash, run)
  }

  lemma {:induction false} RunKeeps(w: World, hash: Hash, run: Run)
    requires Inv(w) && AllowedRun(w, hash, run)
    ensures Inv(After(w, hash, run))
    ensures Injective(hash) && SessionsOk(w.b.sessions, hash, w.log, w.now) ==>
              var w' := After(w, hash, run); SessionsOk(w'.b.sessions, hash, w'.log, w'.now)
    decreases run
  {
    hide Inv, Step, Allowed, SessionsOk, Injective;
    if run != [] {
      StepKeepsInv(w, hash, run[0].0, run[0].1);
      if Injective(hash) && SessionsOk(w.b.sessions, hash, w.log, w.now) {
        StepKeepsSessions(w, hash, run[0].0, run[0].1);
      }
      RunKeeps(Step(w, hash, run[0].0, run[0].1), hash, run[1..]);
    }
  }

  lemma ReachableInv(w: World, hash: Hash)
    requires Reachable(w, hash)
    ensures Inv(w)
    ensures Injective(hash) ==> SessionsOk(w.b.sessions, hash, w.log, w.now)
  {
    var start, run :| AllowedRun(Initial(start), hash, run) && w == After(Initial(start), hash, run);
    assert Inv(Initial(start)) && SessionsOk(Initial(start).b.sessions, hash, Initial(start).log, start);
    hide Inv, SessionsOk, Injective, AllowedRun, After;
    RunKeeps(Initial(start), hash, run);
  }

  /** Login single use, in every reachable state: a state is accepted by one callback at most, a
      login fails or gets one token but never both, a token is returned by one poll at most,
      each of these rests on the step before it, and every entry of stateToRequest points to a
      pending login with that state that has no token and no error. */
  lemma LoginSingleUse(w: World, hash: Hash)
    requires Reachable(w, hash)
    ensures Once(w.log) && Justified(w.log) && Pointers(w.b)
  {
    hide Reachable;
    ReachableInv(w, hash);
  }

  /** A token that is presented belongs to an unexpired session that was opened for it, and an
      unexpired session is found. */
  lemma TokenExact(w: World, hash: Hash, token: string, read: int, at: int)
    requires Reachable(w, hash) && Injective(hash) && read <= at && w.now <= at
    ensures var o := OwnerOf(w.b, hash, read, token);
            (o != "" ==> exists x :: Opened(token, o, x) in w.log && x > read)
            && (forall owner, x :: Opened(token, owner, x) in w.log && x > at ==> o == owner)
  {
    hide Reachable, Inv;
    ReachableInv(w, hash);
    var o := OwnerOf(w.b, hash, read, token);
    if o != "" {
      var e :| e in w.log && e.Opened? && hash(token) == hash(e.token) && Holds(w.b.sessions, hash, e);
      assert e == Opened(token, o, e.expiresAt);
    }
    forall owner, x | Opened(token, owner, x) in w.log && x > at ensures o == owner {
      assert Holds(w.b.sessions, hash, Opened(token, owner, x));
    }
  }

  /** A token that a poll returned stands for the profile that came with it until its session
      expires. */
  lemma ReturnedTokenWorks(w: World, hash: Hash, r: string, token: string, profile: Profile, read: int, at: int) returns (expiry: int)
    requires Reachable(w, hash) && Injective(hash) && read <= at && w.now <= at
    requires Returned(r, token, profile) in w.log
    ensures Opened(token, profile.id, expiry) in w.log
    ensures at < expiry ==> OwnerOf(w.b, hash, read, token) == profile.id
  {
    hide Reachable, Injective, Once;
    ReachableInv(w, hash);
    TookFollows(w.log, Returned(r, token, profile));
    assert HasOpened(w.log, token, profile.id);
    var e :| e in w.log && e.Opened? && e.token == token && e.owner == profile.id;
    expiry := e.expiresAt;
    assert e == Opened(token, profile.id, expiry);
    TokenExact(w, hash, token, read, at);
  }

  // ---------- A login completes ----------

  /** The steps that are about the login r: its callback, the end of that callback, and a poll
      once it is settled. */
  predicate Disturbs(w: World, e: Event, r: string)
    requires r in w.b.pending
  {
    match e
    case BeginEvent(_, s, _) => s == w.b.pending[r].state
    case FinishEvent(f, _) => f in w.flights && w.flights[f] == r
    case StatusEvent(_, polled) => polled == r && !Waiting(w.b.pending[r])
    case _ => false
  }

  /** Where a login is: its state awaits a callback, a callback has it, or it is settled. */
  datatype Place = Awaiting | Taken(flight: nat) | Ended

  predicate Stage(w: World, r: string, p: PendingAuth, place: Place) {
    r in w.b.pending && w.b.pending[r] == p && p.requestId == r
    && match place
       case Awaiting => p.state in w.b.stateToRequest && w.b.stateToRequest[p.state] == r
       case Taken(f) => f in w.flights && w.flights[f] == r
       case Ended => true
  }

  /** A cleanup before the login expires keeps it and its state. */
  lemma CleanupStage(w: World, now: int, r: string, p: PendingAuth, place: Place)
    requires Pointers(w.b) && Stage(w, r, p, place) && now < p.expiresAt
    ensures Stage(w.(b := Cleanup(w.b, now)), r, p, place)
  {
    forall q | q in w.b.pending && w.b.pending[q].state == p.state ensures q == r {
    }
  }

  lemma StartedStays(w: World, hash: Hash, e: Event, at: int, r: string, p: PendingAuth, place: Place)
    requires Allowed(w, e, at) && e.StartEvent? && Apply(w, hash, e, at).1.Started?
    requires r in w.used && p.state in w.used && Stage(w.(b := Cleanup(w.b, e.read)), r, p, place)
    ensures Stage(Step(w, hash, e, at), r, p, place)
  {
    StartedStep(w, hash, e, at);
    hide Cleanup, Step, Allowed, Apply;
  }

  lemma StartStays(w: World, hash: Hash, e: Event, at: int, r: string, p: PendingAuth, place: Place)
    requires Inv(w) && Allowed(w, e, at) && Stage(w, r, p, place) && at < p.expiresAt && e.StartEvent?
    ensures Stage(Step(w, hash, e, at), r, p, place)
  {
    if Apply(w, hash, e, at).1.Started? {
      LoginsUsed(w.b, w.log, w.used);
      CleanupStage(w, e.read, r, p, place);
      hide Inv, Cleanup, Step, Apply;
      StartedStays(w, hash, e, at, r, p, place);
    }
  }

  /** A poll of another login removes that login and its state. */
  lemma LeavesOthers(c: Broker, polled: string, r: string, after: Broker)
    requires Pointers(c) && polled in c.pending && r in c.pending && polled != r
    requires after == c || after == c.(pending := c.pending - {polled})
             || after == c.(pending := c.pending - {polled}, stateToRequest := c.stateToRequest - {c.pending[polled].state})
    ensures r in after.pending && after.pending[r] == c.pending[r]
    ensures c.pending[r].state in c.stateToRequest ==>
              c.pending[r].state in after.stateToRequest && after.stateToRequest[c.pending[r].state] == c.stateToRequest[c.pending[r].state]
  {
  }

  /** A poll only cleans up, or also removes the login, which has then failed or got a token. */
  lemma StatusForms(b: Broker, read: int, polled: string)
    requires Pointers(b)
    ensures var c, after := Cleanup(b, read), Status(b, read, polled).0;
            Pointers(c)
            && (after == c
                || (polled in c.pending && !Waiting(c.pending[polled])
                    && (after == c.(pending := c.pending - {polled})
                        || after == c.(pending := c.pending - {polled}, stateToRequest := c.stateToRequest - {c.pending[polled].state}))))
  {
    hide Cleanup;
    CleanupSmaller(b, read);
  }

  lemma StatusStays(w: World, hash: Hash, e: Event, at: int, r: string, p: PendingAuth, place: Place)
    requires Inv(w) && Allowed(w, e, at) && Stage(w, r, p, place) && at < p.expiresAt && !Disturbs(w, e, r) && e.StatusEvent?
    ensures Stage(Step(w, hash, e, at), r, p, place)
  {
    hide Pointers, LoginsOk, FlightsOk, GoodLog, Cleanup, News, Status, Waiting;
    var c, after := Cleanup(w.b, e.read), Status(w.b, e.read, e.polled).0;
    CleanupStage(w, e.read, r, p, place);
    StatusForms(w.b, e.read, e.polled);
    if after != c {
      LeavesOthers(c, e.polled, r, after);
    }
  }

  lemma OtherStays(w: World, hash: Hash, e: Event, at: int, r: string, p: PendingAuth, place: Place)
    requires Allowed(w, e, at) && Stage(w, r, p, place) && !Disturbs(w, e, r) && (e.BeginEvent? || e.FinishEvent? || e.DevEvent?)
    ensures Stage(Step(w, hash, e, at), r, p, place)
  {
    hide News;
  }

  /** Whatever else goes on before the login expires leaves it as it is. */
  lemma StageStays(w: World, hash: Hash, e: Event, at: int, r: string, p: PendingAuth, place: Place)
    requires Inv(w) && Allowed(w, e, at) && Stage(w, r, p, place) && at < p.expiresAt && !Disturbs(w, e, r)
    ensures Stage(Step(w, hash, e, at), r, p, place)
  {
    hide News, GoodLog, Start, Status, Begin, Finish, DevLogin;
    match e
    case StartEvent(_, _, _, _) => StartStays(w, hash, e, at, r, p, place);
    case StatusEvent(_, _) => StatusStays(w, hash, e, at, r, p, place);
    case TokenEvent(_, _) => CleanupStage(w, e.read, r, p, place);
    case _ => OtherStays(w, hash, e, at, r, p, place);
  }

  /** A run before `until` in which no step is about the login r. */
  predicate Quiet(w: World, hash: Hash, run: Run, r: string, until: int)
    decreases run
  {
    run == []
    || (Allowed(w, run[0].0, run[0].1) && run[0].1 < until && r in w.b.pending && !Disturbs(w, run[0].0, r)
        && Quiet(Step(w, hash, run[0].0, run[0].1), hash, run[1..], r, until))
  }

  lemma {:induction false} QuietKeeps(w: World, hash: Hash, run: Run, r: string, p: PendingAuth, place: Place)
    requires Inv(w) && Stage(w, r, p, place) && Quiet(w, hash, run, r, p.expiresAt)
    ensures AllowedRun(w, hash, run)
    ensures var w' := After(w, hash, run); Inv(w') && Stage(w', r, p, place)
    decreases run
  {
    hide Inv, Stage, Step, Allowed, Disturbs;
    if run != [] {
      StageStays(w, hash, run[0].0, run[0].1, r, p, place);
      StepKeepsInv(w, hash, run[0].0, run[0].1);
      QuietKeeps(Step(w, hash, run[0].0, run[0].1), hash, run[1..], r, p, place);
    }
  }

  lemma AcceptedStep(w: World, hash: Hash, e: Event, at: int)
    requires Allowed(w, e, at) && e.BeginEvent? && e.callbackState != "" && e.callbackState in w.b.stateToRequest
    requires var r := w.b.stateToRequest[e.callbackState]; r in w.b.pending && e.checked < w.b.pending[r].expiresAt
    ensures var r, w' := w.b.stateToRequest[e.callbackState], Step(w, hash, e, at);
            Apply(w, hash, e, at).1 == Accepted(r) && w'.b.pending == w.b.pending && w'.flights == w.flights[e.flight := r]
  {
    hide Cleanup, IdSet, NewIds;
  }

  lemma BeginStage(w: World, hash: Hash, e: Event, at: int, r: string, p: PendingAuth)
    requires Inv(w) && Allowed(w, e, at) && Stage(w, r, p, Awaiting)
    requires e.BeginEvent? && e.callbackState == p.state && e.checked < p.expiresAt
    ensures Apply(w, hash, e, at).1 == Accepted(r) && Stage(Step(w, hash, e, at), r, p, Taken(e.flight))
  {
    hide Inv, Allowed, Step, Apply;
    LoginIds(w, r);
    AcceptedStep(w, hash, e, at);
  }

  lemma FlightWaits(w: World, f: nat)
    requires Inv(w) && f in w.flights && w.flights[f] in w.b.pending
    ensures Waiting(w.b.pending[w.flights[f]])
  {
    hide Pointers, LoginsOk, GoodLog, Settled, Answered, Waiting;
    assert FlightOk(w.b, w.log, w.flights[f]);
  }

  lemma FinishStage(w: World, hash: Hash, e: Event, at: int, r: string, p: PendingAuth)
    requires Inv(w) && Allowed(w, e, at) && e.FinishEvent? && e.exchange.Succeeded? && Stage(w, r, p, Taken(e.flight))
    ensures Stage(Step(w, hash, e, at), r, p.(accessToken := e.exchange.token, profile := e.exchange.profile), Ended)
    ensures p.error == "" && e.exchange.token != ""
  {
    hide Inv, Allowed, Step;
    SucceededStep(w, hash, e, at);
    FlightWaits(w, e.flight);
  }

  lemma PollStage(w: World, hash: Hash, e: Event, at: int, r: string, p: PendingAuth)
    requires Inv(w) && Allowed(w, e, at) && e.StatusEvent? && e.polled == r && e.read < p.expiresAt
    requires Stage(w, r, p, Ended) && p.error == "" && p.accessToken != ""
    ensures Apply(w, hash, e, at).1 == Authenticated(p.accessToken, p.profile)
  {
  }

  /** A run before `until` in which no step is about the login r leads from w to v. */
  ghost predicate Leads(w: World, hash: Hash, r: string, until: int, v: World) {
    exists run :: Quiet(w, hash, run, r, until) && AllowedRun(w, hash, run) && v == After(w, hash, run)
  }

  lemma LeadsKeeps(w: World, hash: Hash, v: World, r: string, p: PendingAuth, place: Place)
    requires Inv(w) && Stage(w, r, p, place) && Leads(w, hash, r, p.expiresAt, v)
    ensures Inv(v) && Stage(v, r, p, place)
  {
    var run :| Quiet(w, hash, run, r, p.expiresAt) && AllowedRun(w, hash, run) && v == After(w, hash, run);
    hide Inv, Stage, Quiet, AllowedRun, After;
    QuietKeeps(w, hash, run, r, p, place);
  }

  function StartedLogin(e: Event): PendingAuth
    requires e.StartEvent? && e.device.Some? && e.requestId.Some? && e.state.Some?
  {
    PendingAuth(e.requestId.value, e.state.value, e.device.value.0, e.device.value.1, e.read + AUTH_REQUEST_LIFETIME, "", NO_PROFILE, "")
  }

  lemma StartedFields(w: World, hash: Hash, e: Event, at: int)
    requires e.StartEvent? && Apply(w, hash, e, at).1.Started?
    ensures e.device.Some? && e.requestId.Some? && e.state.Some?
  {
  }

  /** A login that Start accepted awaits its callback until ten minutes after the clock reading. */
  lemma StartStage(w: World, hash: Hash, e: Event, at: int)
    requires Inv(w) && Allowed(w, e, at) && e.StartEvent? && Apply(w, hash, e, at).1.Started?
    ensures e.device.Some? && e.requestId.Some? && e.state.Some?
    ensures var (r, s) := (e.requestId.value, e.state.value);
            Apply(w, hash, e, at).1 == Started(r, s, e.read + AUTH_REQUEST_LIFETIME)
            && Stage(Step(w, hash, e, at), r, StartedLogin(e), Awaiting)
  {
    hide Cleanup, Inv, Allowed, Step, Apply;
    StartedFields(w, hash, e, at);
    StartedStep(w, hash, e, at);
  }

  lemma CallbackCompletes(hash: Hash, r: string, p: PendingAuth, w0: World, w1: World, begin: Event, t1: int,
                          w2: World, finish: Event, t2: int, w3: World, poll: Event, t3: int)
    requires Inv(w0) && Stage(w0, r, p, Awaiting)
    requires Leads(w0, hash, r, p.expiresAt, w1) && Allowed(w1, begin, t1)
    requires begin.BeginEvent? && begin.callbackState == p.state && begin.checked < p.expiresAt
    requires Leads(Step(w1, hash, begin, t1), hash, r, p.expiresAt, w2) && Allowed(w2, finish, t2)
    requires finish.FinishEvent? && finish.flight == begin.flight && finish.exchange.Succeeded?
    requires Leads(Step(w2, hash, finish, t2), hash, r, p.expiresAt, w3) && Allowed(w3, poll, t3)
    requires poll.StatusEvent? && poll.polled == r && poll.read < p.expiresAt
    ensures Apply(w1, hash, begin, t1).1 == Accepted(r)
    ensures Apply(w3, hash, poll, t3).1 == Authenticated(finish.exchange.token, finish.exchange.profile)
  {
    var done := p.(accessToken := finish.exchange.token, profile := finish.exchange.profile);
    hide Inv, Stage, Step, Allowed, Leads, Apply;
    LeadsKeeps(w0, hash, w1, r, p, Awaiting);
    BeginStage(w1, hash, begin, t1, r, p);
    StepKeepsInv(w1, hash, begin, t1);
    LeadsKeeps(Step(w1, hash, begin, t1), hash, w2, r, p, Taken(begin.flight));
    FinishStage(w2, hash, finish, t2, r, p);
    StepKeepsInv(w2, hash, finish, t2);
    LeadsKeeps(Step(w2, hash, finish, t2), hash, w3, r, done, Ended);
    PollStage(w3, hash, poll, t3, r, done);
  }

  /** From any reachable state, when Start accepts a login: a callback with its state before it
      expires is accepted, and when the exchange of that callback succeeds in time, a poll in
      time returns its token and profile, whatever other clients do in between (up to w1, w2
      and w3). */
  lemma LoginCompletes(hash: Hash, w: World, start: Event, t0: int, w1: World, begin: Event, t1: int,
                       w2: World, finish: Event, t2: int, w3: World, poll: Event, t3: int)
    requires Reachable(w, hash) && Allowed(w, start, t0) && start.StartEvent? && Apply(w, hash, start, t0).1.Started?
    requires var (r, until) := (start.requestId.value, start.read + AUTH_REQUEST_LIFETIME);
             Leads(Step(w, hash, start, t0), hash, r, until, w1) && Allowed(w1, begin, t1)
             && begin.BeginEvent? && begin.callbackState == start.state.value && begin.checked < until
             && Leads(Step(w1, hash, begin, t1), hash, r, until, w2) && Allowed(w2, finish, t2)
             && finish.FinishEvent? && finish.flight == begin.flight && finish.exchange.Succeeded?
             && Leads(Step(w2, hash, finish, t2), hash, r, until, w3) && Allowed(w3, poll, t3)
             && poll.StatusEvent? && poll.polled == r && poll.read < until
    ensures Apply(w1, hash, begin, t1).1 == Accepted(start.requestId.value)
    ensures Apply(w3, hash, poll, t3).1 == Authenticated(finish.exchange.token, finish.exchange.profile)
  {
    hide Reachable, Inv, Stage, Step, Allowed, Leads, Apply;
    ReachableInv(w, hash);
    StartStage(w, hash, start, t0);
    StepKeepsInv(w, hash, start, t0);
    CallbackCompletes(hash, start.requestId.value, StartedLogin(start), Step(w, hash, start, t0), w1, begin, t1, w2, finish, t2, w3, poll, t3);
  }
}
