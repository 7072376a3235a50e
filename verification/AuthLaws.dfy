/** The life of one login as its client sees it, over every run of the broker: what each poll and
    each callback is answered is fixed by what has happened to that login, and by nothing else. */
module AuthLaws {
  import opened Wrappers
  import opened Auth
  import opened AuthRuns

  /** A login is unknown (not started, expired, or already answered for good), waits for its
      callback or for the end of it, was refused, or is complete. */
  datatype Login =
    | NoLogin
    | Pending(state: string, until: int, called: bool)
    | Refused(message: string, until: int)
    | Completed(token: string, profile: Profile, until: int)

  /** A cleanup at this clock reading drops it from its expiry on. */
  function Expire(l: Login, now: int): Login {
    if l != NoLogin && l.until <= now then NoLogin else l
  }

  function Reason(x: Exchange): string {
    match x
    case Denied => "GILid denied the login request"
    case NoCode => "GILid returned no authorization code"
    case ExchangeFailed => "GILid authentication could not be completed"
    case NoToken => "Could not create a GilStreaming session"
    case Succeeded(_, _) => ""
  }

  predicate Starts(e: Event) {
    e.StartEvent? && e.device.Some? && !Blank(e.device.value.0) && e.requestId.Some? && e.state.Some?
  }

  /** What an event makes of the login r; `about` is the login whose callback ends. A login lives
      ten minutes, its state counts once, and the poll that hears of its end is the last one. */
  function Next(l: Login, e: Event, about: string, r: string): Login {
    match e
    case StartEvent(read, _, requestId, state) =>
      if !Starts(e) then l
      else if requestId.value == r then Pending(state.value, read + 600, false)
      else Expire(l, read)
    case StatusEvent(read, polled) =>
      var c := Expire(l, read);
      if polled == r && (c.Refused? || c.Completed?) then NoLogin else c
    case BeginEvent(_, s, _) => if l.Pending? && l.state == s then l.(called := true) else l
    case FinishEvent(_, x) =>
      if about != r || !l.Pending? then l
      else if x.Succeeded? then Completed(x.token, x.profile, l.until)
      else Refused(Reason(x), l.until)
    case DevEvent(_, _, _) => l
    case TokenEvent(read, _) => Expire(l, read)
  }

  function About(w: World, e: Event): string {
    if e.FinishEvent? && e.flight in w.flights then w.flights[e.flight] else ""
  }

  /** The login r after a run. */
  function LoginAfter(w: World, hash: Hash, run: Run, r: string, l: Login): Login
    requires AllowedRun(w, hash, run)
    decreases run
  {
    if run == [] then l
    else
      LoginAfter(Step(w, hash, run[0].0, run[0].1), hash, run[1..], r, Next(l, run[0].0, About(w, run[0].0), r))
  }

  /** The maps of the broker hold the login. */
  predicate Matches(b: Broker, r: string, l: Login) {
    match l
    case NoLogin => r !in b.pending
    case Pending(s, until, called) =>
      r in b.pending && Waiting(b.pending[r]) && b.pending[r].state == s && b.pending[r].expiresAt == until
      && (if called then s !in b.stateToRequest else s in b.stateToRequest && b.stateToRequest[s] == r)
    case Refused(message, until) =>
      r in b.pending && b.pending[r].error == message != "" && b.pending[r].expiresAt == until
    case Completed(token, profile, until) =>
      r in b.pending && b.pending[r].error == "" && b.pending[r].accessToken == token != "" && b.pending[r].profile == profile
      && b.pending[r].expiresAt == until
  }

  // ---------- The broker follows the life of every login ----------

  lemma CleanupMatches(b: Broker, now: int, r: string, l: Login)
    requires Pointers(b) && Matches(b, r, l)
    ensures Matches(Cleanup(b, now), r, Expire(l, now))
  {
    if r in b.pending && b.pending[r].expiresAt > now {
      forall q | q in b.pending && b.pending[q].state == b.pending[r].state ensures q == r {
      }
    }
  }

  /** A login is untouched while its entries are. */
  lemma SameMatches(b: Broker, c: Broker, r: string, l: Login)
    requires Matches(b, r, l) && (r in c.pending <==> r in b.pending) && (r in b.pending ==> c.pending[r] == b.pending[r])
    requires r in b.pending ==>
               var s := b.pending[r].state;
               (s in c.stateToRequest <==> s in b.stateToRequest) && (s in b.stateToRequest ==> c.stateToRequest[s] == b.stateToRequest[s])
    ensures Matches(c, r, l)
  {
  }

  /** Start is refused without a device id or without random ids, and then changes nothing. */
  lemma StartExact(b: Broker, e: Event)
    requires e.StartEvent?
    ensures var (c, reply) := Start(b, e.read, e.device, e.requestId, e.state);
            if Starts(e) then reply == Started(e.requestId.value, e.state.value, e.read + 600)
            else
              c == b
              && reply == if e.device.None? || Blank(e.device.value.0) then InvalidRequest else InternalError
  {
    hide Blank, Cleanup;
  }

  lemma InvParts(w: World)
    requires Inv(w)
    ensures Pointers(w.b) && LoginsOk(w.b, w.log) && FlightsOk(w.b, w.flights, w.log) && IdsUsed(w.log, w.used)
  {
    hide Pointers, LoginsOk, FlightsOk, IdsUsed, Once, Justified;
  }

  lemma CleanupLess(b: Broker, now: int)
    ensures var c := Cleanup(b, now); forall r :: r in c.pending ==> r in b.pending && c.pending[r] == b.pending[r]
  {
  }

  lemma NewMatches(c: Broker, d: Broker, e: Event)
    requires Starts(e)
    requires var (r, s) := (e.requestId.value, e.state.value);
             d == c.(pending := c.pending[r := PendingAuth(r, s, e.device.value.0, e.device.value.1,
                                                           e.read + AUTH_REQUEST_LIFETIME, "", NO_PROFILE, "")],
                     stateToRequest := c.stateToRequest[s := r])
    ensures Matches(d, e.requestId.value, Pending(e.state.value, e.read + 600, false))
  {
  }

  lemma SpaceExact(c: char)
    ensures IsSpace(c) <==>
            c as int in {9, 10, 11, 12, 13, 32, 133, 160, 5760, 8192, 8193, 8194, 8195, 8196, 8197, 8198, 8199, 8200, 8201,
                         8202, 8232, 8233, 8239, 8287, 12288}
  {
  }

  /** What counts as blank: the white space that Unicode lists. */
  lemma BlankExact(s: string)
    ensures Blank(s) <==>
            forall k :: 0 <= k < |s| ==>
              s[k] as int in {9, 10, 11, 12, 13, 32, 133, 160, 5760, 8192, 8193, 8194, 8195, 8196, 8197, 8198, 8199, 8200, 8201,
                              8202, 8232, 8233, 8239, 8287, 12288}
  {
    hide IsSpace;
    forall k | 0 <= k < |s|
      ensures IsSpace(s[k]) <==>
              s[k] as int in {9, 10, 11, 12, 13, 32, 133, 160, 5760, 8192, 8193, 8194, 8195, 8196, 8197, 8198, 8199, 8200, 8201,
                              8202, 8232, 8233, 8239, 8287, 12288}
    {
      SpaceExact(s[k]);
    }
    if Blank(s) {
      forall k | 0 <= k < |s| ensures IsSpace(s[k]) {
        assert s[k] in s;
      }
    }
  }

  lemma NotStarted(w: World, hash: Hash, e: Event, at: int)
    requires Allowed(w, e, at) && e.StartEvent? && !Starts(e)
    ensures Step(w, hash, e, at).b == w.b
  {
    hide Blank, Cleanup, NewIds, IdSet;
  }

  lemma StartMatches(w: World, hash: Hash, e: Event, at: int, r: string, l: Login)
    requires Inv(w) && Allowed(w, e, at) && e.StartEvent? && Matches(w.b, r, l)
    ensures Matches(Step(w, hash, e, at).b, r, Next(l, e, "", r))
  {
    hide Inv, Cleanup, Matches, Step, Allowed, Blank;
    StartExact(w.b, e);
    if Starts(e) {
      StartedStep(w, hash, e, at);
      var c := Cleanup(w.b, e.read);
      InvParts(w);
      LoginsUsed(w.b, w.log, w.used);
      CleanupMatches(w.b, e.read, r, l);
      CleanupLess(w.b, e.read);
      if e.requestId.value == r {
        NewMatches(c, Step(w, hash, e, at).b, e);
      } else {
        SameMatches(c, Step(w, hash, e, at).b, r, Expire(l, e.read));
      }
    } else {
      NotStarted(w, hash, e, at);
    }
  }

  /** The poll of the login itself: its reply and what is left. */
  lemma PolledMatches(b: Broker, read: int, r: string, m: Login)
    requires Pointers(b) && Matches(Cleanup(b, read), r, m)
    ensures var (after, reply) := Status(b, read, r);
            Matches(after, r, if m.Refused? || m.Completed? then NoLogin else m)
            && reply ==
               match m
               case NoLogin => LoginNotFound
               case Pending(_, until, _) => StillPending(until)
               case Refused(message, _) => LoginFailed(message)
               case Completed(token, profile, _) => Authenticated(token, profile)
  {
    CleanupSmaller(b, read);
    hide Cleanup;
  }

  lemma OtherLeaves(c: Broker, polled: string, r: string, after: Broker, m: Login)
    requires Pointers(c) && Matches(c, r, m) && polled in c.pending && polled != r && !Waiting(c.pending[polled])
    requires after == c.(pending := c.pending - {polled})
             || after == c.(pending := c.pending - {polled}, stateToRequest := c.stateToRequest - {c.pending[polled].state})
    ensures Matches(after, r, m)
  {
    hide Matches, Waiting;
    if r in c.pending {
      assert c.pending[polled].state != c.pending[r].state;
    }
    SameMatches(c, after, r, m);
  }

  lemma StatusMatches(w: World, hash: Hash, e: Event, at: int, r: string, l: Login)
    requires Inv(w) && Allowed(w, e, at) && e.StatusEvent? && Matches(w.b, r, l)
    ensures Matches(Step(w, hash, e, at).b, r, Next(l, e, "", r))
  {
    hide Inv, Pointers, LoginsOk, FlightsOk, Cleanup, Status, Matches, Waiting, News;
    InvParts(w);
    var c, after := Cleanup(w.b, e.read), Status(w.b, e.read, e.polled).0;
    CleanupMatches(w.b, e.read, r, l);
    StatusForms(w.b, e.read, e.polled);
    var m := Expire(l, e.read);
    if e.polled == r {
      PolledMatches(w.b, e.read, r, m);
    } else if after != c {
      OtherLeaves(c, e.polled, r, after, m);
    }
  }

  /** The lock section of a callback takes the state of a login that waits for it, whatever the
      time is. */
  lemma BeginMatches(w: World, hash: Hash, e: Event, at: int, r: string, l: Login)
    requires Inv(w) && Allowed(w, e, at) && e.BeginEvent? && Matches(w.b, r, l)
    ensures Matches(Step(w, hash, e, at).b, r, Next(l, e, "", r))
  {
    hide Inv, LoginsOk, FlightsOk, Step, Allowed;
    InvParts(w);
    BeginStep(w, hash, e, at);
  }

  lemma FinishMatches(w: World, hash: Hash, e: Event, at: int, r: string, l: Login)
    requires Inv(w) && Allowed(w, e, at) && e.FinishEvent? && Matches(w.b, r, l)
    ensures Matches(Step(w, hash, e, at).b, r, Next(l, e, About(w, e), r))
  {
    hide Inv, Step, Allowed, Pointers, LoginsOk, FlightsOk;
    FlightKnown(w, e, at);
    var q := w.flights[e.flight];
    InvParts(w);
    if q !in w.b.pending {
      GoneStep(w, hash, e, at);
    } else {
      FlightWaits(w, e.flight);
      if e.exchange.Succeeded? {
        SucceededStep(w, hash, e, at);
      } else {
        FailedStep(w, hash, e, at);
      }
    }
  }

  lemma OtherMatches(w: World, hash: Hash, e: Event, at: int, r: string, l: Login)
    requires Inv(w) && Allowed(w, e, at) && (e.DevEvent? || e.TokenEvent?) && Matches(w.b, r, l)
    ensures Matches(Step(w, hash, e, at).b, r, Next(l, e, "", r))
  {
    hide Inv, Pointers, LoginsOk, FlightsOk, Cleanup, Matches, NewIds, IdSet, News;
    InvParts(w);
    if e.TokenEvent? {
      CleanupMatches(w.b, e.read, r, l);
    } else {
      SameMatches(w.b, Step(w, hash, e, at).b, r, l);
    }
  }

  lemma StepMatches(w: World, hash: Hash, e: Event, at: int, r: string, l: Login)
    requires Inv(w) && Allowed(w, e, at) && Matches(w.b, r, l)
    ensures Matches(Step(w, hash, e, at).b, r, Next(l, e, About(w, e), r))
  {
    hide Inv, Step, Allowed, Matches;
    match e
    case StartEvent(_, _, _, _) => StartMatches(w, hash, e, at, r, l);
    case StatusEvent(_, _) => StatusMatches(w, hash, e, at, r, l);
    case BeginEvent(_, _, _) => BeginMatches(w, hash, e, at, r, l);
    case FinishEvent(_, _) => FinishMatches(w, hash, e, at, r, l);
    case _ => OtherMatches(w, hash, e, at, r, l);
  }

  lemma {:induction false} RunMatches(w: World, hash: Hash, run: Run, r: string, l: Login)
    requires Inv(w) && AllowedRun(w, hash, run) && Matches(w.b, r, l)
    ensures Inv(After(w, hash, run)) && Matches(After(w, hash, run).b, r, LoginAfter(w, hash, run, r, l))
    decreases run
  {
    hide Inv, Step, Allowed, Matches, Next, About;
    if run != [] {
      var e, at := run[0].0, run[0].1;
      StepKeepsInv(w, hash, e, at);
      StepMatches(w, hash, e, at, r, l);
      RunMatches(Step(w, hash, e, at), hash, run[1..], r, Next(l, e, About(w, e), r));
    }
  }

  lemma StartOfRun(start: int, r: string)
    ensures Inv(Initial(start)) && Matches(Initial(start).b, r, NoLogin)
  {
  }

  // ---------- What the client hears ----------

  /** After every run, the answer to a poll is fixed by the life of that login: not found when it
      was never started, has expired, or was answered for good; pending with the end of its ten
      minutes as long as it is not settled; the reason when it was refused; token and profile
      when it is complete. */
  lemma PollExact(start: int, hash: Hash, run: Run, read: int, r: string)
    requires AllowedRun(Initial(start), hash, run)
    ensures Status(After(Initial(start), hash, run).b, read, r).1 ==
            match Expire(LoginAfter(Initial(start), hash, run, r, NoLogin), read)
            case NoLogin => LoginNotFound
            case Pending(_, until, _) => StillPending(until)
            case Refused(message, _) => LoginFailed(message)
            case Completed(token, profile, _) => Authenticated(token, profile)
  {
    hide AllowedRun, After, LoginAfter, Initial, Inv, Matches, Status, Expire, Cleanup;
    StartOfRun(start, r);
    RunMatches(Initial(start), hash, run, r, NoLogin);
    var w, l := After(Initial(start), hash, run), LoginAfter(Initial(start), hash, run, r, NoLogin);
    InvParts(w);
    CleanupMatches(w.b, read, r, l);
    PolledMatches(w.b, read, r, Expire(l, read));
  }

  lemma NoEmptyIds(w: World)
    requires Inv(w)
    ensures "" !in w.b.pending && forall r :: r in w.b.pending ==> w.b.pending[r].state != ""
  {
    hide Pointers, LoginsOk, FlightsOk, IdsUsed, Once, Justified;
    LoginsUsed(w.b, w.log, w.used);
  }

  lemma BeginReply(b: Broker, checked: int, s: string, r: string, l: Login)
    requires Pointers(b) && Matches(b, r, l) && "" !in b.pending && forall q :: q in b.pending ==> b.pending[q].state != ""
    ensures var reply := Begin(b, checked, s).1;
            (reply == Accepted(r) <==> l.Pending? && l.state == s && !l.called && checked < l.until)
            && (reply == InvalidCallback || reply.Accepted?)
  {
  }

  /** After every run, a callback is accepted for a login exactly when it brings the state of that
      login for the first time, and before the login expires. */
  lemma CallbackExact(start: int, hash: Hash, run: Run, checked: int, s: string, r: string)
    requires AllowedRun(Initial(start), hash, run)
    ensures var reply := Begin(After(Initial(start), hash, run).b, checked, s).1;
            var l := LoginAfter(Initial(start), hash, run, r, NoLogin);
            (reply == Accepted(r) <==> l.Pending? && l.state == s && !l.called && checked < l.until)
            && (reply == InvalidCallback || reply.Accepted?)
  {
    hide AllowedRun, After, LoginAfter, Initial, Inv, Matches, Begin, Pointers, LoginsOk, FlightsOk, IdsUsed;
    StartOfRun(start, r);
    RunMatches(Initial(start), hash, run, r, NoLogin);
    var w := After(Initial(start), hash, run);
    InvParts(w);
    NoEmptyIds(w);
    BeginReply(w.b, checked, s, r, LoginAfter(Initial(start), hash, run, r, NoLogin));
  }

  /** The page that the end of a callback shows. */
  lemma FinishExact(b: Broker, hash: Hash, now: int, r: string, x: Exchange)
    ensures Finish(b, hash, now, r, x).1 ==
            match x
            case Denied => LoginCancelled
            case NoCode => MissingCode
            case Succeeded(_, _) => SignedIn
            case _ => AuthenticationFailed
  {
  }

  /** A session lasts twelve hours and belongs to the profile that the login brought; without the
      login there is none. */
  lemma SessionExact(w: World, hash: Hash, e: Event, at: int)
    requires Allowed(w, e, at) && e.FinishEvent? && e.exchange.Succeeded?
    ensures var x, w' := e.exchange, Step(w, hash, e, at);
            if w.flights[e.flight] in w.b.pending then
              w'.log == w.log + [Minted(w.flights[e.flight], x.token, x.profile)] + [Opened(x.token, x.profile.id, at + 43200)]
              && w'.b.sessions == w.b.sessions[hash(x.token) := Session(x.profile.id, x.profile, at + 43200)]
            else w'.b.sessions == w.b.sessions
  {
    hide IdSet, NewIds;
    var x := e.exchange;
    if w.flights[e.flight] in w.b.pending {
      var minted, session := Minted(w.flights[e.flight], x.token, x.profile), Opened(x.token, x.profile.id, at + 43200);
      assert w.log + [minted, session] == w.log + [minted] + [session];
    }
  }

  /** A development login needs the switch, a device and a token; its owner is the device. */
  lemma DevExact(b: Broker, hash: Hash, enabled: bool, now: int, device: Option<string>, token: Option<string>)
    ensures var (c, reply) := DevLogin(b, hash, enabled, now, device, token);
            if enabled && device.Some? && device.value != "" && token.Some? then
              var profile := Profile("dev:" + device.value, "", "Developer", "", "", "", false);
              reply == Authenticated(token.value, profile)
              && c == b.(sessions := b.sessions[hash(token.value) := Session("dev:" + device.value, profile, now + 43200)])
            else
              c == b
              && reply == if !enabled then DevLoginDisabled
                          else if device.None? || device.value == "" then InvalidRequest else InternalError
  {
  }
}
