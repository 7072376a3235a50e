/** The login broker of the coordinator (coordinator/auth.go). Every lock section is one step
    on three maps. Clock readings, random ids and the outcome of the requests to the identity
    provider are parameters; times are in seconds. */
module Auth {
  import opened Wrappers

  const AUTH_REQUEST_LIFETIME := 10 * 60
  const COORDINATOR_SESSION_LIFETIME := 12 * 60 * 60

  datatype Profile = Profile(
    id: string, email: string, username: string, firstName: string, lastName: string, avatarUrl: string, isAdmin: bool)

  const NO_PROFILE := Profile("", "", "", "", "", "", false)

  datatype PendingAuth = PendingAuth(
    requestId: string, state: string, deviceId: string, deviceName: string, expiresAt: int,
    accessToken: string, profile: Profile, error: string)

  datatype Session = Session(owner: string, profile: Profile, expiresAt: int)

  datatype Broker = Broker(
    pending: map<string, PendingAuth>, stateToRequest: map<string, string>, sessions: map<string, Session>)

  datatype Reply =
    | InvalidRequest | InternalError | DevLoginDisabled
    | Started(requestId: string, state: string, expiresAt: int)
    | LoginNotFound | LoginFailed(message: string) | StillPending(until: int)
    | Authenticated(accessToken: string, profile: Profile)
    | InvalidCallback | Accepted(request: string)
    | LoginCancelled | MissingCode | AuthenticationFailed | SignedIn

  /** How an accepted callback goes on: what the query and the identity provider said. */
  datatype Exchange = Denied | NoCode | ExchangeFailed | NoToken | Succeeded(profile: Profile, token: string)

  /** White space as Unicode defines it. */
  predicate IsSpace(c: char) {
    var n := c as int;
    9 <= n <= 13 || n == 32 || n == 0x85 || n == 0xA0 || n == 0x1680 || 0x2000 <= n <= 0x200A
    || n == 0x2028 || n == 0x2029 || n == 0x202F || n == 0x205F || n == 0x3000
  }

  predicate Blank(s: string) {
    forall c :: c in s ==> IsSpace(c)
  }

  function Message(x: Exchange): string
    requires !x.Succeeded?
  {
    match x
    case Denied => "GILid denied the login request"
    case NoCode => "GILid returned no authorization code"
    case ExchangeFailed => "GILid authentication could not be completed"
    case NoToken => "Could not create a GilStreaming session"
  }

  // ---------- What each lock section does ----------

  function ExpiredStates(pending: map<string, PendingAuth>, now: int): set<string> {
    set r | r in pending && pending[r].expiresAt <= now :: pending[r].state
  }

  lemma NoneExpired(now: int)
    ensures ExpiredStates(map[], now) == {}
  {
  }

  lemma ExpiredStatesAdd(pending: map<string, PendingAuth>, id: string, p: PendingAuth, now: int)
    requires id !in pending
    ensures ExpiredStates(pending[id := p], now) == ExpiredStates(pending, now) + if p.expiresAt <= now then {p.state} else {}
  {
    var more := pending[id := p];
    assert p.expiresAt <= now ==> id in more && more[id].expiresAt <= now;
    forall s | s in ExpiredStates(pending, now) ensures s in ExpiredStates(more, now) {
      var r :| r in pending && pending[r].expiresAt <= now && pending[r].state == s;
      assert r in more && more[r] == pending[r];
    }
  }

  /** The logins that are left when the loop of cleanupLocked has yet to look at some of them. */
  function StillThere(pending: map<string, PendingAuth>, rest: set<string>, now: int): map<string, PendingAuth> {
    map r | r in pending && (r in rest || pending[r].expiresAt > now) :: pending[r]
  }

  lemma StillThereOne(pending: map<string, PendingAuth>, rest: set<string>, id: string, now: int)
    requires id in rest && rest <= pending.Keys
    ensures id in StillThere(pending, rest, now) && StillThere(pending, rest, now)[id] == pending[id]
    ensures StillThere(pending, rest - {id}, now)
         == if pending[id].expiresAt <= now then StillThere(pending, rest, now) - {id} else StillThere(pending, rest, now)
  {
  }

  lemma StillThereAll(pending: map<string, PendingAuth>, now: int)
    ensures StillThere(pending, pending.Keys, now) == pending
    ensures StillThere(pending, {}, now) == map r | r in pending && pending[r].expiresAt > now :: pending[r]
  {
  }

  function Cleanup(b: Broker, now: int): Broker {
    Broker(map r | r in b.pending && b.pending[r].expiresAt > now :: b.pending[r],
           b.stateToRequest - ExpiredStates(b.pending, now),
           map h | h in b.sessions && b.sessions[h].expiresAt > now :: b.sessions[h])
  }

  function Start(b: Broker, now: int, device: Option<(string, string)>, requestId: Option<string>, state: Option<string>): (Broker, Reply) {
    if device == None || Blank(device.value.0) then (b, InvalidRequest)
    else if requestId == None || state == None then (b, InternalError)
    else
      var (r, s, c) := (requestId.value, state.value, Cleanup(b, now));
      var p := PendingAuth(r, s, device.value.0, device.value.1, now + AUTH_REQUEST_LIFETIME, "", NO_PROFILE, "");
      (c.(pending := c.pending[r := p], stateToRequest := c.stateToRequest[s := r]), Started(r, s, p.expiresAt))
  }

  function Status(b: Broker, now: int, requestId: string): (Broker, Reply) {
    var c := Cleanup(b, now);
    if requestId !in c.pending then (c, LoginNotFound)
    else
      var p := c.pending[requestId];
      if p.error != "" then (c.(pending := c.pending - {p.requestId}), LoginFailed(p.error))
      else if p.accessToken == "" then (c, StillPending(p.expiresAt))
      else
        (c.(pending := c.pending - {p.requestId}, stateToRequest := c.stateToRequest - {p.state}),
         Authenticated(p.accessToken, p.profile))
  }

  /** The first lock section of Callback; the state is consumed before its expiry is checked. */
  function Begin(b: Broker, now: int, state: string): (Broker, Reply) {
    var r := if state in b.stateToRequest then b.stateToRequest[state] else "";
    if r !in b.pending then (b, InvalidCallback)
    else
      (b.(stateToRequest := b.stateToRequest - {state}),
       if state == "" || b.pending[r].expiresAt <= now then InvalidCallback else Accepted(r))
  }

  function FinishReply(x: Exchange): Reply {
    match x
    case Denied => LoginCancelled
    case NoCode => MissingCode
    case ExchangeFailed => AuthenticationFailed
    case NoToken => AuthenticationFailed
    case Succeeded(_, _) => SignedIn
  }

  /** The rest of Callback: the request fails, or gets a token and a session is opened. */
  function Finish(b: Broker, hash: string -> string, now: int, requestId: string, x: Exchange): (Broker, Reply) {
    if requestId !in b.pending then (b, FinishReply(x))
    else
      var p := b.pending[requestId];
      match x
      case Succeeded(profile, token) =>
        (b.(pending := b.pending[requestId := p.(accessToken := token, profile := profile)],
            sessions := b.sessions[hash(token) := Session(profile.id, profile, now + COORDINATOR_SESSION_LIFETIME)]),
         SignedIn)
      case _ => (b.(pending := b.pending[requestId := p.(error := Message(x))]), FinishReply(x))
  }

  function DevLogin(b: Broker, hash: string -> string, enabled: bool, now: int, device: Option<string>, token: Option<string>): (Broker, Reply) {
    if !enabled then (b, DevLoginDisabled)
    else if device == None || device.value == "" then (b, InvalidRequest)
    else if token == None then (b, InternalError)
    else
      var profile := NO_PROFILE.(id := "dev:" + device.value, username := "Developer");
      (b.(sessions := b.sessions[hash(token.value) := Session(profile.id, profile, now + COORDINATOR_SESSION_LIFETIME)]),
       Authenticated(token.value, profile))
  }

  /** The owner of a token, or the empty string. */
  function OwnerOf(b: Broker, hash: string -> string, now: int, token: string): string {
    var c := Cleanup(b, now);
    if hash(token) in c.sessions && c.sessions[hash(token)].expiresAt > now then c.sessions[hash(token)].owner else ""
  }

  // ---------- The class ----------

  class AuthBroker {
    const devAuthEnabled: bool
    const hash: string -> string
    var pending: map<string, PendingAuth>
    var stateToRequest: map<string, string>
    var sessions: map<string, Session>

    ghost function Abs(): Broker
      reads this
    {
      Broker(pending, stateToRequest, sessions)
    }

    constructor (devAuthEnabled: bool, hash: string -> string)
      ensures this.devAuthEnabled == devAuthEnabled && this.hash == hash && Abs() == Broker(map[], map[], map[])
    {
      this.devAuthEnabled, this.hash := devAuthEnabled, hash;
      pending, stateToRequest, sessions := map[], map[], map[];
    }

    /** The first loop of cleanupLocked: an expired login leaves with its state. */
    method DropExpiredLogins(now: int)
      modifies this`pending, this`stateToRequest
      ensures pending == map r | r in old(pending) && old(pending)[r].expiresAt > now :: old(pending)[r]
      ensures stateToRequest == old(stateToRequest) - ExpiredStates(old(pending), now)
    {
      hide ExpiredStates, StillThere;
      var rest := pending.Keys;
      ghost var done := map[];
      NoneExpired(now);
      StillThereAll(pending, now);
      while rest != {}
        invariant rest <= old(pending).Keys && done == old(pending) - rest
        invariant pending == StillThere(old(pending), rest, now)
        invariant stateToRequest == old(stateToRequest) - ExpiredStates(done, now)
        decreases rest
      {
        var id :| id in rest;
        StillThereOne(old(pending), rest, id, now);
        ExpiredStatesAdd(done, id, pending[id], now);
        done := done[id := pending[id]];
        if pending[id].expiresAt <= now {
          stateToRequest := stateToRequest - {pending[id].state};
          pending := pending - {id};
        }
        rest := rest - {id};
      }
      assert done == old(pending);
    }

    method DropExpiredSessions(now: int)
      modifies this`sessions
      ensures sessions == map h | h in old(sessions) && old(sessions)[h].expiresAt > now :: old(sessions)[h]
    {
      var rest := sessions.Keys;
      while rest != {}
        invariant rest <= old(sessions).Keys
        invariant sessions == map h | h in old(sessions) && (h in rest || old(sessions)[h].expiresAt > now) :: old(sessions)[h]
        decreases rest
      {
        var h :| h in rest;
        if sessions[h].expiresAt <= now {
          sessions := sessions - {h};
        }
        rest := rest - {h};
      }
    }

    method CleanupLocked(now: int)
      modifies this
      ensures Abs() == Cleanup(old(Abs()), now)
    {
      DropExpiredLogins(now);
      DropExpiredSessions(now);
    }

    method StartLogin(now: int, device: Option<(string, string)>, requestId: Option<string>, state: Option<string>) returns (reply: Reply)
      modifies this
      ensures (Abs(), reply) == Start(old(Abs()), now, device, requestId, state)
    {
      if device == None || Blank(device.value.0) {
        return InvalidRequest;
      }
      if requestId == None || state == None {
        return InternalError;
      }
      var login := PendingAuth(requestId.value, state.value, device.value.0, device.value.1, now + AUTH_REQUEST_LIFETIME,
                               "", NO_PROFILE, "");
      CleanupLocked(now);
      pending := pending[requestId.value := login];
      stateToRequest := stateToRequest[state.value := requestId.value];
      return Started(requestId.value, state.value, login.expiresAt);
    }

    method LoginStatus(now: int, requestId: string) returns (reply: Reply)
      modifies this
      ensures (Abs(), reply) == Status(old(Abs()), now, requestId)
    {
      CleanupLocked(now);
      if requestId !in pending {
        return LoginNotFound;
      }
      var login := pending[requestId];
      if login.error != "" {
        pending := pending - {login.requestId};
        return LoginFailed(login.error);
      }
      if login.accessToken == "" {
        return StillPending(login.expiresAt);
      }
      pending := pending - {login.requestId};
      stateToRequest := stateToRequest - {login.state};
      return Authenticated(login.accessToken, login.profile);
    }

    method BeginCallback(now: int, state: string) returns (reply: Reply)
      modifies this`stateToRequest
      ensures (Abs(), reply) == Begin(old(Abs()), now, state)
    {
      var requestId := if state in stateToRequest then stateToRequest[state] else "";
      var found := requestId in pending;
      if found {
        stateToRequest := stateToRequest - {state};
      }
      if state == "" || !found || pending[requestId].expiresAt <= now {
        return InvalidCallback;
      }
      return Accepted(requestId);
    }

    method FailPending(requestId: string, message: string)
      modifies this`pending
      ensures pending == if requestId in old(pending) then old(pending)[requestId := old(pending)[requestId].(error := message)]
                         else old(pending)
    {
      if requestId in pending {
        pending := pending[requestId := pending[requestId].(error := message)];
      }
    }

    method FinishCallback(now: int, requestId: string, x: Exchange) returns (reply: Reply)
      modifies this
      ensures (Abs(), reply) == Finish(old(Abs()), hash, now, requestId, x)
    {
      match x
      case Denied =>
        FailPending(requestId, "GILid denied the login request");
        return LoginCancelled;
      case NoCode =>
        FailPending(requestId, "GILid returned no authorization code");
        return MissingCode;
      case ExchangeFailed =>
        FailPending(requestId, "GILid authentication could not be completed");
        return AuthenticationFailed;
      case NoToken =>
        FailPending(requestId, "Could not create a GilStreaming session");
        return AuthenticationFailed;
      case Succeeded(profile, token) =>
        if requestId in pending {
          pending := pending[requestId := pending[requestId].(accessToken := token, profile := profile)];
          sessions := sessions[hash(token) := Session(profile.id, profile, now + COORDINATOR_SESSION_LIFETIME)];
        }
        return SignedIn;
    }

    method DevelopmentLogin(now: int, device: Option<string>, token: Option<string>) returns (reply: Reply)
      modifies this`sessions
      ensures (Abs(), reply) == DevLogin(old(Abs()), hash, devAuthEnabled, now, device, token)
    {
      if !devAuthEnabled {
        return DevLoginDisabled;
      }
      if device == None || device.value == "" {
        return InvalidRequest;
      }
      if token == None {
        return InternalError;
      }
      var owner := "dev:" + device.value;
      var profile := NO_PROFILE.(id := owner, username := "Developer");
      sessions := sessions[hash(token.value) := Session(owner, profile, now + COORDINATOR_SESSION_LIFETIME)];
      return Authenticated(token.value, profile);
    }

    method AuthenticateToken(now: int, token: string) returns (owner: string)
      modifies this
      ensures Abs() == Cleanup(old(Abs()), now) && owner == OwnerOf(old(Abs()), hash, now, token)
    {
      CleanupLocked(now);
      if hash(token) in sessions && sessions[hash(token)].expiresAt > now {
        return sessions[hash(token)].owner;
      }
      return "";
    }
  }
}
