/** The datagram queue of the local relay bridge (app/backend/relaybridge.cpp). Each Qt callback
    is one step; a WebSocket reaches the connected state and runs its connected() slot in one
    step. */
module RelayUdp {
  import opened Wrappers

  const MAX_PENDING_UDP_DATAGRAMS := 256

  type Datagram = seq<bv8>

  /** An endpoint; `sent` are the messages handed to a connected WebSocket so far. WebSockets
      are told apart by a number. */
  datatype Endpoint = Endpoint(running: bool, websocket: Option<nat>, connected: bool, pending: seq<Datagram>, sent: seq<Datagram>)

  // ---------- What each callback does ----------

  function Open(ep: Endpoint, socket: nat): Endpoint {
    if !ep.running || ep.websocket.Some? then ep else ep.(websocket := Some(socket), connected := false)
  }

  /** One datagram of the local client. */
  function Arrive(ep: Endpoint, d: Datagram, socket: nat): Endpoint {
    if ep.websocket.Some? && ep.connected then ep.(sent := ep.sent + [d])
    else
      var kept := if |ep.pending| == MAX_PENDING_UDP_DATAGRAMS then ep.pending[1..] else ep.pending;
      var queued := ep.(pending := kept + [d]);
      if ep.websocket.None? then Open(queued, socket) else queued
  }

  function ArriveAll(ep: Endpoint, ds: seq<Datagram>, socket: nat): Endpoint
    decreases ds
  {
    if ds == [] then ep else ArriveAll(Arrive(ep, ds[0], socket), ds[1..], socket)
  }

  /** A WebSocket is connected; one that was replaced is ignored. */
  function Connected(ep: Endpoint, socket: nat): Endpoint {
    if ep.websocket == Some(socket) then ep.(connected := true, sent := ep.sent + ep.pending, pending := []) else ep
  }

  /** A closing handshake has begun: the WebSocket is still there but not connected any more. */
  function Closing(ep: Endpoint, socket: nat): Endpoint {
    if ep.websocket == Some(socket) then ep.(connected := false) else ep
  }

  /** A WebSocket is gone; the flag says whether a retry is due in 500 ms. */
  function Disconnected(ep: Endpoint, socket: nat): (Endpoint, bool) {
    if ep.websocket != Some(socket) then (ep, false)
    else (ep.(websocket := None, connected := false), ep.running && ep.pending != [])
  }

  class UdpEndpoint {
    var running: bool
    var websocket: Option<nat>
    var connected: bool
    var pending: seq<Datagram>
    var sent: seq<Datagram>

    ghost function Abs(): Endpoint
      reads this
    {
      Endpoint(running, websocket, connected, pending, sent)
    }

    constructor ()
      ensures Abs() == Endpoint(true, None, false, [], [])
    {
      running, websocket, connected, pending, sent := true, None, false, [], [];
    }

    method OpenUdpTunnel(socket: nat)
      modifies this
      ensures Abs() == Open(old(Abs()), socket)
    {
      if !running || websocket != None {
        return;
      }
      websocket, connected := Some(socket), false;
    }

    method ReadyRead(datagrams: seq<Datagram>, socket: nat)
      modifies this
      ensures Abs() == ArriveAll(old(Abs()), datagrams, socket)
    {
      assert datagrams[0..] == datagrams;
      for i := 0 to |datagrams|
        invariant ArriveAll(Abs(), datagrams[i..], socket) == ArriveAll(old(Abs()), datagrams, socket)
      {
        assert datagrams[i..][1..] == datagrams[i + 1..];
        if websocket != None && connected {
          sent := sent + [datagrams[i]];
        } else {
          if |pending| == MAX_PENDING_UDP_DATAGRAMS {
            pending := pending[1..];
          }
          pending := pending + [datagrams[i]];
          if websocket == None {
            OpenUdpTunnel(socket);
          }
        }
      }
    }

    method OnConnected(socket: nat)
      modifies this
      ensures Abs() == Connected(old(Abs()), socket)
    {
      if websocket == Some(socket) {
        connected := true;
      }
      while websocket == Some(socket) && pending != []
        invariant old(websocket) != Some(socket) ==> Abs() == old(Abs())
        invariant old(websocket) == Some(socket) ==>
          websocket == Some(socket) && connected && running == old(running) && sent + pending == old(sent) + old(pending)
        decreases |pending|
      {
        assert sent + pending == sent + [pending[0]] + pending[1..];
        sent := sent + [pending[0]];
        pending := pending[1..];
      }
    }

    method OnDisconnected(socket: nat) returns (retry: bool)
      modifies this
      ensures (Abs(), retry) == Disconnected(old(Abs()), socket)
    {
      if websocket != Some(socket) {
        return false;
      }
      websocket, connected := None, false;
      return running && pending != [];
    }
  }

  // ---------- Runs ----------

  /** A datagram is read, a WebSocket comes up, begins to close or goes down, the retry timer
      fires, the bridge stops. */
  datatype Event =
    | Read(d: Datagram, socketId: nat)
    | Up(socket: nat)
    | Handshake(socket: nat)
    | Down(socket: nat)
    | Retry(socketId: nat)
    | Stop

  /** The endpoint, all datagrams that arrived, the positions of those that were sent, and how many
      retry timers are running. */
  datatype World = World(ep: Endpoint, arrived: seq<Datagram>, sentAt: seq<nat>, timers: nat)

  function Range(from: nat, to: nat): (r: seq<nat>)
    requires from <= to
    ensures |r| == to - from && forall k :: 0 <= k < |r| ==> r[k] == from + k
  {
    seq(to - from, k requires 0 <= k < to - from => from + k)
  }

  /** The positions of the newest m of n datagrams. */
  function Last(m: nat, n: nat): seq<nat> {
    if m <= n then Range(n - m, n) else []
  }

  function Step(w: World, e: Event): World {
    var n := |w.arrived|;
    match e
    case Read(d, socket) =>
      World(Arrive(w.ep, d, socket), w.arrived + [d], if w.ep.websocket.Some? && w.ep.connected then w.sentAt + Range(n, n + 1) else w.sentAt,
            w.timers)
    case Up(socket) =>
      World(Connected(w.ep, socket), w.arrived,
            if w.ep.websocket == Some(socket) then w.sentAt + Last(|w.ep.pending|, n) else w.sentAt, w.timers)
    case Handshake(socket) => w.(ep := Closing(w.ep, socket))
    case Down(socket) =>
      var (ep, retry) := Disconnected(w.ep, socket);
      w.(ep := ep, timers := if retry then w.timers + 1 else w.timers)
    case Retry(socket) => w.(ep := Open(w.ep, socket), timers := if w.timers > 0 then w.timers - 1 else 0)
    case Stop => w.(ep := w.ep.(running := false))
  }

  /** The position after the last datagram that was sent. */
  function Next(sentAt: seq<nat>): nat {
    if sentAt == [] then 0 else sentAt[|sentAt| - 1] + 1
  }

  predicate Increasing(s: seq<nat>) {
    forall i, j :: 0 <= i < j < |s| ==> s[i] < s[j]
  }

  /** The newest datagrams, as many as the queue holds. */
  function Newest(s: seq<Datagram>): seq<Datagram> {
    if |s| <= MAX_PENDING_UDP_DATAGRAMS then s else s[|s| - MAX_PENDING_UDP_DATAGRAMS..]
  }

  /** The messages that were sent are the datagrams at these positions, in order. */
  predicate SentInOrder(sent: seq<Datagram>, sentAt: seq<nat>, arrived: seq<Datagram>) {
    |sent| == |sentAt| && Increasing(sentAt) && Next(sentAt) <= |arrived|
    && forall k :: 0 <= k < |sentAt| ==> sentAt[k] < Next(sentAt) && sent[k] == arrived[sentAt[k]]
  }

  predicate Gap(sentAt: seq<nat>, k: nat)
    requires k < |sentAt|
  {
    sentAt[k] > if k == 0 then 0 else sentAt[k - 1] + 1
  }

  predicate FullFrom(sentAt: seq<nat>, k: nat)
    requires k < |sentAt|
  {
    k + MAX_PENDING_UDP_DATAGRAMS <= |sentAt|
    && forall j :: k <= j < k + MAX_PENDING_UDP_DATAGRAMS ==> sentAt[j] == sentAt[k] + (j - k)
  }

  /** Datagrams are skipped only when a whole queue of newer ones follows. */
  predicate FullAfterGap(sentAt: seq<nat>) {
    forall k :: 0 <= k < |sentAt| && Gap(sentAt, k) ==> FullFrom(sentAt, k)
  }

  /** The queue holds the newest of the datagrams after the last one sent. */
  predicate Inv(w: World) {
    SentInOrder(w.ep.sent, w.sentAt, w.arrived) && FullAfterGap(w.sentAt)
    && w.ep.pending == Newest(w.arrived[Next(w.sentAt)..])
    && (w.ep.connected ==> w.ep.websocket.Some? && w.ep.pending == [])
  }

  lemma NewestMore(s: seq<Datagram>, d: Datagram)
    ensures Newest(s + [d]) == (if |Newest(s)| == MAX_PENDING_UDP_DATAGRAMS then Newest(s)[1..] else Newest(s)) + [d]
  {
  }

  lemma ArrivedMore(sent: seq<Datagram>, sentAt: seq<nat>, arrived: seq<Datagram>, d: Datagram)
    requires SentInOrder(sent, sentAt, arrived)
    ensures SentInOrder(sent, sentAt, arrived + [d])
    ensures (arrived + [d])[Next(sentAt)..] == arrived[Next(sentAt)..] + [d]
  {
  }

  lemma InOrderWithin(sent: seq<Datagram>, sentAt: seq<nat>, arrived: seq<Datagram>)
    requires SentInOrder(sent, sentAt, arrived)
    ensures Next(sentAt) <= |arrived|
  {
  }

  lemma NewestAt(arrived: seq<Datagram>, next: nat)
    requires next <= |arrived|
    ensures var q, n := Newest(arrived[next..]), |arrived|;
            |q| <= n - next && q == arrived[n - |q|..] && (|q| < n - next ==> |q| == MAX_PENDING_UDP_DATAGRAMS)
  {
  }

  /** All datagrams from a position on are sent. */
  lemma SendRest(sent: seq<Datagram>, sentAt: seq<nat>, arrived: seq<Datagram>, from: nat)
    requires SentInOrder(sent, sentAt, arrived) && Next(sentAt) <= from <= |arrived|
    ensures SentInOrder(sent + arrived[from..], sentAt + Range(from, |arrived|), arrived)
    ensures from < |arrived| ==> Next(sentAt + Range(from, |arrived|)) == |arrived|
    ensures from == |arrived| ==> sentAt + Range(from, |arrived|) == sentAt
  {
    var all, out := sentAt + Range(from, |arrived|), sent + arrived[from..];
    if from == |arrived| {
      assert all == sentAt && out == sent;
    } else {
      assert all[|all| - 1] == |arrived| - 1;
      forall k | 0 <= k < |all| ensures all[k] < |arrived| && out[k] == arrived[all[k]] {
        assert k < |sentAt| ==> all[k] == sentAt[k] && out[k] == sent[k];
      }
    }
  }

  lemma SendFull(sentAt: seq<nat>, from: nat, to: nat)
    requires FullAfterGap(sentAt) && Next(sentAt) <= from <= to
    requires from > Next(sentAt) ==> to - from == MAX_PENDING_UDP_DATAGRAMS
    ensures FullAfterGap(sentAt + Range(from, to))
  {
    var n, all := |sentAt|, sentAt + Range(from, to);
    forall k | 0 <= k < |all| && Gap(all, k) ensures FullFrom(all, k) {
      if k < n {
        assert Gap(sentAt, k);
      }
    }
  }

  lemma ReadKeeps(w: World, e: Event)
    requires Inv(w) && e.Read?
    ensures Inv(Step(w, e))
  {
    var n, arrived := |w.arrived|, w.arrived + [e.d];
    ArrivedMore(w.ep.sent, w.sentAt, w.arrived, e.d);
    if w.ep.connected {
      assert |w.arrived[Next(w.sentAt)..]| == 0;
      SendRest(w.ep.sent, w.sentAt, arrived, n);
      SendFull(w.sentAt, n, n + 1);
      assert arrived[n..] == [e.d] && arrived[n + 1..] == [];
    } else {
      NewestMore(w.arrived[Next(w.sentAt)..], e.d);
    }
    hide SentInOrder, FullAfterGap;
  }

  lemma UpIs(w: World, e: Event)
    requires e.Up? && w.ep.websocket == Some(e.socket) && |w.ep.pending| <= |w.arrived|
    ensures Step(w, e) == World(w.ep.(connected := true, sent := w.ep.sent + w.ep.pending, pending := []), w.arrived,
                                w.sentAt + Range(|w.arrived| - |w.ep.pending|, |w.arrived|), w.timers)
  {
  }

  lemma SentAll(w: World)
    requires SentInOrder(w.ep.sent, w.sentAt, w.arrived) && FullAfterGap(w.sentAt) && Next(w.sentAt) == |w.arrived|
    requires w.ep.pending == [] && w.ep.websocket.Some?
    ensures Inv(w)
  {
    assert w.arrived[|w.arrived|..] == [];
  }

  /** What is queued when a WebSocket comes up are the datagrams from some position on. */
  lemma UpReady(w: World)
    requires Inv(w)
    ensures |w.ep.pending| <= |w.arrived|
    ensures var from := |w.arrived| - |w.ep.pending|;
            w.ep.pending == w.arrived[from..] && Next(w.sentAt) <= from
            && (from > Next(w.sentAt) ==> |w.ep.pending| == MAX_PENDING_UDP_DATAGRAMS > 0)
            && SentInOrder(w.ep.sent, w.sentAt, w.arrived) && FullAfterGap(w.sentAt)
  {
    hide SentInOrder, FullAfterGap, Newest;
    InOrderWithin(w.ep.sent, w.sentAt, w.arrived);
    NewestAt(w.arrived, Next(w.sentAt));
  }

  lemma UpIgnored(w: World, e: Event)
    requires e.Up? && w.ep.websocket != Some(e.socket)
    ensures Step(w, e) == w
  {
  }

  lemma UpKeeps(w: World, e: Event)
    requires Inv(w) && e.Up?
    ensures Inv(Step(w, e))
  {
    hide *;
    if w.ep.websocket == Some(e.socket) {
      UpReady(w);
      var from: nat := |w.arrived| - |w.ep.pending|;
      SendRest(w.ep.sent, w.sentAt, w.arrived, from);
      SendFull(w.sentAt, from, |w.arrived|);
      UpIs(w, e);
      SentAll(Step(w, e));
    } else {
      UpIgnored(w, e);
    }
  }

  /** Every step keeps the invariant. */
  lemma StepKeepsInv(w: World, e: Event)
    requires Inv(w)
    ensures Inv(Step(w, e))
  {
    if e.Read? {
      ReadKeeps(w, e);
    } else if e.Up? {
      UpKeeps(w, e);
    }
  }

  /** Where there is something to send, there is a WebSocket or a timer that opens one. */
  predicate NotForgotten(w: World) {
    w.ep.running && w.ep.pending != [] ==> w.ep.websocket.Some? || w.timers > 0
  }

  lemma StepForgetsNothing(w: World, e: Event)
    requires NotForgotten(w)
    ensures NotForgotten(Step(w, e))
  {
  }

  /** Which WebSocket the endpoint has after a step: a datagram that is queued and a retry open one
      when there is none and the bridge runs, and only its own end takes it away; it is connected
      from its connected() signal until its closing handshake or its end. */
  lemma SocketExact(w: World, e: Event)
    requires Inv(w)
    ensures Step(w, e).ep.websocket ==
            match e
            case Read(_, socket) => if w.ep.running && w.ep.websocket == None then Some(socket) else w.ep.websocket
            case Retry(socket) => if w.ep.running && w.ep.websocket == None then Some(socket) else w.ep.websocket
            case Down(socket) => if w.ep.websocket == Some(socket) then None else w.ep.websocket
            case _ => w.ep.websocket
    ensures Step(w, e).ep.connected ==
            match e
            case Up(socket) => w.ep.connected || w.ep.websocket == Some(socket)
            case Handshake(socket) => w.ep.connected && w.ep.websocket != Some(socket)
            case Down(socket) => w.ep.connected && w.ep.websocket != Some(socket)
            case _ => w.ep.connected
    ensures Step(w, e).ep.running == (w.ep.running && e != Stop)
  {
    hide SentInOrder, FullAfterGap, Newest, Next, Last;
  }

  /** A timer is started exactly when the WebSocket goes while something is queued. */
  lemma TimerExact(w: World, socket: nat)
    ensures Step(w, Down(socket)).timers ==
            if w.ep.websocket == Some(socket) && w.ep.running && w.ep.pending != [] then w.timers + 1 else w.timers
  {
  }

  /** The endpoint after a run, from its start. */
  function After(run: seq<Event>): World {
    if run == [] then World(Endpoint(true, None, false, [], []), [], [], 0)
    else Step(After(run[..|run| - 1]), run[|run| - 1])
  }

  lemma StartInv()
    ensures Inv(After([])) && NotForgotten(After([]))
  {
  }

  lemma {:induction false} RunInv(run: seq<Event>)
    ensures Inv(After(run)) && NotForgotten(After(run))
  {
    hide Step, Inv, NotForgotten;
    if run == [] {
      StartInv();
    } else {
      RunInv(run[..|run| - 1]);
      StepKeepsInv(After(run[..|run| - 1]), run[|run| - 1]);
      StepForgetsNothing(After(run[..|run| - 1]), run[|run| - 1]);
    }
  }

  /** In every run the sent messages are arrived datagrams in order, each at most once; the queue
      holds exactly the newest (256 at most) of those after the last one sent, so it is empty
      while a WebSocket is connected; datagrams are lost only where 256 newer ones were sent
      instead; and as long as the bridge runs, queued datagrams have a WebSocket or a running
      timer that opens one. */
  lemma UdpQueue(run: seq<Event>)
    ensures var w := After(run);
            SentInOrder(w.ep.sent, w.sentAt, w.arrived) && FullAfterGap(w.sentAt)
            && w.ep.pending == Newest(w.arrived[Next(w.sentAt)..]) && |w.ep.pending| <= 256 == MAX_PENDING_UDP_DATAGRAMS
            && (w.ep.connected ==> Next(w.sentAt) == |w.arrived|)
            && (w.ep.running && w.ep.pending != [] ==> w.ep.websocket.Some? || w.timers > 0)
  {
    hide After;
    RunInv(run);
  }
}
