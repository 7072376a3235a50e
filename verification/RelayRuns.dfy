/** Runs of one TCP relay channel: the local socket, the tunnel, a WebSocket as two ordered
    message queues, the two loops of the coordinator, and the connection to the VM, in any
    interleaving and with any chunking. The WebSocket can break at any time; what was under
    way is then lost from some message on. */
module RelayRuns {
  import opened Wrappers
  import opened RelayTcp

  /** What the coordinator sends; a close frame says whether the VM ended the stream. */
  datatype Frame = Data(payload: Bytes) | CloseFrame(eof: bool)

  datatype Loop = FromClient | FromUpstream

  datatype World = World(
    t: Tunnel,
    localRead: Bytes,          // read from the local socket while the tunnel was open
    sizes: set<nat>,           // sizes of the chunks it was read in
    intact: bool,              // the WebSocket has not broken
    wire: seq<Bytes>,          // messages sent by the tunnel and not yet read
    inHand: Bytes,             // rest of the message in writeAll
    reading: bool,             // the loop that reads the WebSocket is running
    rejected: bool,            // it met a message over the size limit
    upstreamIn: Bytes,         // written to the VM
    upstreamRead: Bytes,       // read from the VM
    ended: Option<ReadError>,  // how the loop that reads the VM ended
    first: Option<Loop>,       // which loop ended first
    closeSent: bool,
    back: seq<Frame>,          // frames sent and not yet delivered
    closedByEof: bool)         // the tunnel got the close frame of an ended stream

  datatype Event =
    | LocalChunk(payload: Bytes)
    | LocalGone
    | WebSocketUp
    | Handshake
    | WebSocketDown
    | Break(wireKept: nat, backKept: nat)
    | Receive
    | ReadFails
    | Write(result: WriteResult)
    | UpstreamChunk(chunk: ReadResult)
    | CloseAfterEof
    | LeaseExpired
    | Deliver

  function Begun(): World {
    World(Tunnel(false, false, [], [], []), [], {}, true, [], [], true, false, [], [], None, None, false, [], false)
  }

  /** The messages that a callback handed to the WebSocket. */
  function NewMessages(before: Tunnel, after: Tunnel): seq<Bytes> {
    if |before.sent| <= |after.sent| then after.sent[|before.sent|..] else []
  }

  /** The tunnel after a callback; a broken WebSocket carries nothing. */
  function Tunneled(w: World, t: Tunnel): World {
    w.(t := t, wire := if w.intact then w.wire + NewMessages(w.t, t) else w.wire)
  }

  function Aborted(w: World): World {
    w.(t := Close(w.t), intact := false)
  }

  function Stopped(w: World): World {
    w.(reading := false, first := if w.first == None then Some(FromClient) else w.first)
  }

  predicate Enabled(w: World, e: Event) {
    match e
    case LocalChunk(_) => !w.t.closing
    case LocalGone => true
    case WebSocketUp => w.intact && !w.t.connected && !w.t.closing
    case Handshake => true
    case WebSocketDown => !w.intact
    case Break(_, _) => true
    case Receive => w.reading && w.inHand == [] && w.wire != []
    case ReadFails => w.reading && w.inHand == []
    case Write(_) => w.reading && w.inHand != []
    case UpstreamChunk(chunk) => w.ended == None && |chunk.data| <= READ_BUFFER
    case CloseAfterEof => w.ended == Some(Eof) && w.first == Some(FromUpstream) && !w.closeSent
    case LeaseExpired => !w.closeSent
    case Deliver => w.back != [] && !w.t.closing
  }

  function LocalChunked(w: World, payload: Bytes): World {
    var t := LocalRead(w.t, payload);
    if t.closing then Aborted(w) else Tunneled(w, t).(localRead := w.localRead + payload, sizes := w.sizes + {|payload|})
  }

  function Broken(w: World, wireKept: nat, backKept: nat): World {
    w.(intact := false,
       wire := if wireKept <= |w.wire| then w.wire[..wireKept] else w.wire,
       back := if backKept <= |w.back| then w.back[..backKept] else w.back)
  }

  /** The reader takes the next message; writeAll starts with it. */
  function Received(w: World): World
    requires w.wire != []
  {
    if |w.wire[0]| > RELAY_MAX_MESSAGE_SIZE then Stopped(w).(rejected := true)
    else w.(inHand := w.wire[0], wire := w.wire[1..])
  }

  /** One write of writeAll. */
  function Written(w: World, result: WriteResult): World {
    var count := Took(w.inHand, result);
    var v := w.(upstreamIn := w.upstreamIn + w.inHand[..count], inHand := w.inHand[count..]);
    if result.ok then v else Stopped(v)
  }

  /** One read from the VM and the message made of it; after a close frame no message is taken. */
  function UpstreamChunked(w: World, chunk: ReadResult): World {
    var fits := chunk.data == [] || (w.intact && !w.closeSent);
    var v := w.(upstreamRead := w.upstreamRead + chunk.data,
                back := if chunk.data != [] && fits then w.back + [Data(chunk.data)] else w.back);
    var end := if fits then chunk.error else Some(Failure);
    if end == None then v else v.(ended := end, first := if w.first == None then Some(FromUpstream) else w.first)
  }

  function Closing(w: World, eof: bool): World {
    w.(closeSent := true, back := if w.intact then w.back + [CloseFrame(eof)] else w.back)
  }

  function Delivered(w: World): World
    requires w.back != []
  {
    match w.back[0]
    case Data(payload) => w.(t := Message(w.t, payload, true), back := w.back[1..])
    case CloseFrame(eof) => w.(t := Disconnected(w.t), back := w.back[1..], closedByEof := w.closedByEof || eof, intact := false)
  }

  function Step(w: World, e: Event): World
    requires Enabled(w, e)
  {
    match e
    case LocalChunk(payload) => LocalChunked(w, payload)
    case LocalGone => Aborted(w)
    case WebSocketUp => Tunneled(w, Connected(w.t))
    case Handshake => w.(t := w.t.(connected := false), intact := false)
    case WebSocketDown => w.(t := Disconnected(w.t))
    case Break(wireKept, backKept) => Broken(w, wireKept, backKept)
    case Receive => Received(w)
    case ReadFails => Stopped(w)
    case Write(result) => Written(w, result)
    case UpstreamChunk(chunk) => UpstreamChunked(w, chunk)
    case CloseAfterEof => Closing(w, true)
    case LeaseExpired => Closing(w, false)
    case Deliver => Delivered(w)
  }

  // ---------- Towards the VM ----------

  /** What has been written to the VM, is in the hands of writeAll, or is in the WebSocket. */
  function Sent(w: World): Bytes {
    w.upstreamIn + w.inHand + Flat(w.wire)
  }

  predicate SizesKnown(wire: seq<Bytes>, sizes: set<nat>) {
    forall m :: m in wire ==> |m| <= RELAY_MAX_MESSAGE_SIZE || |m| in sizes
  }

  /** Nothing is lost, doubled or reordered while the WebSocket is intact, and at any time a
      front part of what was read locally has gone on; what waits for the WebSocket fits one
      message; a message over the limit is one over-long local read. */
  predicate Forward(w: World) {
    Sent(w) <= w.localRead
    && (w.intact ==> !w.t.closing && w.localRead == Sent(w) + w.t.pending)
    && (w.t.connected ==> w.t.pending == [])
    && |w.t.pending| <= MAX_PENDING_TCP_BYTES
    && SizesKnown(w.wire, w.sizes)
    && (w.rejected ==> exists n :: n in w.sizes && n > RELAY_MAX_MESSAGE_SIZE)
  }

  /** A message joins the queue. */
  lemma SentMore(w: World, m: Bytes)
    ensures Sent(w.(wire := w.wire + [m])) == Sent(w) + m
  {
    FlatAppend(w.wire, m);
    assert w.upstreamIn + w.inHand + (Flat(w.wire) + m) == w.upstreamIn + w.inHand + Flat(w.wire) + m;
  }

  lemma ChunkForward(w: World, payload: Bytes)
    requires Forward(w) && !w.t.closing
    ensures Forward(LocalChunked(w, payload))
  {
    var t := LocalRead(w.t, payload);
    if w.t.connected {
      assert t.sent[|w.t.sent|..] == [payload];
      FlatAppend(w.wire, payload);
      SentMore(w, payload);
    } else if !t.closing {
      assert t.sent[|w.t.sent|..] == [];
      assert w.wire + [] == w.wire;
      assert Sent(w) + w.t.pending + payload == Sent(w) + (w.t.pending + payload);
    }
  }

  lemma UpForward(w: World)
    requires Forward(w) && w.intact && !w.t.connected && !w.t.closing
    ensures Forward(Tunneled(w, Connected(w.t)))
  {
    var t := Connected(w.t);
    if w.t.pending == [] {
      assert t.sent[|w.t.sent|..] == [] && w.wire + [] == w.wire;
    } else {
      assert t.sent[|w.t.sent|..] == [w.t.pending];
      SentMore(w, w.t.pending);
      assert Sent(w) + w.t.pending + [] == Sent(w) + w.t.pending;
    }
  }

  lemma BreakForward(w: World, wireKept: nat, backKept: nat)
    requires Forward(w)
    ensures Forward(Broken(w, wireKept, backKept))
  {
    var v := Broken(w, wireKept, backKept);
    FlatFront(w.wire, if wireKept <= |w.wire| then wireKept else |w.wire|);
    assert w.wire[..|w.wire|] == w.wire;
    assert Sent(v) <= Sent(w);
  }

  lemma SizesTail(wire: seq<Bytes>, sizes: set<nat>)
    requires wire != [] && SizesKnown(wire, sizes)
    ensures SizesKnown(wire[1..], sizes) && (|wire[0]| <= RELAY_MAX_MESSAGE_SIZE || |wire[0]| in sizes)
  {
    assert wire[0] in wire;
  }

  lemma SentReceived(w: World)
    requires w.inHand == [] && w.wire != []
    ensures Sent(w.(inHand := w.wire[0], wire := w.wire[1..])) == Sent(w)
  {
    assert w.upstreamIn + [] == w.upstreamIn;
    assert w.upstreamIn + (w.wire[0] + Flat(w.wire[1..])) == w.upstreamIn + w.wire[0] + Flat(w.wire[1..]);
  }

  lemma ReceiveForward(w: World)
    requires Forward(w) && w.inHand == [] && w.wire != []
    ensures Forward(Received(w))
  {
    hide Flat, SizesKnown;
    SizesTail(w.wire, w.sizes);
    SentReceived(w);
  }

  lemma WriteForward(w: World, result: WriteResult)
    requires Forward(w)
    ensures Forward(Written(w, result))
  {
    var v := Written(w, result);
    var count := |w.inHand| - |v.inHand|;
    assert v.upstreamIn + v.inHand == w.upstreamIn + (w.inHand[..count] + w.inHand[count..]);
    assert w.inHand[..count] + w.inHand[count..] == w.inHand;
  }

  lemma SameForward(w: World, v: World)
    requires Forward(w) && v.upstreamIn == w.upstreamIn && v.inHand == w.inHand && v.wire == w.wire && v.localRead == w.localRead
    requires v.t.pending == w.t.pending && v.sizes == w.sizes && v.rejected == w.rejected
    requires (v.t.connected ==> w.t.connected) && (v.intact ==> w.intact && v.t.closing == w.t.closing)
    ensures Forward(v)
  {
    hide Flat;
  }

  lemma DeliverForward(w: World)
    requires Forward(w) && w.back != []
    ensures Forward(Delivered(w))
  {
    hide Forward;
    // a data frame or a close frame
    if w.back[0].Data? {
      SameForward(w, Delivered(w));
    } else {
      SameForward(w, Delivered(w));
    }
  }

  lemma UpstreamForward(w: World, chunk: ReadResult)
    requires Forward(w)
    ensures Forward(UpstreamChunked(w, chunk))
  {
    hide Forward;
    // the message is taken or not
    if chunk.data == [] || (w.intact && !w.closeSent) {
      SameForward(w, UpstreamChunked(w, chunk));
    } else {
      SameForward(w, UpstreamChunked(w, chunk));
    }
  }

  lemma CloseForward(w: World, eof: bool)
    requires Forward(w)
    ensures Forward(Closing(w, eof))
  {
    hide Forward;
    SameForward(w, Closing(w, eof));
  }

  lemma AbortForward(w: World)
    requires Forward(w)
    ensures Forward(Aborted(w))
  {
    hide Forward;
    SameForward(w, Aborted(w));
  }

  lemma StopForward(w: World)
    requires Forward(w)
    ensures Forward(Stopped(w))
  {
    hide Forward;
    SameForward(w, Stopped(w));
  }

  lemma HandshakeForward(w: World)
    requires Forward(w)
    ensures Forward(w.(t := w.t.(connected := false), intact := false))
  {
    hide Forward;
    SameForward(w, w.(t := w.t.(connected := false), intact := false));
  }

  lemma DownForward(w: World)
    requires Forward(w) && !w.intact
    ensures Forward(w.(t := Disconnected(w.t)))
  {
    hide Forward;
    SameForward(w, w.(t := Disconnected(w.t)));
  }

  lemma StepForward(w: World, e: Event)
    requires Forward(w) && Enabled(w, e)
    ensures Forward(Step(w, e))
  {
    hide Forward, LocalChunked, Received, Written, Broken, Tunneled, Aborted, Stopped, UpstreamChunked, Closing, Delivered,
      Connected, Disconnected;
    match e
    case LocalChunk(payload) => ChunkForward(w, payload);
    case LocalGone => AbortForward(w);
    case WebSocketUp => UpForward(w);
    case Handshake => HandshakeForward(w);
    case WebSocketDown => DownForward(w);
    case Break(wireKept, backKept) => BreakForward(w, wireKept, backKept);
    case Receive => ReceiveForward(w);
    case ReadFails => StopForward(w);
    case Write(result) => WriteForward(w, result);
    case UpstreamChunk(chunk) => UpstreamForward(w, chunk);
    case CloseAfterEof => CloseForward(w, true);
    case LeaseExpired => CloseForward(w, false);
    case Deliver => DeliverForward(w);
  }

  // ---------- From the VM ----------

  /** The data of some frames, in order. */
  function Carried(back: seq<Frame>): Bytes {
    if back == [] then []
    else (if back[0].Data? then back[0].payload else []) + Carried(back[1..])
  }

  lemma {:induction false} CarriedAppend(back: seq<Frame>, f: Frame)
    ensures Carried(back + [f]) == Carried(back) + if f.Data? then f.payload else []
  {
    if back == [] {
      assert back + [f] == [f] && [f][1..] == [];
    } else {
      var head, more := if back[0].Data? then back[0].payload else [], if f.Data? then f.payload else [];
      assert Carried(back + [f]) == head + Carried(back[1..] + [f]) by {
        assert (back + [f])[1..] == back[1..] + [f];
      }
      var rest := Carried(back[1..]);
      assert Carried(back) == head + rest;
      CarriedAppend(back[1..], f);
      hide *;
      assert head + (rest + more) == head + rest + more;
    }
  }

  lemma {:induction false} CarriedFront(back: seq<Frame>, k: nat)
    requires k <= |back|
    ensures Carried(back[..k]) <= Carried(back)
  {
    if k > 0 {
      assert back[..k][1..] == back[1..][..k - 1];
      CarriedFront(back[1..], k - 1);
    }
  }

  /** A close frame is the last frame. */
  predicate CloseLast(back: seq<Frame>, closeSent: bool) {
    forall i :: 0 <= i < |back| && back[i].CloseFrame? ==> i == |back| - 1 && closeSent
  }

  /** The local side gets a front part of what was read from the VM, all of it as long as nothing
      failed; a close frame is the last frame; and one for an ended stream comes after all the
      bytes of the stream. */
  predicate Backward(w: World) {
    w.t.toLocal + Carried(w.back) <= w.upstreamRead
    && (w.intact && w.ended != Some(Failure) ==> w.t.toLocal + Carried(w.back) == w.upstreamRead)
    && CloseLast(w.back, w.closeSent)
    && (CloseFrame(true) in w.back ==> w.ended.Some? && w.t.toLocal + Carried(w.back) == w.upstreamRead)
    && (w.closedByEof ==> w.ended.Some? && w.t.closing && w.t.toLocal == w.upstreamRead)
  }

  /** A data frame joins the queue. */
  lemma CarriedMore(toLocal: Bytes, back: seq<Frame>, d: Bytes)
    ensures toLocal + Carried(back + [Data(d)]) == toLocal + Carried(back) + d
  {
    CarriedAppend(back, Data(d));
    hide Carried;
    assert toLocal + (Carried(back) + d) == toLocal + Carried(back) + d;
  }

  lemma LastMore(back: seq<Frame>, closeSent: bool, f: Frame)
    requires CloseLast(back, closeSent) && !closeSent
    ensures CloseLast(back + [f], f.CloseFrame?)
    ensures CloseFrame(true) in back + [f] ==> f == CloseFrame(true)
  {
  }

  lemma LastKept(back: seq<Frame>, closeSent: bool)
    requires CloseLast(back, closeSent)
    ensures CloseLast(back, true)
  {
  }

  lemma ChunkBackward(w: World, chunk: ReadResult)
    requires Backward(w) && w.ended == None
    ensures Backward(UpstreamChunked(w, chunk))
  {
    hide Carried, CloseLast;
    CarriedMore(w.t.toLocal, w.back, chunk.data);
    assert w.upstreamRead + [] == w.upstreamRead;
    if !w.closeSent {
      LastMore(w.back, w.closeSent, Data(chunk.data));
    }
  }

  lemma CloseBackward(w: World, eof: bool)
    requires Backward(w) && !w.closeSent && (eof ==> w.ended == Some(Eof))
    ensures Backward(Closing(w, eof))
  {
    hide Carried, CloseLast;
    var f := CloseFrame(eof);
    CarriedAppend(w.back, f);
    assert Carried(w.back) + [] == Carried(w.back);
    LastMore(w.back, w.closeSent, f);
    LastKept(w.back, w.closeSent);
  }

  lemma BreakBackward(w: World, wireKept: nat, backKept: nat)
    requires Backward(w)
    ensures Backward(Broken(w, wireKept, backKept))
  {
    var v := Broken(w, wireKept, backKept);
    CarriedFront(w.back, if backKept <= |w.back| then backKept else |w.back|);
    assert w.back[..|w.back|] == w.back;
    assert w.t.toLocal + Carried(v.back) <= w.t.toLocal + Carried(w.back);
    if CloseFrame(true) in v.back {
      var i :| 0 <= i < |v.back| && v.back[i] == CloseFrame(true);
      assert w.back[i] == CloseFrame(true);
      assert v.back == w.back;
    }
  }

  lemma LastTail(back: seq<Frame>, closeSent: bool)
    requires back != [] && CloseLast(back, closeSent)
    ensures CloseLast(back[1..], closeSent) && (back[0].CloseFrame? ==> back == [back[0]])
    ensures CloseFrame(true) in back[1..] ==> CloseFrame(true) in back
    ensures back[0] in back
  {
    forall i | 0 <= i < |back[1..]| && back[1..][i].CloseFrame? ensures i == |back[1..]| - 1 && closeSent {
      assert back[i + 1].CloseFrame?;
    }
  }

  lemma CarriedTail(toLocal: Bytes, back: seq<Frame>)
    requires back != []
    ensures back[0].Data? ==> toLocal + back[0].payload + Carried(back[1..]) == toLocal + Carried(back)
    ensures back == [back[0]] && back[0].CloseFrame? ==> toLocal + Carried(back) == toLocal && Carried(back[1..]) == []
  {
    var rest := Carried(back[1..]);
    if back[0].Data? {
      assert toLocal + back[0].payload + rest == toLocal + (back[0].payload + rest);
    }
  }

  lemma DeliverBackward(w: World)
    requires Backward(w) && w.back != [] && !w.t.closing
    ensures Backward(Delivered(w))
  {
    hide Carried, CloseLast;
    LastTail(w.back, w.closeSent);
    CarriedTail(w.t.toLocal, w.back);
    assert w.t.toLocal + [] == w.t.toLocal;
  }

  lemma SameBackward(w: World, v: World)
    requires Backward(w) && v.t.toLocal == w.t.toLocal && v.back == w.back && v.upstreamRead == w.upstreamRead
    requires v.ended == w.ended && v.closeSent == w.closeSent && v.closedByEof == w.closedByEof
    requires (v.intact ==> w.intact) && (w.t.closing ==> v.t.closing)
    ensures Backward(v)
  {
    hide Carried, CloseLast;
  }

  lemma LocalBackward(w: World, payload: Bytes)
    requires Backward(w)
    ensures Backward(LocalChunked(w, payload))
  {
    hide Backward;
    // the three cases of LocalRead
    if w.t.connected {
      SameBackward(w, LocalChunked(w, payload));
    } else if |w.t.pending| + |payload| <= MAX_PENDING_TCP_BYTES {
      SameBackward(w, LocalChunked(w, payload));
    } else {
      SameBackward(w, LocalChunked(w, payload));
    }
  }

  lemma UpBackward(w: World)
    requires Backward(w)
    ensures Backward(Tunneled(w, Connected(w.t)))
  {
    hide Backward;
    SameBackward(w, Tunneled(w, Connected(w.t)));
  }

  lemma AbortBackward(w: World)
    requires Backward(w)
    ensures Backward(Aborted(w))
  {
    hide Backward;
    SameBackward(w, Aborted(w));
  }

  lemma HandshakeBackward(w: World)
    requires Backward(w)
    ensures Backward(w.(t := w.t.(connected := false), intact := false))
  {
    hide Backward;
    SameBackward(w, w.(t := w.t.(connected := false), intact := false));
  }

  lemma DownBackward(w: World)
    requires Backward(w)
    ensures Backward(w.(t := Disconnected(w.t)))
  {
    hide Backward;
    SameBackward(w, w.(t := Disconnected(w.t)));
  }

  lemma StopBackward(w: World)
    requires Backward(w)
    ensures Backward(Stopped(w))
  {
    hide Backward;
    SameBackward(w, Stopped(w));
  }

  lemma ReceiveBackward(w: World)
    requires Backward(w) && w.wire != []
    ensures Backward(Received(w))
  {
    hide Backward;
    // the two cases of Received
    if |w.wire[0]| > RELAY_MAX_MESSAGE_SIZE {
      SameBackward(w, Received(w));
    } else {
      SameBackward(w, Received(w));
    }
  }

  lemma WriteBackward(w: World, result: WriteResult)
    requires Backward(w)
    ensures Backward(Written(w, result))
  {
    hide Backward;
    SameBackward(w, Written(w, result));
  }

  lemma StepBackward(w: World, e: Event)
    requires Backward(w) && Enabled(w, e)
    ensures Backward(Step(w, e))
  {
    hide Backward, LocalChunked, Received, Written, Broken, Tunneled, Aborted, Stopped, UpstreamChunked, Closing, Delivered,
      Connected, Disconnected;
    match e
    case LocalChunk(payload) => LocalBackward(w, payload);
    case LocalGone => AbortBackward(w);
    case WebSocketUp => UpBackward(w);
    case Handshake => HandshakeBackward(w);
    case WebSocketDown => DownBackward(w);
    case Break(wireKept, backKept) => BreakBackward(w, wireKept, backKept);
    case Receive => ReceiveBackward(w);
    case ReadFails => StopBackward(w);
    case Write(result) => WriteBackward(w, result);
    case UpstreamChunk(chunk) => ChunkBackward(w, chunk);
    case CloseAfterEof => CloseBackward(w, true);
    case LeaseExpired => CloseBackward(w, false);
    case Deliver => DeliverBackward(w);
  }

  // ---------- Whole runs ----------

  predicate EnabledRun(w: World, run: seq<Event>)
    decreases run
  {
    run == [] || (Enabled(w, run[0]) && EnabledRun(Step(w, run[0]), run[1..]))
  }

  function After(w: World, run: seq<Event>): World
    requires EnabledRun(w, run)
    decreases run
  {
    if run == [] then w else After(Step(w, run[0]), run[1..])
  }

  /** The run leads from w to v. */
  predicate StepsTo(w: World, run: seq<Event>, v: World) {
    EnabledRun(w, run) && After(w, run) == v
  }

  lemma NoSteps(w: World)
    ensures StepsTo(w, [], w)
  {
  }

  lemma OneMoreStep(w: World, e: Event, rest: seq<Event>, v: World)
    requires Enabled(w, e) && StepsTo(Step(w, e), rest, v)
    ensures StepsTo(w, [e] + rest, v)
  {
    assert ([e] + rest)[1..] == rest;
  }

  lemma {:induction false} StepsConcat(w: World, first: seq<Event>, u: World, second: seq<Event>, v: World)
    requires StepsTo(w, first, u) && StepsTo(u, second, v)
    ensures StepsTo(w, first + second, v)
    decreases first
  {
    hide Enabled, Step;
    if first == [] {
      assert first + second == second;
    } else {
      assert (first + second)[0] == first[0] && (first + second)[1..] == first[1..] + second;
      StepsConcat(Step(w, first[0]), first[1..], u, second, v);
    }
  }

  // ---------- What each step changes ----------

  /** The steps of the coordinator and a break do not touch the tunnel. */
  lemma TunnelKept(w: World, wireKept: nat, backKept: nat, result: WriteResult, chunk: ReadResult, eof: bool)
    ensures Broken(w, wireKept, backKept).t == w.t && Stopped(w).t == w.t && Written(w, result).t == w.t
    ensures UpstreamChunked(w, chunk).t == w.t && Closing(w, eof).t == w.t
    ensures w.wire != [] ==> Received(w).t == w.t
  {
  }

  lemma ChunkTunnel(w: World, payload: Bytes)
    ensures LocalChunked(w, payload).t == if LocalRead(w.t, payload).closing then Close(w.t) else LocalRead(w.t, payload)
    ensures Aborted(w).t == Close(w.t) && Tunneled(w, Connected(w.t)).t == Connected(w.t)
  {
    hide LocalRead, Connected, Close;
  }

  lemma DeliverTunnel(w: World)
    requires w.back != []
    ensures Delivered(w).t == if w.back[0].Data? then Message(w.t, w.back[0].payload, true) else Disconnected(w.t)
  {
    hide Message, Disconnected;
  }

  lemma TunnelStep(w: World, e: Event)
    requires Enabled(w, e)
    ensures Step(w, e).t ==
            match e
            case LocalChunk(payload) => if LocalRead(w.t, payload).closing then Close(w.t) else LocalRead(w.t, payload)
            case LocalGone => Close(w.t)
            case WebSocketUp => Connected(w.t)
            case Handshake => w.t.(connected := false)
            case WebSocketDown => Disconnected(w.t)
            case Deliver => if w.back[0].Data? then Message(w.t, w.back[0].payload, true) else Disconnected(w.t)
            case _ => w.t
  {
    hide LocalChunked, Received, Written, Broken, Tunneled, Aborted, Stopped, UpstreamChunked, Closing, Delivered,
      Connected, Disconnected, LocalRead, Message, Close;
    match e
    case LocalChunk(payload) => ChunkTunnel(w, payload);
    case LocalGone => ChunkTunnel(w, []);
    case WebSocketUp => ChunkTunnel(w, []);
    case Handshake =>
    case WebSocketDown =>
    case Deliver => DeliverTunnel(w);
    case Break(wireKept, backKept) => TunnelKept(w, wireKept, backKept, WriteResult(0, false), ReadResult([], None), false);
    case Write(result) => TunnelKept(w, 0, 0, result, ReadResult([], None), false);
    case UpstreamChunk(chunk) => TunnelKept(w, 0, 0, WriteResult(0, false), chunk, false);
    case Receive => TunnelKept(w, 0, 0, WriteResult(0, false), ReadResult([], None), false);
    case ReadFails => TunnelKept(w, 0, 0, WriteResult(0, false), ReadResult([], None), false);
    case CloseAfterEof => TunnelKept(w, 0, 0, WriteResult(0, false), ReadResult([], None), true);
    case LeaseExpired => TunnelKept(w, 0, 0, WriteResult(0, false), ReadResult([], None), false);
  }

  /** The tunnel closes exactly when the local socket or the WebSocket goes, when it gets a close
      frame, or when a local read before the WebSocket is up makes more than 1 MiB wait. */
  lemma ClosesExactly(w: World, e: Event)
    requires Enabled(w, e) && !w.t.closing
    ensures Step(w, e).t.closing <==>
            e.LocalGone? || e.WebSocketDown? || (e.Deliver? && w.back[0].CloseFrame?)
            || (e.LocalChunk? && !w.t.connected && |w.t.pending| + |e.payload| > 1048576)
  {
    hide Step;
    TunnelStep(w, e);
  }

  /** A tunnel is connected from the connected() signal until it closes or the closing handshake
      begins, and a closed one stays closed. */
  lemma ConnectedExactly(w: World, e: Event)
    requires Enabled(w, e) && (w.t.connected ==> !w.t.closing)
    ensures Step(w, e).t.connected <==> (w.t.connected || e.WebSocketUp?) && !e.Handshake? && !Step(w, e).t.closing
    ensures w.t.closing ==> Step(w, e).t.closing
  {
    hide Step;
    TunnelStep(w, e);
  }

  lemma {:induction false} RunKeeps(w: World, run: seq<Event>)
    requires EnabledRun(w, run) && Forward(w) && Backward(w)
    ensures Forward(After(w, run)) && Backward(After(w, run))
    decreases run
  {
    hide Forward, Backward, Step;
    if run != [] {
      StepForward(w, run[0]);
      StepBackward(w, run[0]);
      RunKeeps(Step(w, run[0]), run[1..]);
    }
  }

  lemma RunFromStart(run: seq<Event>)
    requires EnabledRun(Begun(), run)
    ensures Forward(After(Begun(), run)) && Backward(After(Begun(), run))
  {
    assert Forward(Begun()) && Backward(Begun());
    hide After, EnabledRun, Forward, Backward;
    RunKeeps(Begun(), run);
  }

  lemma ChunkParts(w: World, payload: Bytes)
    requires !w.t.closing && (w.t.connected ==> w.t.pending == [])
    ensures var v := LocalChunked(w, payload);
            !v.t.closing ==>
              v.intact == w.intact && v.t.connected == w.t.connected && v.localRead == w.localRead + payload
              && (w.t.connected ==> v.t.pending == []
                                    && Sent(v) == if w.intact then Sent(w.(wire := w.wire + [payload])) else Sent(w))
              && (!w.t.connected ==> v.t.pending == w.t.pending + payload && Sent(v) == Sent(w))
  {
    hide Flat;
    var t := LocalRead(w.t, payload);
    if w.t.connected {
      assert t.sent[|w.t.sent|..] == [payload];
    } else {
      assert w.t.sent[|w.t.sent|..] == [] && w.wire + [] == w.wire;
    }
  }

  /** A local read in any run: as long as it does not close the tunnel, its bytes stand behind all
      that was read before, sent or waiting; only a WebSocket that broke unnoticed swallows them. */
  lemma ChunkExact(run: seq<Event>, payload: Bytes)
    requires EnabledRun(Begun(), run) && !After(Begun(), run).t.closing
    ensures var w := After(Begun(), run);
            Enabled(w, LocalChunk(payload))
            && var v := Step(w, LocalChunk(payload));
            (v.t.closing <==> !w.t.connected && |w.t.pending| + |payload| > 1048576)
            && (!v.t.closing ==>
                  v.intact == w.intact && v.t.connected == w.t.connected && v.localRead == w.localRead + payload
                  && (w.t.connected ==> v.t.pending == [] && Sent(v) == if w.intact then Sent(w) + payload else Sent(w))
                  && (!w.t.connected ==> v.t.pending == w.t.pending + payload && Sent(v) == Sent(w)))
  {
    hide After, EnabledRun, Sent;
    var w := After(Begun(), run);
    RunFromStart(run);
    ClosesExactly(w, LocalChunk(payload));
    SentMore(w, payload);
    ChunkParts(w, payload);
  }

  /** When the WebSocket connects, what waits becomes one message. */
  lemma UpExact(w: World)
    requires Enabled(w, WebSocketUp)
    ensures var v := Step(w, WebSocketUp);
            v.t.connected && v.t.pending == []
            && v.wire == (if w.t.pending == [] then w.wire else w.wire + [w.t.pending]) && v.t.toLocal == w.t.toLocal
  {
    hide Flat;
    var t := Connected(w.t);
    if w.t.pending == [] {
      assert t.sent[|w.t.sent|..] == [] && w.wire + [] == w.wire;
    } else {
      assert t.sent[|w.t.sent|..] == [w.t.pending];
    }
  }

  /** The steps of the tunnel, a break and a close do not touch the loops. */
  lemma LoopsKept(w: World, t: Tunnel, payload: Bytes)
    ensures Tunneled(w, t).reading == w.reading && Tunneled(w, t).ended == w.ended
    ensures LocalChunked(w, payload).reading == w.reading && LocalChunked(w, payload).ended == w.ended
    ensures Aborted(w).reading == w.reading && Aborted(w).ended == w.ended
  {
    hide LocalRead, NewMessages, Close;
  }

  lemma LoopsUntouched(w: World, wireKept: nat, backKept: nat, eof: bool)
    ensures Broken(w, wireKept, backKept).reading == w.reading && Broken(w, wireKept, backKept).ended == w.ended
    ensures Closing(w, eof).reading == w.reading && Closing(w, eof).ended == w.ended
    ensures w.back != [] ==> Delivered(w).reading == w.reading && Delivered(w).ended == w.ended
  {
    hide Message, Disconnected;
  }

  lemma LoopSteps(w: World, result: WriteResult, chunk: ReadResult)
    ensures !Stopped(w).reading && Stopped(w).ended == w.ended
    ensures w.wire != [] ==> Received(w).reading == (w.reading && |w.wire[0]| <= 1048576) && Received(w).ended == w.ended
    ensures Written(w, result).reading == (w.reading && result.ok) && Written(w, result).ended == w.ended
    ensures UpstreamChunked(w, chunk).reading == w.reading
    ensures w.ended == None ==>
              UpstreamChunked(w, chunk).ended == if chunk.data != [] && (!w.intact || w.closeSent) then Some(Failure) else chunk.error
  {
    hide Took;
  }

  /** The loop that reads the WebSocket goes on unless a read fails, a write fails, or a message is
      over 1 MiB; the loop that reads the VM ends with the error of a read, or with a failure when
      its message is not taken any more. */
  lemma LoopsEndExactly(w: World, e: Event)
    requires Enabled(w, e)
    ensures Step(w, e).reading <==>
            w.reading && !e.ReadFails? && !(e.Write? && !e.result.ok) && !(e.Receive? && |w.wire[0]| > 1048576)
    ensures Step(w, e).ended ==
            if !e.UpstreamChunk? then w.ended
            else if e.chunk.data != [] && (!w.intact || w.closeSent) then Some(Failure)
            else e.chunk.error
  {
    hide LocalChunked, Received, Written, Broken, Tunneled, Aborted, Stopped, UpstreamChunked, Closing, Delivered,
      Connected, Disconnected, LocalRead;
    match e
    case LocalChunk(payload) => LoopsKept(w, w.t, payload);
    case LocalGone => LoopsKept(w, w.t, []);
    case WebSocketUp => LoopsKept(w, Connected(w.t), []);
    case Handshake =>
    case WebSocketDown =>
    case Break(wireKept, backKept) => LoopsUntouched(w, wireKept, backKept, false);
    case Receive => LoopSteps(w, WriteResult(0, false), ReadResult([], None));
    case ReadFails => LoopSteps(w, WriteResult(0, false), ReadResult([], None));
    case Write(result) => LoopSteps(w, result, ReadResult([], None));
    case UpstreamChunk(chunk) => LoopSteps(w, WriteResult(0, false), chunk);
    case CloseAfterEof => LoopsUntouched(w, 0, 0, true);
    case LeaseExpired => LoopsUntouched(w, 0, 0, false);
    case Deliver => LoopsUntouched(w, 0, 0, false);
  }

  // ---------- The loops are runs of these steps ----------

  function WriteEvents(made: seq<WriteResult>): seq<Event> {
    if made == [] then [] else [Write(made[0])] + WriteEvents(made[1..])
  }

  /** The world after writeAll has written n bytes of what it has in hand. */
  function WroteAll(w: World, n: nat, ok: bool): World
    requires n <= |w.inHand|
  {
    var v := w.(upstreamIn := w.upstreamIn + w.inHand[..n], inHand := w.inHand[n..]);
    if ok then v else Stopped(v)
  }

  lemma NothingWritten(w: World)
    requires w.inHand == []
    ensures WroteAll(w, 0, true) == w
  {
    assert w.upstreamIn + [] == w.upstreamIn;
  }

  lemma OneWrite(w: World, r: WriteResult)
    requires w.reading && w.inHand != []
    ensures Enabled(w, Write(r)) && Step(w, Write(r)) == WroteAll(w, Took(w.inHand, r), r.ok)
    ensures Step(w, Write(r)).inHand == w.inHand[Took(w.inHand, r)..] && (r.ok ==> Step(w, Write(r)).reading)
  {
  }

  lemma EventsCons(r: WriteResult, made: seq<WriteResult>)
    ensures WriteEvents([r] + made) == [Write(r)] + WriteEvents(made) && [r] + [] == [r]
  {
    assert ([r] + made)[1..] == made;
  }

  lemma WroteOn(w: World, v: World, count: nat, n: nat)
    requires count <= |w.inHand| && v == WroteAll(w, count, true) && n <= |v.inHand|
    ensures forall ok :: WroteAll(v, n, ok) == WroteAll(w, count + n, ok)
  {
    assert w.inHand[..count] + w.inHand[count..][..n] == w.inHand[..count + n];
    assert w.upstreamIn + w.inHand[..count] + w.inHand[count..][..n] == w.upstreamIn + w.inHand[..count + n];
    assert w.inHand[count..][n..] == w.inHand[count + n..];
  }

  /** A run of writeAll is a sequence of write steps. */
  lemma {:induction false} WriteAllIsSteps(w: World, results: seq<WriteResult>)
    requires w.reading
    ensures var (n, ok, _) := Outcome(w.inHand, results);
            StepsTo(w, WriteEvents(Made(w.inHand, results)), WroteAll(w, n, ok))
    decreases |results|
  {
    hide StepsTo, Step, Enabled, WroteAll;
    var r := NextResult(results);
    if w.inHand == [] {
      NothingWritten(w);
      NoSteps(w);
    } else if results != [] && r.ok {
      OneWrite(w, r);
      var v := Step(w, Write(r));
      EventsCons(r, Made(v.inHand, results[1..]));
      WriteAllIsSteps(v, results[1..]);
      WroteOn(w, v, Took(w.inHand, r), Outcome(v.inHand, results[1..]).0);
      OneMoreStep(w, Write(r), WriteEvents(Made(v.inHand, results[1..])), WroteAll(w, Outcome(w.inHand, results).0, Outcome(w.inHand, results).1));
    } else {
      OneWrite(w, r);
      EventsCons(r, []);
      NoSteps(Step(w, Write(r)));
      OneMoreStep(w, Write(r), [], Step(w, Write(r)));
    }
  }

  lemma FlatParts(base: Bytes, payload: Bytes, rest: Bytes, n: nat, more: nat)
    requires n <= |payload| && more <= |rest|
    ensures base + payload[..n] == base + (payload + rest)[..n]
    ensures n == |payload| ==> base + payload[..n] + rest[..more] == base + (payload + rest)[..n + more]
  {
    assert payload[..n] == (payload + rest)[..n];
    assert n == |payload| ==> payload[..n] + rest[..more] == (payload + rest)[..n + more];
  }

  function LoopEvents(payloads: seq<Bytes>, results: seq<WriteResult>): seq<Event>
    decreases payloads
  {
    if payloads == [] then []
    else if |payloads[0]| > RELAY_MAX_MESSAGE_SIZE then [Receive]
    else
      var (_, ok, left) := Outcome(payloads[0], results);
      [Receive] + WriteEvents(Made(payloads[0], results)) + if ok then LoopEvents(payloads[1..], left) else []
  }

  lemma ReceiveStep(w: World)
    requires w.reading && w.inHand == [] && w.wire != []
    ensures Enabled(w, Receive)
    ensures var u := Step(w, Receive);
            u.upstreamIn == w.upstreamIn
            && (|w.wire[0]| <= RELAY_MAX_MESSAGE_SIZE ==> u.inHand == w.wire[0] && u.wire == w.wire[1..] && u.reading)
  {
  }

  lemma AfterWriting(u: World, n: nat, ok: bool)
    requires n <= |u.inHand| && u.reading && (ok ==> n == |u.inHand|)
    ensures var done := WroteAll(u, n, ok);
            done.upstreamIn == u.upstreamIn + u.inHand[..n] && done.wire == u.wire && (ok ==> done.reading && done.inHand == [])
  {
  }

  /** A run of the loop that reads the WebSocket is a sequence of receive and write steps. */
  lemma {:induction false} ClientLoopIsSteps(w: World, results: seq<WriteResult>) returns (v: World)
    requires w.reading && w.inHand == []
    ensures StepsTo(w, LoopEvents(w.wire, results), v)
    ensures v.upstreamIn == w.upstreamIn + Flat(w.wire)[..LoopOutcome(w.wire, results).0]
    decreases w.wire
  {
    hide StepsTo, Step, Enabled, WroteAll, Received, Flat, LoopOutcome, Outcome, Made, WriteEvents;
    if w.wire == [] {
      v := w;
      NoSteps(w);
      LoopOver(w.wire, results);
      assert w.upstreamIn + [] == w.upstreamIn;
    } else {
      assert w.wire == [w.wire[0]] + w.wire[1..];
      ReceiveStep(w);
      var u := Step(w, Receive);
      if |w.wire[0]| > RELAY_MAX_MESSAGE_SIZE {
        v := u;
        NoSteps(u);
        OneMoreStep(w, Receive, [], u);
        LoopOver(w.wire, results);
        assert [Receive] + [] == [Receive] && w.upstreamIn + Flat(w.wire)[..0] == w.upstreamIn;
      } else {
        var (n, ok, left) := Outcome(w.wire[0], results);
        LoopStep(w.wire[0], w.wire[1..], results);
        var writes := WriteEvents(Made(w.wire[0], results));
        var done := WroteAll(u, n, ok);
        WriteAllIsSteps(u, results);
        AfterWriting(u, n, ok);
        FlatParts(w.upstreamIn, w.wire[0], Flat(w.wire[1..]), n, LoopOutcome(w.wire[1..], left).0);
        if ok {
          v := ClientLoopIsSteps(done, left);
          StepsConcat(u, writes, done, LoopEvents(w.wire[1..], left), v);
          OneMoreStep(w, Receive, writes + LoopEvents(w.wire[1..], left), v);
          assert [Receive] + writes + LoopEvents(w.wire[1..], left) == [Receive] + (writes + LoopEvents(w.wire[1..], left));
        } else {
          v := done;
          OneMoreStep(w, Receive, writes, v);
          assert [Receive] + writes + [] == [Receive] + writes;
        }
      }
    }
  }

  /** A run of the loop that reads the VM; the WebSocket breaks before the message that it does
      not take. `kept` is the number of frames and messages that a break leaves. */
  function UpstreamEvents(chunks: seq<ReadResult>, accepts: nat, kept: nat): seq<Event> {
    if chunks == [] then []
    else if chunks[0].data != [] && accepts == 0 then [Break(kept, kept), UpstreamChunk(chunks[0])]
    else
      [UpstreamChunk(chunks[0])]
      + if chunks[0].error.Some? then [] else UpstreamEvents(chunks[1..], if chunks[0].data != [] then accepts - 1 else accepts, kept)
  }

  function DataFrames(messages: seq<Bytes>): seq<Frame> {
    if messages == [] then [] else [Data(messages[0])] + DataFrames(messages[1..])
  }

  lemma BreakThenRead(w: World, c: ReadResult, kept: nat)
    requires w.ended == None && |c.data| <= READ_BUFFER && c.data != [] && kept >= |w.wire| && kept >= |w.back|
    ensures Enabled(w, Break(kept, kept)) && Enabled(Step(w, Break(kept, kept)), UpstreamChunk(c))
    ensures var v := Step(Step(w, Break(kept, kept)), UpstreamChunk(c)); v.back == w.back && v.ended == Some(Failure)
  {
    assert w.back[..|w.back|] == w.back;
  }

  lemma ReadStep(w: World, c: ReadResult)
    requires w.ended == None && w.intact && !w.closeSent && |c.data| <= READ_BUFFER
    ensures Enabled(w, UpstreamChunk(c))
    ensures var u := Step(w, UpstreamChunk(c));
            u.back == (if c.data != [] then w.back + [Data(c.data)] else w.back) && u.ended == c.error
            && u.intact && !u.closeSent && u.wire == w.wire
  {
  }

  lemma FramesOn(back: seq<Frame>, data: Bytes, messages: seq<Bytes>)
    ensures back + DataFrames((if data != [] then [data] else []) + messages)
         == (if data != [] then back + [Data(data)] else back) + DataFrames(messages)
  {
    if data != [] {
      assert ([data] + messages)[1..] == messages;
      assert back + [Data(data)] + DataFrames(messages) == back + ([Data(data)] + DataFrames(messages));
    } else {
      assert [] + messages == messages;
    }
  }

  lemma NoFrames(back: seq<Frame>)
    ensures back + DataFrames([]) == back
  {
  }

  lemma NoneForwarded(chunks: seq<ReadResult>, accepts: nat)
    requires chunks == [] || (chunks[0].data != [] && accepts == 0)
    ensures Forwarded(chunks, accepts) == ([], if chunks == [] then None else Some(Failure))
  {
  }

  /** What the first read gives, with the messages of the others. */
  lemma ForwardedHead(chunks: seq<ReadResult>, accepts: nat)
    requires chunks != [] && (chunks[0].data == [] || accepts > 0)
    ensures var head := if chunks[0].data != [] then [chunks[0].data] else [];
            var rest := if chunks[0].error.Some? then ([], chunks[0].error) else Forwarded(chunks[1..], accepts - |head|);
            Forwarded(chunks, accepts) == (head + rest.0, rest.1)
  {
    var head := if chunks[0].data != [] then [chunks[0].data] else [];
    assert head + [] == head;
  }

  lemma {:induction false} UpstreamLoopIsSteps(w: World, chunks: seq<ReadResult>, accepts: nat, kept: nat) returns (v: World)
    requires w.ended == None && w.intact && !w.closeSent && kept >= |w.wire| && kept >= |w.back| + |chunks|
    requires forall k :: 0 <= k < |chunks| ==> |chunks[k].data| <= READ_BUFFER
    ensures StepsTo(w, UpstreamEvents(chunks, accepts, kept), v)
    ensures var (messages, end) := Forwarded(chunks, accepts);
            v.back == w.back + DataFrames(messages) && v.ended == end
    decreases chunks
  {
    hide StepsTo, Step, Enabled, Forwarded, DataFrames;
    NoFrames(w.back);
    if chunks == [] {
      v := w;
      NoSteps(w);
      NoneForwarded(chunks, accepts);
    } else {
      var c := chunks[0];
      var e := UpstreamChunk(c);
      if c.data != [] && accepts == 0 {
        BreakThenRead(w, c, kept);
        var u := Step(w, Break(kept, kept));
        v := Step(u, e);
        NoSteps(v);
        OneMoreStep(u, e, [], v);
        assert [e] + [] == [e];
        OneMoreStep(w, Break(kept, kept), [e], v);
        assert [Break(kept, kept)] + [e] == [Break(kept, kept), e];
        NoneForwarded(chunks, accepts);
      } else {
        ReadStep(w, c);
        var u := Step(w, e);
        var left := if c.data != [] then accepts - 1 else accepts;
        ForwardedHead(chunks, accepts);
        if c.error.Some? {
          v := u;
          NoSteps(u);
          FramesOn(w.back, c.data, []);
          NoFrames(u.back);
        } else {
          v := UpstreamLoopIsSteps(u, chunks[1..], left, kept);
          FramesOn(w.back, c.data, Forwarded(chunks[1..], left).0);
        }
        OneMoreStep(w, e, if c.error.Some? then [] else UpstreamEvents(chunks[1..], left, kept), v);
      }
    }
  }

  /** The relay is a first-in first-out pipe in both directions, in every run. */
  lemma TcpPipe(run: seq<Event>)
    requires EnabledRun(Begun(), run)
    ensures var w := After(Begun(), run);
            Sent(w) <= w.localRead && (w.intact ==> w.localRead == Sent(w) + w.t.pending)
            && |w.t.pending| <= MAX_PENDING_TCP_BYTES <= RELAY_MAX_MESSAGE_SIZE
            && (w.rejected ==> exists n :: n in w.sizes && n > RELAY_MAX_MESSAGE_SIZE)
            && w.t.toLocal + Carried(w.back) <= w.upstreamRead
            && (w.intact && w.ended != Some(Failure) ==> w.t.toLocal + Carried(w.back) == w.upstreamRead)
            && (CloseFrame(true) in w.back ==> w.back[|w.back| - 1] == CloseFrame(true) && w.t.toLocal + Carried(w.back) == w.upstreamRead)
            && (w.closedByEof ==> w.t.toLocal == w.upstreamRead)
  {
    hide After, EnabledRun;
    RunFromStart(run);
  }
}
