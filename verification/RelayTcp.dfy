/** The TCP relay: the tunnel object of the local bridge (app/backend/relaybridge.cpp), a
    WebSocket, and the two loops of the coordinator (coordinator/relay.go). */
module RelayTcp {
  import opened Wrappers

  const MAX_PENDING_TCP_BYTES := 1024 * 1024
  const RELAY_MAX_MESSAGE_SIZE := 1024 * 1024
  const READ_BUFFER := 64 * 1024

  type Bytes = seq<bv8>

  /** The bytes of some messages, in order. */
  function Flat(ms: seq<Bytes>): Bytes {
    if ms == [] then [] else ms[0] + Flat(ms[1..])
  }

  lemma {:induction false} FlatAppend(ms: seq<Bytes>, m: Bytes)
    ensures Flat(ms + [m]) == Flat(ms) + m
  {
    if ms == [] {
      assert ms + [m] == [m] && [m][1..] == [];
    } else {
      assert (ms + [m])[1..] == ms[1..] + [m];
      FlatAppend(ms[1..], m);
    }
  }

  lemma {:induction false} FlatFront(ms: seq<Bytes>, k: nat)
    requires k <= |ms|
    ensures Flat(ms[..k]) <= Flat(ms)
  {
    if k > 0 {
      assert ms[..k][1..] == ms[1..][..k - 1];
      FlatFront(ms[1..], k - 1);
    }
  }

  // ---------- The tunnel ----------

  /** `sent` are the messages handed to the WebSocket so far, `toLocal` the bytes written to the
      local socket so far. */
  datatype Tunnel = Tunnel(connected: bool, closing: bool, pending: Bytes, sent: seq<Bytes>, toLocal: Bytes)

  /** Both sockets are aborted. */
  function Close(t: Tunnel): Tunnel {
    if t.closing then t else t.(closing := true, connected := false)
  }

  function LocalRead(t: Tunnel, payload: Bytes): Tunnel {
    if t.connected then t.(sent := t.sent + [payload])
    else if |t.pending| + |payload| <= MAX_PENDING_TCP_BYTES then t.(pending := t.pending + payload)
    else Close(t)
  }

  function Connected(t: Tunnel): Tunnel {
    if t.pending == [] then t.(connected := true)
    else t.(connected := true, sent := t.sent + [t.pending], pending := [])
  }

  function Message(t: Tunnel, payload: Bytes, localConnected: bool): Tunnel {
    if localConnected then t.(toLocal := t.toLocal + payload) else t
  }

  /** The WebSocket is gone; what was written to the local socket is still delivered. */
  function Disconnected(t: Tunnel): Tunnel {
    t.(connected := false, closing := true)
  }

  class TcpTunnel {
    var connected: bool
    var closing: bool
    var pending: Bytes
    var sent: seq<Bytes>
    var toLocal: Bytes

    ghost function Abs(): Tunnel
      reads this
    {
      Tunnel(connected, closing, pending, sent, toLocal)
    }

    constructor ()
      ensures Abs() == Tunnel(false, false, [], [], [])
    {
      connected, closing, pending, sent, toLocal := false, false, [], [], [];
    }

    method CloseTcpTunnel()
      modifies this
      ensures Abs() == Close(old(Abs()))
    {
      if closing {
        return;
      }
      closing, connected := true, false;
    }

    method OnReadyRead(payload: Bytes)
      modifies this
      ensures Abs() == LocalRead(old(Abs()), payload)
    {
      if connected {
        sent := sent + [payload];
      } else if |pending| + |payload| <= MAX_PENDING_TCP_BYTES {
        pending := pending + payload;
      } else {
        CloseTcpTunnel();
      }
    }

    method OnConnected()
      modifies this
      ensures Abs() == Connected(old(Abs()))
    {
      connected := true;
      if pending != [] {
        sent := sent + [pending];
        pending := [];
      }
    }

    method OnBinaryMessage(payload: Bytes, localConnected: bool)
      modifies this
      ensures Abs() == Message(old(Abs()), payload, localConnected)
    {
      if localConnected {
        toLocal := toLocal + payload;
      }
    }

    method OnDisconnected()
      modifies this
      ensures Abs() == Disconnected(old(Abs()))
    {
      connected := false;
      if closing {
        return;
      }
      closing := true;
    }
  }

  // ---------- The loops of the coordinator ----------

  /** What a write to a connection does: how much it takes, and whether it reports success. */
  datatype WriteResult = WriteResult(count: nat, ok: bool)

  function Took(payload: Bytes, r: WriteResult): (n: nat)
    ensures n <= |payload|
  {
    if r.count <= |payload| then r.count else |payload|
  }

  /** The result of the next write; a connection that has none left fails. */
  function NextResult(results: seq<WriteResult>): WriteResult {
    if results == [] then WriteResult(0, false) else results[0]
  }

  function OtherResults(results: seq<WriteResult>): seq<WriteResult> {
    if results == [] then [] else results[1..]
  }

  class Conn {
    var written: Bytes
    var results: seq<WriteResult>

    constructor (results: seq<WriteResult>)
      ensures written == [] && this.results == results
    {
      written, this.results := [], results;
    }

    method Write(payload: Bytes) returns (count: nat, ok: bool)
      modifies this
      ensures count == Took(payload, NextResult(old(results))) && ok == NextResult(old(results)).ok
      ensures written == old(written) + payload[..count]
      ensures results == OtherResults(old(results))
    {
      if results == [] {
        count, ok := 0, false;
      } else {
        count, ok := if results[0].count <= |payload| then results[0].count else |payload|, results[0].ok;
        results := results[1..];
      }
      written := written + payload[..count];
    }
  }

  /** The writes that writeAll makes: each with what the one before left, up to a failure. */
  function Made(payload: Bytes, results: seq<WriteResult>): seq<WriteResult>
    decreases |results|
  {
    var r := NextResult(results);
    if payload == [] then []
    else if results != [] && r.ok then [r] + Made(payload[Took(payload, r)..], results[1..])
    else [r]
  }

  /** How many bytes such writes take, whether the last one succeeded, and the results left. */
  function Outcome(payload: Bytes, results: seq<WriteResult>): (o: (nat, bool, seq<WriteResult>))
    ensures o.0 <= |payload| && (o.1 ==> o.0 == |payload|)
    decreases |results|
  {
    var r := NextResult(results);
    if payload == [] then (0, true, results)
    else if results != [] && r.ok then
      var (n, ok, left) := Outcome(payload[Took(payload, r)..], results[1..]);
      (Took(payload, r) + n, ok, left)
    else (Took(payload, r), false, OtherResults(results))
  }

  /** Whatever the connection does with the single writes, a front part of the payload is written
      in order, and all of it on success. */
  method WriteAll(writer: Conn, payload: Bytes) returns (n: nat, ok: bool)
    modifies writer
    ensures (n, ok, writer.results) == Outcome(payload, old(writer.results))
    ensures writer.written == old(writer.written) + payload[..n]
  {
    n := 0;
    var rest := payload;
    while |rest| != 0
      invariant n <= |payload| && rest == payload[n..] && writer.written == old(writer.written) + payload[..n]
      invariant var (more, fine, left) := Outcome(rest, writer.results);
                Outcome(payload, old(writer.results)) == (n + more, fine, left)
      decreases |writer.results|, |rest|
    {
      var count, fine := writer.Write(rest);
      assert payload[..n + count] == payload[..n] + rest[..count];
      n := n + count;
      if !fine {
        return n, false;
      }
      rest := rest[count..];
    }
    return n, true;
  }

  /** What the writes report to have taken, together. */
  function Total(results: seq<WriteResult>): nat {
    if results == [] then 0 else results[0].count + Total(results[1..])
  }

  predicate AllOk(results: seq<WriteResult>) {
    forall k :: 0 <= k < |results| ==> results[k].ok
  }

  /** The first k writes succeed and cover the payload. */
  predicate Covered(payload: Bytes, results: seq<WriteResult>, k: nat) {
    k <= |results| && AllOk(results[..k]) && Total(results[..k]) >= |payload|
  }

  lemma TotalCons(results: seq<WriteResult>, k: nat)
    requires 0 < k <= |results|
    ensures Total(results[..k]) == results[0].count + Total(results[1..][..k - 1])
    ensures AllOk(results[..k]) <==> results[0].ok && AllOk(results[1..][..k - 1])
  {
    assert results[..k] == [results[0]] + results[1..][..k - 1];
  }

  lemma CoveredCons(payload: Bytes, results: seq<WriteResult>, k: nat)
    requires payload != [] && 0 < k <= |results|
    ensures Covered(payload, results, k) <==>
            results[0].ok && Covered(payload[Took(payload, results[0])..], results[1..], k - 1)
  {
    hide AllOk, Total;
    TotalCons(results, k);
  }

  lemma NothingCovered(results: seq<WriteResult>)
    ensures Covered([], results, 0)
  {
  }

  lemma NeverCovered(payload: Bytes, results: seq<WriteResult>)
    requires payload != []
    ensures !Covered(payload, results, 0)
  {
  }

  lemma NoneCovered(payload: Bytes, k: nat)
    requires payload != []
    ensures !Covered(payload, [], k)
  {
  }

  lemma CoveredNext(payload: Bytes, results: seq<WriteResult>, k: nat)
    requires payload != [] && results != []
    ensures Covered(payload, results, k + 1) <==>
            results[0].ok && Covered(payload[Took(payload, results[0])..], results[1..], k)
  {
    if k < |results| {
      hide Covered;
      CoveredCons(payload, results, k + 1);
    }
  }

  /** writeAll succeeds exactly when some writes from the first on succeed and cover the payload. */
  lemma {:induction false} WriteAllExact(payload: Bytes, results: seq<WriteResult>)
    ensures Outcome(payload, results).1 <==> exists k: nat :: Covered(payload, results, k)
    decreases |results|
  {
    hide Covered;
    if payload == [] {
      NothingCovered(results);
    } else if results != [] {
      var rest := payload[Took(payload, results[0])..];
      WriteAllExact(rest, results[1..]);
      if k: nat :| Covered(payload, results, k) {
        NeverCovered(payload, results);
        CoveredNext(payload, results, k - 1);
      }
      if k: nat :| Covered(rest, results[1..], k) {
        CoveredNext(payload, results, k);
      }
    } else {
      forall k: nat ensures !Covered(payload, results, k) {
        NoneCovered(payload, k);
      }
    }
  }

  datatype Incoming = Binary(payload: Bytes) | Other

  function Payloads(messages: seq<Incoming>): seq<Bytes> {
    if messages == [] then []
    else if messages[0].Other? then Payloads(messages[1..])
    else [messages[0].payload] + Payloads(messages[1..])
  }

  /** How many bytes of the messages are written, one message after the other up to a failed
      write or a message over the limit, and whether no write failed. */
  function LoopOutcome(payloads: seq<Bytes>, results: seq<WriteResult>): (o: (nat, bool))
    ensures o.0 <= |Flat(payloads)|
    decreases payloads
  {
    if payloads == [] || |payloads[0]| > RELAY_MAX_MESSAGE_SIZE then (0, true)
    else
      var (n, ok, left) := Outcome(payloads[0], results);
      if !ok then (n, false)
      else
        var (more, fine) := LoopOutcome(payloads[1..], left);
        (n + more, fine)
  }

  /** The bytes that the messages ask to write, up to the first one over the size limit. */
  function Wanted(payloads: seq<Bytes>): Bytes {
    if payloads == [] || |payloads[0]| > RELAY_MAX_MESSAGE_SIZE then [] else payloads[0] + Wanted(payloads[1..])
  }

  lemma {:induction false} WantedAll(payloads: seq<Bytes>, results: seq<WriteResult>)
    ensures var (n, ok) := LoopOutcome(payloads, results);
            Wanted(payloads) <= Flat(payloads) && n <= |Wanted(payloads)| && (ok ==> n == |Wanted(payloads)|)
    decreases payloads
  {
    if payloads != [] && |payloads[0]| <= RELAY_MAX_MESSAGE_SIZE {
      WantedAll(payloads[1..], Outcome(payloads[0], results).2);
    }
  }

  /** The size limit is 1 MiB: what the messages ask for ends before the first longer one. */
  lemma {:induction false} WantedExact(payloads: seq<Bytes>, k: nat)
    requires k <= |payloads| && forall j :: 0 <= j < k ==> |payloads[j]| <= 1048576
    requires k < |payloads| ==> |payloads[k]| > 1048576
    ensures Wanted(payloads) == Flat(payloads[..k])
  {
    if k > 0 {
      WantedExact(payloads[1..], k - 1);
      assert payloads[..k][1..] == payloads[1..][..k - 1];
    }
  }

  lemma WholeWrite(payload: Bytes, results: seq<WriteResult>)
    requires results != [] && results[0].ok && results[0].count >= |payload|
    ensures Outcome(payload, results) == (|payload|, true, if payload == [] then results else results[1..])
  {
    if payload != [] {
      assert payload[Took(payload, results[0])..] == [];
    }
  }

  /** A connection that takes every write whole gets all of it. */
  lemma {:induction false} LoopSucceeds(payloads: seq<Bytes>, results: seq<WriteResult>)
    requires |results| >= |payloads| && forall k :: 0 <= k < |results| ==> results[k].ok && results[k].count >= 1048576
    ensures LoopOutcome(payloads, results) == (|Wanted(payloads)|, true)
    decreases payloads
  {
    if payloads != [] && |payloads[0]| <= RELAY_MAX_MESSAGE_SIZE {
      WholeWrite(payloads[0], results);
      var left := if payloads[0] == [] then results else results[1..];
      LoopSucceeds(payloads[1..], left);
    }
  }

  lemma PartWritten(base: Bytes, all: Bytes, n: nat, payload: Bytes, tail: Bytes, count: nat)
    requires n <= |all| && all == all[..n] + (payload + tail) && count <= |payload|
    ensures n + count <= |all| && all[..n + count] == all[..n] + payload[..count]
    ensures count == |payload| ==> all == all[..n + count] + tail
    ensures base + all[..n] + payload[..count] == base + all[..n + count]
  {
    assert all[..n + count] == all[..n] + payload[..count];
  }

  /** One round of the loop. */
  lemma LoopStep(payload: Bytes, tail: seq<Bytes>, results: seq<WriteResult>)
    requires |payload| <= RELAY_MAX_MESSAGE_SIZE
    ensures Flat([payload] + tail) == payload + Flat(tail)
    ensures var (n, ok, left) := Outcome(payload, results);
            LoopOutcome([payload] + tail, results) ==
            if ok then (n + LoopOutcome(tail, left).0, LoopOutcome(tail, left).1) else (n, false)
  {
    assert ([payload] + tail)[1..] == tail;
  }

  /** There is nothing more to write. */
  lemma LoopOver(payloads: seq<Bytes>, results: seq<WriteResult>)
    requires payloads == [] || |payloads[0]| > RELAY_MAX_MESSAGE_SIZE
    ensures LoopOutcome(payloads, results) == (0, true)
  {
  }

  lemma PayloadsStep(messages: seq<Incoming>, i: nat)
    requires i < |messages|
    ensures Payloads(messages[i..])
         == if messages[i].Other? then Payloads(messages[i + 1..]) else [messages[i].payload] + Payloads(messages[i + 1..])
  {
    assert messages[i..][1..] == messages[i + 1..];
  }

  lemma LoopEnds(messages: seq<Incoming>, i: nat, results: seq<WriteResult>)
    requires i <= |messages|
    requires i < |messages| ==> messages[i].Binary? && |messages[i].payload| > RELAY_MAX_MESSAGE_SIZE
    ensures LoopOutcome(Payloads(messages[i..]), results) == (0, true)
  {
    if i < |messages| {
      PayloadsStep(messages, i);
    }
    LoopOver(Payloads(messages[i..]), results);
  }

  /** The loop that reads the WebSocket until it fails. */
  method ClientToUpstream(messages: seq<Incoming>, upstream: Conn) returns (n: nat, ok: bool)
    modifies upstream
    ensures (n, ok) == LoopOutcome(Payloads(messages), old(upstream.results))
    ensures upstream.written == old(upstream.written) + Flat(Payloads(messages))[..n]
    ensures n <= |Wanted(Payloads(messages))| && (ok ==> n == |Wanted(Payloads(messages))|)
  {
    hide Payloads, Flat, LoopOutcome, Outcome, Wanted;
    WantedAll(Payloads(messages), upstream.results);
    n := 0;
    var i := 0;
    ghost var all := Flat(Payloads(messages));
    assert messages[0..] == messages;
    while i < |messages| && (messages[i].Other? || |messages[i].payload| <= RELAY_MAX_MESSAGE_SIZE)
      invariant i <= |messages| && n <= |all| && all == all[..n] + Flat(Payloads(messages[i..]))
      invariant upstream.written == old(upstream.written) + all[..n]
      invariant var (more, fine) := LoopOutcome(Payloads(messages[i..]), upstream.results);
                LoopOutcome(Payloads(messages), old(upstream.results)) == (n + more, fine)
    {
      ghost var tail := Payloads(messages[i + 1..]);
      PayloadsStep(messages, i);
      if messages[i].Binary? {
        LoopStep(messages[i].payload, tail, upstream.results);
        var count, fine := WriteAll(upstream, messages[i].payload);
        PartWritten(old(upstream.written), all, n, messages[i].payload, Flat(tail), count);
        n := n + count;
        if !fine {
          return n, false;
        }
      }
      i := i + 1;
    }
    LoopEnds(messages, i, upstream.results);
    return n, true;
  }

  /** What a read from the VM gives. */
  datatype ReadError = Eof | Failure
  datatype ReadResult = ReadResult(data: Bytes, error: Option<ReadError>)

  /** The data of the reads up to the first error, with the data that comes along with it. */
  function Available(chunks: seq<ReadResult>): Bytes {
    if chunks == [] then []
    else if chunks[0].error.Some? then chunks[0].data
    else chunks[0].data + Available(chunks[1..])
  }

  /** The messages made of the reads when the WebSocket takes `accepts` of them, and the first
      error, of reading or of writing. */
  function Forwarded(chunks: seq<ReadResult>, accepts: nat): (seq<Bytes>, Option<ReadError>) {
    if chunks == [] then ([], None)
    else if chunks[0].data != [] && accepts == 0 then ([], Some(Failure))
    else
      var head := if chunks[0].data != [] then [chunks[0].data] else [];
      if chunks[0].error.Some? then (head, chunks[0].error)
      else
        var (messages, end) := Forwarded(chunks[1..], accepts - |head|);
        (head + messages, end)
  }

  lemma FlatHead(d: Bytes, rest: seq<Bytes>)
    ensures Flat((if d != [] then [d] else []) + rest) == d + Flat(rest)
    ensures rest == [] ==> Flat(rest) == [] && Flat(if d != [] then [d] else []) == d
  {
    if d == [] {
      assert [] + rest == rest && d + Flat(rest) == Flat(rest);
    } else {
      assert ([d] + rest)[1..] == rest && [d] + [] == [d] && d + [] == d;
    }
  }

  /** They carry a front part of the data, all of it unless a message was not taken. */
  lemma {:induction false} ForwardedData(chunks: seq<ReadResult>, accepts: nat)
    requires forall k :: 0 <= k < |chunks| ==> |chunks[k].data| <= READ_BUFFER
    ensures var (messages, end) := Forwarded(chunks, accepts);
            Flat(messages) <= Available(chunks) && |messages| <= accepts
            && (forall k :: 0 <= k < |messages| ==> 0 < |messages[k]| <= READ_BUFFER)
            && (end != Some(Failure) ==> Flat(messages) == Available(chunks))
  {
    hide Flat;
    FlatHead([], []);
    if chunks != [] && (chunks[0].data == [] || accepts > 0) {
      var d := chunks[0].data;
      if chunks[0].error.None? {
        var left := if d != [] then accepts - 1 else accepts;
        ForwardedData(chunks[1..], left);
        FlatHead(d, Forwarded(chunks[1..], left).0);
      } else {
        FlatHead(d, []);
      }
    }
  }

  /** The data of the reads up to the first error, one message each. */
  function Chunks(chunks: seq<ReadResult>): seq<Bytes> {
    if chunks == [] then []
    else
      (if chunks[0].data != [] then [chunks[0].data] else []) + if chunks[0].error.Some? then [] else Chunks(chunks[1..])
  }

  function FirstError(chunks: seq<ReadResult>): Option<ReadError> {
    if chunks == [] then None else if chunks[0].error.Some? then chunks[0].error else FirstError(chunks[1..])
  }

  /** Every read that brought data becomes a message and the loop ends as the reads do, unless the
      WebSocket takes fewer messages: then it ends with the one that is not taken. */
  lemma {:induction false} ForwardedExact(chunks: seq<ReadResult>, accepts: nat)
    ensures Forwarded(chunks, accepts) ==
            if |Chunks(chunks)| <= accepts then (Chunks(chunks), FirstError(chunks))
            else (Chunks(chunks)[..accepts], Some(Failure))
  {
    if chunks != [] && (chunks[0].data == [] || accepts > 0) {
      var head := if chunks[0].data != [] then [chunks[0].data] else [];
      if chunks[0].error.None? {
        var rest := Chunks(chunks[1..]);
        ForwardedExact(chunks[1..], accepts - |head|);
        assert |rest| > accepts - |head| ==> (head + rest)[..accepts] == head + rest[..accepts - |head|];
      } else {
        assert head + [] == head;
      }
    }
  }

  /** One round of the loop. */
  lemma ForwardStep(messages: seq<Bytes>, c: ReadResult, tail: seq<ReadResult>, accepts: nat)
    ensures var (more, last) := Forwarded([c] + tail, accepts);
            var next := if c.data != [] then messages + [c.data] else messages;
            var left := if c.data != [] then accepts - 1 else accepts;
            if left < 0 then (messages + more, last) == (messages, Some(Failure))
            else if c.error.Some? then (messages + more, last) == (next, c.error)
            else (messages + more, last) == (next + Forwarded(tail, left).0, Forwarded(tail, left).1)
  {
    assert ([c] + tail)[1..] == tail;
    assert messages + [] == messages;
    var left := if c.data != [] then accepts - 1 else accepts;
    if left >= 0 && c.error.None? {
      var rest := Forwarded(tail, left).0;
      assert messages + ([c.data] + rest) == (messages + [c.data]) + rest;
      assert [] + rest == rest;
    }
  }

  /** The loop that reads the VM; it ends with the first error. */
  method UpstreamToClient(chunks: seq<ReadResult>, accepts: nat) returns (messages: seq<Bytes>, end: Option<ReadError>)
    requires forall k :: 0 <= k < |chunks| ==> |chunks[k].data| <= READ_BUFFER
    ensures (messages, end) == Forwarded(chunks, accepts)
    ensures Flat(messages) <= Available(chunks) && (end != Some(Failure) ==> Flat(messages) == Available(chunks))
    ensures forall k :: 0 <= k < |messages| ==> 0 < |messages[k]| <= READ_BUFFER
  {
    ForwardedData(chunks, accepts);
    messages := [];
    assert chunks[0..] == chunks && [] + Forwarded(chunks, accepts).0 == Forwarded(chunks, accepts).0;
    for i := 0 to |chunks|
      invariant |messages| <= accepts
      invariant var (more, last) := Forwarded(chunks[i..], accepts - |messages|);
                Forwarded(chunks, accepts) == (messages + more, last)
    {
      assert [chunks[i]] + chunks[i + 1..] == chunks[i..];
      ForwardStep(messages, chunks[i], chunks[i + 1..], accepts - |messages|);
      hide Forwarded, Flat, Available;
      if |chunks[i].data| > 0 {
        if |messages| == accepts {
          return messages, Some(Failure);
        }
        messages := messages + [chunks[i].data];
      }
      if chunks[i].error.Some? {
        return messages, chunks[i].error;
      }
    }
    assert messages + [] == messages;
    return messages, None;
  }
}
