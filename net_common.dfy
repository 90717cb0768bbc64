/** Framing, the per-connection queues and the socket calls of
    src/libwrtctl/net-common.c.

    The kernel side of a connection is a `Link`: the input the peer has sent
    (a script of chunks, each what one recv(2) can return), the answers send(2)
    will give, and the bytes the peer has received so far. */
module NetCommon {
  import opened WrtctlNet
  import Tpl

  type Positive = n: nat | n > 0 witness 1

  /** struct packet. `len` is the size of the whole frame, `cmdId` the three
      tag bytes and a NUL, `data` the frame itself, length field included. */
  datatype Packet = Packet(len: nat, cmdId: seq<byte>, data: seq<byte>)

  /** A packet whose buffer holds exactly `len` bytes, as every packet built
      by CreatePacket does. */
  predicate Framed(p: Packet)
  {
    |p.data| == p.len
  }

  /** What one recv(2) on the stream can return: some bytes, EAGAIN, the end
      of the stream (which stays put), or an error. */
  datatype Chunk = Data(bytes: seq<byte>) | Again | Closed | Fault

  /** What one send(2) returns: a positive count of bytes taken, or an error
      (ECONNRESET when `reset`). Once the plan is used up every send takes all. */
  datatype SendStep = Accept(count: Positive) | Refuse(reset: bool)

  datatype Link = Link(rx: seq<Chunk>, plan: seq<SendStep>, wire: seq<byte>)

  /** The observable state of a struct d_data. */
  datatype ConnState = ConnState(shutdown: bool, ddErrno: nat, sendq: seq<Packet>, recvq: seq<Packet>, link: Link)

  /** A net_errno together with the connection state after the call. */
  datatype Step = Step(rc: nat, st: ConnState)

  function Min(a: nat, b: nat): nat
  {
    if a <= b then a else b
  }

  // ---------------------------------------------------------------------------
  // recv(2)

  /** Bytes waiting in the script. */
  function Pending(rx: seq<Chunk>): nat
  {
    if rx == [] then 0
    else (if rx[0].Data? then |rx[0].bytes| else 0) + Pending(rx[1..])
  }

  datatype Got = Got(n: int, bytes: seq<byte>, rest: seq<Chunk>)

  /** One recv(2) asking for at most `want` bytes: a longer chunk is split and
      its tail stays at the front. */
  function Recv(rx: seq<Chunk>, want: nat): (g: Got)
    ensures g.n > 0 ==> g.n <= want && |g.bytes| == g.n && Pending(g.rest) + g.n == Pending(rx)
    ensures g.n <= 0 ==> g.bytes == [] && Pending(g.rest) <= Pending(rx)
    ensures want == 0 ==> g == Got(0, [], rx)
  {
    if want == 0 || rx == [] then Got(0, [], rx)
    else match rx[0]
      case Data(b) =>
        if |b| <= want then Got(|b|, b, rx[1..])
        else
          assert Pending([Data(b[want..])] + rx[1..]) == |b| - want + Pending(rx[1..]) by {
            assert ([Data(b[want..])] + rx[1..])[1..] == rx[1..];
          }
          Got(want, b[..want], [Data(b[want..])] + rx[1..])
      case Again => Got(-1, [], rx[1..])
      case Closed => Got(0, [], rx)
      case Fault => Got(-1, [], rx[1..])
  }

  /** The bytes of a loop that reads a fixed amount, whether all of them came,
      and the input left. */
  datatype Read = Read(complete: bool, bytes: seq<byte>, rest: seq<Chunk>)

  /** The length loop of recv_packet: recv with MSG_DONTWAIT while it returns
      bytes; the test calls recv once more after the fourth byte, asking for
      none. */
  function HeaderLoop(rx: seq<Chunk>, bremain: nat, acc: seq<byte>): (r: Read)
    ensures r.complete <==> |r.bytes| == |acc| + bremain
    ensures |acc| <= |r.bytes| <= |acc| + bremain && r.bytes[..|acc|] == acc
    ensures Pending(r.rest) + |r.bytes| <= Pending(rx) + |acc|
    decreases bremain
  {
    var g := Recv(rx, bremain);
    if g.n > 0 && bremain > 0 then
      var r := HeaderLoop(g.rest, bremain - g.n, acc + g.bytes);
      assert r.bytes[..|acc|] == (acc + g.bytes)[..|acc|];
      r
    else Read(bremain == 0, acc, g.rest)
  }

  /** The body loop of recv_packet: blocking recv while bytes remain and
      recv returns some. */
  function BodyLoop(rx: seq<Chunk>, bremain: nat, acc: seq<byte>): (r: Read)
    ensures r.complete <==> |r.bytes| == |acc| + bremain
    ensures |acc| <= |r.bytes| <= |acc| + bremain && r.bytes[..|acc|] == acc
    ensures Pending(r.rest) + |r.bytes| <= Pending(rx) + |acc|
    decreases bremain
  {
    if bremain == 0 then Read(true, acc, rx)
    else
      var g := Recv(rx, bremain);
      if g.n > 0 then
        var r := BodyLoop(g.rest, bremain - g.n, acc + g.bytes);
        assert r.bytes[..|acc|] == (acc + g.bytes)[..|acc|];
        r
      else Read(false, acc, g.rest)
  }

  /** The extra zero-length recv the length loop makes is harmless: both
      loops read the same bytes and leave the same input. */
  lemma {:induction false} HeaderLoopIsBodyLoop(rx: seq<Chunk>, bremain: nat, acc: seq<byte>)
    ensures HeaderLoop(rx, bremain, acc) == BodyLoop(rx, bremain, acc)
    decreases bremain
  {
    var g := Recv(rx, bremain);
    if g.n > 0 && bremain > 0 {
      HeaderLoopIsBodyLoop(g.rest, bremain - g.n, acc + g.bytes);
    }
  }

  /** cmd_id of a received packet: frame bytes 4..6 and a NUL. Bytes past the
      end of a frame shorter than the tag read as zero. */
  function TagOf(body: seq<byte>): (t: seq<byte>)
    ensures |t| == CMD_ID_LEN && t[3] == 0
    ensures |body| >= 3 ==> t[..3] == body[..3]
  {
    (body + [0, 0, 0])[..3] + [0]
  }

  function WithErrno(s: ConnState, rc: nat): Step
  {
    Step(rc, s.(ddErrno := rc))
  }

  /** recv_packet: read one frame and append it to recvq. */
  function RecvPacketSpec(s: ConnState): (r: Step)
    ensures r.st.shutdown == s.shutdown && r.st.sendq == s.sendq && r.st.link.plan == s.link.plan
    ensures r.st.link.wire == s.link.wire
    ensures r.rc == NET_OK ==> Pending(r.st.link.rx) + LEN_FIELD <= Pending(s.link.rx)
  {
    var h := HeaderLoop(s.link.rx, LEN_FIELD, []);
    var s1 := s.(link := s.link.(rx := h.rest));
    if !h.complete then WithErrno(s1, NET_ERR_CONNRESET)
    else
      var pLen := BeValue(h.bytes);
      if pLen > MAX_PACKET_SIZE then WithErrno(s1, NET_ERR_PKTSZ)
      else
        var b := BodyLoop(h.rest, SubU32(pLen, LEN_FIELD), []);
        var s2 := s.(link := s.link.(rx := b.rest));
        if !b.complete then WithErrno(s2, NET_ERR_CONNRESET)
        else Step(NET_OK, s2.(recvq := s.recvq + [Packet(pLen, TagOf(b.bytes), h.bytes + b.bytes)]))
  }

  /** Calls recv_packet until it fails, as the client and the server both do
      once a connection is readable; the result is never NET_OK. */
  function DrainSpec(s: ConnState): (r: Step)
    ensures r.rc != NET_OK
    ensures r.st.shutdown == s.shutdown && r.st.sendq == s.sendq && r.st.link.wire == s.link.wire
    ensures |s.recvq| <= |r.st.recvq| && r.st.recvq[..|s.recvq|] == s.recvq
    decreases Pending(s.link.rx)
  {
    var r := RecvPacketSpec(s);
    if r.rc == NET_OK then
      var d := DrainSpec(r.st);
      assert d.st.recvq[..|s.recvq|] == d.st.recvq[..|r.st.recvq|][..|s.recvq|];
      d
    else r
  }

  // ---------------------------------------------------------------------------
  // send(2)

  datatype Sent = Sent(ok: bool, reset: bool, delivered: seq<byte>, plan: seq<SendStep>)

  /** The loop of send_packet from offset `sent` on. */
  function SendLoop(plan: seq<SendStep>, bytes: seq<byte>, sent: nat): Sent
    requires sent <= |bytes|
    decreases |bytes| - sent
  {
    if sent == |bytes| then Sent(true, false, [], plan)
    else if plan == [] then Sent(true, false, bytes[sent..], [])
    else match plan[0]
      case Accept(k) =>
        var m := Min(k, |bytes| - sent);
        var r := SendLoop(plan[1..], bytes, sent + m);
        r.(delivered := bytes[sent..sent + m] + r.delivered)
      case Refuse(reset) => Sent(false, reset, [], plan[1..])
  }

  /** When send_packet's loop ends well it has put every byte from `sent` on
      the wire, in order. */
  lemma {:induction false} SendLoopDelivers(plan: seq<SendStep>, bytes: seq<byte>, sent: nat)
    requires sent <= |bytes| && SendLoop(plan, bytes, sent).ok
    ensures SendLoop(plan, bytes, sent).delivered == bytes[sent..]
    decreases |bytes| - sent
  {
    if sent < |bytes| && plan != [] {
      var m := Min(plan[0].count, |bytes| - sent);
      var r := SendLoop(plan[1..], bytes, sent + m);
      var c := bytes[sent..sent + m];
      assert SendLoop(plan, bytes, sent) == r.(delivered := c + r.delivered);
      SendLoopDelivers(plan[1..], bytes, sent + m);
      assert c + bytes[sent + m..] == bytes[sent..];
    }
  }

  /** When a send fails the loop has put a proper prefix of the bytes from
      `sent` on the wire. */
  lemma {:induction false} SendLoopCuts(plan: seq<SendStep>, bytes: seq<byte>, sent: nat)
    requires sent <= |bytes| && !SendLoop(plan, bytes, sent).ok
    ensures var d := SendLoop(plan, bytes, sent).delivered;
      |d| < |bytes| - sent && d == bytes[sent..sent + |d|]
    decreases |bytes| - sent
  {
    if plan[0].Accept? {
      var m := Min(plan[0].count, |bytes| - sent);
      var r := SendLoop(plan[1..], bytes, sent + m);
      var c := bytes[sent..sent + m];
      assert SendLoop(plan, bytes, sent) == r.(delivered := c + r.delivered);
      SendLoopCuts(plan[1..], bytes, sent + m);
      var e := sent + m + |r.delivered|;
      assert e < |bytes| && r.delivered == bytes[sent + m..e];
      assert c + bytes[sent + m..e] == bytes[sent..e];
    }
  }

  function Prepend(d: seq<byte>, r: Sent): Sent
  {
    r.(delivered := d + r.delivered)
  }

  /** One send(2) that takes bytes: the loop goes on from the new offset. */
  lemma SendLoopStep(plan: seq<SendStep>, bytes: seq<byte>, sent: nat)
    requires sent < |bytes| && (plan == [] || plan[0].Accept?)
    ensures var n := if plan == [] then |bytes| - sent else Min(plan[0].count, |bytes| - sent);
      SendLoop(plan, bytes, sent) ==
        Prepend(bytes[sent..sent + n], SendLoop(if plan == [] then [] else plan[1..], bytes, sent + n))
  {
    if plan == [] {
      assert bytes[sent..sent + (|bytes| - sent)] == bytes[sent..];
    }
  }

  lemma PrependTwice(a: seq<byte>, b: seq<byte>, r: Sent)
    ensures Prepend(a, Prepend(b, r)) == Prepend(a + b, r)
  {
    assert a + (b + r.delivered) == (a + b) + r.delivered;
  }

  /** A refused send(2) ends the loop with what went out before it. */
  lemma SendLoopRefused(d: seq<byte>, plan: seq<SendStep>, bytes: seq<byte>, sent: nat)
    requires sent < |bytes| && plan != [] && plan[0].Refuse?
    ensures Prepend(d, SendLoop(plan, bytes, sent)) == Sent(false, plan[0].reset, d, plan[1..])
  {
    assert d + [] == d;
  }

  /** Once every byte is out the loop ends with nothing more to deliver. */
  lemma SendLoopDone(d: seq<byte>, plan: seq<SendStep>, bytes: seq<byte>)
    ensures Prepend(d, SendLoop(plan, bytes, |bytes|)) == Sent(true, false, d, plan)
  {
    assert d + [] == d;
  }

  /** The account the send loop keeps: what went out so far, followed by what
      the rest of the loop will send, is what the whole loop sends. */
  ghost predicate SendsRest(plan0: seq<SendStep>, bytes: seq<byte>, plan: seq<SendStep>, sent: nat, delivered: seq<byte>)
  {
    sent <= |bytes| && SendLoop(plan0, bytes, 0) == Prepend(delivered, SendLoop(plan, bytes, sent))
  }

  /** One accepted send(2) keeps the loop's account of what is delivered. */
  lemma SendBytesStep(plan0: seq<SendStep>, bytes: seq<byte>, plan: seq<SendStep>, sent: nat, delivered: seq<byte>, n: nat)
    requires sent < |bytes| && (plan == [] || plan[0].Accept?)
    requires n == if plan == [] then |bytes| - sent else Min(plan[0].count, |bytes| - sent)
    requires SendsRest(plan0, bytes, plan, sent, delivered)
    ensures SendsRest(plan0, bytes, if plan == [] then [] else plan[1..], sent + n, delivered + bytes[sent..sent + n])
  {
    var later := SendLoop(if plan == [] then [] else plan[1..], bytes, sent + n);
    var chunk := bytes[sent..sent + n];
    assert SendLoop(plan, bytes, sent) == Prepend(chunk, later) by {
      SendLoopStep(plan, bytes, sent);
    }
    assert Prepend(delivered, Prepend(chunk, later)) == Prepend(delivered + chunk, later) by {
      PrependTwice(delivered, chunk, later);
    }
  }

  /** A refused send(2) ends the whole loop with the account so far. */
  lemma SendsRefused(plan0: seq<SendStep>, bytes: seq<byte>, plan: seq<SendStep>, sent: nat, delivered: seq<byte>)
    requires sent < |bytes| && plan != [] && plan[0].Refuse?
    requires SendsRest(plan0, bytes, plan, sent, delivered)
    ensures SendLoop(plan0, bytes, 0) == Sent(false, plan[0].reset, delivered, plan[1..])
  {
    SendLoopRefused(delivered, plan, bytes, sent);
  }

  /** With every byte out the account is the whole loop's result. */
  lemma SendsDone(plan0: seq<SendStep>, bytes: seq<byte>, plan: seq<SendStep>, delivered: seq<byte>)
    requires SendsRest(plan0, bytes, plan, |bytes|, delivered)
    ensures SendLoop(plan0, bytes, 0) == Sent(true, false, delivered, plan)
  {
    SendLoopDone(delivered, plan, bytes);
  }

  /** The while loop around send(2) in send_packet: push the bytes until they
      are all out or one send fails. */
  method SendBytes(plan0: seq<SendStep>, bytes: seq<byte>) returns (t: Sent)
    ensures t == SendLoop(plan0, bytes, 0)
  {
    var sent: nat := 0;
    var plan := plan0;
    var delivered: seq<byte> := [];
    SendsFromStart(plan0, bytes);
    while sent < |bytes|
      invariant SendsRest(plan0, bytes, plan, sent, delivered)
      decreases |bytes| - sent
    {
      if plan != [] && plan[0].Refuse? {
        SendsRefused(plan0, bytes, plan, sent, delivered);
        return Sent(false, plan[0].reset, delivered, plan[1..]);
      }
      var n := if plan == [] then |bytes| - sent else Min(plan[0].count, |bytes| - sent);
      SendBytesStep(plan0, bytes, plan, sent, delivered, n);
      plan := if plan == [] then [] else plan[1..];
      delivered, sent := delivered + bytes[sent..sent + n], sent + n;
    }
    SendsDone(plan0, bytes, plan, delivered);
    t := Sent(true, false, delivered, plan);
  }

  /** Before the first send(2) nothing is delivered. */
  lemma SendsFromStart(plan0: seq<SendStep>, bytes: seq<byte>)
    ensures SendsRest(plan0, bytes, plan0, 0, [])
  {
    assert [] + SendLoop(plan0, bytes, 0).delivered == SendLoop(plan0, bytes, 0).delivered;
  }

  /** send_packet: write the whole frame; on an error mark the connection
      for shutdown and record CONNRESET for ECONNRESET, NET_ERR otherwise. */
  function SendPacketSpec(s: ConnState, p: Packet): (r: Step)
    requires Framed(p)
  {
    var t := SendLoop(s.link.plan, p.data, 0);
    var errno := if t.ok then NET_OK else if t.reset then NET_ERR_CONNRESET else NET_ERR;
    Step(errno, s.(shutdown := s.shutdown || !t.ok, ddErrno := errno,
                   link := s.link.(plan := t.plan, wire := s.link.wire + t.delivered)))
  }

  predicate AllFramed(q: seq<Packet>)
  {
    forall i :: 0 <= i < |q| ==> Framed(q[i])
  }

  /** flush_sendq: send from the front until a send fails; the failed packet
      is dropped. */
  function FlushSpec(s: ConnState): (r: Step)
    requires AllFramed(s.sendq)
    ensures r.st.recvq == s.recvq && r.st.link.rx == s.link.rx
    decreases |s.sendq|
  {
    if s.sendq == [] then Step(NET_OK, s)
    else
      var r := SendPacketSpec(s.(sendq := s.sendq[1..]), s.sendq[0]);
      if r.rc != NET_OK then r else FlushSpec(r.st)
  }

  /** The frames of a queue, back to back. */
  function Frames(q: seq<Packet>): seq<byte>
  {
    if q == [] then [] else q[0].data + Frames(q[1..])
  }

  /** flush_sendq takes packets from the front in order: it either empties the
      queue and puts every frame on the wire, or fails on the k-th packet,
      which is dropped, after the k before it went out whole, and keeps the
      packets behind it. */
  lemma FlushOutcome(s: ConnState)
    requires AllFramed(s.sendq)
    ensures var r := FlushSpec(s);
      (r.rc == NET_OK ==> r.st.sendq == [] && r.st.link.wire == s.link.wire + Frames(s.sendq)
                          && r.st.shutdown == s.shutdown) &&
      (r.rc != NET_OK ==>
         (r.st.shutdown && r.st.ddErrno == r.rc &&
          (r.rc == NET_ERR_CONNRESET || r.rc == NET_ERR) &&
          exists k :: 0 <= k < |s.sendq| && r.st.sendq == s.sendq[k + 1..] &&
            s.link.wire + Frames(s.sendq[..k]) <= r.st.link.wire))
  {
    FlushDelivers(s);
    FlushFails(s);
  }

  /** Once the head went out whole, the packets behind it are still framed. */
  lemma FlushRestFramed(s: ConnState)
    requires AllFramed(s.sendq) && s.sendq != []
    ensures AllFramed(SendPacketSpec(s.(sendq := s.sendq[1..]), s.sendq[0]).st.sendq)
  {
    var r := SendPacketSpec(s.(sendq := s.sendq[1..]), s.sendq[0]);
    forall i | 0 <= i < |r.st.sendq| ensures Framed(r.st.sendq[i]) {
      assert r.st.sendq[i] == s.sendq[i + 1];
    }
  }

  /** The success half of FlushOutcome: every queued frame goes out, in order. */
  lemma {:induction false} FlushDelivers(s: ConnState)
    requires AllFramed(s.sendq)
    ensures var r := FlushSpec(s);
      r.rc == NET_OK ==> r.st.sendq == [] && r.st.link.wire == s.link.wire + Frames(s.sendq)
                         && r.st.shutdown == s.shutdown
    decreases |s.sendq|
  {
    if s.sendq != [] {
      var r := SendPacketSpec(s.(sendq := s.sendq[1..]), s.sendq[0]);
      if r.rc == NET_OK {
        FlushRestFramed(s);
        FlushDelivers(r.st);
        SendLoopDelivers(s.link.plan, s.sendq[0].data, 0);
        assert s.sendq[0].data[0..] == s.sendq[0].data;
        assert Frames(s.sendq) == s.sendq[0].data + Frames(s.sendq[1..]);
      }
    }
  }

  /** The failure half of FlushOutcome: the connection is marked, the failing
      packet is dropped, the later ones stay and the earlier ones went out. */
  lemma {:induction false} FlushFails(s: ConnState)
    requires AllFramed(s.sendq)
    ensures var r := FlushSpec(s);
      r.rc != NET_OK ==>
        r.st.shutdown && r.st.ddErrno == r.rc &&
        (r.rc == NET_ERR_CONNRESET || r.rc == NET_ERR) &&
        exists k :: 0 <= k < |s.sendq| && r.st.sendq == s.sendq[k + 1..] &&
          s.link.wire + Frames(s.sendq[..k]) <= r.st.link.wire
    decreases |s.sendq|
  {
    if s.sendq != [] {
      var r := SendPacketSpec(s.(sendq := s.sendq[1..]), s.sendq[0]);
      if r.rc != NET_OK {
        assert s.sendq[..0] == [];
        assert Frames([]) == [];
        assert s.link.wire + Frames(s.sendq[..0]) <= r.st.link.wire;
      } else {
        FlushRestFramed(s);
        FlushFails(r.st);
        var f := FlushSpec(r.st);
        if f.rc != NET_OK {
          SendLoopDelivers(s.link.plan, s.sendq[0].data, 0);
          assert s.sendq[0].data[0..] == s.sendq[0].data;
          var k :| 0 <= k < |r.st.sendq| && f.st.sendq == r.st.sendq[k + 1..] &&
            r.st.link.wire + Frames(r.st.sendq[..k]) <= f.st.link.wire;
          FailedLater(s.sendq, s.link.wire, r.st.link.wire, f.st, k);
        }
      }
    }
  }

  /** A failure k packets into the rest of the queue is a failure k + 1
      packets into the whole queue, once the head went out whole. */
  lemma FailedLater(q: seq<Packet>, wire0: seq<byte>, wire1: seq<byte>, f: ConnState, k: nat)
    requires q != [] && wire1 == wire0 + q[0].data
    requires k < |q| - 1 && f.sendq == q[1..][k + 1..]
    requires wire1 + Frames(q[1..][..k]) <= f.link.wire
    ensures k + 1 < |q| && f.sendq == q[k + 2..]
    ensures wire0 + Frames(q[..k + 1]) <= f.link.wire
  {
    assert q[..k + 1][1..] == q[1..][..k];
    assert Frames(q[..k + 1]) == q[0].data + Frames(q[1..][..k]);
    assert wire0 + Frames(q[..k + 1]) == wire1 + Frames(q[1..][..k]);
  }

  // ---------------------------------------------------------------------------
  // create_packet and the net_cmd packets

  /** strnlen over the bytes of a C string (the end of the sequence ends it too). */
  function StrnLen(s: seq<byte>, n: nat): (k: nat)
    ensures k <= n && k <= |s|
    ensures forall i :: 0 <= i < k ==> s[i] != 0
    ensures k < n && k < |s| ==> s[k] == 0
  {
    if n == 0 || s == [] || s[0] == 0 then 0 else 1 + StrnLen(s[1..], n - 1)
  }

  datatype Created = Created(rc: nat, packet: Option<Packet>)

  /** create_packet: the frame is the total length big-endian, the three tag
      bytes and a NUL, then the data. */
  function CreatePacket(tag: seq<byte>, data: seq<byte>): (r: Created)
    ensures r.rc == NET_OK <==> r.packet.Some?
    ensures r.rc in {NET_OK, NET_ERR_PKTSZ, NET_ERR_INVAL}
    ensures r.rc == NET_ERR_PKTSZ <==> FRAME_HEADER + |data| > MAX_PACKET_SIZE
    ensures r.rc == NET_ERR_INVAL <==> FRAME_HEADER + |data| <= MAX_PACKET_SIZE && StrnLen(tag, CMD_ID_LEN) != CMD_ID_LEN - 1
    ensures r.packet.Some? ==>
      var p := r.packet.value;
      Framed(p) && p.len == FRAME_HEADER + |data| && p.cmdId == tag[..3] + [0] &&
      p.data == BeU32(p.len) + p.cmdId + data
  {
    var total := FRAME_HEADER + |data|;
    if total > MAX_PACKET_SIZE then Created(NET_ERR_PKTSZ, None)
    else if StrnLen(tag, CMD_ID_LEN) != CMD_ID_LEN - 1 then Created(NET_ERR_INVAL, None)
    else
      var id := tag[..3] + [0];
      Created(NET_OK, Some(Packet(total, id, BeU32(total) + id + data)))
  }

  /** create_packet as written: the total is computed in uint32_t, so a
      data_len within eight of 2^32 wraps it below the cap. */
  function CreatePacketAsWritten(tag: seq<byte>, data: seq<byte>): (r: Created)
    requires |data| < U32_MOD
    ensures r.rc == NET_OK <==> r.packet.Some?
    ensures r.packet.Some? ==> r.packet.value.len == (FRAME_HEADER + |data|) % U32_MOD
    ensures r.packet.Some? ==> |tag| >= 3 && r.packet.value.data == BeU32(r.packet.value.len) + tag[..3] + [0] + data
  {
    var total := (FRAME_HEADER + |data|) % U32_MOD;
    if total > MAX_PACKET_SIZE then Created(NET_ERR_PKTSZ, None)
    else if StrnLen(tag, CMD_ID_LEN) != CMD_ID_LEN - 1 then Created(NET_ERR_INVAL, None)
    else
      var id := tag[..3] + [0];
      Created(NET_OK, Some(Packet(total, id, BeU32(total) + id + data)))
  }

  /** The wrap: 2^32 - 8 bytes of data pass the cap as a packet of length 0
      whose buffer is four gibibytes long. */
  lemma CreatePacketWraps()
    ensures var data := seq(U32_MOD - FRAME_HEADER, i => 0);
      var r := CreatePacketAsWritten(NET_CMD_MAGIC, data);
      r.rc == NET_OK && r.packet.value.len == 0 && !Framed(r.packet.value)
  {
    var data := seq(U32_MOD - FRAME_HEADER, i => 0);
    assert StrnLen(NET_CMD_MAGIC, CMD_ID_LEN) == 3 by {
      assert NET_CMD_MAGIC[1..][1..][1..] == [];
    }
  }

  /** Where the wrap cannot happen the two agree, so the corrected
      CreatePacket is create_packet for every data length below 2^32 - 8. */
  lemma CreatePacketAgrees(tag: seq<byte>, data: seq<byte>)
    requires FRAME_HEADER + |data| < U32_MOD
    ensures CreatePacketAsWritten(tag, data) == CreatePacket(tag, data)
  {
  }

  /** create_net_cmd_packet: pack the command and frame it under "NET". */
  function CreateNetCmdPacket(cmd: NetCmd): (r: Created)
  {
    match Tpl.Pack(cmd)
      case None => Created(NET_ERR_TPL, None)
      case Some(image) => CreatePacket(NET_CMD_MAGIC, image)
  }

  /** create_net_cmd_packet as written: the dump's size_t length reaches
      create_packet as a uint32_t, so only its low 32 bits survive and only
      that many bytes of the image are framed. */
  function CreateNetCmdPacketAsWritten(cmd: NetCmd): (r: Created)
    ensures Tpl.Pack(cmd).None? ==> r == Created(NET_ERR_TPL, None)
    ensures r.packet.Some? ==>
      Tpl.Pack(cmd).Some? && |r.packet.value.data| >= FRAME_HEADER &&
      r.packet.value.data[FRAME_HEADER..] == Tpl.Pack(cmd).value[..|Tpl.Pack(cmd).value| % U32_MOD]
  {
    match Tpl.Pack(cmd)
      case None => Created(NET_ERR_TPL, None)
      case Some(image) => CreatePacketAsWritten(NET_CMD_MAGIC, image[..|image| % U32_MOD])
  }

  /** Below 2^32 - 8 bytes of image nothing is cut or wraps, and the corrected
      CreateNetCmdPacket is the as-written one. */
  lemma CreateNetCmdPacketAgrees(cmd: NetCmd)
    requires Tpl.Pack(cmd).None? || FRAME_HEADER + |Tpl.Pack(cmd).value| < U32_MOD
    ensures CreateNetCmdPacketAsWritten(cmd) == CreateNetCmdPacket(cmd)
  {
    if Tpl.Pack(cmd).Some? {
      var image := Tpl.Pack(cmd).value;
      assert image[..|image| % U32_MOD] == image;
      CreatePacketAgrees(NET_CMD_MAGIC, image);
    }
  }

  /** The cut: a NULL subsystem and a value of (2^32 - 1) / 3 characters pack
      to 2^32 + 7 bytes. As written that goes out with NET_OK as a 15-byte
      frame holding the first 7 bytes of the image, which does not unpack;
      the corrected form refuses it with NET_ERR_PKTSZ. */
  lemma CreateNetCmdPacketTruncates(id: nat, s: string)
    requires id < 0x1_0000 && |s| == (U32_MOD - 1) / 3
    ensures var r := CreateNetCmdPacketAsWritten(NetCmd(id, None, Some(s)));
      r.rc == NET_OK && r.packet.value.len == 15 &&
      UnpackNetCmdPacket(r.packet.value).None?
    ensures CreateNetCmdPacket(NetCmd(id, None, Some(s))).rc == NET_ERR_PKTSZ
  {
    var cmd := NetCmd(id, None, Some(s));
    var image := Tpl.Pack(cmd).value;
    assert image == [id / 0x100, id % 0x100] + [0] + ([1] + BeU32(|s|) + Tpl.StrBytes(s));
    assert |image| == U32_MOD + 7;
    var cut := image[..|image| % U32_MOD];
    assert cut == [id / 0x100, id % 0x100, 0, 1] + BeU32(|s|)[..3];
    NetMagicLength();
    var p := CreateNetCmdPacketAsWritten(cmd).packet.value;
    assert p.data[FRAME_HEADER..p.len] == cut;
    assert cut[2..][1..] == [1] + BeU32(|s|)[..3];
  }

  /** unpack_net_cmd_packet: the TPL image after the eight header bytes;
      None is NET_ERR_TPL. A packet shorter than its header has no image. */
  function UnpackNetCmdPacket(p: Packet): Option<NetCmd>
  {
    if p.len < FRAME_HEADER || |p.data| < p.len then None
    else Tpl.Unpack(p.data[FRAME_HEADER..p.len])
  }

  lemma NetMagicLength()
    ensures StrnLen(NET_CMD_MAGIC, CMD_ID_LEN) == CMD_ID_LEN - 1
  {
    assert NET_CMD_MAGIC[1..][1..][1..] == [];
  }

  /** A net_cmd packet comes back as the same command, and fails only with
      NET_ERR_TPL or NET_ERR_PKTSZ. */
  lemma NetCmdRoundTrip(cmd: NetCmd)
    ensures var r := CreateNetCmdPacket(cmd);
      (r.rc == NET_OK || r.rc == NET_ERR_TPL || r.rc == NET_ERR_PKTSZ) &&
      (r.rc == NET_OK ==> UnpackNetCmdPacket(r.packet.value) == Some(cmd) &&
                          r.packet.value.cmdId[..3] == NET_CMD_MAGIC)
  {
    NetMagicLength();
    var r := CreateNetCmdPacket(cmd);
    if r.rc == NET_OK {
      var image := Tpl.Pack(cmd).value;
      var p := r.packet.value;
      assert p.data[FRAME_HEADER..p.len] == image;
      Tpl.PackUnpack(cmd);
    }
  }

  // ---------------------------------------------------------------------------
  // Frames on the wire

  /** A byte stream delivered as the given non-empty pieces. */
  function Feed(cs: seq<seq<byte>>): seq<Chunk>
  {
    if cs == [] then [] else [Data(cs[0])] + Feed(cs[1..])
  }

  function Concat(cs: seq<seq<byte>>): seq<byte>
  {
    if cs == [] then [] else cs[0] + Concat(cs[1..])
  }

  predicate NonEmptyPieces(cs: seq<seq<byte>>)
  {
    forall i :: 0 <= i < |cs| ==> |cs[i]| > 0
  }

  /** The pieces left after k bytes were read from the front. */
  function After(cs: seq<seq<byte>>, k: nat): seq<seq<byte>>
    requires k <= |Concat(cs)|
    decreases |cs|
  {
    if k == 0 || cs == [] then cs
    else if |cs[0]| <= k then After(cs[1..], k - |cs[0]|)
    else [cs[0][k..]] + cs[1..]
  }

  /** A piece no longer than the request is taken whole. */
  lemma BodyLoopWhole(b: seq<byte>, rx: seq<Chunk>, k: nat, acc: seq<byte>)
    requires 0 < |b| <= k
    ensures BodyLoop([Data(b)] + rx, k, acc) == BodyLoop(rx, k - |b|, acc + b)
  {
    assert ([Data(b)] + rx)[1..] == rx;
  }

  /** A longer piece is cut, and its tail stays at the front. */
  lemma BodyLoopSplit(b: seq<byte>, rx: seq<Chunk>, k: nat, acc: seq<byte>)
    requires 0 < k < |b|
    ensures BodyLoop([Data(b)] + rx, k, acc) == Read(true, acc + b[..k], [Data(b[k..])] + rx)
  {
    assert ([Data(b)] + rx)[1..] == rx;
  }

  lemma NonEmptyTail(cs: seq<seq<byte>>)
    requires NonEmptyPieces(cs) && cs != []
    ensures NonEmptyPieces(cs[1..])
  {
    forall i | 0 <= i < |cs[1..]| ensures |cs[1..][i]| > 0 {
      assert cs[1..][i] == cs[i + 1];
    }
  }

  /** However the stream is cut into pieces, a read of k bytes gets the first
      k bytes of the stream and leaves the rest, still in pieces. */
  lemma {:induction false} ReadFromPieces(cs: seq<seq<byte>>, more: seq<Chunk>, k: nat, acc: seq<byte>)
    requires NonEmptyPieces(cs) && k <= |Concat(cs)|
    ensures NonEmptyPieces(After(cs, k)) && Concat(After(cs, k)) == Concat(cs)[k..]
    ensures BodyLoop(Feed(cs) + more, k, acc) == Read(true, acc + Concat(cs)[..k], Feed(After(cs, k)) + more)
    decreases |cs|, 1
  {
    if k == 0 {
      assert Concat(cs)[..0] == [];
    } else if |cs[0]| <= k {
      ReadWholePiece(cs, more, k, acc);
    } else {
      ReadCutPiece(cs, more, k, acc);
    }
  }

  lemma {:induction false} ReadWholePiece(cs: seq<seq<byte>>, more: seq<Chunk>, k: nat, acc: seq<byte>)
    requires NonEmptyPieces(cs) && 0 < k <= |Concat(cs)| && cs != [] && |cs[0]| <= k
    ensures NonEmptyPieces(After(cs, k)) && Concat(After(cs, k)) == Concat(cs)[k..]
    ensures BodyLoop(Feed(cs) + more, k, acc) == Read(true, acc + Concat(cs)[..k], Feed(After(cs, k)) + more)
    decreases |cs|, 0
  {
    var c, k' := cs[0], k - |cs[0]|;
    WholePiece(cs, k);
    ReadFromPieces(cs[1..], more, k', acc + c);
    FeedFront(cs, more);
    BodyLoopWhole(c, Feed(cs[1..]) + more, k, acc);
    AppendAssoc(acc, c, Concat(cs[1..])[..k']);
  }

  lemma AppendAssoc(a: seq<byte>, b: seq<byte>, c: seq<byte>)
    ensures (a + b) + c == a + (b + c)
  {
  }

  /** The feed of the pieces starts with the first piece. */
  lemma FeedFront(cs: seq<seq<byte>>, more: seq<Chunk>)
    requires cs != []
    ensures Feed(cs) + more == [Data(cs[0])] + (Feed(cs[1..]) + more)
  {
  }

  /** Reading past a whole first piece is reading the remaining pieces. */
  lemma WholePiece(cs: seq<seq<byte>>, k: nat)
    requires NonEmptyPieces(cs) && 0 < k <= |Concat(cs)| && cs != [] && |cs[0]| <= k
    ensures NonEmptyPieces(cs[1..]) && k - |cs[0]| <= |Concat(cs[1..])|
    ensures After(cs, k) == After(cs[1..], k - |cs[0]|)
    ensures Concat(cs)[..k] == cs[0] + Concat(cs[1..])[..k - |cs[0]|]
    ensures Concat(cs)[k..] == Concat(cs[1..])[k - |cs[0]|..]
  {
    assert Concat(cs) == cs[0] + Concat(cs[1..]);
    NonEmptyTail(cs);
  }

  lemma ReadCutPiece(cs: seq<seq<byte>>, more: seq<Chunk>, k: nat, acc: seq<byte>)
    requires NonEmptyPieces(cs) && 0 < k && cs != [] && k < |cs[0]|
    ensures NonEmptyPieces(After(cs, k)) && Concat(After(cs, k)) == Concat(cs)[k..]
    ensures BodyLoop(Feed(cs) + more, k, acc) == Read(true, acc + Concat(cs)[..k], Feed(After(cs, k)) + more)
  {
    var c := cs[0];
    FeedFront(cs, more);
    CutPiece(cs, k);
    FeedFront(After(cs, k), more);
    BodyLoopSplit(c, Feed(cs[1..]) + more, k, acc);
  }

  /** Reading less than the first piece leaves that piece's tail in front. */
  lemma CutPiece(cs: seq<seq<byte>>, k: nat)
    requires NonEmptyPieces(cs) && 0 < k && cs != [] && k < |cs[0]|
    ensures After(cs, k) == [cs[0][k..]] + cs[1..]
    ensures NonEmptyPieces(After(cs, k)) && Concat(After(cs, k)) == Concat(cs)[k..]
    ensures Concat(cs)[..k] == cs[0][..k]
  {
    var c := cs[0];
    var rest := [c[k..]] + cs[1..];
    assert Concat(cs) == c + Concat(cs[1..]);
    assert rest[1..] == cs[1..];
    assert Concat(rest) == c[k..] + Concat(cs[1..]);
    assert NonEmptyPieces(rest) by {
      forall i | 0 <= i < |rest| ensures |rest[i]| > 0 {
        if i > 0 { assert rest[i] == cs[i]; }
      }
    }
  }

  /** Reading a count of bytes that is exactly what the pieces hold uses
      them all up. */
  lemma ReadAllPieces(cs: seq<seq<byte>>, more: seq<Chunk>)
    requires NonEmptyPieces(cs)
    ensures BodyLoop(Feed(cs) + more, |Concat(cs)|, []) == Read(true, Concat(cs), more)
  {
    var k := |Concat(cs)|;
    ReadFromPieces(cs, more, k, []);
    var left := After(cs, k);
    PiecesLength(left);
    assert left == [];
    assert Concat(cs)[..k] == Concat(cs);
  }

  /** Any frame whose length field is its own size, with a size from 4 up to
      the cap, is read whole and queued, however the stream cuts it. */
  lemma ReceiveFrame(s: ConnState, frame: seq<byte>, cs: seq<seq<byte>>, more: seq<Chunk>)
    requires LEN_FIELD <= |frame| <= MAX_PACKET_SIZE && frame[..LEN_FIELD] == BeU32(|frame|)
    requires NonEmptyPieces(cs) && Concat(cs) == frame && s.link.rx == Feed(cs) + more
    ensures RecvPacketSpec(s) ==
      Step(NET_OK, s.(recvq := s.recvq + [Packet(|frame|, TagOf(frame[LEN_FIELD..]), frame)], link := s.link.(rx := more)))
  {
    FrameHeader(frame, cs, more);
    var rest := After(cs, LEN_FIELD);
    BeU32RoundTrip(|frame|);
    assert SubU32(|frame|, LEN_FIELD) == |Concat(rest)|;
    ReadAllPieces(rest, more);
    assert frame[..LEN_FIELD] + frame[LEN_FIELD..] == frame;
  }

  /** The length field of a frame is read whole, whatever the cut, and the
      rest of the frame stays in pieces. */
  lemma FrameHeader(frame: seq<byte>, cs: seq<seq<byte>>, more: seq<Chunk>)
    requires LEN_FIELD <= |frame| && NonEmptyPieces(cs) && Concat(cs) == frame
    ensures var rest := After(cs, LEN_FIELD);
      NonEmptyPieces(rest) && Concat(rest) == frame[LEN_FIELD..] &&
      HeaderLoop(Feed(cs) + more, LEN_FIELD, []) == Read(true, frame[..LEN_FIELD], Feed(rest) + more)
  {
    HeaderLoopIsBodyLoop(Feed(cs) + more, LEN_FIELD, []);
    ReadFromPieces(cs, more, LEN_FIELD, []);
    assert [] + frame[..LEN_FIELD] == frame[..LEN_FIELD];
  }

  /** A frame CreatePacket built, received however the stream cuts it, gives
      back the same packet at the tail of recvq, consumes exactly the frame and
      leaves the errno alone. */
  lemma ReceiveCreatedFrame(s: ConnState, p: Packet, tag: seq<byte>, data: seq<byte>,
                            cs: seq<seq<byte>>, more: seq<Chunk>)
    requires CreatePacket(tag, data).packet == Some(p)
    requires NonEmptyPieces(cs) && Concat(cs) == p.data && s.link.rx == Feed(cs) + more
    ensures RecvPacketSpec(s) == Step(NET_OK, s.(recvq := s.recvq + [p], link := s.link.(rx := more)))
  {
    assert p.data[..LEN_FIELD] == BeU32(p.len);
    ReceiveFrame(s, p.data, cs, more);
    assert p.data[LEN_FIELD..][..3] == p.cmdId[..3];
  }

  /** Non-empty pieces carry at least one byte each. */
  lemma {:induction false} PiecesLength(cs: seq<seq<byte>>)
    requires NonEmptyPieces(cs)
    ensures |Concat(cs)| >= |cs|
  {
    if cs != [] {
      NonEmptyTail(cs);
      PiecesLength(cs[1..]);
    }
  }

  /** A length field below 4 is not rejected: p_len - 4 wraps, so a packet
      that does arrive carries 2^32 more bytes than its len says; from 4 up
      the buffer holds exactly len bytes. */
  lemma ReceivedLength(s: ConnState)
    requires RecvPacketSpec(s).rc == NET_OK
    ensures var q := RecvPacketSpec(s).st.recvq;
      var p := q[|q| - 1];
      p.len <= MAX_PACKET_SIZE &&
      (p.len >= LEN_FIELD ==> Framed(p)) &&
      (p.len < LEN_FIELD ==> |p.data| == p.len + U32_MOD)
  {
  }

  /** "Nothing to read yet" and "peer closed" give the same answer: CONNRESET,
      recvq unchanged and dd_errno set; only the queues let a caller tell them
      apart. */
  lemma NoDataLooksLikeClose(s: ConnState, rest: seq<Chunk>)
    ensures var a := RecvPacketSpec(s.(link := s.link.(rx := [Again] + rest)));
      var c := RecvPacketSpec(s.(link := s.link.(rx := [Closed])));
      a.rc == c.rc == NET_ERR_CONNRESET &&
      a.st.recvq == c.st.recvq == s.recvq &&
      a.st.ddErrno == c.st.ddErrno == NET_ERR_CONNRESET
  {
    assert ([Again] + rest)[1..] == rest;
  }

  /** Fewer than four header bytes, whatever cut the stream short, leave recvq
      alone and set dd_errno to CONNRESET. */
  lemma ShortHeader(s: ConnState)
    requires !HeaderLoop(s.link.rx, LEN_FIELD, []).complete
    ensures RecvPacketSpec(s).rc == NET_ERR_CONNRESET
    ensures RecvPacketSpec(s).st.recvq == s.recvq && RecvPacketSpec(s).st.ddErrno == NET_ERR_CONNRESET
  {
  }

  /** A length field above the cap is refused before any of the body is read,
      and nothing is queued. */
  lemma Oversize(s: ConnState, hdr: seq<byte>, more: seq<Chunk>)
    requires |hdr| == LEN_FIELD && BeValue(hdr) > MAX_PACKET_SIZE
    requires s.link.rx == [Data(hdr)] + more
    ensures RecvPacketSpec(s) == Step(NET_ERR_PKTSZ, s.(ddErrno := NET_ERR_PKTSZ, link := s.link.(rx := more)))
  {
    ReadFromPieces([hdr], more, LEN_FIELD, []);
    HeaderLoopIsBodyLoop(s.link.rx, LEN_FIELD, []);
    assert Feed([hdr]) == [Data(hdr)];
    assert After([hdr], LEN_FIELD) == [];
  }

  // ---------------------------------------------------------------------------
  // struct d_data

  /** The peer lookup create_dd makes: getpeername fails with ENOTCONN or
      otherwise, getnameinfo fails, or the peer has a name. */
  datatype PeerName = NotConnected | PeerFault | NameFault | Named(host: string)

  /** The account the length loop keeps: finishing the loop from here gives
      what the whole loop gives. */
  ghost predicate HeaderRest(rx0: seq<Chunk>, rx: seq<Chunk>, bremain: nat, hdr: seq<byte>)
  {
    HeaderLoop(rx0, LEN_FIELD, []) == HeaderLoop(rx, bremain, hdr)
  }

  /** One round of the length loop that got bytes keeps the account. */
  lemma HeaderStep(rx0: seq<Chunk>, rx: seq<Chunk>, bremain: nat, hdr: seq<byte>)
    requires HeaderRest(rx0, rx, bremain, hdr) && Recv(rx, bremain).n > 0
    ensures var g := Recv(rx, bremain);
      bremain >= g.n && HeaderRest(rx0, g.rest, bremain - g.n, hdr + g.bytes)
  {
  }

  /** The round of the length loop that got nothing ends it. */
  lemma HeaderStop(rx0: seq<Chunk>, rx: seq<Chunk>, bremain: nat, hdr: seq<byte>)
    requires HeaderRest(rx0, rx, bremain, hdr) && Recv(rx, bremain).n <= 0
    ensures HeaderLoop(rx0, LEN_FIELD, []) == Read(bremain == 0, hdr, Recv(rx, bremain).rest)
  {
  }

  /** The length loop of recv_packet over the socket's input. */
  method ReadHeader(rx0: seq<Chunk>) returns (r: Read)
    ensures r == HeaderLoop(rx0, LEN_FIELD, [])
  {
    var rx := rx0;
    var bremain: nat := LEN_FIELD;
    var hdr: seq<byte> := [];
    var g := Recv(rx, bremain);
    while g.n > 0
      invariant HeaderRest(rx0, rx, bremain, hdr) && g == Recv(rx, bremain)
      decreases bremain
    {
      HeaderStep(rx0, rx, bremain, hdr);
      rx, bremain, hdr := g.rest, bremain - g.n, hdr + g.bytes;
      g := Recv(rx, bremain);
    }
    HeaderStop(rx0, rx, bremain, hdr);
    r := Read(bremain == 0, hdr, g.rest);
  }

  /** The body loop of recv_packet: `want` more bytes. */
  method ReadBody(rx0: seq<Chunk>, want: nat) returns (r: Read)
    ensures r == BodyLoop(rx0, want, [])
  {
    var rx := rx0;
    var bremain: nat := want;
    var body: seq<byte> := [];
    while bremain > 0
      invariant BodyLoop(rx0, want, []) == BodyLoop(rx, bremain, body)
      decreases bremain
    {
      var g := Recv(rx, bremain);
      if g.n <= 0 {
        return Read(false, body, g.rest);
      }
      rx, bremain, body := g.rest, bremain - g.n, body + g.bytes;
    }
    r := Read(true, body, rx);
  }

  class Conn {
    const fd: int
    const host: string
    var shutdown: bool
    var ddErrno: nat
    var sendq: seq<Packet>
    var recvq: seq<Packet>
    var link: Link

    function State(): ConnState
      reads this
    {
      ConnState(shutdown, ddErrno, sendq, recvq, link)
    }

    /** Every packet waiting to be sent has a buffer of its declared length. */
    predicate Valid()
      reads this
    {
      AllFramed(sendq)
    }

    /** create_dd once the peer is known: empty queues, no shutdown, no error. */
    constructor (fd: int, host: string, link: Link)
      ensures Valid()
      ensures this.fd == fd && this.host == host
      ensures State() == ConnState(false, NET_OK, [], [], link)
    {
      this.fd := fd;
      this.host := host;
      shutdown := false;
      ddErrno := NET_OK;
      sendq := [];
      recvq := [];
      this.link := link;
    }

    /** nc_add_packet: append at the tail of sendq. */
    method AddPacket(p: Packet)
      requires Valid() && Framed(p)
      modifies this
      ensures Valid()
      ensures State() == old(State()).(sendq := old(sendq) + [p])
    {
      sendq := sendq + [p];
    }

    /** recv_packet: one length-prefixed packet from the socket onto recvq. */
    method RecvPacket() returns (rc: nat)
      modifies this
      ensures Step(rc, State()) == RecvPacketSpec(old(State()))
      ensures Valid() == old(Valid())
    {
      var h := ReadHeader(link.rx);
      if !h.complete {
        rc := NET_ERR_CONNRESET;
        ddErrno, link := rc, link.(rx := h.rest);
        return;
      }
      var pLen := BeValue(h.bytes);
      if pLen > MAX_PACKET_SIZE {
        rc := NET_ERR_PKTSZ;
        ddErrno, link := rc, link.(rx := h.rest);
        return;
      }
      var b := ReadBody(h.rest, SubU32(pLen, LEN_FIELD));
      if !b.complete {
        rc := NET_ERR_CONNRESET;
        ddErrno, link := rc, link.(rx := b.rest);
        return;
      }
      var p := Packet(pLen, TagOf(b.bytes), h.bytes + b.bytes);
      recvq := recvq + [p];
      link := link.(rx := b.rest);
      rc := NET_OK;
    }

    /** The read loop both callers run once the socket is readable. */
    method Drain() returns (rc: nat)
      modifies this
      ensures Step(rc, State()) == DrainSpec(old(State()))
      ensures Valid() == old(Valid())
    {
      rc := RecvPacket();
      while rc == NET_OK
        invariant DrainSpec(old(State())) == (if rc == NET_OK then DrainSpec(State()) else Step(rc, State()))
        invariant Valid() == old(Valid())
        decreases if rc == NET_OK then Pending(link.rx) + 1 else 0
      {
        rc := RecvPacket();
      }
    }

    method SendPacket(p: Packet) returns (rc: nat)
      requires Framed(p)
      modifies this
      ensures Step(rc, State()) == SendPacketSpec(old(State()), p)
    {
      var t := SendBytes(link.plan, p.data);
      ddErrno := if t.ok then NET_OK else if t.reset then NET_ERR_CONNRESET else NET_ERR;
      if !t.ok {
        shutdown := true;
      }
      link := link.(plan := t.plan, wire := link.wire + t.delivered);
      rc := ddErrno;
    }

    method FlushSendq() returns (rc: nat)
      requires Valid()
      modifies this
      ensures Step(rc, State()) == FlushSpec(old(State()))
      ensures Valid()
    {
      rc := NET_OK;
      while rc == NET_OK && sendq != []
        invariant Valid()
        invariant FlushSpec(old(State())) == (if rc == NET_OK then FlushSpec(State()) else Step(rc, State()))
        decreases |sendq|
      {
        var p := sendq[0];
        sendq := sendq[1..];
        rc := SendPacket(p);
      }
    }
  }
  /** create_dd: a connection with empty queues for a connected socket, named
      by its peer; no connection when the peer lookup fails. */
  method CreateDd(fd: int, peer: PeerName, link: Link) returns (rc: nat, dd: Conn?)
    ensures dd != null <==> rc == NET_OK
    ensures rc == match peer
      case NotConnected => NET_ERR_CONNRESET
      case PeerFault => NET_ERR_MEM
      case NameFault => NET_ERR_NS
      case Named(_) => NET_OK
    ensures dd != null ==> (fresh(dd) && dd.Valid() && dd.fd == fd && dd.host == peer.host &&
                            dd.State() == ConnState(false, NET_OK, [], [], link))
  {
    dd := null;
    match peer {
      case NotConnected => rc := NET_ERR_CONNRESET;
      case PeerFault => rc := NET_ERR_MEM;
      case NameFault => rc := NET_ERR_NS;
      case Named(host) =>
        dd := new Conn(fd, host, link);
        rc := NET_OK;
    }
  }
}
