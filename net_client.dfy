/** The client side of src/libwrtctl/net-client.c: one connection, the wait
    for a response, and closing. The select(2) call is an input: whether it
    failed, timed out, or found the socket readable. */
module NetClient {
  import opened WrtctlNet
  import opened NetCommon

  /** What select(2) on the client socket reports. */
  datatype Ready = SelectFault | NotReady | Readable

  /** What getaddrinfo, socket and connect do for create_conn. */
  datatype Connect = ResolveFault | SocketFault | ConnectFault | Connected(fd: int, peer: PeerName, link: Link)

  /** wait_on_response: flush when asked to, wait, then read until recv_packet
      fails. Running out of input with at least one packet queued (queued
      before the call or during it) is a response. */
  function WaitSpec(s: ConnState, sendPackets: bool, ready: Ready): (r: Step)
    requires AllFramed(s.sendq)
  {
    var f := if sendPackets then FlushSpec(s) else Step(NET_OK, s);
    if f.rc != NET_OK then f
    else match ready
      case SelectFault => Step(NET_ERR_FD, f.st)
      case NotReady => Step(NET_ERR_TIMEOUT, f.st)
      case Readable =>
        var d := DrainSpec(f.st);
        var rc := if d.rc == NET_ERR_CONNRESET then (if d.st.recvq != [] then NET_OK else NET_ERR_CONNRESET)
                  else NET_ERR;
        Step(rc, d.st)
  }

  /** The outcomes of wait_on_response: a flush error comes back as it is and
      nothing is read; a select error or a timeout leaves recvq alone; NET_OK
      means recvq holds at least one packet, the old ones still first, and
      (when flushing) every queued frame went out. Any read failure other than
      the end of the input is NET_ERR. */
  lemma WaitOutcome(s: ConnState, sendPackets: bool, ready: Ready)
    requires AllFramed(s.sendq)
    ensures var r := WaitSpec(s, sendPackets, ready);
      r.rc in {NET_OK, NET_ERR_FD, NET_ERR_TIMEOUT, NET_ERR_CONNRESET, NET_ERR} &&
      (sendPackets && FlushSpec(s).rc != NET_OK ==> r == FlushSpec(s) && r.st.recvq == s.recvq) &&
      (ready != Readable ==> r.st.recvq == s.recvq) &&
      (ready == SelectFault && (!sendPackets || FlushSpec(s).rc == NET_OK) ==> r.rc == NET_ERR_FD) &&
      (ready == NotReady && (!sendPackets || FlushSpec(s).rc == NET_OK) ==> r.rc == NET_ERR_TIMEOUT) &&
      (r.rc == NET_OK ==>
         ready == Readable && r.st.recvq != [] &&
         |s.recvq| <= |r.st.recvq| && r.st.recvq[..|s.recvq|] == s.recvq &&
         (sendPackets ==> r.st.sendq == [] && r.st.link.wire == s.link.wire + Frames(s.sendq)))
  {
    FlushOutcome(s);
  }

  /** Packets already queued count: with one waiting in recvq, a readable
      socket with nothing to read still gives NET_OK. */
  lemma QueuedPacketCounts(s: ConnState, rest: seq<Chunk>)
    requires s.sendq == [] && s.recvq != [] && s.link.rx == [Again] + rest
    ensures WaitSpec(s, false, Readable) == Step(NET_OK, s.(ddErrno := NET_ERR_CONNRESET, link := s.link.(rx := rest)))
  {
    assert ([Again] + rest)[1..] == rest;
  }

  /** The documented contract: one complete response frame, however the
      stream cuts it, followed by no more input for now, is a response, and
      it is the packet the peer built. */
  lemma OneFrameIsAResponse(s: ConnState, p: Packet, tag: seq<byte>, data: seq<byte>,
                            cs: seq<seq<byte>>, rest: seq<Chunk>)
    requires CreatePacket(tag, data).packet == Some(p)
    requires s.sendq == [] && s.recvq == []
    requires NonEmptyPieces(cs) && Concat(cs) == p.data && s.link.rx == Feed(cs) + ([Again] + rest)
    ensures WaitSpec(s, true, Readable) ==
      Step(NET_OK, s.(recvq := [p], ddErrno := NET_ERR_CONNRESET, link := s.link.(rx := rest)))
  {
    ReceiveCreatedFrame(s, p, tag, data, cs, [Again] + rest);
    var s1 := s.(recvq := [p], link := s.link.(rx := [Again] + rest));
    assert RecvPacketSpec(s) == Step(NET_OK, s1);
    assert ([Again] + rest)[1..] == rest;
    assert RecvPacketSpec(s1) == Step(NET_ERR_CONNRESET, s1.(ddErrno := NET_ERR_CONNRESET, link := s.link.(rx := rest)));
    assert DrainSpec(s) == DrainSpec(s1);
  }

  /** struct net_client. */
  class Client {
    var dd: Conn?

    /** alloc_client: no connection yet. */
    constructor ()
      ensures dd == null
    {
      dd := null;
    }

    /** create_conn: resolve, open the socket, connect, then create_dd. A
        failed resolve or socket call leaves dd alone; from create_dd on, dd
        is the new connection or nothing. */
    method CreateConn(c: Connect) returns (rc: nat)
      modifies this
      ensures rc == match c
        case ResolveFault => NET_ERR
        case SocketFault => NET_ERR_FD
        case ConnectFault => NET_ERR
        case Connected(_, peer, _) => match peer
          case NotConnected => NET_ERR_CONNRESET
          case PeerFault => NET_ERR_MEM
          case NameFault => NET_ERR_NS
          case Named(_) => NET_OK
      ensures !c.Connected? ==> dd == old(dd)
      ensures c.Connected? ==> (dd != null <==> rc == NET_OK)
      ensures rc == NET_OK ==> (dd != null && fresh(dd) && dd.Valid() && dd.fd == c.fd &&
                                dd.State() == ConnState(false, NET_OK, [], [], c.link))
    {
      match c {
        case ResolveFault => rc := NET_ERR;
        case SocketFault => rc := NET_ERR_FD;
        case ConnectFault => rc := NET_ERR;
        case Connected(fd, peer, link) =>
          rc, dd := CreateDd(fd, peer, link);
      }
    }

    /** wait_on_response on the client's connection. */
    method WaitOnResponse(sendPackets: bool, ready: Ready) returns (rc: nat)
      requires dd != null && dd.Valid()
      modifies dd
      ensures dd.Valid()
      ensures Step(rc, dd.State()) == WaitSpec(old(dd.State()), sendPackets, ready)
    {
      if sendPackets {
        rc := dd.FlushSendq();
        if rc != NET_OK {
          return;
        }
      }
      match ready {
        case SelectFault =>
          rc := NET_ERR_FD;
          return;
        case NotReady =>
          rc := NET_ERR_TIMEOUT;
          return;
        case Readable =>
      }
      rc := dd.Drain();
      if rc == NET_ERR_CONNRESET {
        rc := if dd.recvq != [] then NET_OK else NET_ERR_CONNRESET;
      } else {
        rc := NET_ERR;
      }
    }
  }

  /** close_conn: drop the connection, if there is a client and it has one. */
  method CloseConn(nc: Client?)
    modifies nc
    ensures nc != null ==> nc.dd == null
  {
    if nc != null && nc.dd != null {
      nc.dd := null;
    }
  }
}
