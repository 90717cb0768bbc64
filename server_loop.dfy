/** The server object of src/libwrtctl/net-server.c: create_ns,
    accept_connection, default_shutdown_dd and default_server_loop, whose
    turns are driven by what select(2) and accept(2) report. */
module NetServerLoop {
  import opened WrtctlNet
  import opened NetCommon
  import opened Mod
  import opened NetServer

  /** A connection on dd_list, by its socket and state. */
  datatype Peer = Peer(fd: int, st: ConnState)

  /** The descriptors the first select(2) of a turn reports ready. */
  datatype Selection = Selection(readable: set<int>, writable: set<int>)

  /** What accept(2) and create_dd do with a pending connection: accept fails
      (ECONNABORTED or otherwise), or gives a socket, its peer and its link. */
  datatype AcceptResult = AcceptFault(aborted: bool) | Accepted(fd: int, peer: PeerName, link: Link)

  /** Everything one turn of the loop meets from outside: the first select
      (None: it failed), accept, the second select (the writable set, None:
      it failed), and the module handlers. */
  datatype TurnInput = TurnInput(select1: Option<Selection>, accept: AcceptResult, select2: Option<set<int>>, h: Handlers)

  /** The observable part of struct net_server: the shutdown flag, dd_list,
      and the sockets closed so far, in order. */
  datatype ServerState = ServerState(shutdown: bool, conns: seq<Peer>, closed: seq<int>)

  /** The net_errno a turn leaves in rc, whether it broke out of the loop,
      and the new state. */
  datatype TurnOut = TurnOut(rc: nat, exit: bool, s: ServerState)

  function Fds(ps: seq<Peer>): (r: seq<int>)
    ensures |r| == |ps| && forall k :: 0 <= k < |ps| ==> r[k] == ps[k].fd
  {
    if ps == [] then [] else [ps[0].fd] + Fds(ps[1..])
  }

  /** FD_SET(dd->fd, &incoming_fd) for every connection. */
  function FdSet(ps: seq<Peer>): set<int>
  {
    set k | 0 <= k < |ps| :: ps[k].fd
  }

  /** FD_SET(dd->fd, &outgoing_fd1) for every connection with a non-empty sendq. */
  function WaitingSet(ps: seq<Peer>): set<int>
  {
    set k | 0 <= k < |ps| && ps[k].st.sendq != [] :: ps[k].fd
  }

  predicate PeersFramed(ps: seq<Peer>)
  {
    forall k :: 0 <= k < |ps| ==> AllFramed(ps[k].st.sendq)
  }

  /** The state of a connection create_dd makes. */
  function Fresh(link: Link): ConnState
  {
    ConnState(false, NET_OK, [], [], link)
  }

  /** accept_connection: ECONNABORTED is NET_ERR_CONNRESET and any other
      accept failure NET_ERR; a peer create_dd cannot name gets its socket
      shut down and closed; a new connection joins the tail of dd_list. */
  function AcceptSpec(s: ServerState, a: AcceptResult): (nat, ServerState)
  {
    match a
      case AcceptFault(aborted) => (if aborted then NET_ERR_CONNRESET else NET_ERR, s)
      case Accepted(fd, peer, link) =>
        match peer
          case Named(_) => (NET_OK, s.(conns := s.conns + [Peer(fd, Fresh(link))]))
          case NotConnected => (NET_ERR_CONNRESET, s.(closed := s.closed + [fd]))
          case PeerFault => (NET_ERR_MEM, s.(closed := s.closed + [fd]))
          case NameFault => (NET_ERR_NS, s.(closed := s.closed + [fd]))
  }

  // ---------------------------------------------------------------------------
  // The first pass over dd_list: read, decide, hand to the handler

  /** Reading a readable connection until recv_packet fails: NET_ERR_CONNRESET
      with something still queued keeps it, anything else marks it for
      shutdown. */
  function DrainDecide(st: ConnState): (r: Step)
    ensures r.rc != NET_OK
    ensures !r.st.shutdown ==> r.rc == NET_ERR_CONNRESET && (r.st.sendq != [] || r.st.recvq != [])
  {
    var d := DrainSpec(st);
    if d.rc == NET_ERR_CONNRESET && (d.st.sendq != [] || d.st.recvq != []) then d
    else Step(d.rc, d.st.(shutdown := true))
  }

  /** Where the first pass has got to: the connections still listed, the
      sockets closed, the descriptors handed to the handler (outgoing_fd2),
      rc, and whether a handler asked the server to stop. */
  datatype Pass = Pass(kept: seq<Peer>, closed: seq<int>, handled: set<int>, rc: nat, stop: bool)

  /** One connection of the first pass. */
  function Visit(p: Peer, readable: set<int>, h: Handlers, mods: seq<ModData>, acc: Pass): Pass
  {
    Settled(p.fd, if p.fd in readable then DrainDecide(p.st) else Step(acc.rc, p.st), h, mods, acc)
  }

  /** A drained connection is closed when it is marked for shutdown, and
      otherwise handled and kept. */
  function Settled(fd: int, d: Step, h: Handlers, mods: seq<ModData>, acc: Pass): Pass
  {
    if d.st.shutdown then acc.(closed := acc.closed + [fd], rc := d.rc)
    else
      var r := HandleSpec(h, mods, d.st);
      acc.(kept := acc.kept + [Peer(fd, r.st)], handled := acc.handled + {fd}, rc := NET_OK, stop := acc.stop || r.stop)
  }

  function FirstPass(ps: seq<Peer>, readable: set<int>, h: Handlers, mods: seq<ModData>, acc: Pass): Pass
    decreases |ps|
  {
    if ps == [] then acc else FirstPass(ps[1..], readable, h, mods, Visit(ps[0], readable, h, mods, acc))
  }

  // ---------------------------------------------------------------------------
  // The second pass: flush; the third: reap

  /** Where the flush pass has got to: the connections seen, and rc. */
  datatype Flushed = Flushed(done: seq<Peer>, rc: nat)

  function FlushOne(p: Peer, flush: set<int>, acc: Flushed): Flushed
    requires AllFramed(p.st.sendq)
  {
    if p.fd in flush then
      var f := FlushSpec(p.st);
      Flushed(acc.done + [Peer(p.fd, if f.rc != NET_OK then f.st.(shutdown := true) else f.st)], f.rc)
    else acc.(done := acc.done + [p])
  }

  function FlushPass(ps: seq<Peer>, flush: set<int>, acc: Flushed): Flushed
    requires PeersFramed(ps)
    decreases |ps|
  {
    if ps == [] then acc
    else FlushPass(ps[1..], flush, FlushOne(ps[0], flush, acc))
  }

  /** The connections left after the reaping pass, and the sockets it closes. */
  datatype Reaped = Reaped(kept: seq<Peer>, closed: seq<int>)

  function ReapPass(ps: seq<Peer>, acc: Reaped): Reaped
    decreases |ps|
  {
    if ps == [] then acc
    else if ps[0].st.shutdown then ReapPass(ps[1..], acc.(closed := acc.closed + [ps[0].fd]))
    else ReapPass(ps[1..], acc.(kept := acc.kept + [ps[0]]))
  }

  // ---------------------------------------------------------------------------
  // One turn of default_server_loop

  /** One iteration of the while loop. A failed select, or an accept that
      is not NET_OK, breaks out of the loop at once. Otherwise the readable
      connections are read and every connection still open is handed to the
      handler; then the connections that had something to send when the
      turn began, or that the handler saw and the second select reports
      writable, are flushed; last, every connection marked for shutdown is
      removed and its socket closed. */
  function TurnSpec(s: ServerState, inp: TurnInput, listenFd: int, mods: seq<ModData>): TurnOut
    requires PeersFramed(s.conns)
  {
    match inp.select1
      case None => TurnOut(NET_ERR_FD, true, s)
      case Some(sel) =>
        var readable := sel.readable * ({listenFd} + FdSet(s.conns));
        var w1 := sel.writable * WaitingSet(s.conns);
        var (rc0, s0) := AcceptStage(s, sel, inp.accept, listenFd);
        if rc0 != NET_OK then TurnOut(rc0, true, s0)
        else Passes(s0, readable, w1, inp.select2, inp.h, mods)
  }

  /** accept_connection runs only when select reports the listening socket
      readable. */
  function AcceptStage(s: ServerState, sel: Selection, a: AcceptResult, listenFd: int): (nat, ServerState)
  {
    if listenFd in sel.readable then AcceptSpec(s, a) else (NET_OK, s)
  }

  /** The rest of a turn once accept is done: the first pass, then (unless
      the second select fails) the flush and reaping passes. */
  function Passes(s0: ServerState, readable: set<int>, w1: set<int>, select2: Option<set<int>>, h: Handlers, mods: seq<ModData>): TurnOut
    requires PeersFramed(s0.conns)
  {
    var p1 := FirstPass(s0.conns, readable, h, mods, Pass([], s0.closed, {}, NET_OK, false));
    var s1 := ServerState(s0.shutdown || p1.stop, p1.kept, p1.closed);
    match select2
      case None => TurnOut(NET_ERR_FD, true, s1)
      case Some(w2) =>
        FirstPassFramed(s0.conns, readable, h, mods, Pass([], s0.closed, {}, NET_OK, false));
        var p2 := FlushPass(p1.kept, w1 + w2 * p1.handled, Flushed([], p1.rc));
        var p3 := ReapPass(p2.done, Reaped([], p1.closed));
        TurnOut(p2.rc, false, ServerState(s1.shutdown, p3.kept, p3.closed))
  }

  lemma {:induction false} FirstPassFramed(ps: seq<Peer>, readable: set<int>, h: Handlers, mods: seq<ModData>, acc: Pass)
    requires PeersFramed(ps) && PeersFramed(acc.kept)
    ensures PeersFramed(FirstPass(ps, readable, h, mods, acc).kept)
    decreases |ps|
  {
    if ps != [] {
      var next := Visit(ps[0], readable, h, mods, acc);
      assert PeersFramed(next.kept) by {
        assert AllFramed(ps[0].st.sendq);
        var d := if ps[0].fd in readable then DrainSpec(ps[0].st) else Step(acc.rc, ps[0].st);
        assert d.st.sendq == ps[0].st.sendq;
      }
      forall k | 0 <= k < |ps[1..]| ensures AllFramed(ps[1..][k].st.sendq) {
        assert ps[1..][k] == ps[k + 1];
      }
      FirstPassFramed(ps[1..], readable, h, mods, next);
    }
  }

  // ---------------------------------------------------------------------------
  // The loop as a whole

  /** Leaving the loop: every connection still listed is shut down and
      closed, front to back, then the listening socket. */
  function Closing(s: ServerState, listenFd: int): ServerState
  {
    s.(conns := [], closed := s.closed + Fds(s.conns) + [listenFd])
  }

  /** How far the loop gets on a sequence of turns: it either left the loop
      with rc, or is still serving when the turns run out. */
  datatype Served = Served(finished: bool, rc: nat, s: ServerState)

  function ServeSpec(s: ServerState, inputs: seq<TurnInput>, listenFd: int, mods: seq<ModData>): Served
    requires PeersFramed(s.conns)
    decreases |inputs|
  {
    if inputs == [] then Served(false, NET_OK, s)
    else
      var t := TurnSpec(s, inputs[0], listenFd, mods);
      if t.exit || t.s.shutdown then Served(true, t.rc, Closing(t.s, listenFd))
      else
        TurnFramed(s, inputs[0], listenFd, mods);
        ServeSpec(t.s, inputs[1..], listenFd, mods)
  }

  /** Leaving the loop leaves dd_list empty and closes the listening socket
      last; while the loop runs, the server is not shutting down. */
  lemma ServeCloses(s: ServerState, inputs: seq<TurnInput>, listenFd: int, mods: seq<ModData>)
    requires PeersFramed(s.conns)
    ensures var r := ServeSpec(s, inputs, listenFd, mods);
      r.finished ==> r.s.conns == [] && |r.s.closed| > 0 && r.s.closed[|r.s.closed| - 1] == listenFd
    ensures var r := ServeSpec(s, inputs, listenFd, mods);
      !r.finished ==> r.rc == NET_OK && (r.s.shutdown ==> r.s == s)
  {
    ServeFinishes(s, inputs, listenFd, mods);
    ServeRunning(s, inputs, listenFd, mods);
  }

  lemma {:induction false} ServeFinishes(s: ServerState, inputs: seq<TurnInput>, listenFd: int, mods: seq<ModData>)
    requires PeersFramed(s.conns)
    ensures var r := ServeSpec(s, inputs, listenFd, mods);
      r.finished ==> ClosedLast(r.s, listenFd)
    decreases |inputs|
  {
    if inputs != [] {
      var t := TurnSpec(s, inputs[0], listenFd, mods);
      if t.exit || t.s.shutdown {
        assert ServeSpec(s, inputs, listenFd, mods) == Served(true, t.rc, Closing(t.s, listenFd));
        ClosingLast(t.s, listenFd);
      } else {
        TurnFramed(s, inputs[0], listenFd, mods);
        assert ServeSpec(s, inputs, listenFd, mods) == ServeSpec(t.s, inputs[1..], listenFd, mods);
        ServeFinishes(t.s, inputs[1..], listenFd, mods);
      }
    }
  }

  lemma {:induction false} ServeRunning(s: ServerState, inputs: seq<TurnInput>, listenFd: int, mods: seq<ModData>)
    requires PeersFramed(s.conns)
    ensures var r := ServeSpec(s, inputs, listenFd, mods);
      !r.finished ==> r.rc == NET_OK && (r.s.shutdown ==> r.s == s)
    decreases |inputs|
  {
    if inputs != [] {
      var t := TurnSpec(s, inputs[0], listenFd, mods);
      if !(t.exit || t.s.shutdown) {
        TurnFramed(s, inputs[0], listenFd, mods);
        assert ServeSpec(s, inputs, listenFd, mods) == ServeSpec(t.s, inputs[1..], listenFd, mods);
        ServeRunning(t.s, inputs[1..], listenFd, mods);
      }
    }
  }

  /** dd_list is empty and the listening socket was the last one closed. */
  predicate ClosedLast(st: ServerState, listenFd: int)
  {
    st.conns == [] && |st.closed| > 0 && st.closed[|st.closed| - 1] == listenFd
  }

  /** Closing empties dd_list and closes the listening socket last. */
  lemma ClosingLast(s: ServerState, listenFd: int)
    ensures ClosedLast(Closing(s, listenFd), listenFd)
  {
  }

  lemma {:induction false} FlushPassFramed(ps: seq<Peer>, flush: set<int>, acc: Flushed)
    requires PeersFramed(ps) && PeersFramed(acc.done)
    ensures PeersFramed(FlushPass(ps, flush, acc).done)
    decreases |ps|
  {
    if ps != [] {
      var p := ps[0];
      if p.fd in flush {
        FlushKeepsFramed(p.st);
      }
      var next := FlushOne(p, flush, acc);
      forall k | 0 <= k < |ps[1..]| ensures AllFramed(ps[1..][k].st.sendq) {
        assert ps[1..][k] == ps[k + 1];
      }
      FlushPassFramed(ps[1..], flush, next);
    }
  }

  /** What flush_sendq leaves queued is the tail of what was queued. */
  lemma FlushKeepsFramed(s: ConnState)
    requires AllFramed(s.sendq)
    ensures AllFramed(FlushSpec(s).st.sendq)
  {
    FlushOutcome(s);
    var r := FlushSpec(s);
    if r.rc != NET_OK {
      var k :| 0 <= k < |s.sendq| && r.st.sendq == s.sendq[k + 1..] &&
        s.link.wire + Frames(s.sendq[..k]) <= r.st.link.wire;
      forall i | 0 <= i < |r.st.sendq| ensures Framed(r.st.sendq[i]) {
        assert r.st.sendq[i] == s.sendq[k + 1 + i];
      }
    }
  }

  lemma {:induction false} ReapPassKeeps(ps: seq<Peer>, acc: Reaped)
    requires PeersFramed(ps) && PeersFramed(acc.kept)
    requires forall k :: 0 <= k < |acc.kept| ==> !acc.kept[k].st.shutdown
    ensures var r := ReapPass(ps, acc);
      PeersFramed(r.kept) && forall k :: 0 <= k < |r.kept| ==> !r.kept[k].st.shutdown
    decreases |ps|
  {
    if ps != [] {
      forall k | 0 <= k < |ps[1..]| ensures AllFramed(ps[1..][k].st.sendq) {
        assert ps[1..][k] == ps[k + 1];
      }
      if ps[0].st.shutdown {
        ReapPassKeeps(ps[1..], acc.(closed := acc.closed + [ps[0].fd]));
      } else {
        assert AllFramed(ps[0].st.sendq);
        ReapPassKeeps(ps[1..], acc.(kept := acc.kept + [ps[0]]));
      }
    }
  }

  /** A turn that does not leave the loop ends with every connection still
      listed open (none marked for shutdown) and every queue framed. */
  lemma TurnFramed(s: ServerState, inp: TurnInput, listenFd: int, mods: seq<ModData>)
    requires PeersFramed(s.conns)
    ensures var t := TurnSpec(s, inp, listenFd, mods);
      PeersFramed(t.s.conns) &&
      (!t.exit ==> forall k :: 0 <= k < |t.s.conns| ==> !t.s.conns[k].st.shutdown)
  {
    var t := TurnSpec(s, inp, listenFd, mods);
    if inp.select1.Some? {
      var sel := inp.select1.value;
      var readable := sel.readable * ({listenFd} + FdSet(s.conns));
      var w1 := sel.writable * WaitingSet(s.conns);
      var (rc0, s0) := if listenFd in readable then AcceptSpec(s, inp.accept) else (NET_OK, s);
      if rc0 == NET_OK {
        assert PeersFramed(s0.conns);
        var a0 := Pass([], s0.closed, {}, NET_OK, false);
        FirstPassFramed(s0.conns, readable, inp.h, mods, a0);
        var p1 := FirstPass(s0.conns, readable, inp.h, mods, a0);
        if inp.select2.Some? {
          var w2 := inp.select2.value;
          FlushPassFramed(p1.kept, w1 + w2 * p1.handled, Flushed([], p1.rc));
          var p2 := FlushPass(p1.kept, w1 + w2 * p1.handled, Flushed([], p1.rc));
          ReapPassKeeps(p2.done, Reaped([], p1.closed));
        }
      }
    }
  }

  // ---------------------------------------------------------------------------
  // Accounting: no socket is lost, at most one is added per turn

  /** From a to b no socket went missing: every socket listed in a is
      listed in b or was closed in between, and nothing else was added;
      the sockets closed before stay recorded, in order. */
  ghost predicate Conserves(kept0: seq<Peer>, closed0: seq<int>, kept1: seq<Peer>, closed1: seq<int>)
  {
    |closed0| <= |closed1| && closed1[..|closed0|] == closed0 &&
    multiset(Fds(kept1)) + multiset(closed1[|closed0|..]) == multiset(Fds(kept0))
  }

  lemma ConservesTrans(k0: seq<Peer>, c0: seq<int>, k1: seq<Peer>, c1: seq<int>, k2: seq<Peer>, c2: seq<int>)
    requires Conserves(k0, c0, k1, c1) && Conserves(k1, c1, k2, c2)
    ensures Conserves(k0, c0, k2, c2)
  {
    ClosedTrans(multiset(Fds(k0)), c0, multiset(Fds(k1)), c1, multiset(Fds(k2)), c2);
  }

  /** Conserves on the open sockets as multisets. */
  lemma ClosedTrans(m0: multiset<int>, c0: seq<int>, m1: multiset<int>, c1: seq<int>, m2: multiset<int>, c2: seq<int>)
    requires |c0| <= |c1| && c1[..|c0|] == c0 && m1 + multiset(c1[|c0|..]) == m0
    requires |c1| <= |c2| && c2[..|c1|] == c1 && m2 + multiset(c2[|c1|..]) == m1
    ensures |c0| <= |c2| && c2[..|c0|] == c0 && m2 + multiset(c2[|c0|..]) == m0
  {
    assert c2[..|c0|] == c2[..|c1|][..|c0|];
    var d01, d12 := c1[|c0|..], c2[|c1|..];
    assert c2[|c0|..] == d01 + d12;
    assert multiset(c2[|c0|..]) == multiset(d01) + multiset(d12);
  }

  lemma ConservesSame(k0: seq<Peer>, k1: seq<Peer>, c: seq<int>)
    requires Fds(k0) == Fds(k1)
    ensures Conserves(k0, c, k1, c)
  {
    assert c[|c|..] == [];
  }

  /** Closing the socket of p. */
  lemma ConservesDrop(a: seq<Peer>, p: Peer, b: seq<Peer>, c: seq<int>)
    ensures Conserves(a + [p] + b, c, a + b, c + [p.fd])
  {
    FdsConcat(a + [p], b);
    FdsConcat(a, [p]);
    FdsConcat(a, b);
    assert (c + [p.fd])[|c|..] == [p.fd];
    assert (c + [p.fd])[..|c|] == c;
  }

  /** Replacing the state of p, keeping its socket. */
  lemma ConservesKeep(a: seq<Peer>, p: Peer, q: Peer, b: seq<Peer>, c: seq<int>)
    requires p.fd == q.fd
    ensures Conserves(a + [p] + b, c, a + [q] + b, c)
  {
    FdsConcat(a + [p], b);
    FdsConcat(a, [p]);
    FdsConcat(a + [q], b);
    FdsConcat(a, [q]);
    ConservesSame(a + [p] + b, a + [q] + b, c);
  }

  lemma {:induction false} FirstPassAccounts(ps: seq<Peer>, readable: set<int>, h: Handlers, mods: seq<ModData>, acc: Pass)
    ensures var r := FirstPass(ps, readable, h, mods, acc);
      Conserves(acc.kept + ps, acc.closed, r.kept, r.closed)
    decreases |ps|
  {
    var r := FirstPass(ps, readable, h, mods, acc);
    if ps == [] {
      assert acc.kept + ps == acc.kept;
      ConservesSame(acc.kept, acc.kept, acc.closed);
    } else {
      var p := ps[0];
      var next := Visit(p, readable, h, mods, acc);
      FirstPassAccounts(ps[1..], readable, h, mods, next);
      assert acc.kept + ps == acc.kept + [p] + ps[1..];
      var d := if p.fd in readable then DrainDecide(p.st) else Step(acc.rc, p.st);
      if d.st.shutdown {
        ConservesDrop(acc.kept, p, ps[1..], acc.closed);
      } else {
        var q := Peer(p.fd, HandleSpec(h, mods, d.st).st);
        ConservesKeep(acc.kept, p, q, ps[1..], acc.closed);
        assert next.kept + ps[1..] == acc.kept + [q] + ps[1..];
      }
      ConservesTrans(acc.kept + ps, acc.closed, next.kept + ps[1..], next.closed, r.kept, r.closed);
    }
  }

  lemma FdsAppend(ps: seq<Peer>, p: Peer)
    ensures Fds(ps + [p]) == Fds(ps) + [p.fd]
  {
  }

  lemma FdsConcat(ps: seq<Peer>, qs: seq<Peer>)
    ensures Fds(ps + qs) == Fds(ps) + Fds(qs)
  {
  }

  lemma {:induction false} FlushPassKeepsFds(ps: seq<Peer>, flush: set<int>, acc: Flushed)
    requires PeersFramed(ps)
    ensures Fds(FlushPass(ps, flush, acc).done) == Fds(acc.done) + Fds(ps)
    decreases |ps|
  {
    if ps != [] {
      PeersFramedTail(ps);
      var next := FlushOne(ps[0], flush, acc);
      calc {
        Fds(FlushPass(ps, flush, acc).done);
        Fds(FlushPass(ps[1..], flush, next).done);
        { FlushPassKeepsFds(ps[1..], flush, next); }
        Fds(next.done) + Fds(ps[1..]);
        { FlushOneFds(ps[0], flush, acc); }
        Fds(acc.done) + [ps[0].fd] + Fds(ps[1..]);
        { assert Fds(ps) == [ps[0].fd] + Fds(ps[1..]);
          assert Fds(acc.done) + [ps[0].fd] + Fds(ps[1..]) == Fds(acc.done) + ([ps[0].fd] + Fds(ps[1..])); }
        Fds(acc.done) + Fds(ps);
      }
    }
  }

  lemma FlushOneFds(p: Peer, flush: set<int>, acc: Flushed)
    requires AllFramed(p.st.sendq)
    ensures Fds(FlushOne(p, flush, acc).done) == Fds(acc.done) + [p.fd]
  {
    var next := FlushOne(p, flush, acc);
    assert next.done == acc.done + [next.done[|acc.done|]];
    FdsAppend(acc.done, next.done[|acc.done|]);
  }

  lemma {:induction false} ReapPassAccounts(ps: seq<Peer>, acc: Reaped)
    ensures var r := ReapPass(ps, acc);
      Conserves(acc.kept + ps, acc.closed, r.kept, r.closed)
    decreases |ps|
  {
    var r := ReapPass(ps, acc);
    if ps == [] {
      assert acc.kept + ps == acc.kept;
      ConservesSame(acc.kept, acc.kept, acc.closed);
    } else {
      var p := ps[0];
      var next := if p.st.shutdown then acc.(closed := acc.closed + [p.fd]) else acc.(kept := acc.kept + [p]);
      ReapPassAccounts(ps[1..], next);
      assert acc.kept + ps == acc.kept + [p] + ps[1..];
      if p.st.shutdown {
        ConservesDrop(acc.kept, p, ps[1..], acc.closed);
      } else {
        ConservesKeep(acc.kept, p, p, ps[1..], acc.closed);
        assert next.kept + ps[1..] == acc.kept + [p] + ps[1..];
      }
      ConservesTrans(acc.kept + ps, acc.closed, next.kept + ps[1..], next.closed, r.kept, r.closed);
    }
  }

  /** dd_list as it would be if the socket accept(2) hands over in a turn
      (if the listening socket was readable and accept succeeded) were
      listed whether or not create_dd succeeds. */
  function Admitted(s: ServerState, inp: TurnInput, listenFd: int): (r: seq<Peer>)
    ensures |s.conns| <= |r| <= |s.conns| + 1 && r[..|s.conns|] == s.conns
  {
    if inp.select1.Some? && listenFd in inp.select1.value.readable && inp.accept.Accepted?
    then s.conns + [Peer(inp.accept.fd, Fresh(inp.accept.link))] else s.conns
  }

  lemma AcceptConserves(s: ServerState, a: AcceptResult)
    ensures var s0 := AcceptSpec(s, a).1;
      Conserves(s.conns + (if a.Accepted? then [Peer(a.fd, Fresh(a.link))] else []), s.closed, s0.conns, s0.closed)
  {
    var s0 := AcceptSpec(s, a).1;
    if a.Accepted? && !a.peer.Named? {
      ConservesDrop(s.conns, Peer(a.fd, Fresh(a.link)), [], s.closed);
      assert s.conns + [] == s0.conns;
      assert s.conns + [Peer(a.fd, Fresh(a.link))] + [] == s.conns + [Peer(a.fd, Fresh(a.link))];
    } else {
      assert a.AcceptFault? ==> s.conns + [] == s0.conns;
      ConservesSame(s.conns + (if a.Accepted? then [Peer(a.fd, Fresh(a.link))] else []), s0.conns, s.closed);
    }
  }

  /** The three passes of a turn after accept keep every socket accounted for. */
  lemma PassesConserve(s0: ServerState, readable: set<int>, w1: set<int>, select2: Option<set<int>>, h: Handlers, mods: seq<ModData>)
    requires PeersFramed(s0.conns)
    ensures var t := Passes(s0, readable, w1, select2, h, mods);
      Conserves(s0.conns, s0.closed, t.s.conns, t.s.closed)
  {
    var a0 := Pass([], s0.closed, {}, NET_OK, false);
    FirstPassAccounts(s0.conns, readable, h, mods, a0);
    assert [] + s0.conns == s0.conns;
    var p1 := FirstPass(s0.conns, readable, h, mods, a0);
    if select2.Some? {
      FirstPassFramed(s0.conns, readable, h, mods, a0);
      var flush := w1 + select2.value * p1.handled;
      FlushPassKeepsFds(p1.kept, flush, Flushed([], p1.rc));
      var p2 := FlushPass(p1.kept, flush, Flushed([], p1.rc));
      assert Fds(p2.done) == Fds(p1.kept);
      ConservesSame(p1.kept, p2.done, p1.closed);
      ReapPassAccounts(p2.done, Reaped([], p1.closed));
      assert [] + p2.done == p2.done;
      var p3 := ReapPass(p2.done, Reaped([], p1.closed));
      ConservesTrans(s0.conns, s0.closed, p1.kept, p1.closed, p2.done, p1.closed);
      ConservesTrans(s0.conns, s0.closed, p2.done, p1.closed, p3.kept, p3.closed);
    }
  }

  /** Over one turn no socket goes missing and at most one is added: each
      connection listed before the turn is still listed or was closed
      during it, and the only other socket that can appear in either is
      the one accept(2) gave. The sockets closed before the turn stay
      recorded, in order. */
  lemma TurnAccounts(s: ServerState, inp: TurnInput, listenFd: int, mods: seq<ModData>)
    requires PeersFramed(s.conns)
    ensures var t := TurnSpec(s, inp, listenFd, mods);
      Conserves(Admitted(s, inp, listenFd), s.closed, t.s.conns, t.s.closed)
  {
    var t := TurnSpec(s, inp, listenFd, mods);
    var v := Admitted(s, inp, listenFd);
    if inp.select1.None? {
      ConservesSame(s.conns, s.conns, s.closed);
    } else {
      var sel := inp.select1.value;
      var (rc0, s0) := AcceptStage(s, sel, inp.accept, listenFd);
      AcceptStageConserves(s, inp, listenFd);
      AcceptStageFramed(s, sel, inp.accept, listenFd);
      if rc0 == NET_OK {
        var readable := sel.readable * ({listenFd} + FdSet(s.conns));
        var w1 := sel.writable * WaitingSet(s.conns);
        PassesConserve(s0, readable, w1, inp.select2, inp.h, mods);
        assert t == Passes(s0, readable, w1, inp.select2, inp.h, mods);
        ConservesTrans(v, s.closed, s0.conns, s0.closed, t.s.conns, t.s.closed);
      }
    }
  }

  /** An accepted connection starts with nothing queued. */
  lemma AcceptStageFramed(s: ServerState, sel: Selection, a: AcceptResult, listenFd: int)
    requires PeersFramed(s.conns)
    ensures PeersFramed(AcceptStage(s, sel, a, listenFd).1.conns)
  {
    var s0 := AcceptStage(s, sel, a, listenFd).1;
    forall i | 0 <= i < |s0.conns| ensures AllFramed(s0.conns[i].st.sendq) {
      if i < |s.conns| {
        assert s0.conns[i] == s.conns[i];
      }
    }
  }

  lemma AcceptStageConserves(s: ServerState, inp: TurnInput, listenFd: int)
    requires inp.select1.Some?
    ensures var s0 := AcceptStage(s, inp.select1.value, inp.accept, listenFd).1;
      Conserves(Admitted(s, inp, listenFd), s.closed, s0.conns, s0.closed)
  {
    if listenFd in inp.select1.value.readable {
      AcceptConserves(s, inp.accept);
    } else {
      ConservesSame(s.conns, s.conns, s.closed);
    }
  }

  // ---------------------------------------------------------------------------
  // struct net_server

  /** The connections of a list as dd_list entries. */
  function PeersOf(cs: seq<Conn>): (r: seq<Peer>)
    reads set c | c in cs
    ensures |r| == |cs| && forall k :: 0 <= k < |cs| ==> r[k] == Peer(cs[k].fd, cs[k].State())
  {
    if cs == [] then [] else [Peer(cs[0].fd, cs[0].State())] + PeersOf(cs[1..])
  }

  /** STAILQ_REMOVE: the list without dd. */
  function Remove(cs: seq<Conn>, dd: Conn): (r: seq<Conn>)
    ensures forall c :: c in r ==> c in cs
  {
    if cs == [] then [] else if cs[0] == dd then cs[1..] else [cs[0]] + Remove(cs[1..], dd)
  }

  lemma {:induction false} RemoveAt(kept: seq<Conn>, dd: Conn, rest: seq<Conn>)
    requires dd !in kept
    ensures Remove(kept + [dd] + rest, dd) == kept + rest
  {
    if kept != [] {
      assert (kept + [dd] + rest)[1..] == kept[1..] + [dd] + rest;
      RemoveAt(kept[1..], dd, rest);
    }
  }

  predicate Distinct(cs: seq<Conn>)
  {
    forall i, j :: 0 <= i < j < |cs| ==> cs[i] != cs[j]
  }

  lemma DistinctCut(kept: seq<Conn>, dd: Conn, rest: seq<Conn>)
    requires Distinct(kept + [dd] + rest)
    ensures dd !in kept && dd !in rest && Distinct(kept + rest)
  {
    var all := kept + [dd] + rest;
    forall i | 0 <= i < |kept| ensures kept[i] != dd {
      assert all[i] == kept[i] && all[|kept|] == dd;
    }
    forall i | 0 <= i < |rest| ensures rest[i] != dd {
      assert all[|kept| + 1 + i] == rest[i] && all[|kept|] == dd;
    }
    forall i, j | 0 <= i < j < |kept + rest| ensures (kept + rest)[i] != (kept + rest)[j] {
      var i' := if i < |kept| then i else i + 1;
      var j' := if j < |kept| then j else j + 1;
      assert (kept + rest)[i] == all[i'] && (kept + rest)[j] == all[j'];
    }
  }

  /** Connections whose sendq hold whole frames give a dd_list of them. */
  lemma FramedPeers(cs: seq<Conn>)
    requires forall c :: c in cs ==> c.Valid()
    ensures PeersFramed(PeersOf(cs))
  {
    forall k | 0 <= k < |cs| ensures AllFramed(PeersOf(cs)[k].st.sendq) {
      assert cs[k].Valid();
    }
  }

  /** The sockets of a list of connections (fd is fixed at creation). */
  function ConnFds(cs: seq<Conn>): (r: seq<int>)
    ensures |r| == |cs| && forall k :: 0 <= k < |cs| ==> r[k] == cs[k].fd
  {
    if cs == [] then [] else [cs[0].fd] + ConnFds(cs[1..])
  }

  ghost predicate AllValid(cs: seq<Conn>)
    reads set c | c in cs
  {
    forall c :: c in cs ==> c.Valid()
  }

  lemma PeersOfTail(cs: seq<Conn>)
    requires cs != []
    ensures PeersOf(cs[1..]) == PeersOf(cs)[1..]
  {
  }

  lemma PeersFramedTail(ps: seq<Peer>)
    requires ps != [] && PeersFramed(ps)
    ensures AllFramed(ps[0].st.sendq) && PeersFramed(ps[1..])
  {
    forall k | 0 <= k < |ps[1..]| ensures AllFramed(ps[1..][k].st.sendq) {
      assert ps[1..][k] == ps[k + 1];
    }
  }

  /** The flush step for one connection: flush_sendq if its socket is in
      flush, marking it for shutdown when that fails. The connections
      before and after it in dd_list are left as they were. */
  method FlushConn(c: Conn, flush: set<int>, rc0: nat, ghost acc: Flushed, ghost before: seq<Conn>, ghost after: seq<Conn>)
    returns (rc: nat)
    requires c.Valid() && rc0 == acc.rc && c !in before && c !in after
    requires AllValid(before) && AllValid(after)
    modifies c
    ensures c.Valid() && AllValid(before) && AllValid(after)
    ensures PeersOf(before) == old(PeersOf(before)) && PeersOf(after) == old(PeersOf(after))
    ensures FlushOne(Peer(c.fd, old(c.State())), flush, acc) == Flushed(acc.done + [Peer(c.fd, c.State())], rc)
  {
    rc := rc0;
    if c.fd in flush {
      rc := c.FlushSendq();
      if rc != NET_OK {
        c.shutdown := true;
      }
    }
  }

  /** The reading step of the first pass for one connection. */
  method DrainConn(c: Conn, readable: set<int>, rc0: nat) returns (rc: nat)
    requires c.Valid()
    modifies c
    ensures c.Valid()
    ensures Step(rc, c.State()) == if c.fd in readable then DrainDecide(old(c.State())) else Step(rc0, old(c.State()))
  {
    rc := rc0;
    if c.fd in readable {
      rc := c.Drain();
      if !(rc == NET_ERR_CONNRESET && (c.sendq != [] || c.recvq != [])) {
        c.shutdown := true;
      }
    }
  }

  class Server {
    const listenFd: int
    const shutdownPath: string
    const ml: ModList
    var shutdown: bool
    var conns: seq<Conn>
    var closed: seq<int>

    function State(): ServerState
      reads this, set c | c in conns
    {
      ServerState(shutdown, PeersOf(conns), closed)
    }

    /** Each connection is listed once and its sendq holds whole frames. */
    ghost predicate Valid()
      reads this, set c | c in conns
    {
      Distinct(conns) && (forall c :: c in conns ==> c.Valid()) && PeersFramed(PeersOf(conns))
    }

    constructor (listenFd: int, shutdownPath: string, ml: ModList)
      ensures this.listenFd == listenFd && this.shutdownPath == shutdownPath && this.ml == ml
      ensures Valid() && State() == ServerState(false, [], [])
    {
      this.listenFd := listenFd;
      this.shutdownPath := shutdownPath;
      this.ml := ml;
      shutdown := false;
      conns := [];
      closed := [];
    }

    /** accept_connection */
    method AcceptConnection(a: AcceptResult) returns (rc: nat)
      requires Valid()
      modifies this
      ensures Valid()
      ensures (rc, State()) == AcceptSpec(old(State()), a)
      ensures forall c :: c in conns ==> c in old(conns) || fresh(c)
    {
      match a {
        case AcceptFault(aborted) =>
          rc := if aborted then NET_ERR_CONNRESET else NET_ERR;
        case Accepted(fd, peer, link) =>
          var dd;
          rc, dd := CreateDd(fd, peer, link);
          if rc != NET_OK {
            closed := closed + [fd];
            return;
          }
          Admit(dd);
      }
    }

    /** STAILQ_INSERT_TAIL of a new connection on dd_list. */
    method Admit(dd: Conn)
      requires Valid() && dd.Valid() && dd !in conns
      modifies this
      ensures Valid() && conns == old(conns) + [dd] && closed == old(closed) && shutdown == old(shutdown)
      ensures PeersOf(conns) == old(PeersOf(conns)) + [Peer(dd.fd, dd.State())]
    {
      conns := conns + [dd];
      assert PeersOf(conns) == old(PeersOf(conns)) + [Peer(dd.fd, dd.State())];
      FramedPeers(conns);
    }

    /** default_shutdown_dd: shut the socket down, close it and take the
        connection off dd_list. */
    method ShutdownDd(dd: Conn)
      modifies this
      ensures conns == Remove(old(conns), dd) && closed == old(closed) + [dd.fd] && shutdown == old(shutdown)
    {
      closed := closed + [dd.fd];
      conns := Remove(conns, dd);
    }
  
    /** default_handler: always NET_OK. A handler that asks for it (the
        daemon's shutdown command) sets the server's shutdown flag. */
    method DefaultHandler(dd: Conn, h: Handlers) returns (rc: nat)
      requires dd.Valid()
      modifies this, dd
      ensures rc == NET_OK
      ensures var r := HandleSpec(h, ml.mods, old(dd.State()));
        dd.State() == r.st && shutdown == (old(shutdown) || r.stop)
      ensures dd.Valid() && conns == old(conns) && closed == old(closed)
    {
      rc := NET_OK;
      var mods := ml.mods;
      ghost var stop := false;
      while dd.recvq != []
        invariant dd.Valid() && conns == old(conns) && closed == old(closed)
        invariant var r := HandleSpec(h, mods, dd.State());
          HandleSpec(h, mods, old(dd.State())) == Handled(r.st, stop || r.stop)
        invariant shutdown == (old(shutdown) || stop)
        decreases |dd.recvq|
      {
        var p := dd.recvq[0];
        ghost var s0 := dd.State();
        ghost var rest := s0.recvq[1..];
        if IsNetTag(p.cmdId) {
          var cmd := UnpackNetCmdPacket(p);
          if cmd.None? {
            assert HandleSpec(h, mods, s0) == Handled(s0, false);
            return;
          }
          var d := DispatchCmd(h, mods, cmd.value);
          ghost var s1 := s0.(recvq := rest, sendq := s0.sendq + d.out);
          assert HandleSpec(h, mods, s0) == Handled(HandleSpec(h, mods, s1).st, d.stop || HandleSpec(h, mods, s1).stop);
          ReplyAndPop(dd, d.out);
          if d.stop {
            shutdown := true;
          }
          stop := stop || d.stop;
        } else {
          assert HandleSpec(h, mods, s0) == HandleSpec(h, mods, s0.(recvq := rest));
          dd.recvq := dd.recvq[1..];
        }
      }
    }
  
    /** One command handled: its reply, if any, is queued and the request
        leaves recvq. */
    static method ReplyAndPop(dd: Conn, out: seq<Packet>)
      requires dd.Valid() && dd.recvq != [] && |out| <= 1 && AllFramed(out)
      modifies dd
      ensures dd.Valid()
      ensures dd.State() == old(dd.State()).(recvq := old(dd.recvq)[1..], sendq := old(dd.sendq) + out)
    {
      if out != [] {
        dd.AddPacket(out[0]);
        assert [out[0]] == out;
      } else {
        assert dd.sendq + out == dd.sendq;
      }
      dd.recvq := dd.recvq[1..];
    }

    /** A connection marked for shutdown leaves dd_list; the others stay
        as they were. */
    method DropConn(c: Conn, ghost kept: seq<Conn>, ghost rest: seq<Conn>)
      requires conns == kept + [c] + rest && Distinct(conns)
      modifies this
      ensures conns == kept + rest && Distinct(conns)
      ensures closed == old(closed) + [c.fd] && shutdown == old(shutdown)
    {
      DistinctCut(kept, c, rest);
      ShutdownDd(c);
      RemoveAt(kept, c, rest);
    }

    /** A connection still open goes through the handler and stays listed. */
    method KeepConn(c: Conn, h: Handlers, ghost kept: seq<Conn>, ghost rest: seq<Conn>)
      requires conns == kept + [c] + rest && Distinct(conns)
      requires c.Valid() && AllValid(kept) && AllValid(rest)
      modifies this, c
      ensures var r := HandleSpec(h, ml.mods, old(c.State()));
        PeersOf(kept + [c]) == old(PeersOf(kept)) + [Peer(c.fd, r.st)] && shutdown == (old(shutdown) || r.stop)
      ensures conns == old(conns) && closed == old(closed)
      ensures AllValid(kept + [c]) && AllValid(rest) && PeersOf(rest) == old(PeersOf(rest))
    {
      DistinctCut(kept, c, rest);
      var _ := DefaultHandler(c, h);
      assert PeersOf(rest) == old(PeersOf(rest));
      assert PeersOf(kept) == old(PeersOf(kept));
      assert PeersOf(kept + [c]) == PeersOf(kept) + [Peer(c.fd, c.State())];
    }

    /** One connection of the first pass of default_server_loop: read it
        dry if select reported it readable and decide whether to keep it,
        then either shut it down or hand it to the handler. */
    method VisitConn(c: Conn, readable: set<int>, h: Handlers, rc0: nat,
                     ghost kept: seq<Conn>, ghost rest: seq<Conn>, ghost acc: Pass, ghost shutdown0: bool)
      returns (rc: nat, added: bool, ghost kept': seq<Conn>)
      requires conns == kept + [c] + rest && Distinct(conns)
      requires c.Valid() && AllValid(kept) && AllValid(rest)
      requires PeersOf(kept) == acc.kept && closed == acc.closed && rc0 == acc.rc
      requires shutdown == (shutdown0 || acc.stop)
      modifies this, c
      ensures var a := Visit(Peer(c.fd, old(c.State())), readable, h, ml.mods, acc);
        conns == kept' + rest && Distinct(conns) && PeersOf(kept') == a.kept &&
        closed == a.closed && rc == a.rc && shutdown == (shutdown0 || a.stop) &&
        a.handled == acc.handled + (if added then {c.fd} else {})
      ensures AllValid(kept') && AllValid(rest) && PeersOf(rest) == old(PeersOf(rest))
      ensures forall k :: k in kept' ==> k in kept || k == c
    {
      ghost var p := Peer(c.fd, c.State());
      ghost var a := Visit(p, readable, h, ml.mods, acc);
      DistinctCut(kept, c, rest);
      rc := DrainConn(c, readable, rc0);
      assert PeersOf(kept) == acc.kept;
      assert PeersOf(rest) == old(PeersOf(rest));
      assert a == Settled(c.fd, Step(rc, c.State()), h, ml.mods, acc);
      rc, added, kept' := SettleConn(c, h, rc, kept, rest, acc, shutdown0);
    }

    /** The rest of a visit once the connection is drained: shut it down if
        it is marked, otherwise hand it to the handler and keep it. */
    method SettleConn(c: Conn, h: Handlers, rc0: nat,
                      ghost kept: seq<Conn>, ghost rest: seq<Conn>, ghost acc: Pass, ghost shutdown0: bool)
      returns (rc: nat, added: bool, ghost kept': seq<Conn>)
      requires conns == kept + [c] + rest && Distinct(conns)
      requires c.Valid() && AllValid(kept) && AllValid(rest)
      requires PeersOf(kept) == acc.kept && closed == acc.closed
      requires shutdown == (shutdown0 || acc.stop)
      modifies this, c
      ensures var a := Settled(c.fd, Step(rc0, old(c.State())), h, ml.mods, acc);
        conns == kept' + rest && Distinct(conns) && PeersOf(kept') == a.kept &&
        closed == a.closed && rc == a.rc && shutdown == (shutdown0 || a.stop) &&
        a.handled == acc.handled + (if added then {c.fd} else {})
      ensures AllValid(kept') && AllValid(rest) && PeersOf(rest) == old(PeersOf(rest))
      ensures forall k :: k in kept' ==> k in kept || k == c
    {
      DistinctCut(kept, c, rest);
      if c.shutdown {
        DropConn(c, kept, rest);
        rc, added, kept' := rc0, false, kept;
      } else {
        KeepConn(c, h, kept, rest);
        rc := NET_OK;
        added, kept' := true, kept + [c];
      }
    }

    /** How far the first pass has got through the list cs it started
        from: dd_list is the kept connections followed by those not yet
        visited, which are as they were, and what is left of the pass
        ends where the whole pass ends. */
    ghost predicate Walking(cs: seq<Conn>, i: nat, P0: seq<Peer>, kept: seq<Conn>, acc: Pass,
                            readable: set<int>, h: Handlers, whole: Pass, shutdown0: bool)
      reads this, ml, set c | c in cs
    {
      i <= |cs| == |P0| && conns == kept + cs[i..] && Distinct(conns) &&
      (forall k :: k in kept ==> k in cs[..i]) &&
      AllValid(kept) && AllValid(cs[i..]) && PeersOf(cs[i..]) == P0[i..] &&
      PeersOf(kept) == acc.kept && closed == acc.closed && shutdown == (shutdown0 || acc.stop) &&
      FirstPass(P0[i..], readable, h, ml.mods, acc) == whole
    }

    /** One turn of the first pass's loop, from one connection to the next. */
    method WalkOne(cs: seq<Conn>, i: nat, readable: set<int>, h: Handlers, rc0: nat,
                   ghost P0: seq<Peer>, ghost kept: seq<Conn>, ghost acc: Pass, ghost whole: Pass, ghost shutdown0: bool)
      returns (rc: nat, added: bool, ghost kept': seq<Conn>, ghost acc': Pass)
      requires i < |cs| && Walking(cs, i, P0, kept, acc, readable, h, whole, shutdown0) && rc0 == acc.rc
      modifies this, cs[i]
      ensures Walking(cs, i + 1, P0, kept', acc', readable, h, whole, shutdown0)
      ensures rc == acc'.rc && acc'.handled == acc.handled + (if added then {cs[i].fd} else {})
    {
      var c := cs[i];
      ghost var rest := cs[i + 1..];
      WalkEnter(cs, i, P0, kept, acc, readable, h, whole, shutdown0);
      acc' := Visit(P0[i], readable, h, ml.mods, acc);
      rc, added, kept' := VisitConn(c, readable, h, rc0, kept, rest, acc, shutdown0);
      WalkLeave(cs, i, P0, kept, kept', acc', readable, h, whole, shutdown0);
    }

    /** What the walk knows about the connection it is at, before the visit. */
    lemma WalkEnter(cs: seq<Conn>, i: nat, P0: seq<Peer>, kept: seq<Conn>, acc: Pass,
                    readable: set<int>, h: Handlers, whole: Pass, shutdown0: bool)
      requires i < |cs| && Walking(cs, i, P0, kept, acc, readable, h, whole, shutdown0)
      ensures conns == kept + [cs[i]] + cs[i + 1..] && Distinct(conns)
      ensures cs[i].Valid() && AllValid(kept) && AllValid(cs[i + 1..])
      ensures PeersOf(cs[i + 1..]) == P0[i + 1..] && P0[i] == Peer(cs[i].fd, cs[i].State())
      ensures FirstPass(P0[i + 1..], readable, h, ml.mods, Visit(P0[i], readable, h, ml.mods, acc)) == whole
    {
      var c, rest := cs[i], cs[i + 1..];
      assert cs[i..] == [c] + rest;
      PeersOfTail(cs[i..]);
      assert P0[i..][1..] == P0[i + 1..];
      assert kept + cs[i..] == kept + [c] + rest;
      assert c in cs[i..];
      forall k | k in rest ensures k in cs[i..] {
        assert k in [c] + rest;
      }
    }

    /** After the visit the walk's account holds one connection further on. */
    lemma WalkLeave(cs: seq<Conn>, i: nat, P0: seq<Peer>, kept: seq<Conn>, kept': seq<Conn>, acc': Pass,
                    readable: set<int>, h: Handlers, whole: Pass, shutdown0: bool)
      requires i < |cs| == |P0|
      requires forall k :: k in kept ==> k in cs[..i]
      requires forall k :: k in kept' ==> k in kept || k == cs[i]
      requires conns == kept' + cs[i + 1..] && Distinct(conns) && AllValid(kept') && AllValid(cs[i + 1..])
      requires PeersOf(cs[i + 1..]) == P0[i + 1..] && PeersOf(kept') == acc'.kept
      requires closed == acc'.closed && shutdown == (shutdown0 || acc'.stop)
      requires FirstPass(P0[i + 1..], readable, h, ml.mods, acc') == whole
      ensures Walking(cs, i + 1, P0, kept', acc', readable, h, whole, shutdown0)
    {
      forall k | k in kept' ensures k in cs[..i + 1] {
        if k in kept {
          assert k in cs[..i];
          assert cs[..i + 1] == cs[..i] + [cs[i]];
        } else {
          assert cs[..i + 1][i] == k;
        }
      }
    }

    lemma WalkInit(cs: seq<Conn>, readable: set<int>, h: Handlers)
      requires Valid() && cs == conns
      ensures var acc := Pass([], closed, {}, NET_OK, false);
        Walking(cs, 0, PeersOf(cs), [], acc, readable, h, FirstPass(PeersOf(cs), readable, h, ml.mods, acc), shutdown)
    {
      assert cs[0..] == cs && PeersOf(cs)[0..] == PeersOf(cs);
    }

    lemma WalkDone(cs: seq<Conn>, P0: seq<Peer>, kept: seq<Conn>, acc: Pass,
                   readable: set<int>, h: Handlers, whole: Pass, shutdown0: bool)
      requires Walking(cs, |cs|, P0, kept, acc, readable, h, whole, shutdown0)
      ensures Valid() && PeersOf(conns) == whole.kept && closed == whole.closed
      ensures whole.handled == acc.handled && whole.rc == acc.rc && shutdown == (shutdown0 || whole.stop)
      ensures forall c :: c in conns ==> c in cs
    {
      assert cs[|cs|..] == [] && P0[|cs|..] == [];
      assert conns == kept;
      FramedPeers(conns);
    }

    /** The loop of the first pass, from the head of dd_list to its end. */
    method WalkFrom(cs: seq<Conn>, readable: set<int>, h: Handlers,
                    ghost P0: seq<Peer>, ghost acc0: Pass, ghost whole: Pass, ghost shutdown0: bool)
      returns (rc: nat, handled: set<int>, ghost kept: seq<Conn>, ghost acc: Pass)
      requires Walking(cs, 0, P0, [], acc0, readable, h, whole, shutdown0)
      requires acc0.rc == NET_OK && acc0.handled == {}
      modifies this, set c | c in cs
      ensures Walking(cs, |cs|, P0, kept, acc, readable, h, whole, shutdown0)
      ensures handled == acc.handled && rc == acc.rc
    {
      kept, acc := [], acc0;
      rc, handled := NET_OK, {};
      var i := 0;
      while i < |cs|
        invariant Walking(cs, i, P0, kept, acc, readable, h, whole, shutdown0)
        invariant handled == acc.handled && rc == acc.rc
      {
        var added;
        rc, added, kept, acc := WalkOne(cs, i, readable, h, rc, P0, kept, acc, whole, shutdown0);
        if added {
          handled := handled + {cs[i].fd};
        }
        i := i + 1;
      }
    }

    /** The first pass of default_server_loop over dd_list. */
    method FirstPassRun(readable: set<int>, h: Handlers) returns (rc: nat, handled: set<int>)
      requires Valid()
      modifies this, set c | c in conns
      ensures Valid()
      ensures var p := FirstPass(old(PeersOf(conns)), readable, h, ml.mods, Pass([], old(closed), {}, NET_OK, false));
        PeersOf(conns) == p.kept && closed == p.closed && handled == p.handled && rc == p.rc &&
        shutdown == (old(shutdown) || p.stop)
      ensures forall c :: c in conns ==> c in old(conns)
    {
      var cs := conns;
      ghost var P0 := PeersOf(cs);
      ghost var acc := Pass([], closed, {}, NET_OK, false);
      ghost var whole := FirstPass(P0, readable, h, ml.mods, acc);
      ghost var kept: seq<Conn> := [];
      WalkInit(cs, readable, h);
      rc, handled, kept, acc := WalkFrom(cs, readable, h, P0, acc, whole, old(shutdown));
      WalkDone(cs, P0, kept, acc, readable, h, whole, old(shutdown));
    }

    /** How far the flush pass has got through dd_list: the connections
        seen are done, the rest are as they were. */
    ghost predicate Flushing(i: nat, P0: seq<Peer>, acc: Flushed, flush: set<int>, whole: Flushed)
      reads this, set c | c in conns
    {
      i <= |conns| == |P0| && Distinct(conns) && AllValid(conns[..i]) && AllValid(conns[i..]) &&
      PeersOf(conns[i..]) == P0[i..] && PeersOf(conns[..i]) == acc.done &&
      PeersFramed(P0[i..]) && FlushPass(P0[i..], flush, acc) == whole
    }

    method FlushStep(i: nat, flush: set<int>, rc0: nat, ghost P0: seq<Peer>, ghost acc: Flushed, ghost whole: Flushed)
      returns (rc: nat, ghost acc': Flushed)
      requires i < |conns| && Flushing(i, P0, acc, flush, whole) && rc0 == acc.rc
      modifies conns[i]
      ensures Flushing(i + 1, P0, acc', flush, whole) && rc == acc'.rc
    {
      var c := conns[i];
      ghost var before := conns[..i];
      ghost var rest := conns[i + 1..];
      assert conns == before + [c] + rest;
      DistinctCut(before, c, rest);
      assert conns[i..] == [c] + rest;
      PeersOfTail(conns[i..]);
      assert P0[i..][1..] == P0[i + 1..];
      assert PeersOf(rest) == P0[i + 1..] && P0[i] == Peer(c.fd, c.State());
      PeersFramedTail(P0[i..]);
      acc' := FlushOne(P0[i], flush, acc);
      rc := FlushConn(c, flush, rc0, acc, before, rest);
      assert conns[..i + 1] == before + [c];
      assert PeersOf(conns[..i + 1]) == PeersOf(before) + [Peer(c.fd, c.State())];
      assert conns[i + 1..] == rest;
    }

    /** The flush pass of default_server_loop: flush_sendq on every
        connection whose socket is in flush, marking it for shutdown when
        that fails. */
    method FlushRun(flush: set<int>, rc0: nat) returns (rc: nat)
      requires Valid()
      modifies set c | c in conns
      ensures Valid()
      ensures var f := FlushPass(old(PeersOf(conns)), flush, Flushed([], rc0));
        PeersOf(conns) == f.done && rc == f.rc
    {
      ghost var P0 := PeersOf(conns);
      ghost var whole := FlushPass(P0, flush, Flushed([], rc0));
      ghost var acc := Flushed([], rc0);
      rc := rc0;
      var i := 0;
      assert conns[0..] == conns && P0[0..] == P0 && conns[..0] == [];
      while i < |conns|
        invariant Flushing(i, P0, acc, flush, whole) && rc == acc.rc
      {
        rc, acc := FlushStep(i, flush, rc, P0, acc, whole);
        i := i + 1;
      }
      assert conns[..i] == conns;
      FramedPeers(conns);
    }

    /** How far the reaping pass has got through the list cs it started
        from. */
    ghost predicate Reaping(cs: seq<Conn>, i: nat, P0: seq<Peer>, kept: seq<Conn>, acc: Reaped, whole: Reaped)
      reads this, set c | c in cs
    {
      i <= |cs| == |P0| && conns == kept + cs[i..] && Distinct(conns) &&
      (forall k :: k in kept ==> k in cs[..i]) && AllValid(cs) &&
      PeersOf(cs[i..]) == P0[i..] && PeersOf(kept) == acc.kept && closed == acc.closed &&
      ReapPass(P0[i..], acc) == whole
    }

    method ReapStep(cs: seq<Conn>, i: nat, ghost P0: seq<Peer>, ghost kept: seq<Conn>, ghost acc: Reaped, ghost whole: Reaped)
      returns (ghost kept': seq<Conn>, ghost acc': Reaped)
      requires i < |cs| && Reaping(cs, i, P0, kept, acc, whole)
      modifies this
      ensures Reaping(cs, i + 1, P0, kept', acc', whole) && shutdown == old(shutdown)
    {
      if cs[i].shutdown {
        kept', acc' := ReapDrop(cs, i, P0, kept, acc, whole);
      } else {
        kept', acc' := ReapKeep(cs, i, P0, kept, acc, whole);
      }
    }

    lemma ReapSplit(cs: seq<Conn>, i: nat, P0: seq<Peer>, kept: seq<Conn>, acc: Reaped, whole: Reaped)
      requires i < |cs| && Reaping(cs, i, P0, kept, acc, whole)
      ensures cs[i..] == [cs[i]] + cs[i + 1..] && conns == kept + [cs[i]] + cs[i + 1..]
      ensures PeersOf(cs[i + 1..]) == P0[i + 1..] && P0[i] == Peer(cs[i].fd, cs[i].State())
      ensures ReapPass(P0[i..], acc) == ReapPass(P0[i + 1..], if P0[i].st.shutdown then acc.(closed := acc.closed + [P0[i].fd]) else acc.(kept := acc.kept + [P0[i]]))
    {
      assert cs[i..] == [cs[i]] + cs[i + 1..];
      PeersOfTail(cs[i..]);
      assert P0[i..][1..] == P0[i + 1..];
    }

    /** The connection at i stays on dd_list. */
    lemma ReapKeep(cs: seq<Conn>, i: nat, P0: seq<Peer>, kept: seq<Conn>, acc: Reaped, whole: Reaped)
      returns (kept': seq<Conn>, acc': Reaped)
      requires i < |cs| && Reaping(cs, i, P0, kept, acc, whole) && !cs[i].shutdown
      ensures Reaping(cs, i + 1, P0, kept', acc', whole)
    {
      ReapSplit(cs, i, P0, kept, acc, whole);
      acc' := acc.(kept := acc.kept + [P0[i]]);
      kept' := kept + [cs[i]];
      assert PeersOf(kept') == PeersOf(kept) + [P0[i]];
    }

    /** The connection at i is shut down and leaves dd_list. */
    method ReapDrop(cs: seq<Conn>, i: nat, ghost P0: seq<Peer>, ghost kept: seq<Conn>, ghost acc: Reaped, ghost whole: Reaped)
      returns (ghost kept': seq<Conn>, ghost acc': Reaped)
      requires i < |cs| && Reaping(cs, i, P0, kept, acc, whole) && cs[i].shutdown
      modifies this
      ensures Reaping(cs, i + 1, P0, kept', acc', whole) && shutdown == old(shutdown)
    {
      ReapSplit(cs, i, P0, kept, acc, whole);
      acc' := acc.(closed := acc.closed + [cs[i].fd]);
      DropConn(cs[i], kept, cs[i + 1..]);
      kept' := kept;
    }

    /** The reaping pass of default_server_loop: every connection marked
        for shutdown is shut down and leaves dd_list. */
    lemma ReapInit(cs: seq<Conn>)
      requires Valid() && cs == conns
      ensures Reaping(cs, 0, PeersOf(cs), [], Reaped([], closed), ReapPass(PeersOf(cs), Reaped([], closed)))
    {
      assert cs[0..] == cs && PeersOf(cs)[0..] == PeersOf(cs);
    }

    lemma ReapDone(cs: seq<Conn>, P0: seq<Peer>, kept: seq<Conn>, acc: Reaped, whole: Reaped)
      requires Reaping(cs, |cs|, P0, kept, acc, whole)
      ensures Valid() && PeersOf(conns) == whole.kept && closed == whole.closed
      ensures forall c :: c in conns ==> c in cs
    {
      assert cs[|cs|..] == [] && P0[|cs|..] == [];
      assert conns == kept;
      FramedPeers(conns);
    }

    /** The loop of the reaping pass, from the head of dd_list to its end. */
    method ReapFrom(cs: seq<Conn>, ghost P0: seq<Peer>, ghost acc0: Reaped, ghost whole: Reaped)
      returns (ghost kept: seq<Conn>, ghost acc: Reaped)
      requires Reaping(cs, 0, P0, [], acc0, whole)
      modifies this
      ensures Reaping(cs, |cs|, P0, kept, acc, whole) && shutdown == old(shutdown)
    {
      kept, acc := [], acc0;
      var i := 0;
      while i < |cs|
        invariant Reaping(cs, i, P0, kept, acc, whole) && shutdown == old(shutdown)
      {
        kept, acc := ReapStep(cs, i, P0, kept, acc, whole);
        i := i + 1;
      }
    }

    method Reap()
      requires Valid()
      modifies this
      ensures Valid() && shutdown == old(shutdown)
      ensures var r := ReapPass(old(PeersOf(conns)), Reaped([], old(closed)));
        PeersOf(conns) == r.kept && closed == r.closed
      ensures forall c :: c in conns ==> c in old(conns)
    {
      var cs := conns;
      ghost var P0 := PeersOf(cs);
      ghost var whole := ReapPass(P0, Reaped([], closed));
      ghost var acc := Reaped([], closed);
      ghost var kept: seq<Conn> := [];
      ReapInit(cs);
      kept, acc := ReapFrom(cs, P0, acc, whole);
      ReapDone(cs, P0, kept, acc, whole);
    }

    /** Leaving default_server_loop: every connection still listed is shut
        down, front to back, then the listening socket. */
    method Cleanup()
      modifies this
      ensures Valid()
      ensures State() == Closing(old(State()), listenFd)
    {
      var cs := conns;
      var i := 0;
      while i < |cs|
        invariant 0 <= i <= |cs| && conns == cs[i..] && shutdown == old(shutdown)
        invariant closed == old(closed) + ConnFds(cs[..i])
      {
        assert conns[0] == cs[i];
        ShutdownDd(cs[i]);
        assert cs[..i + 1] == cs[..i] + [cs[i]];
        assert ConnFds(cs[..i + 1]) == ConnFds(cs[..i]) + [cs[i].fd];
        assert cs[i..][1..] == cs[i + 1..];
        i := i + 1;
      }
      closed := closed + [listenFd];
      assert cs[..i] == cs;
      assert Fds(old(PeersOf(conns))) == ConnFds(cs);
    }

    /** One iteration of default_server_loop's while loop. */
    method Turn(inp: TurnInput) returns (rc: nat, exit: bool)
      requires Valid()
      modifies this, set c | c in conns
      ensures Valid()
      ensures TurnSpec(old(State()), inp, listenFd, ml.mods) == TurnOut(rc, exit, State())
      ensures forall c :: c in conns ==> c in old(conns) || fresh(c)
    {
      ghost var s := State();
      if inp.select1.None? {
        rc, exit := NET_ERR_FD, true;
        return;
      }
      var sel := inp.select1.value;
      var peers := PeersOf(conns);
      var readable := sel.readable * ({listenFd} + FdSet(peers));
      var w1 := sel.writable * WaitingSet(peers);
      rc := NET_OK;
      if listenFd in readable {
        rc := AcceptConnection(inp.accept);
        if rc != NET_OK {
          exit := true;
          return;
        }
      }
      ghost var s0 := State();
      assert (rc, s0) == if listenFd in readable then AcceptSpec(s, inp.accept) else (NET_OK, s);
      ghost var a0 := Pass([], s0.closed, {}, NET_OK, false);
      ghost var p1 := FirstPass(s0.conns, readable, inp.h, ml.mods, a0);
      var handled;
      rc, handled := FirstPassRun(readable, inp.h);
      ghost var s1 := State();
      assert s1 == ServerState(s0.shutdown || p1.stop, p1.kept, p1.closed);
      if inp.select2.None? {
        rc, exit := NET_ERR_FD, true;
        return;
      }
      var flush := w1 + inp.select2.value * handled;
      rc := FlushRun(flush, rc);
      Reap();
      exit := false;
    }

    /** default_server_loop on a sequence of turns: while shutdown is not
        set, run a turn; leaving the loop shuts every connection down and
        closes the listening socket. */
    method Serve(inputs: seq<TurnInput>) returns (finished: bool, rc: nat)
      requires Valid() && !shutdown
      modifies this, set c | c in conns
      ensures Valid()
      ensures ServeSpec(old(State()), inputs, listenFd, ml.mods) == Served(finished, rc, State())
    {
      var i := 0;
      while i < |inputs|
        invariant i <= |inputs| && Valid() && !shutdown
        invariant ServeSpec(old(State()), inputs, listenFd, ml.mods) == ServeSpec(State(), inputs[i..], listenFd, ml.mods)
        invariant forall c :: c in conns ==> c in old(conns) || fresh(c)
      {
        assert inputs[i..][1..] == inputs[i + 1..];
        var exit;
        rc, exit := Turn(inputs[i]);
        if exit || shutdown {
          Cleanup();
          finished := true;
          return;
        }
        i := i + 1;
      }
      finished, rc := false, NET_OK;
    }
  }

  // ---------------------------------------------------------------------------
  // create_ns

  /** DAEMON_MOD_NAME and DAEMON_MODVER (src/libwrtctl/wrtctl-int.h). */
  const DAEMON_MOD_NAME: string := "daemon-cmds"
  const DAEMON_MODVER: int := 1
  /** Where shutdown(8) is looked for when WRTCTL_SYS_SHUTDOWN_PATH is unset. */
  const DEFAULT_SHUTDOWN_PATH: string := "/sbin/shutdown"

  /** The calls unload_module makes for modules loaded from these paths,
      one after another. */
  function UnloadPaths(dl: Loader, paths: seq<string>): seq<DlEvent>
  {
    if paths == [] then []
    else
      var p := paths[|paths| - 1];
      UnloadPaths(dl, paths[..|paths| - 1]) + (if p in dl.libs then UnloadEvents(dl.libs[p], p, dl.noDlclose) else [])
  }

  /** Unloading the built-in module makes no dl* call, so unloading the
      registry is unloading the libraries it loaded, in order. */
  lemma {:induction false} UnloadRegistry(dl: Loader, dae: ModData, mods: seq<ModData>, paths: seq<string>)
    requires dae.lib.None? && LibsAre(mods, paths)
    ensures UnloadAll(dl, [dae] + mods) == UnloadPaths(dl, paths)
    decreases |mods|
  {
    if mods == [] {
      assert [dae] + mods == [dae];
      assert UnloadAll(dl, [dae]) == UnloadAll(dl, []) + dl.UnloadOf(dae);
    } else {
      var n := |mods|;
      assert ([dae] + mods)[..n] == [dae] + mods[..n - 1];
      assert LibsAre(mods[..n - 1], paths[..n - 1]);
      UnloadRegistry(dl, dae, mods[..n - 1], paths[..n - 1]);
      assert mods[n - 1].lib == Some(paths[n - 1]);
    }
  }

  /** The modules load_modules loads from an optional list. */
  function LoadList(dl: Loader, dir: string, moduleList: Option<string>): LoadAll
  {
    if moduleList.Some? then LoadTokens(dl, dir, Tokens(moduleList.value), LoadAll(true, [], []))
    else LoadAll(true, [], [])
  }

  /** The built-in daemon module, registered ahead of every loaded one. */
  ghost predicate IsDaemonMod(md: ModData)
    reads md
  {
    md.lib.None? && md.magic == DAEMON_CMD_MAGIC && md.name == DAEMON_MOD_NAME && md.version == DAEMON_MODVER
  }

  /** The module registry create_ns builds: the daemon module, then the
      modules of `moduleList` in load order. When a load fails the whole
      registry is unloaded and `ok` is false. */
  method Register(dl: Loader, moduleList: Option<string>, dir: string) returns (ok: bool, ml: ModList)
    modifies dl
    ensures fresh(ml) && ml.Valid()
    ensures var r := LoadList(dl, dir, moduleList);
      ok == r.ok &&
      dl.events == old(dl.events) + r.events + (if r.ok then [] else UnloadPaths(dl, r.loaded))
    ensures ok ==> |ml.mods| >= 1 && IsDaemonMod(ml.mods[0]) && LibsAre(ml.mods[1..], LoadList(dl, dir, moduleList).loaded)
    ensures !ok ==> ml.mods == []
  {
    ml := new ModList();
    var dae := new ModData(DAEMON_MOD_NAME, DAEMON_CMD_MAGIC, DAEMON_MODVER, None);
    ml.Append(dae);
    if moduleList.Some? {
      ok := LoadAfter(dl, ml, dae, moduleList.value, dir);
    } else {
      ok := true;
      assert ml.mods[1..] == [];
    }
  }

  /** load_modules behind the daemon module, and the unwinding of the
      registry when it fails. */
  method LoadAfter(dl: Loader, ml: ModList, dae: ModData, modules: string, dir: string) returns (ok: bool)
    requires ml.Valid() && ml.mods == [dae] && dae.lib.None?
    modifies dl, ml
    ensures ml.Valid()
    ensures var r := LoadTokens(dl, dir, Tokens(modules), LoadAll(true, [], []));
      ok == r.ok &&
      dl.events == old(dl.events) + r.events + (if r.ok then [] else UnloadPaths(dl, r.loaded)) &&
      (ok ==> |ml.mods| >= 1 && ml.mods[0] == dae && LibsAre(ml.mods[1..], r.loaded)) &&
      (!ok ==> ml.mods == [])
  {
    var lrc := LoadModules(dl, ml, modules, dir);
    ghost var r := LoadTokens(dl, dir, Tokens(modules), LoadAll(true, [], []));
    ok := lrc == MOD_OK;
    assert ml.mods[..1] == [dae] && LibsAre(ml.mods[1..], r.loaded) by {
      assert |old(ml.mods)| == 1;
    }
    if !ok {
      Unwind(dl, ml, dae, r.loaded);
    } else {
      assert ml.mods[0] == ml.mods[..1][0];
      assert dl.events == old(dl.events) + r.events + [];
    }
  }

  /** unload_modules on a registry that failed to load: the daemon module,
      then the modules loaded from `loaded`. */
  method Unwind(dl: Loader, ml: ModList, dae: ModData, ghost loaded: seq<string>)
    requires ml.Valid() && |ml.mods| >= 1 && ml.mods[..1] == [dae] && dae.lib.None? && LibsAre(ml.mods[1..], loaded)
    modifies dl, ml
    ensures ml.Valid() && ml.mods == [] && dl.events == old(dl.events) + UnloadPaths(dl, loaded)
  {
    ghost var mods := ml.mods;
    assert mods == [dae] + mods[1..];
    UnloadModules(dl, ml);
    UnloadRegistry(dl, dae, mods[1..], loaded);
  }

  /** create_ns once the options are known. `setup` is what getaddrinfo,
      socket, setsockopt, bind and listen give: the listening socket, or
      None when any of them fails. A module that fails to load gives no
      server. */
  method CreateNs(setup: Option<int>, dl: Loader, moduleList: Option<string>, dir: string, shutdownEnv: Option<string>)
    returns (rc: nat, ns: Server?)
    modifies dl
    ensures setup.None? ==> rc == NET_ERR_FD && dl.events == old(dl.events)
    ensures setup.Some? ==>
      var r := LoadList(dl, dir, moduleList);
      (rc == if r.ok then NET_OK else NET_ERR) &&
      dl.events == old(dl.events) + r.events + (if r.ok then [] else UnloadPaths(dl, r.loaded))
    ensures ns != null <==> rc == NET_OK
    ensures ns != null ==>
      fresh(ns) && fresh(ns.ml) && ns.Valid() && ns.State() == ServerState(false, [], []) &&
      ns.listenFd == setup.value &&
      ns.shutdownPath == (if shutdownEnv.Some? then shutdownEnv.value else DEFAULT_SHUTDOWN_PATH) &&
      |ns.ml.mods| >= 1 && IsDaemonMod(ns.ml.mods[0]) &&
      LibsAre(ns.ml.mods[1..], LoadList(dl, dir, moduleList).loaded)
  {
    ns := null;
    if setup.None? {
      rc := NET_ERR_FD;
      return;
    }
    var path := if shutdownEnv.Some? then shutdownEnv.value else DEFAULT_SHUTDOWN_PATH;
    var ok, ml := Register(dl, moduleList, dir);
    if !ok {
      rc := NET_ERR;
      return;
    }
    rc := NET_OK;
    ns := new Server(setup.value, path, ml);
  }
}
