/** The daemon side of src/libwrtctl/net-server.c: creating the server,
    loading the handler modules, accepting connections, one turn of the
    select loop, the default packet handler and the built-in daemon module.

    select(2), accept(2) and the socket set-up calls are inputs; a loaded
    module's handler is a function from the module's path and the command to
    its reply. */
module NetServer {
  import opened WrtctlNet
  import opened NetCommon
  import opened Mod

  // ---------------------------------------------------------------------------
  // load_modules: strtok over " ," and one load_module per token

  predicate IsDelim(c: char)
  {
    c == ' ' || c == ','
  }

  /** The characters strtok skips before a token. */
  function SkipDelims(s: string): (r: string)
    ensures |r| <= |s| && r == s[|s| - |r|..]
    ensures r != [] ==> !IsDelim(r[0])
    ensures forall i :: 0 <= i < |s| - |r| ==> IsDelim(s[i])
  {
    if s != [] && IsDelim(s[0]) then SkipDelims(s[1..]) else s
  }

  /** The length of the run of non-delimiters at the front. */
  function RunLength(s: string): (n: nat)
    ensures n <= |s|
    ensures forall i :: 0 <= i < n ==> !IsDelim(s[i])
    ensures n < |s| ==> IsDelim(s[n])
  {
    if s == [] || IsDelim(s[0]) then 0 else 1 + RunLength(s[1..])
  }

  /** One call of strtok(..., " ,"): the next token and the text after the
      delimiter that ended it; None once only delimiters are left. */
  function NextToken(s: string): (r: Option<(string, string)>)
    ensures r.Some? ==> r.value.0 != [] && |r.value.1| < |s| &&
                        forall i :: 0 <= i < |r.value.0| ==> !IsDelim(r.value.0[i])
    ensures r.None? <==> forall i :: 0 <= i < |s| ==> IsDelim(s[i])
  {
    var t := SkipDelims(s);
    if t == [] then None
    else
      var n := RunLength(t);
      assert s[|s| - |t|] == t[0];
      Some((t[..n], if n < |t| then t[n + 1..] else []))
  }

  /** The tokens of the module list, in order. */
  function Tokens(s: string): seq<string>
    decreases |s|
  {
    match NextToken(s)
      case None => []
      case Some((tok, rest)) => [tok] + Tokens(rest)
  }

  predicate IsToken(t: string)
  {
    t != [] && forall i :: 0 <= i < |t| ==> !IsDelim(t[i])
  }

  /** strtok never yields an empty token nor one holding a delimiter. */
  lemma {:induction false} TokensAreTokens(s: string)
    ensures forall k :: 0 <= k < |Tokens(s)| ==> IsToken(Tokens(s)[k])
    decreases |s|
  {
    match NextToken(s) {
      case None =>
      case Some((tok, rest)) =>
        TokensAreTokens(rest);
        assert Tokens(s) == [tok] + Tokens(rest);
    }
  }

  /** The tokens joined by commas. */
  function JoinTokens(ts: seq<string>): string
  {
    if ts == [] then [] else if |ts| == 1 then ts[0] else ts[0] + ("," + JoinTokens(ts[1..]))
  }

  /** Splitting a comma-joined list of tokens gives the tokens back. */
  lemma {:induction false} TokensOfJoin(ts: seq<string>)
    requires AllTokens(ts)
    ensures Tokens(JoinTokens(ts)) == ts
  {
    if ts == [] {
    } else if |ts| == 1 {
      NextOfLast(ts[0]);
      TokensStep(ts[0], ts[0], []);
      assert Tokens([]) == [];
    } else {
      var rest := JoinTokens(ts[1..]);
      NextOfJoined(ts[0], rest);
      TokensStep(JoinTokens(ts), ts[0], rest);
      TokensOfJoin(ts[1..]);
      assert ts == [ts[0]] + ts[1..];
    }
  }

  /** Every name in the list is a strtok token. */
  predicate AllTokens(ts: seq<string>)
  {
    ts == [] || (IsToken(ts[0]) && AllTokens(ts[1..]))
  }

  /** One strtok call peels one token off the list. */
  lemma TokensStep(s: string, tok: string, rest: string)
    requires NextToken(s) == Some((tok, rest))
    ensures Tokens(s) == [tok] + Tokens(rest)
  {
  }

  /** The last token of a list is read whole, with nothing after it. */
  lemma NextOfLast(t: string)
    requires IsToken(t)
    ensures NextToken(t) == Some((t, []))
  {
    assert SkipDelims(t) == t;
    RunAll(t);
    assert t[..|t|] == t;
  }

  /** A token followed by a comma is read up to the comma. */
  lemma NextOfJoined(t: string, rest: string)
    requires IsToken(t)
    ensures NextToken(t + ("," + rest)) == Some((t, rest))
  {
    var s := t + ("," + rest);
    assert s[0] == t[0];
    assert SkipDelims(s) == s;
    RunUntilComma(t, rest);
    assert s[..|t|] == t;
  }

  lemma {:induction false} RunAll(t: string)
    requires IsToken(t) || t == []
    ensures RunLength(t) == |t|
  {
    if t != [] {
      assert IsToken(t[1..]) || t[1..] == [] by {
        forall i | 0 <= i < |t[1..]| ensures !IsDelim(t[1..][i]) { assert t[1..][i] == t[i + 1]; }
      }
      RunAll(t[1..]);
    }
  }

  lemma RunUntilComma(t: string, rest: string)
    requires IsToken(t)
    ensures RunLength(t + ("," + rest)) == |t| && (t + ("," + rest))[|t| + 1..] == rest
  {
    var s := t + ("," + rest);
    var n := RunLength(s);
    assert forall i :: 0 <= i < |t| ==> s[i] == t[i];
    assert s[|t|] == ',';
  }

  const MAXPATHLEN: nat := 4096

  /** The path snprintf builds: "<dir>/<token>.so". */
  function ModPath(dir: string, tok: string): string
  {
    dir + "/" + tok + ".so"
  }

  /** snprintf into char[MAXPATHLEN] succeeds when the text and its NUL fit. */
  predicate PathFits(dir: string, tok: string)
  {
    |ModPath(dir, tok)| < MAXPATHLEN
  }

  /** The effect of load_modules so far: whether every token loaded, the
      dl* calls, and the paths of the modules appended to the list. */
  datatype LoadAll = LoadAll(ok: bool, events: seq<DlEvent>, loaded: seq<string>)

  /** load_modules over the remaining tokens, from what it has done so far:
      it goes on after a failure, and a too-long path is not loaded at all. */
  function LoadTokens(dl: Loader, dir: string, toks: seq<string>, acc: LoadAll): LoadAll
  {
    if toks == [] then acc else LoadTokens(dl, dir, toks[1..], LoadOne(dl, dir, toks[0], acc))
  }

  /** One token of load_modules. */
  function LoadOne(dl: Loader, dir: string, tok: string, acc: LoadAll): LoadAll
  {
    if !PathFits(dir, tok) then acc.(ok := false)
    else
      var path := ModPath(dir, tok);
      var l := LoadSpec(dl.Find(path), path, dl.noDlclose, true);
      LoadAll(acc.ok && l.err.None?, acc.events + l.events, acc.loaded + (if l.err.None? then [path] else []))
  }

  /** The paths of the tokens that load. */
  function Loadable(dl: Loader, dir: string, toks: seq<string>): seq<string>
  {
    if toks == [] then []
    else
      var path := ModPath(dir, toks[0]);
      (if PathFits(dir, toks[0]) && LoadSpec(dl.Find(path), path, dl.noDlclose, true).err.None? then [path] else [])
      + Loadable(dl, dir, toks[1..])
  }

  /** load_modules reports success exactly when every token's path fits and
      its module loads, and the modules that do load join the list in token
      order. */
  lemma {:induction false} LoadTokensOutcome(dl: Loader, dir: string, toks: seq<string>, acc: LoadAll)
    ensures var r := LoadTokens(dl, dir, toks, acc);
      (r.ok <==> acc.ok && forall k :: 0 <= k < |toks| ==>
         PathFits(dir, toks[k]) && LoadSpec(dl.Find(ModPath(dir, toks[k])), ModPath(dir, toks[k]), dl.noDlclose, true).err.None?) &&
      r.loaded == acc.loaded + Loadable(dl, dir, toks)
  {
    if toks != [] {
      var path := ModPath(dir, toks[0]);
      var l := LoadSpec(dl.Find(path), path, dl.noDlclose, true);
      var next := LoadOne(dl, dir, toks[0], acc);
      LoadTokensOutcome(dl, dir, toks[1..], next);
      assert forall k :: 1 <= k < |toks| ==> toks[k] == toks[1..][k - 1];
      var fits := PathFits(dir, toks[0]) && l.err.None?;
      assert acc.loaded + Loadable(dl, dir, toks) ==
             acc.loaded + (if fits then [path] else []) + Loadable(dl, dir, toks[1..]);
    }
  }

  /** The modules carry the given library paths, in order. */
  predicate LibsAre(mods: seq<ModData>, paths: seq<string>)
  {
    |mods| == |paths| && forall k :: 0 <= k < |mods| ==> mods[k].lib == Some(paths[k])
  }

  /** What load_modules has done so far, from dl.events = e0 and
      ml.mods = m0: the calls made and the modules appended. */
  ghost predicate Loaded(dl: Loader, ml: ModList, e0: seq<DlEvent>, m0: seq<ModData>, acc: LoadAll, added: seq<ModData>)
    reads dl, ml
  {
    ml.Valid() && ml.mods == m0 + added && dl.events == e0 + acc.events && LibsAre(added, acc.loaded)
  }

  lemma EventsAssoc(a: seq<DlEvent>, b: seq<DlEvent>, c: seq<DlEvent>)
    ensures a + b + c == a + (b + c)
  {
  }

  lemma LibsAppend(mods: seq<ModData>, paths: seq<string>, md: ModData, path: string)
    requires LibsAre(mods, paths) && md.lib == Some(path)
    ensures LibsAre(mods + [md], paths + [path])
  {
    forall k | 0 <= k < |mods| + 1 ensures (mods + [md])[k].lib == Some((paths + [path])[k]) {
      if k < |mods| { assert (mods + [md])[k] == mods[k]; }
    }
  }

  /** The body of the load_modules loop for one token: build the path, and
      load it when it fits. */
  method LoadToken(dl: Loader, ml: ModList, dir: string, tok: string, ghost e0: seq<DlEvent>, ghost m0: seq<ModData>,
                   ghost acc: LoadAll, ghost added: seq<ModData>) returns (ok: bool, ghost added': seq<ModData>)
    requires Loaded(dl, ml, e0, m0, acc, added)
    modifies dl, ml
    ensures LoadOne(dl, dir, tok, acc).ok == (acc.ok && ok)
    ensures Loaded(dl, ml, e0, m0, LoadOne(dl, dir, tok, acc), added')
  {
    if !PathFits(dir, tok) {
      ok, added' := false, added;
      return;
    }
    var path := ModPath(dir, tok);
    ghost var l := LoadSpec(dl.Find(path), path, dl.noDlclose, true);
    ghost var one := if l.err.None? then [path] else [];
    assert LoadOne(dl, dir, tok, acc) == LoadAll(acc.ok && l.err.None?, acc.events + l.events, acc.loaded + one);
    var err, md := LoadModule(dl, ml, path, true);
    ok := err.None?;
    EventsAssoc(e0, acc.events, l.events);
    if md != null {
      added' := added + [md];
      assert ml.mods == m0 + added';
      LibsAppend(added, acc.loaded, md, path);
    } else {
      added' := added;
      assert acc.loaded + one == acc.loaded;
    }
  }

  /** load_modules: load "<dir>/<token>.so" for each token of the list and
      answer MOD_ERR_LOAD if any of them failed. */
  method LoadModules(dl: Loader, ml: ModList, modules: string, dir: string) returns (rc: nat)
    requires ml.Valid()
    modifies dl, ml
    ensures var r := LoadTokens(dl, dir, Tokens(modules), LoadAll(true, [], []));
      (rc == if r.ok then MOD_OK else MOD_ERR_LOAD) &&
      dl.events == old(dl.events) + r.events &&
      |ml.mods| >= |old(ml.mods)| && ml.mods[..|old(ml.mods)|] == old(ml.mods) &&
      LibsAre(ml.mods[|old(ml.mods)|..], r.loaded)
    ensures ml.Valid()
  {
    rc := MOD_OK;
    var rest := modules;
    ghost var acc := LoadAll(true, [], []);
    ghost var added: seq<ModData> := [];
    var next := NextToken(rest);
    while next.Some?
      invariant next == NextToken(rest)
      invariant LoadTokens(dl, dir, Tokens(modules), LoadAll(true, [], [])) == LoadTokens(dl, dir, Tokens(rest), acc)
      invariant rc == if acc.ok then MOD_OK else MOD_ERR_LOAD
      invariant Loaded(dl, ml, old(dl.events), old(ml.mods), acc, added)
      decreases |rest|
    {
      var tok := next.value.0;
      assert Tokens(rest) == [tok] + Tokens(next.value.1);
      var ok;
      ok, added := LoadToken(dl, ml, dir, tok, old(dl.events), old(ml.mods), acc, added);
      if !ok {
        rc := MOD_ERR_LOAD;
      }
      acc := LoadOne(dl, dir, tok, acc);
      rest := next.value.1;
      next := NextToken(rest);
    }
    assert ml.mods[..|old(ml.mods)|] == old(ml.mods) && ml.mods[|old(ml.mods)|..] == added;
  }

  // ---------------------------------------------------------------------------
  // Module replies and the built-in daemon module

  /** What a handler hands back: a net_errno and, exactly when that is
      NET_OK, a framed packet to send. */
  type Reply = r: Created | (r.rc == NET_OK <==> r.packet.Some?) && (r.packet.Some? ==> Framed(r.packet.value))
    witness Created(1, None)

  /** A system call's outcome: success, or failure with errno and strerror. */
  datatype SysResult = SysOk | SysFail(errno: Positive, reason: string)

  /** time(2): the seconds since the epoch, or a failure. */
  datatype Clock = Now(t: nat) | ClockFault(errno: nat, reason: string)

  /** What the daemon commands meet: the clock, access(2) on the shutdown
      program and fork(2). */
  datatype DaemonEnv = DaemonEnv(clock: Clock, access: SysResult, fork: SysResult)

  /** A reply, and whether the call asked the server to shut down. */
  datatype Answer = Answer(reply: Reply, stop: bool)

  /** The code and text daemon_mod_handler puts in its reply, and whether the
      command shuts the server down. */
  datatype Outcome = Outcome(code: nat, text: string, stop: bool)

  function DaemonOutcome(env: DaemonEnv, id: u16): (o: Outcome)
    ensures o.code < U16_MOD
  {
    if id == DAEMON_CMD_PING then
      match env.clock
        case ClockFault(e, why) => Outcome(e % U16_MOD, "time:  " + why, false)
        case Now(t) => Outcome(0, Decimal(t % U32_MOD), false)
    else if id == DAEMON_CMD_SHUTDOWN then
      match env.access
        case SysFail(e, why) => Outcome(e % U16_MOD, "access:  " + why, false)
        case SysOk =>
          match env.fork
            case SysFail(e, why) => Outcome(e % U16_MOD, "fork:  " + why, false)
            case SysOk => Outcome(MOD_OK, "Rebooting...", true)
    else Outcome(NET_ERR_INVAL, "Unknown command", false)
  }

  lemma CreatedIsReply(cmd: NetCmd)
    ensures var c := CreateNetCmdPacket(cmd);
      (c.rc == NET_OK <==> c.packet.Some?) && (c.packet.Some? ==> Framed(c.packet.value))
  {
  }

  /** daemon_mod_handler: ping answers the time, shutdown starts the reboot
      and marks the server for shutdown, anything else is "Unknown command";
      the reply is a NET packet for subsystem "DAE". */
  function DaemonModHandler(env: DaemonEnv, cmd: NetCmd): Answer
  {
    var o := DaemonOutcome(env, cmd.id);
    CreatedIsReply(NetCmd(o.code, Some(DAEMON_CMD_MAGIC), Some(o.text)));
    Answer(CreateNetCmdPacket(NetCmd(o.code, Some(DAEMON_CMD_MAGIC), Some(o.text))), o.stop)
  }

  /** The daemon's reply carries its code and text back to the client under
      "DAE"; a ping's text reads back as the clock modulo 2^32; only a
      shutdown whose access and fork succeed stops the server. */
  lemma DaemonReply(env: DaemonEnv, cmd: NetCmd)
    ensures var a := DaemonModHandler(env, cmd);
      var o := DaemonOutcome(env, cmd.id);
      (a.reply.rc == NET_OK ==>
         UnpackNetCmdPacket(a.reply.packet.value) == Some(NetCmd(o.code, Some("DAE"), Some(o.text)))) &&
      (a.stop <==> cmd.id == DAEMON_CMD_SHUTDOWN && env.access == SysOk && env.fork == SysOk) &&
      (cmd.id == DAEMON_CMD_PING && env.clock.Now? ==> ParseDecimal(o.text) == env.clock.t % U32_MOD && o.code == 0) &&
      (cmd.id != DAEMON_CMD_PING && cmd.id != DAEMON_CMD_SHUTDOWN ==> o == Outcome(NET_ERR_INVAL, "Unknown command", false))
  {
    var o := DaemonOutcome(env, cmd.id);
    NetCmdRoundTrip(NetCmd(o.code, Some(DAEMON_CMD_MAGIC), Some(o.text)));
    if cmd.id == DAEMON_CMD_PING && env.clock.Now? {
      DecimalRoundTrip(env.clock.t % U32_MOD);
    }
  }

  /** The mod_handler functions a turn can call: every loaded module's, by its
      library path, and the built-in module's. */
  datatype Handlers = Handlers(call: (string, NetCmd) -> Reply, builtin: NetCmd -> Answer)

  /** The handlers of a server whose built-in module answers with
      daemon_mod_handler in the given environment. */
  function DaemonHandlers(call: (string, NetCmd) -> Reply, env: DaemonEnv): Handlers
  {
    Handlers(call, cmd => DaemonModHandler(env, cmd))
  }

  /** md->mod_handler: the module without a library is the built-in one. */
  function CallModule(h: Handlers, md: ModData, cmd: NetCmd): Answer
  {
    match md.lib
      case None => h.builtin(cmd)
      case Some(path) => Answer(h.call(path, cmd), false)
  }

  // ---------------------------------------------------------------------------
  // default_handler

  /** The first module whose tag matches the subsystem in its first three
      characters. */
  function FirstMatch(mods: seq<ModData>, sub: string): (r: Option<nat>)
    ensures r.Some? ==> r.value < |mods| && StrnEq(sub, mods[r.value].magic, 3)
    ensures r.Some? ==> forall j :: 0 <= j < r.value ==> !StrnEq(sub, mods[j].magic, 3)
    ensures r.None? ==> forall j :: 0 <= j < |mods| ==> !StrnEq(sub, mods[j].magic, 3)
  {
    if mods == [] then None
    else if StrnEq(sub, mods[0].magic, 3) then Some(0)
    else match FirstMatch(mods[1..], sub)
      case None => None
      case Some(i) => Some(i + 1)
  }

  /** What handing one command to the modules produced: packets to send and
      whether the server is to shut down. */
  datatype Dispatched = Dispatched(out: seq<Packet>, stop: bool)

  function Emit(a: Answer): Dispatched
  {
    Dispatched(if a.reply.rc == MOD_OK then [a.reply.packet.value] else [], a.stop)
  }

  /** The module scan of default_handler, stopping at the first module whose
      tag matches: its handler's packet is queued when it returns MOD_OK. A
      command without a subsystem matches nothing, where the scan as written
      crashes (DispatchAsWritten). */
  function Dispatch(h: Handlers, mods: seq<ModData>, cmd: NetCmd): (d: Dispatched)
    ensures |d.out| <= 1 && forall i :: 0 <= i < |d.out| ==> Framed(d.out[i])
  {
    if cmd.subsystem.None? then Dispatched([], false)
    else match FirstMatch(mods, cmd.subsystem.value)
      case None => Dispatched([], false)
      case Some(i) => Emit(CallModule(h, mods[i], cmd))
  }

  /** The scan the loop's shape describes, were the command's strings still
      alive after a handler ran: every module whose tag matches is called in
      turn, and a handler error ends the scan. The code frees them after the
      first successful handler (see DispatchAsWritten). */
  function DispatchAll(h: Handlers, mods: seq<ModData>, cmd: NetCmd): Dispatched
  {
    if mods == [] || cmd.subsystem.None? then Dispatched([], false)
    else if !StrnEq(cmd.subsystem.value, mods[0].magic, 3) then DispatchAll(h, mods[1..], cmd)
    else
      var a := CallModule(h, mods[0], cmd);
      if a.reply.rc != MOD_OK then Dispatched([], a.stop)
      else
        var r := DispatchAll(h, mods[1..], cmd);
        Dispatched([a.reply.packet.value] + r.out, a.stop || r.stop)
  }

  /** The module scan as the code runs it: it finishes, it dereferences a
      NULL subsystem, or it compares the next module's tag with the
      subsystem a successful handler's turn has already freed. */
  datatype Scan = Scanned(d: Dispatched) | NullSubsystem | FreedRead

  /** default_handler's scan as written. strncmp reads nc.subsystem with no
      NULL check, so a command without a subsystem crashes the server as
      soon as the list holds a module, and create_ns always registers one.
      After a handler returns MOD_OK its reply is queued and the command's
      strings are freed, but the loop goes on: the next module's comparison
      reads freed memory. */
  function DispatchAsWritten(h: Handlers, mods: seq<ModData>, cmd: NetCmd): (r: Scan)
    ensures r.NullSubsystem? <==> cmd.subsystem.None? && mods != []
  {
    if mods == [] then Scanned(Dispatched([], false))
    else if cmd.subsystem.None? then NullSubsystem
    else if !StrnEq(cmd.subsystem.value, mods[0].magic, 3) then DispatchAsWritten(h, mods[1..], cmd)
    else
      var a := CallModule(h, mods[0], cmd);
      if a.reply.rc != MOD_OK then Scanned(Dispatched([], a.stop))
      else if |mods| > 1 then FreedRead
      else Scanned(Dispatched([a.reply.packet.value], a.stop))
  }

  /** The first module matching the command has a successful handler and
      another module after it. */
  predicate ReadsFreed(h: Handlers, mods: seq<ModData>, cmd: NetCmd)
  {
    cmd.subsystem.Some? &&
    match FirstMatch(mods, cmd.subsystem.value)
      case None => false
      case Some(i) => i + 1 < |mods| && CallModule(h, mods[i], cmd).reply.rc == MOD_OK
  }

  /** A peer can send a command without a subsystem: the packet frames and
      unpacks, and the scan as written then crashes on it, where the
      corrected Dispatch matches nothing and replies nothing. */
  lemma NullSubsystemCrashes(h: Handlers, mods: seq<ModData>)
    requires mods != []
    ensures var cmd := NetCmd(0, None, None);
      var r := CreateNetCmdPacket(cmd);
      r.rc == NET_OK && IsNetTag(r.packet.value.cmdId) &&
      UnpackNetCmdPacket(r.packet.value) == Some(cmd) &&
      DispatchAsWritten(h, mods, cmd) == NullSubsystem &&
      Dispatch(h, mods, cmd) == Dispatched([], false)
  {
    var cmd := NetCmd(0, None, None);
    assert Tpl.PackStr(None) == Some([0]);
    assert |Tpl.Pack(cmd).value| == 4;
    NetMagicLength();
    NetCmdRoundTrip(cmd);
  }

  /** With a subsystem present, the scan as written reads freed memory
      exactly when the first match succeeds and is not the last module;
      otherwise it does what the corrected Dispatch does. */
  lemma {:induction false} DispatchAsWrittenAgrees(h: Handlers, mods: seq<ModData>, cmd: NetCmd)
    requires cmd.subsystem.Some?
    ensures DispatchAsWritten(h, mods, cmd).FreedRead? <==> ReadsFreed(h, mods, cmd)
    ensures !ReadsFreed(h, mods, cmd) ==> DispatchAsWritten(h, mods, cmd) == Scanned(Dispatch(h, mods, cmd))
  {
    var sub := cmd.subsystem.value;
    if mods != [] && !StrnEq(sub, mods[0].magic, 3) {
      DispatchAsWrittenAgrees(h, mods[1..], cmd);
      var m := FirstMatch(mods[1..], sub);
      assert FirstMatch(mods, sub) == if m.None? then None else Some(m.value + 1);
      if m.Some? {
        assert mods[m.value + 1] == mods[1..][m.value];
      }
      assert ReadsFreed(h, mods, cmd) <==> ReadsFreed(h, mods[1..], cmd);
      assert Dispatch(h, mods, cmd) == Dispatch(h, mods[1..], cmd);
    }
  }

  /** The common case: a "DAE" command the daemon answers, with any module
      loaded behind the built-in one, reads freed memory as written. */
  lemma DaemonThenModuleReadsFreed(call: (string, NetCmd) -> Reply, env: DaemonEnv, mods: seq<ModData>, cmd: NetCmd)
    requires |mods| >= 2 && mods[0].lib.None? && mods[0].magic == DAEMON_CMD_MAGIC
    requires cmd.subsystem == Some(DAEMON_CMD_MAGIC) && DaemonModHandler(env, cmd).reply.rc == MOD_OK
    ensures DispatchAsWritten(DaemonHandlers(call, env), mods, cmd) == FreedRead
  {
    assert StrnEq(DAEMON_CMD_MAGIC, mods[0].magic, 3);
  }

  /** No two modules share a tag in its first three characters. */
  predicate DistinctTags(mods: seq<ModData>)
  {
    forall i, j :: 0 <= i < j < |mods| ==> CPrefix(mods[i].magic, 3) != CPrefix(mods[j].magic, 3)
  }

  /** With distinct tags at most one module matches, so stopping at the first
      match is the scan of every module. */
  lemma {:induction false} DispatchFirstIsAll(h: Handlers, mods: seq<ModData>, cmd: NetCmd)
    requires DistinctTags(mods)
    ensures Dispatch(h, mods, cmd) == DispatchAll(h, mods, cmd)
  {
    if mods != [] && cmd.subsystem.Some? {
      var sub := cmd.subsystem.value;
      assert DistinctTags(mods[1..]) by {
        forall i, j | 0 <= i < j < |mods[1..]| ensures CPrefix(mods[1..][i].magic, 3) != CPrefix(mods[1..][j].magic, 3) {
          assert mods[1..][i] == mods[i + 1] && mods[1..][j] == mods[j + 1];
        }
      }
      if StrnEq(sub, mods[0].magic, 3) {
        NoneMatch(h, mods[1..], cmd);
      } else {
        DispatchFirstIsAll(h, mods[1..], cmd);
        assert FirstMatch(mods, sub) == (match FirstMatch(mods[1..], sub) case None => None case Some(i) => Some(i + 1));
      }
    }
  }

  /** When the subsystem matches mods[0] of a list with distinct tags, no
      later module matches. */
  lemma NoneMatch(h: Handlers, rest: seq<ModData>, cmd: NetCmd)
    requires cmd.subsystem.Some?
    requires forall j :: 0 <= j < |rest| ==> !StrnEq(cmd.subsystem.value, rest[j].magic, 3)
    ensures DispatchAll(h, rest, cmd) == Dispatched([], false)
  {
    if rest != [] {
      NoneMatch(h, rest[1..], cmd);
    }
  }

  /** What the first matching module does with a command, found by scanning
      the list front to back as default_handler does. */
  method DispatchCmd(h: Handlers, mods: seq<ModData>, cmd: NetCmd) returns (d: Dispatched)
    ensures d == Dispatch(h, mods, cmd)
  {
    if cmd.subsystem.None? {
      return Dispatched([], false);
    }
    var sub := cmd.subsystem.value;
    var i := 0;
    while i < |mods| && !StrnEq(sub, mods[i].magic, 3)
      invariant i <= |mods|
      invariant forall j :: 0 <= j < i ==> !StrnEq(sub, mods[j].magic, 3)
    {
      i := i + 1;
    }
    if i == |mods| {
      assert FirstMatch(mods, sub) == None;
      d := Dispatched([], false);
    } else {
      assert FirstMatch(mods, sub) == Some(i);
      d := Emit(CallModule(h, mods[i], cmd));
    }
  }

  // ---------------------------------------------------------------------------
  // default_handler over a connection's recvq

  /** strncmp(p->cmd_id, NET_CMD_MAGIC, 3) == 0 */
  predicate IsNetTag(cmdId: seq<byte>)
  {
    |cmdId| >= 3 && cmdId[..3] == NET_CMD_MAGIC
  }

  /** The connection after default_handler, and whether a handler asked the
      server to shut down. */
  datatype Handled = Handled(st: ConnState, stop: bool)

  /** default_handler: take packets from the front of recvq; a packet not
      tagged NET is dropped, a NET packet is unpacked and dispatched and its
      reply (if any) queued on sendq; a NET packet that does not unpack ends
      the pass and stays where it is. */
  function HandleSpec(h: Handlers, mods: seq<ModData>, s: ConnState): (r: Handled)
    ensures r.st.link == s.link && r.st.shutdown == s.shutdown && r.st.ddErrno == s.ddErrno
    ensures AllFramed(s.sendq) ==> AllFramed(r.st.sendq)
    decreases |s.recvq|
  {
    if s.recvq == [] then Handled(s, false)
    else
      var p := s.recvq[0];
      var rest := s.recvq[1..];
      if !IsNetTag(p.cmdId) then HandleSpec(h, mods, s.(recvq := rest))
      else match UnpackNetCmdPacket(p)
        case None => Handled(s, false)
        case Some(cmd) =>
          var d := Dispatch(h, mods, cmd);
          var r := HandleSpec(h, mods, s.(recvq := rest, sendq := s.sendq + d.out));
          Handled(r.st, d.stop || r.stop)
  }

  /** default_handler consumes recvq from the front; if anything is left,
      its head is a NET packet that does not unpack. */
  lemma {:induction false} HandleConsumes(h: Handlers, mods: seq<ModData>, s: ConnState)
    ensures var r := HandleSpec(h, mods, s);
      |r.st.recvq| <= |s.recvq| && r.st.recvq == s.recvq[|s.recvq| - |r.st.recvq|..] &&
      (r.st.recvq != [] ==> IsNetTag(r.st.recvq[0].cmdId) && UnpackNetCmdPacket(r.st.recvq[0]).None?)
    decreases |s.recvq|
  {
    if s.recvq != [] {
      var p := s.recvq[0];
      var rest := s.recvq[1..];
      if !IsNetTag(p.cmdId) || UnpackNetCmdPacket(p).Some? {
        var out := if !IsNetTag(p.cmdId) then [] else Dispatch(h, mods, UnpackNetCmdPacket(p).value).out;
        var t := s.(recvq := rest, sendq := s.sendq + out);
        HandleConsumes(h, mods, t);
        var r := HandleSpec(h, mods, t);
        assert !IsNetTag(p.cmdId) ==> t == s.(recvq := rest);
        assert HandleSpec(h, mods, s).st == r.st;
        assert s.recvq[|s.recvq| - |r.st.recvq|..] == rest[|rest| - |r.st.recvq|..];
      }
    }
  }

  /** default_handler only appends to sendq. */
  lemma {:induction false} HandleAppends(h: Handlers, mods: seq<ModData>, s: ConnState)
    ensures var r := HandleSpec(h, mods, s);
      |s.sendq| <= |r.st.sendq| && r.st.sendq[..|s.sendq|] == s.sendq
    decreases |s.recvq|
  {
    if s.recvq != [] {
      var p := s.recvq[0];
      var rest := s.recvq[1..];
      if !IsNetTag(p.cmdId) || UnpackNetCmdPacket(p).Some? {
        var out := if !IsNetTag(p.cmdId) then [] else Dispatch(h, mods, UnpackNetCmdPacket(p).value).out;
        var t := s.(recvq := rest, sendq := s.sendq + out);
        HandleAppends(h, mods, t);
        var r := HandleSpec(h, mods, t);
        assert !IsNetTag(p.cmdId) ==> t == s.(recvq := rest);
        assert HandleSpec(h, mods, s).st == r.st;
        assert r.st.sendq[..|s.sendq|] == r.st.sendq[..|t.sendq|][..|s.sendq|];
      }
    }
  }

  /** Packets not tagged NET are all taken off recvq and get no reply. */
  lemma {:induction false} HandleDropsForeign(h: Handlers, mods: seq<ModData>, s: ConnState)
    requires forall k :: 0 <= k < |s.recvq| ==> !IsNetTag(s.recvq[k].cmdId)
    ensures HandleSpec(h, mods, s) == Handled(s.(recvq := []), false)
    decreases |s.recvq|
  {
    if s.recvq != [] {
      var t := s.(recvq := s.recvq[1..]);
      forall k | 0 <= k < |t.recvq| ensures !IsNetTag(t.recvq[k].cmdId) {
        assert t.recvq[k] == s.recvq[k + 1];
      }
      assert !IsNetTag(s.recvq[0].cmdId);
      HandleDropsForeign(h, mods, t);
    }
  }

  /** A command packet built by create_net_cmd_packet is consumed and its
      dispatch result queued behind what sendq already held. */
  lemma HandleCreated(h: Handlers, mods: seq<ModData>, s: ConnState, cmd: NetCmd, p: Packet)
    requires CreateNetCmdPacket(cmd).packet == Some(p) && s.recvq == [p]
    ensures var d := Dispatch(h, mods, cmd);
      HandleSpec(h, mods, s) == Handled(s.(recvq := [], sendq := s.sendq + d.out), d.stop)
  {
    NetCmdRoundTrip(cmd);
    var d := Dispatch(h, mods, cmd);
    var t := s.(recvq := [], sendq := s.sendq + d.out);
    assert HandleSpec(h, mods, t) == Handled(t, false);
  }

  /** A command packet without a subsystem is consumed and answered with
      nothing, and the server goes on: where the scan as written crashes. */
  lemma HandleNullSubsystem(h: Handlers, mods: seq<ModData>, s: ConnState, cmd: NetCmd, p: Packet)
    requires cmd.subsystem.None?
    requires CreateNetCmdPacket(cmd).packet == Some(p) && s.recvq == [p]
    ensures HandleSpec(h, mods, s) == Handled(s.(recvq := []), false)
  {
    HandleCreated(h, mods, s, cmd, p);
    assert s.sendq + Dispatch(h, mods, cmd).out == s.sendq;
  }

  /** With the built-in module at the head of the list, a "DAE" command goes
      to the daemon's own handler whatever modules were loaded behind it. */
  lemma DaemonFirst(call: (string, NetCmd) -> Reply, env: DaemonEnv, mods: seq<ModData>, cmd: NetCmd)
    requires mods != [] && mods[0].lib.None? && mods[0].magic == DAEMON_CMD_MAGIC
    requires cmd.subsystem == Some(DAEMON_CMD_MAGIC)
    ensures Dispatch(DaemonHandlers(call, env), mods, cmd) == Emit(DaemonModHandler(env, cmd))
  {
    assert StrnEq(DAEMON_CMD_MAGIC, mods[0].magic, 3);
  }
}
