/** The sys-cmds module (src/mods/sys-cmds.c): run an init script with
    restart, stop or start. access(2), fork(2), the child's execve(2) and
    waitpid(2) are outcomes given with the call. */
module SysCmds {
  import opened WrtctlNet
  import opened NetCommon
  import opened NetServer

  /** The init script directory when WRTCTL_SYS_INITD_DIR is not set. */
  const DEFAULT_INITD_DIR: string := "/etc/init.d/"

  /** mod_init's choice of init script directory from the environment. */
  function InitdDirOf(getenv: Option<string>): string
  {
    if getenv.Some? then getenv.value else DEFAULT_INITD_DIR
  }

  /** waitpid(2) on the child: a failure, or whether the child exited with
      EXIT_SUCCESS (a child killed by a signal did not). */
  datatype Wait = WaitFault(errno: Positive, reason: string) | Exited(success: bool)

  /** What sys_cmd_initd meets: the module's init script directory, access(2)
      with X_OK on each path, fork(2) and waitpid(2). */
  datatype SysEnv = SysEnv(initdDir: string, access: string -> SysResult, fork: SysResult, wait: Wait)

  /** The code and out_str of a command. */
  datatype SysOut = SysOut(rc: nat, text: string)

  /** GNU basename(3): the text after the last '/'. */
  function Basename(path: string): (b: string)
    ensures '/' !in b && |b| <= |path| && b == path[|path| - |b|..]
    ensures |b| < |path| ==> path[|path| - |b| - 1] == '/'
  {
    match FindLast(path, '/')
      case None => path
      case Some(i) => path[i + 1..]
  }

  /** The commands an init script may be given. */
  const VALID_COMMANDS: seq<string> := ["restart", "stop", "start"]

  /** What strnlen(c, |w| + 1) == |w| and strncmp(c, w, |w|) == 0 together
      say: the C string in c is w. */
  lemma {:induction false} CPrefixOfCStr(s: string, n: nat)
    ensures var c := CStr(s); CPrefix(s, n) == c[..if n < |c| then n else |c|]
    decreases |s|
  {
    if n != 0 && s != [] && s[0] != '\0' {
      CPrefixOfCStr(s[1..], n - 1);
      assert CStr(s) == [s[0]] + CStr(s[1..]);
    }
  }

  lemma CommandIs(c: string, w: string)
    requires IsCString(w)
    ensures (|CPrefix(c, |w| + 1)| == |w| && StrnEq(c, w, |w|)) <==> CStr(c) == w
  {
    CPrefixOfCStr(c, |w| + 1);
    CPrefixOfCStr(c, |w|);
    CPrefixOfCString(w, |w|);
  }

  /** The loop over valid_commands: a command is valid exactly when the C
      string it holds is one of them. */
  method IsValidCommand(command: string) returns (valid: bool)
    ensures valid <==> CStr(command) in VALID_COMMANDS
  {
    var i := 0;
    while i < |VALID_COMMANDS|
      invariant i <= |VALID_COMMANDS|
      invariant CStr(command) !in VALID_COMMANDS[..i]
    {
      var w := VALID_COMMANDS[i];
      CommandIs(command, w);
      assert VALID_COMMANDS[..i + 1] == VALID_COMMANDS[..i] + [w];
      var len := |w|;
      if |CPrefix(command, len + 1)| == len && StrnEq(command, w, len) {
        return true;
      }
      i := i + 1;
    }
    valid := false;
  }

  /** What sys_cmd_initd reports once the child is reaped, as written: a
      failure sets ECANCELED and its message, but the success message is
      then written over it. */
  function ExitOutcomeAsWritten(daemon: string, command: string, success: bool): SysOut
  {
    SysOut(if success then MOD_OK else ECANCELED, daemon + " " + command + " success.\n")
  }

  /** What it evidently means to report: success, or ECANCELED with the
      failure message. */
  function ExitOutcome(daemon: string, command: string, success: bool): SysOut
  {
    if success then SysOut(MOD_OK, daemon + " " + command + " success.\n")
    else SysOut(ECANCELED, daemon + " exited with failure.\n")
  }

  /** As written, a script that fails is reported with ECANCELED and the
      same text as one that succeeds; as corrected, the text of a failure
      is the failure message and never the success one. */
  lemma ExitMessageOverwritten(daemon: string, command: string)
    ensures ExitOutcomeAsWritten(daemon, command, false).rc == ECANCELED
    ensures ExitOutcomeAsWritten(daemon, command, false).text == ExitOutcomeAsWritten(daemon, command, true).text
    ensures ExitOutcome(daemon, command, false) == SysOut(ECANCELED, daemon + " exited with failure.\n")
    ensures ExitOutcome(daemon, command, false).text != ExitOutcome(daemon, command, true).text
  {
    var f, s := ExitOutcome(daemon, command, false).text, ExitOutcome(daemon, command, true).text;
    if |f| == |s| {
      assert f[|f| - 9] == 'f' && s[|s| - 9] == 's';
    }
  }

  /** The script sys_cmd_initd runs for a daemon name. */
  function ScriptPath(env: SysEnv, daemon: string): string
  {
    env.initdDir + "/" + Basename(daemon)
  }

  /** sys_cmd_initd on "<daemon> <command>": check the script is executable,
      check the command, fork, run the script and wait for it. */
  function InitdSpec(env: SysEnv, value: Option<string>): SysOut
  {
    if value.None? || ' ' !in value.value then SysOut(EINVAL, "Invalid argument list.")
    else
      var i := Find(value.value, ' ').value;
      var daemon, command := value.value[..i], value.value[i + 1..];
      match env.access(ScriptPath(env, daemon))
        case SysFail(_, why) => SysOut(EPERM, "access:  " + why)
        case SysOk =>
          if CStr(command) !in VALID_COMMANDS then SysOut(EINVAL, "Invalid init command.")
          else RunSpec(env, daemon, command)
  }

  /** Fork, run the script in the child, and wait for it. */
  function RunSpec(env: SysEnv, daemon: string, command: string): SysOut
  {
    match env.fork
      case SysFail(e, why) => SysOut(e, "fork:  " + why)
      case SysOk =>
        match env.wait
          case WaitFault(e, why) => SysOut(e, "waitpid:  " + why)
          case Exited(ok) => ExitOutcome(daemon, command, ok)
  }

  /** sys_cmd_initd succeeds exactly when the value is "<daemon> <command>"
      with a valid command, the script in the init directory named by the
      daemon's basename is executable, fork and waitpid succeed and the
      script exits with success; the script is checked before the command;
      and the script path is the init directory, '/' and a name without
      '/' (which may still be empty, "." or ".."). */
  lemma InitdOutcome(env: SysEnv, value: Option<string>)
    ensures var r := InitdSpec(env, value);
      (value.None? || ' ' !in value.value ==> r == SysOut(EINVAL, "Invalid argument list.")) &&
      (value.Some? && ' ' in value.value ==>
        var i := Find(value.value, ' ').value;
        var daemon, command := value.value[..i], value.value[i + 1..];
        ' ' !in daemon && value.value == daemon + " " + command &&
        (r.rc == MOD_OK <==>
           env.access(ScriptPath(env, daemon)) == SysOk && CStr(command) in VALID_COMMANDS &&
           env.fork == SysOk && env.wait == Exited(true)) &&
        (r.rc == MOD_OK ==> r.text == daemon + " " + command + " success.\n") &&
        (env.access(ScriptPath(env, daemon)).SysFail? ==> r.rc == EPERM) &&
        (env.access(ScriptPath(env, daemon)) == SysOk && CStr(command) in VALID_COMMANDS &&
         env.fork == SysOk && env.wait == Exited(false) ==>
           r == SysOut(ECANCELED, daemon + " exited with failure.\n")) &&
        exists b :: '/' !in b && ScriptPath(env, daemon) == env.initdDir + "/" + b)
  {
    if value.Some? && ' ' in value.value {
      var i := Find(value.value, ' ').value;
      var daemon, command := value.value[..i], value.value[i + 1..];
      assert value.value == daemon + " " + command;
      var b := Basename(daemon);
      assert ScriptPath(env, daemon) == env.initdDir + "/" + b;
    }
  }

  /** sys_cmd_initd. */
  method CmdInitd(env: SysEnv, value: Option<string>) returns (out: SysOut)
    ensures out == InitdSpec(env, value)
  {
    if value.None? {
      return SysOut(EINVAL, "Invalid argument list.");
    }
    var p := Find(value.value, ' ');
    if p.None? {
      return SysOut(EINVAL, "Invalid argument list.");
    }
    var daemon := value.value[..p.value];
    var dpath := ScriptPath(env, daemon);
    var acc := env.access(dpath);
    if acc.SysFail? {
      return SysOut(EPERM, "access:  " + acc.reason);
    }
    var command := value.value[p.value + 1..];
    var valid := IsValidCommand(command);
    if !valid {
      return SysOut(EINVAL, "Invalid init command.");
    }
    out := RunScript(env, daemon, command);
  }

  /** The fork and waitpid of sys_cmd_initd. */
  method RunScript(env: SysEnv, daemon: string, command: string) returns (out: SysOut)
    ensures out == RunSpec(env, daemon, command)
  {
    if env.fork.SysFail? {
      return SysOut(env.fork.errno, "fork:  " + env.fork.reason);
    }
    match env.wait {
      case WaitFault(e, why) =>
        out := SysOut(e, "waitpid:  " + why);
      case Exited(ok) =>
        if ok {
          out := SysOut(MOD_OK, daemon + " " + command + " success.\n");
        } else {
          out := SysOut(ECANCELED, daemon + " exited with failure.\n");
        }
    }
  }

  /** What mod_handler answers: initd, or "Unknown command". */
  function HandlerSpec(env: SysEnv, cmd: NetCmd): SysOut
  {
    if cmd.id == SYS_CMD_INITD then
      InitdSpec(env, if cmd.value.Some? then Some(CStr(cmd.value.value)) else None)
    else SysOut(NET_ERR_INVAL, "Unknown command")
  }

  /** The reply's net_cmd: the code cast to uint16_t, "SYS", out_str. */
  function ReplyCmd(out: SysOut): NetCmd
  {
    NetCmd(out.rc % U16_MOD, Some(SYS_CMDS_MAGIC), Some(out.text))
  }

  /** The reply of mod_handler comes back to the client as the command's
      code and text under "SYS"; only initd is known. */
  lemma HandlerReply(env: SysEnv, cmd: NetCmd)
    ensures var r := CreateNetCmdPacket(ReplyCmd(HandlerSpec(env, cmd)));
      var o := HandlerSpec(env, cmd);
      (r.rc == NET_OK ==> UnpackNetCmdPacket(r.packet.value) == Some(NetCmd(o.rc % U16_MOD, Some("SYS"), Some(o.text)))) &&
      (cmd.id != SYS_CMD_INITD ==> o == SysOut(NET_ERR_INVAL, "Unknown command"))
  {
    NetCmdRoundTrip(ReplyCmd(HandlerSpec(env, cmd)));
  }

  /** mod_handler. */
  method ModHandler(env: SysEnv, cmd: NetCmd) returns (r: Created)
    ensures r == CreateNetCmdPacket(ReplyCmd(HandlerSpec(env, cmd)))
  {
    var out;
    if cmd.id == SYS_CMD_INITD {
      out := CmdInitd(env, if cmd.value.Some? then Some(CStr(cmd.value.value)) else None);
    } else {
      out := SysOut(NET_ERR_INVAL, "Unknown command");
    }
    r := CreateNetCmdPacket(ReplyCmd(out));
  }
}
