/** The stunnel configuration of the client and the daemon
    (src/libwrtctl/stunnel.c, and its near copy src/bin/stunnel.c): the pid
    file path derived from the temporary configuration file's name, and
    write_stunnel_conf, which checks its arguments, writes the configuration
    through the context's stream and closes it. mkstemp(3), fdopen(3) and
    access(2) are outcomes given with the call. */
module Stunnel {
  import opened WrtctlNet
  import opened NetCommon
  import opened NetServer

  /** Which copy of the code: the library's, or the standalone tool's, whose
      template has a blank line after "foreground = yes" and whose message
      for an unreadable key does not say "keyfile". */
  datatype Copy = Library | Tool

  // ---------------------------------------------------------------------------
  // The context and its paths

  /** The name mkstemp(3) is given, and what it keeps of it. */
  const CONF_TEMPLATE: string := "/tmp/stunnel.conf-XXXXXX"
  const CONF_PREFIX: string := "/tmp/stunnel.conf-"
  const PID_PREFIX: string := "/tmp/stunnel.pid-"

  /** A character mkstemp(3) puts in place of an X. */
  predicate TempChar(c: char)
  {
    'a' <= c <= 'z' || 'A' <= c <= 'Z' || '0' <= c <= '9'
  }

  /** The six characters mkstemp(3) puts in place of "XXXXXX". */
  type TempName = s: string | |s| == 6 && forall i :: 0 <= i < |s| ==> TempChar(s[i]) witness "XXXXXX"

  /** What mkstemp(3) and fdopen(3) did: mkstemp failed, or it made the file
      and fdopen then failed or opened a stream on it. */
  datatype TempFile = MkstempFault(errno: Positive) | FdopenFault(name: TempName, errno: Positive) | Opened(name: TempName)

  /** alloc_stunnel_ctx's pid file path: the pid prefix, then what follows
      the configuration prefix in the configuration file's path. */
  function PidPathFor(confPath: string): string
    requires |confPath| >= |CONF_PREFIX|
  {
    PID_PREFIX + confPath[|CONF_PREFIX|..]
  }

  /** The configuration file a pid file path was derived from. */
  function ConfPathFor(pidPath: string): string
    requires |pidPath| >= |PID_PREFIX|
  {
    CONF_PREFIX + pidPath[|PID_PREFIX|..]
  }

  /** The pid file of "/tmp/stunnel.conf-<name>" is "/tmp/stunnel.pid-<name>",
      it is never the configuration file itself, and the configuration file
      is recovered from it: two configuration files never share a pid file. */
  lemma PidPathRoundTrip(name: string)
    ensures PidPathFor(CONF_PREFIX + name) == PID_PREFIX + name
    ensures PidPathFor(CONF_PREFIX + name) != CONF_PREFIX + name
    ensures ConfPathFor(PidPathFor(CONF_PREFIX + name)) == CONF_PREFIX + name
  {
    assert (CONF_PREFIX + name)[|CONF_PREFIX|..] == name;
    assert (PID_PREFIX + name)[|PID_PREFIX|..] == name;
    assert |PID_PREFIX + name| != |CONF_PREFIX + name|;
  }

  /** Distinct temporary files have distinct pid files. */
  lemma PidPathInjective(a: TempName, b: TempName)
    requires a != b
    ensures PidPathFor(CONF_PREFIX + a) != PidPathFor(CONF_PREFIX + b)
  {
    PidPathRoundTrip(a);
    PidPathRoundTrip(b);
  }

  /** struct stunnel_ctx: the configuration and pid file paths, whether the
      stream cf on the configuration file is open, what has gone through it,
      and the stunnel child's pid. */
  class StunnelCtx {
    var confPath: string
    var pidPath: string
    var cfOpen: bool
    var conf: string
    var pid: int

    /** The pid file path is the one derived from the configuration file. */
    ghost predicate Valid()
      reads this
    {
      |confPath| >= |CONF_PREFIX| && confPath[..|CONF_PREFIX|] == CONF_PREFIX &&
      pidPath == PidPathFor(confPath)
    }

    /** A context on a freshly made and opened temporary file. */
    constructor (name: TempName)
      ensures Valid()
      ensures confPath == CONF_PREFIX + name && pidPath == PID_PREFIX + name
      ensures cfOpen && conf == [] && pid == 0
    {
      confPath := CONF_PREFIX + name;
      pidPath := PID_PREFIX + name;
      cfOpen := true;
      conf := [];
      pid := 0;
      new;
      PidPathRoundTrip(name);
    }

    /** write_stunnel_conf: refuse, leaving the context as it was, or write
        the configuration and close the stream. */
    method WriteConf(copy: Copy, a: ConfArgs, readable: string -> bool) returns (rc: nat, diag: string)
      modifies this
      ensures var w := WriteSpec(copy, a, old(cfOpen), old(pidPath), readable);
        (w.Refused? ==> rc == w.rc && diag == w.diag && unchanged(this)) &&
        (w.Wrote? ==> rc == 0 && diag == [] && !cfOpen && conf == old(conf) + w.text &&
                      confPath == old(confPath) && pidPath == old(pidPath) && pid == old(pid))
    {
      var refusal := Refusal(copy, a, cfOpen, readable);
      if refusal.Some? {
        return refusal.value.rc, refusal.value.diag;
      }
      var key := a.keyPath.value;
      var accept, connect;
      if a.isClient {
        accept := "localhost:" + Or(a.wrtctlPort, WRTCTL_SSL_PORT);
        connect := a.hostname.value + ":" + Or(a.wrtctldPort, WRTCTLD_SSL_PORT);
      } else {
        accept := Or(a.wrtctldPort, WRTCTLD_SSL_PORT);
        connect := "localhost:" + Or(a.port, WRTCTLD_DEFAULT_PORT);
      }
      var c := Conf(key, key, key, pidPath, if a.isClient then "yes" else "no",
                    "[wrtctl" + (if a.isClient then "" else "d") + "]", accept, connect);
      assert c == ConfOf(a, pidPath);
      conf := conf + Render(copy, c);
      cfOpen := false;
      rc, diag := 0, [];
    }
  }

  /** alloc_stunnel_ctx: a context on a new temporary file, or the errno of
      the call that failed and no context. */
  method AllocStunnelCtx(tmp: TempFile) returns (rc: nat, ctx: StunnelCtx?)
    ensures rc == 0 <==> ctx != null
    ensures !tmp.Opened? ==> rc == tmp.errno
    ensures ctx != null ==> fresh(ctx) && ctx.Valid() && ctx.cfOpen && ctx.conf == [] && ctx.pid == 0 &&
                            ctx.confPath == CONF_PREFIX + tmp.name && ctx.pidPath == PID_PREFIX + tmp.name
  {
    match tmp {
      case MkstempFault(e) =>
        return e, null;
      case FdopenFault(_, e) =>
        return e, null;
      case Opened(name) =>
        ctx := new StunnelCtx(name);
        rc := 0;
    }
  }

  // ---------------------------------------------------------------------------
  // The configuration text

  /** The settings a configuration file carries. */
  datatype Conf = Conf(cert: string, key: string, caFile: string, pid: string, client: string,
                       header: string, accept: string, connect: string)

  const CERT: string := "cert       = "
  const KEY: string := "key        = "
  const CA_FILE: string := "CAfile     = "
  const PID: string := "pid        = "
  /** The fixed lines between the pid and client settings. */
  const SOCKETS: string := "socket     = l:TCP_NODELAY=1\nsocket     = r:TCP_NODELAY=1\nverify     = 2\n"
  const CLIENT: string := "client     = "
  const ACCEPT: string := "accept     = "
  const CONNECT: string := "connect    = "

  /** The fixed lines between the client setting and the service header. */
  function Middle(copy: Copy): string
  {
    "foreground = yes\n" + (if copy == Tool then "\n" else "") + "syslog     = yes\n\n"
  }

  /** A line of the template: its tag, the value, the newline. */
  function Line(tag: string, value: string, rest: string): string
  {
    tag + value + "\n" + rest
  }

  /** STUNNEL_CONF_TEMPLATE filled in. */
  function Render(copy: Copy, c: Conf): string
  {
    Line(CERT, c.cert, Line(KEY, c.key, Line(CA_FILE, c.caFile, Line(PID, c.pid,
      SOCKETS + Line(CLIENT, c.client, Middle(copy) +
      Line("", c.header, Line(ACCEPT, c.accept, Line(CONNECT, c.connect, []))))))))
  }

  /** Read a line that starts with tag: its value and what follows it. */
  function Take(tag: string, t: string): Option<(string, string)>
  {
    if |tag| <= |t| && t[..|tag|] == tag then
      var rest := t[|tag|..];
      match Find(rest, '\n')
        case None => None
        case Some(i) => Some((rest[..i], rest[i + 1..]))
    else None
  }

  /** Read fixed text. */
  function Skip(fixed: string, t: string): Option<string>
  {
    if |fixed| <= |t| && t[..|fixed|] == fixed then Some(t[|fixed|..]) else None
  }

  /** Read a configuration file written by one copy back into its settings. */
  function Parse(copy: Copy, t: string): Option<Conf>
  {
    var cert := Take(CERT, t);
    if cert.None? then None else
    var key := Take(KEY, cert.value.1);
    if key.None? then None else
    var ca := Take(CA_FILE, key.value.1);
    if ca.None? then None else
    var pid := Take(PID, ca.value.1);
    if pid.None? then None else
    var sockets := Skip(SOCKETS, pid.value.1);
    if sockets.None? then None else
    var client := Take(CLIENT, sockets.value);
    if client.None? then None else
    var middle := Skip(Middle(copy), client.value.1);
    if middle.None? then None else
    var header := Take("", middle.value);
    if header.None? then None else
    var accept := Take(ACCEPT, header.value.1);
    if accept.None? then None else
    var connect := Take(CONNECT, accept.value.1);
    if connect.None? || connect.value.1 != [] then None
    else Some(Conf(cert.value.0, key.value.0, ca.value.0, pid.value.0, client.value.0,
                   header.value.0, accept.value.0, connect.value.0))
  }

  lemma TakeLine(tag: string, value: string, rest: string)
    requires '\n' !in value
    ensures Take(tag, Line(tag, value, rest)) == Some((value, rest))
  {
    var t := Line(tag, value, rest);
    assert t[..|tag|] == tag;
    var r := t[|tag|..];
    assert r == value + "\n" + rest;
    FindNewline(value, rest);
    assert r[..|value|] == value;
    assert r[|value| + 1..] == rest;
  }

  lemma FindNewline(value: string, rest: string)
    requires '\n' !in value
    ensures Find(value + "\n" + rest, '\n') == Some(|value|)
  {
    var s := value + "\n" + rest;
    var i := Find(s, '\n').value;
    assert s[|value|] == '\n';
    assert i >= |value| by {
      assert forall j :: 0 <= j < |value| ==> s[j] == value[j];
    }
  }

  lemma SkipFixed(fixed: string, rest: string)
    ensures Skip(fixed, fixed + rest) == Some(rest)
  {
    assert (fixed + rest)[..|fixed|] == fixed;
    assert (fixed + rest)[|fixed|..] == rest;
  }

  /** No setting of c holds a newline. */
  predicate OneLine(c: Conf)
  {
    '\n' !in c.cert && '\n' !in c.key && '\n' !in c.caFile && '\n' !in c.pid &&
    '\n' !in c.client && '\n' !in c.header && '\n' !in c.accept && '\n' !in c.connect
  }

  /** The file a copy writes reads back as the settings it was written
      from, as long as no setting holds a newline. */
  lemma {:induction false} ConfRoundTrip(copy: Copy, c: Conf)
    requires OneLine(c)
    ensures Parse(copy, Render(copy, c)) == Some(c)
  {
    var t9 := Line(CONNECT, c.connect, []);
    var t8 := Line(ACCEPT, c.accept, t9);
    var t7 := Line("", c.header, t8);
    var t6 := Middle(copy) + t7;
    var t5 := Line(CLIENT, c.client, t6);
    var t4 := SOCKETS + t5;
    var t3 := Line(PID, c.pid, t4);
    var t2 := Line(CA_FILE, c.caFile, t3);
    var t1 := Line(KEY, c.key, t2);
    TakeLine(CERT, c.cert, t1);
    TakeLine(KEY, c.key, t2);
    TakeLine(CA_FILE, c.caFile, t3);
    TakeLine(PID, c.pid, t4);
    SkipFixed(SOCKETS, t5);
    TakeLine(CLIENT, c.client, t6);
    SkipFixed(Middle(copy), t7);
    TakeLine("", c.header, t8);
    TakeLine(ACCEPT, c.accept, t9);
    TakeLine(CONNECT, c.connect, []);
  }

  // ---------------------------------------------------------------------------
  // write_stunnel_conf

  /** The arguments of write_stunnel_conf; NULL is None. */
  datatype ConfArgs = ConfArgs(isClient: bool, hostname: Option<string>, keyPath: Option<string>,
                               port: Option<string>, wrtctlPort: Option<string>, wrtctldPort: Option<string>)

  /** "s ? s : dflt". */
  function Or(s: Option<string>, dflt: string): string
  {
    if s.Some? then s.value else dflt
  }

  const NO_HOSTNAME: string := "write_stunnel_conf:  is_client but no hostname set.\n"
  const NO_KEY: string := "write_stunnel_conf:  no key_path specified.\n"
  const NO_STREAM: string := "write_stunnel_conf:  no fd for config file.\n"

  /** What each copy reports on stderr for a key it cannot read. */
  function Unreadable(copy: Copy, key: string): string
  {
    if copy == Library then "write_stunnel_conf:  unable to read keyfile, " + key + ".\n"
    else "write_stunnel_conf:  unable to read " + key + ".\n"
  }

  /** What write_stunnel_conf does: refuse with a code and a diagnostic, or
      write a text. */
  datatype Written = Refused(rc: Positive, diag: string) | Wrote(text: string)

  /** The accept and connect settings of a role. */
  function Endpoints(a: ConfArgs): (string, string)
    requires a.isClient ==> a.hostname.Some?
  {
    if a.isClient then ("localhost:" + Or(a.wrtctlPort, WRTCTL_SSL_PORT), a.hostname.value + ":" + Or(a.wrtctldPort, WRTCTLD_SSL_PORT))
    else (Or(a.wrtctldPort, WRTCTLD_SSL_PORT), "localhost:" + Or(a.port, WRTCTLD_DEFAULT_PORT))
  }

  /** The checks of write_stunnel_conf, in order: a client needs a host,
      there must be a key, the stream must be open and the key readable. */
  function Refusal(copy: Copy, a: ConfArgs, cfOpen: bool, readable: string -> bool): (r: Option<Written>)
    ensures r.Some? ==> r.value.Refused?
    ensures r.None? <==> (a.isClient ==> a.hostname.Some?) && a.keyPath.Some? && cfOpen && readable(a.keyPath.value)
  {
    if a.isClient && a.hostname.None? then Some(Refused(EINVAL, NO_HOSTNAME))
    else if a.keyPath.None? then Some(Refused(EINVAL, NO_KEY))
    else if !cfOpen then Some(Refused(EINVAL, NO_STREAM))
    else if !readable(a.keyPath.value) then Some(Refused(EPERM, Unreadable(copy, a.keyPath.value)))
    else None
  }

  /** write_stunnel_conf on a context whose stream is open or not and whose
      pid file is pidPath, with access(2)'s answer for reading the key. */
  function WriteSpec(copy: Copy, a: ConfArgs, cfOpen: bool, pidPath: string, readable: string -> bool): Written
  {
    match Refusal(copy, a, cfOpen, readable)
      case Some(refused) => refused
      case None => Wrote(Render(copy, ConfOf(a, pidPath)))
  }

  /** The settings write_stunnel_conf fills the template with. */
  function ConfOf(a: ConfArgs, pidPath: string): Conf
    requires a.keyPath.Some? && (a.isClient ==> a.hostname.Some?)
  {
    var k := a.keyPath.value;
    var e := Endpoints(a);
    Conf(k, k, k, pidPath, if a.isClient then "yes" else "no",
         "[wrtctl" + (if a.isClient then "" else "d") + "]", e.0, e.1)
  }

  /** No argument that reaches the file holds a newline. */
  predicate ArgsOneLine(a: ConfArgs, pidPath: string)
  {
    '\n' !in pidPath &&
    (a.hostname.Some? ==> '\n' !in a.hostname.value) && (a.keyPath.Some? ==> '\n' !in a.keyPath.value) &&
    (a.port.Some? ==> '\n' !in a.port.value) && (a.wrtctlPort.Some? ==> '\n' !in a.wrtctlPort.value) &&
    (a.wrtctldPort.Some? ==> '\n' !in a.wrtctldPort.value)
  }

  /** The checks come in order (a client without a host, no key, no open
      stream, an unreadable key), and the file is written exactly when all
      pass. */
  lemma WriteChecks(copy: Copy, a: ConfArgs, cfOpen: bool, pidPath: string, readable: string -> bool)
    ensures var w := WriteSpec(copy, a, cfOpen, pidPath, readable);
      (w.Wrote? <==> (a.isClient ==> a.hostname.Some?) && a.keyPath.Some? && cfOpen && readable(a.keyPath.value)) &&
      (a.isClient && a.hostname.None? ==> w == Refused(EINVAL, NO_HOSTNAME)) &&
      (a.keyPath.None? && !(a.isClient && a.hostname.None?) ==> w == Refused(EINVAL, NO_KEY)) &&
      (w.Refused? && w.rc == EPERM <==>
         (a.isClient ==> a.hostname.Some?) && a.keyPath.Some? && cfOpen && !readable(a.keyPath.value))
  {
  }

  /** The settings of each role: the key as certificate, key and CA file,
      the context's pid file, "yes" and "[wrtctl]" for the client or "no"
      and "[wrtctld]" for the daemon; the client accepts on localhost at the
      wrtctl port (2451 by default) and connects to the host at the wrtctld
      port (2452 by default); the daemon accepts on the wrtctld port (2452
      by default) and connects to localhost at the plain port (2450 by
      default). */
  lemma ConfOfRole(a: ConfArgs, pidPath: string)
    requires a.keyPath.Some? && (a.isClient ==> a.hostname.Some?)
    ensures var k := a.keyPath.value;
      ConfOf(a, pidPath) ==
        if a.isClient then
          Conf(k, k, k, pidPath, "yes", "[wrtctl]",
               "localhost:" + Or(a.wrtctlPort, "2451"), a.hostname.value + ":" + Or(a.wrtctldPort, "2452"))
        else
          Conf(k, k, k, pidPath, "no", "[wrtctld]",
               Or(a.wrtctldPort, "2452"), "localhost:" + Or(a.port, "2450"))
  {
  }

  /** What a successful write puts in the file reads back as the settings
      of the role it was written for. */
  lemma WrittenConf(copy: Copy, a: ConfArgs, pidPath: string, readable: string -> bool)
    requires ArgsOneLine(a, pidPath)
    ensures var w := WriteSpec(copy, a, true, pidPath, readable);
      w.Wrote? ==> Parse(copy, w.text) == Some(ConfOf(a, pidPath))
  {
    var w := WriteSpec(copy, a, true, pidPath, readable);
    if w.Wrote? {
      var c := ConfOf(a, pidPath);
      assert OneLine(c);
      ConfRoundTrip(copy, c);
    }
  }
}
