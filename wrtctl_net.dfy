/** Constants, codes and value types of the wrtctl protocol (src/libwrtctl/wrtctl-net.h). */
module WrtctlNet {

  type byte = x: int | 0 <= x < 256

  /** uint16_t, the width of a command id or return code in a net_cmd. */
  type u16 = x: int | 0 <= x < 0x1_0000

  datatype Option<T> = None | Some(value: T)

  /** struct net_cmd: a command id (or, in a reply, a return code), the
      subsystem tag that names the handling module, and a value; each string
      may be NULL. */
  datatype NetCmd = NetCmd(id: u16, subsystem: Option<string>, value: Option<string>)

  // ---------------------------------------------------------------------------
  // Sizes and ports

  /** Largest frame, header included, that either side accepts. */
  const MAX_PACKET_SIZE: nat := 1024 * 1024
  /** Bytes of the big-endian length field at the start of a frame. */
  const LEN_FIELD: nat := 4
  /** Bytes of the type tag that follows it: three characters and a NUL. */
  const CMD_ID_LEN: nat := 4
  /** Bytes of a frame before its payload. */
  const FRAME_HEADER: nat := LEN_FIELD + CMD_ID_LEN
  const U32_MOD: nat := 0x1_0000_0000
  const U16_MOD: nat := 0x1_0000

  const WRTCTLD_DEFAULT_PORT: string := "2450"
  const WRTCTL_SSL_PORT: string := "2451"
  const WRTCTLD_SSL_PORT: string := "2452"

  // ---------------------------------------------------------------------------
  // enum net_errno

  const NET_OK: nat := 0
  const NET_ERR_MEM: nat := 1
  const NET_ERR_FD: nat := 2
  const NET_ERR_INVAL: nat := 3
  const NET_ERR_CONNRESET: nat := 4
  const NET_ERR_PKTSZ: nat := 5
  const NET_ERR_NS: nat := 6
  const NET_ERR_TIMEOUT: nat := 7
  const NET_ERR_TPL: nat := 8
  const NET_ERR: nat := 9

  // enum mod_errno
  const MOD_OK: nat := 0
  const MOD_ERR_MEM: nat := 1
  const MOD_ERR_FORK: nat := 2
  const MOD_ERR_SIG: nat := 3
  const MOD_ERR_PERM: nat := 4
  const MOD_ERR_INVAL: nat := 5
  const MOD_ERR_TPL: nat := 6
  const MOD_ERR_INT: nat := 7
  const MOD_ERR_LOAD: nat := 8
  const MOD_ERR_MAX: nat := 9

  // Command ids of the three subsystems
  const UCI_CMD_SET: nat := 1
  const UCI_CMD_GET: nat := 2
  const UCI_CMD_COMMIT: nat := 3
  const UCI_CMD_REVERT: nat := 4
  const SYS_CMD_INITD: nat := 1
  const DAEMON_CMD_PING: nat := 1
  const DAEMON_CMD_SHUTDOWN: nat := 2

  /** The tag bytes "NET" of a command packet. */
  const NET_CMD_MAGIC: seq<byte> := [78, 69, 84]
  const UCI_CMDS_MAGIC: string := "UCI"
  const SYS_CMDS_MAGIC: string := "SYS"
  const DAEMON_CMD_MAGIC: string := "DAE"

  // errno values of a Linux host, as the handlers and the client report them
  const EPERM: nat := 1
  const ENOMEM: nat := 12
  const EINVAL: nat := 22
  const ETIMEDOUT: nat := 110
  const ECANCELED: nat := 125

  // ---------------------------------------------------------------------------
  // net_strerror

  const NET_ERRSTR_TABLE: seq<string> := [
    "Success",
    "Insufficient memory",
    "Socket/file descriptor error",
    "Invalid argument",
    "Connection closed",
    "Invalid packet (length)",
    "Nameservice failure",
    "Timeout",
    "TPL pack/unpack failure",
    "Generic network stack error."
  ]

  /** The message for a net_errno; every code from NET_ERR upwards shares the last entry. */
  function NetStrerror(err: nat): string
  {
    NET_ERRSTR_TABLE[if err < NET_ERR then err else NET_ERR]
  }

  /** The codes are contiguous, each code below NET_ERR has a message of its own,
      and all codes at or above NET_ERR read as the generic error. */
  lemma NetStrerrorTable(e1: nat, e2: nat)
    ensures |NET_ERRSTR_TABLE| == NET_ERR + 1
    ensures e1 >= NET_ERR ==> NetStrerror(e1) == "Generic network stack error."
    ensures (NetStrerror(e1) == NetStrerror(e2)) <==> (e1 == e2 || (e1 >= NET_ERR && e2 >= NET_ERR))
  {
    var t := NET_ERRSTR_TABLE;
    assert t[0][0] == 'S' && t[1][0] == 'I' && t[2][0] == 'S' && t[3][0] == 'I' && t[4][0] == 'C';
    assert t[5][0] == 'I' && t[6][0] == 'N' && t[7][0] == 'T' && t[8][0] == 'T' && t[9][0] == 'G';
    assert t[0][1] == 'u' && t[2][1] == 'o' && t[1][2] == 's' && t[3][2] == 'v';
    assert t[3][8] == 'a' && t[5][8] == 'p' && t[7][1] == 'i' && t[8][1] == 'P';
  }

  // ---------------------------------------------------------------------------
  // 32-bit unsigned arithmetic and byte order

  /** uint32_t subtraction, which wraps modulo 2^32. */
  function SubU32(a: nat, b: nat): (r: nat)
    requires a < U32_MOD && b < U32_MOD
    ensures r < U32_MOD
    ensures a >= b ==> r == a - b
    ensures a < b ==> r == a - b + U32_MOD
  {
    (a - b) % U32_MOD
  }

  /** htonl: the four bytes of a 32-bit value, most significant first. */
  function BeU32(n: nat): (b: seq<byte>)
    requires n < U32_MOD
    ensures |b| == 4
  {
    [n / 0x100_0000, (n / 0x1_0000) % 256, (n / 0x100) % 256, n % 256]
  }

  /** ntohl: the value of four bytes read most significant first. */
  function BeValue(b: seq<byte>): (n: nat)
    requires |b| == 4
    ensures n < U32_MOD
  {
    (b[0] as int) * 0x100_0000 + (b[1] as int) * 0x1_0000 + (b[2] as int) * 0x100 + b[3] as int
  }

  lemma BeU32RoundTrip(n: nat)
    requires n < U32_MOD
    ensures BeValue(BeU32(n)) == n
  {
    var b := BeU32(n);
    assert n == (n / 0x100_0000) * 0x100_0000 + ((n / 0x1_0000) % 256) * 0x1_0000
                + ((n / 0x100) % 256) * 0x100 + n % 256;
  }

  lemma BeValueRoundTrip(b: seq<byte>)
    requires |b| == 4
    ensures BeU32(BeValue(b)) == b
  {
    var n := BeValue(b);
    assert n / 0x100_0000 == b[0];
    assert n / 0x1_0000 == (b[0] as int) * 0x100 + b[1] as int;
    assert n / 0x100 == (b[0] as int) * 0x1_0000 + (b[1] as int) * 0x100 + b[2] as int;
  }

  /** The two directions together: big-endian encoding is a bijection onto four-byte strings. */
  lemma BeU32Injective(m: nat, n: nat)
    requires m < U32_MOD && n < U32_MOD
    ensures BeU32(m) == BeU32(n) <==> m == n
  {
    if BeU32(m) == BeU32(n) {
      BeU32RoundTrip(m);
      BeU32RoundTrip(n);
    }
  }

  // ---------------------------------------------------------------------------
  // C strings

  /** The characters strncmp and strnlen look at: those before the first NUL, at most n. */
  function CPrefix(s: string, n: nat): (r: string)
    ensures |r| <= n && |r| <= |s|
    ensures r == s[..|r|]
    ensures '\0' !in r
    ensures |r| < n && |r| < |s| ==> s[|r|] == '\0'
  {
    if n == 0 || s == [] || s[0] == '\0' then [] else [s[0]] + CPrefix(s[1..], n - 1)
  }

  /** strncmp(a, b, n) == 0 */
  predicate StrnEq(a: string, b: string, n: nat)
  {
    CPrefix(a, n) == CPrefix(b, n)
  }

  /** A C string, as these files use them, holds no NUL. */
  predicate IsCString(s: string)
  {
    '\0' !in s
  }

  lemma CPrefixOfCString(s: string, n: nat)
    requires IsCString(s)
    ensures CPrefix(s, n) == s[..if n < |s| then n else |s|]
  {
    var r := CPrefix(s, n);
    assert forall i :: 0 <= i < |s| ==> s[i] != '\0';
  }

  /** The C string a buffer holds: its characters before the first NUL. */
  function CStr(s: string): (r: string)
    ensures IsCString(r) && |r| <= |s| && r == s[..|r|]
    ensures |r| < |s| ==> s[|r|] == '\0'
  {
    CPrefix(s, |s|)
  }

  /** Index of the first occurrence of c in s (strchr / index), if any. */
  function Find(s: string, c: char): (r: Option<nat>)
    ensures r.None? <==> c !in s
    ensures r.Some? ==> r.value < |s| && s[r.value] == c && c !in s[..r.value]
  {
    if s == [] then None
    else if s[0] == c then Some(0)
    else match Find(s[1..], c)
      case None => None
      case Some(i) => assert s[1..][..i] == s[1..i + 1]; Some(i + 1)
  }

  /** Index of the last occurrence of c in s (rindex), if any. */
  function FindLast(s: string, c: char): (r: Option<nat>)
    ensures r.None? <==> c !in s
    ensures r.Some? ==> r.value < |s| && s[r.value] == c && c !in s[r.value + 1..]
  {
    if s == [] then None
    else if s[|s| - 1] == c then Some(|s| - 1)
    else
      var r := FindLast(s[..|s| - 1], c);
      assert r.Some? ==> s[..|s| - 1][r.value + 1..] + [s[|s| - 1]] == s[r.value + 1..];
      assert r.None? ==> s == s[..|s| - 1] + [s[|s| - 1]];
      r
  }

  /** The decimal digits of n, as printf's %u writes them. */
  function Decimal(n: nat): (s: string)
    ensures |s| > 0
    ensures forall i :: 0 <= i < |s| ==> '0' <= s[i] <= '9'
  {
    if n < 10 then [Digit(n)] else Decimal(n / 10) + [Digit(n % 10)]
  }

  function Digit(d: nat): (c: char)
    requires d < 10
    ensures '0' <= c <= '9'
  {
    ['0', '1', '2', '3', '4', '5', '6', '7', '8', '9'][d]
  }

  function DigitValue(c: char): nat
    requires '0' <= c <= '9'
  {
    c as int - '0' as int
  }

  /** Reading the digits back gives the number: Decimal is strtoul's inverse. */
  function ParseDecimal(s: string): nat
    requires forall i :: 0 <= i < |s| ==> '0' <= s[i] <= '9'
  {
    if s == [] then 0 else ParseDecimal(s[..|s| - 1]) * 10 + DigitValue(s[|s| - 1])
  }

  lemma {:induction false} DecimalRoundTrip(n: nat)
    ensures ParseDecimal(Decimal(n)) == n
  {
    var s := Decimal(n);
    var d := Digit(n % 10);
    assert DigitValue(d) == n % 10;
    if n >= 10 {
      DecimalRoundTrip(n / 10);
      assert s[..|s| - 1] == Decimal(n / 10);
    } else {
      assert s[..|s| - 1] == [];
    }
  }
}
