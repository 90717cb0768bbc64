# wrtctl in Dafny

wrtctl is a small remote-control protocol for routers. The daemon, wrtctld,
accepts TCP connections. It reads length-prefixed packets whose body is a
TPL-encoded `net_cmd` (a 16-bit id, a subsystem tag and a string value). It
hands each command to the module whose three-letter magic matches the tag,
and it queues the module's answer on the same connection. The client, wrtctl,
sends one command per line of a command file and waits for each answer
before it reads the next line. Stunnel can wrap both sides; wrtctl writes
the stunnel configuration file for them.

This project models the following parts of wrtctl and proves their properties:

- **Framing and the connection** (`NetCommon`, in `net_common.dfy`):
  - `create_packet`, `send_packet`, `flush_sendq`, `recv_packet`, `create_dd`;
  - the `net_cmd` envelope (`create_net_cmd_packet`, `unpack_net_cmd_packet`).
  - A connection (`struct d_data`) is the class `Conn`. Its fields are the
    shutdown flag, `dd_errno`, the send queue, the receive queue and the
    socket.
  - The socket is a `Link`. It holds a script of what recv(2) returns, a plan
    of how send(2) behaves, and the bytes the peer has received so far.
  - Each method is proved equal to a function on the connection's state.
- **Constants** (`WrtctlNet`, in `wrtctl_net.dfy`): the constants and error
  tables of `wrtctl-net.h` and `net-common.c`, big-endian lengths, and the C
  string helpers the code relies on.
- **The TPL image** (`Tpl`, in `tpl_codec.dfy`): a stand-in for the TPL
  encoding of `net_cmd`. It has an invertible layout and a proved round trip.
- **The client side** (`NetClient`, in `net_client.dfy`): `alloc_client`,
  `create_conn`, `wait_on_response` and `close_conn`.
- **Modules** (`Mod`, in `mod.dfy`):
  - `load_module`, `unload_module` and `mod_strerror`;
  - the module list, as the class `ModList`;
  - the dynamic loader, as a `Loader` that records, in order, each dlopen
    that succeeds, each dlsym, the calls of mod_init and mod_destroy, and
    each dlclose. dlerror and a dlopen that fails leave no record.
- **Module loading and dispatch** (`NetServer`, in `net_server.dfy`):
  - `load_modules` and `unload_modules`;
  - the built-in daemon module (`daemon_mod_handler`, ping, reboot);
  - `default_handler`, which dispatches commands to modules.
- **The server** (`NetServerLoop`, in `server_loop.dfy`):
  - `create_ns`, `accept_connection`, `default_server_loop` and
    `default_shutdown_dd`;
  - the server is the class `Server`, and each pass of the loop is a method
    proved against a function.
- **The uci module** (`UciCmds`, in `uci_cmds.dfy`): set, get, commit and
  revert, with `uci_find_section`, `uci_load_package` and
  `uci_fill_section`. libuci is a `Uci` value that gives the result of each
  library call.
- **The sys module** (`SysCmds`, in `sys_cmds.dfy`): the init-script command.
- **The client's command loop** (`WrtctlClient`, in `wrtctl_client.dfy`):
  `client_loop` of the command-line client.
- **Stunnel configuration** (`Stunnel`, in `stunnel.dfy`):
  - the pid-file path derived in `alloc_stunnel_ctx`;
  - `write_stunnel_conf`, for both copies of `stunnel.c`: the library's and
    the command-line tool's.
  - The two copies differ in one blank line of the template and in one
    diagnostic. The parameter `Copy` selects which copy is meant.

Where the code and its documented behaviour disagree:

- `accept_connection` failing with ECONNABORTED is described as something the
  server survives. In the code, any accept failure ends the server loop
  (`net-server.c:168-171`). The model follows the code.
- `default_handler` is described as stopping at the first module whose magic
  matches. The code keeps scanning the module list, although the first
  successful handler's turn has freed the subsystem it compares against.
  The model's `Dispatch` follows the description. `DispatchAsWritten` is the
  scan as written, with its undefined outcomes, and
  `DispatchAsWrittenAgrees` says exactly when it agrees with `Dispatch`.
  See "Left out" and "Findings".

Errno values are Linux's:

| name | value |
|---|---|
| EPERM | 1 |
| ENOMEM | 12 |
| EINVAL | 22 |
| ETIMEDOUT | 110 |
| ECANCELED | 125 |

libuci's codes are UCI_OK 0, UCI_ERR_MEM 1, UCI_ERR_INVAL 2 and
UCI_ERR_NOTFOUND 3.

## Model

| member | source | states |
|---|---|---|
| WrtctlNet.NetStrerrorTable | src/libwrtctl/net-common.c:231-246 | The table has one entry per net_errno. Every code from NET_ERR up maps to the generic message. Two codes get the same text exactly when they are equal or both are at least NET_ERR. |
| WrtctlNet.SubU32 | src/libwrtctl/net-common.c:192 | uint32_t subtraction: the plain difference when it is not negative, otherwise the difference plus 2^32. |
| WrtctlNet.BeU32RoundTrip | src/libwrtctl/net-common.c:179-180 | ntohl undoes htonl: a length written as four big-endian bytes reads back unchanged. |
| WrtctlNet.BeValueRoundTrip | src/libwrtctl/net-common.c:180 | Any four bytes are the big-endian image of the value they read as, so no header is lost. |
| WrtctlNet.BeU32Injective | src/libwrtctl/net-common.c:102 | Two lengths have the same wire header exactly when they are equal. |
| WrtctlNet.CPrefix | src/mods/sys-cmds.c:133 | What strnlen(s, n) measures: at most n characters and no NUL, a prefix of s, stopped by a NUL when shorter than both bounds. |
| WrtctlNet.CPrefixOfCString | src/mods/sys-cmds.c:132-135 | On a string without NUL, the strnlen prefix is the first min(n, len) characters. |
| WrtctlNet.Find | src/mods/uci-cmds.c:669 | index/strchr: None exactly when the character is absent; otherwise the position of its first occurrence. |
| WrtctlNet.FindLast | src/mods/uci-cmds.c:670 | rindex: None exactly when the character is absent; otherwise the position of its last occurrence. |
| WrtctlNet.DecimalRoundTrip | src/libwrtctl/net-server.c:380 | The "%lu" text of a number is all digits and reads back as that number. |
| Tpl.PackUnpack | src/libwrtctl/net-common.c:271-304 | tpl_load and tpl_unpack of an image made by tpl_pack and tpl_dump give back the same net_cmd: id, subsystem and value, NULLs included. |
| Tpl.PackDefined | src/libwrtctl/net-common.c:271-277 | The dump fails exactly when a string is too long for a 32-bit count. |
| NetCommon.Recv | src/libwrtctl/net-common.c:161-164 | One recv(2): a positive count is at most what was asked and consumes exactly that many bytes; a zero or negative return hands over nothing. |
| NetCommon.HeaderLoop | src/libwrtctl/net-common.c:158-164 | The length-field loop completes exactly when it gathered all the bytes it wanted. It only appends to what it had and never reads more than is pending. |
| NetCommon.BodyLoop | src/libwrtctl/net-common.c:195-198 | The body loop makes the same promises as the length-field loop. |
| NetCommon.ReadHeader | src/libwrtctl/net-common.c:158-164 | The header loop of recv_packet computes HeaderLoop on the recv script. |
| NetCommon.ReadBody | src/libwrtctl/net-common.c:195-198 | The body loop of recv_packet computes BodyLoop on the recv script. |
| NetCommon.TagOf | src/libwrtctl/net-common.c:214-215 | The stored cmd_id is four bytes: for a body of at least three bytes, its first three bytes, then a NUL. Shorter bodies are under "Left out". |
| NetCommon.RecvPacketSpec | src/libwrtctl/net-common.c:152-229 | recv_packet touches only recvq, dd_errno and the unread input. It never sends and never sets shutdown. A success consumes at least the four-byte length. |
| NetCommon.ReceiveFrame | src/libwrtctl/net-common.c:152-229 | A whole frame, however recv splits it into pieces, is queued at the tail of recvq as one packet: its length, its tag, its bytes. The rest of the input is left unread. |
| NetCommon.ReceiveCreatedFrame | src/libwrtctl/net-common.c:79-229 | What create_packet builds, once received, is queued as the very same packet: framing round-trips. |
| NetCommon.ReadAllPieces | src/libwrtctl/net-common.c:195-198 | The body loop reassembles bytes that arrive in any number of non-empty pieces. |
| NetCommon.ReceivedLength | src/libwrtctl/net-common.c:181-216 | A received packet's length is at most MAX_PACKET_SIZE. At least 4 means it is a well-formed frame. Below 4, p_len - 4 wraps and the packet carries 2^32 + p_len bytes: the four-byte memcpy of the length and the body loop both write past the p_len-byte buffer. |
| NetCommon.NoDataLooksLikeClose | src/libwrtctl/net-common.c:166-177 | Nothing to read (EAGAIN) and a closed peer give the same result: NET_ERR_CONNRESET in rc and dd_errno, with recvq unchanged. |
| NetCommon.ShortHeader | src/libwrtctl/net-common.c:166-177 | A length field that does not arrive whole is NET_ERR_CONNRESET and leaves recvq unchanged. |
| NetCommon.Oversize | src/libwrtctl/net-common.c:180-184 | A length above MAX_PACKET_SIZE is NET_ERR_PKTSZ. Only the header is consumed and nothing is queued. |
| NetCommon.DrainSpec | src/libwrtctl/net-client.c:86 | Draining recv_packet until it fails always ends in an error code. It only appends to recvq and never sends. |
| NetCommon.SendLoopDelivers | src/libwrtctl/net-common.c:136-148 | When every send(2) succeeds, the loop puts the rest of the frame on the wire, in order. |
| NetCommon.SendLoopCuts | src/libwrtctl/net-common.c:136-148 | When a send(2) fails, what went out is a strict prefix of the rest of the frame. |
| NetCommon.SendBytes | src/libwrtctl/net-common.c:136-148 | The while loop around send(2) computes SendLoop on the send plan. |
| NetCommon.FlushSpec | src/libwrtctl/net-common.c:112-124 | flush_sendq leaves recvq and the unread input alone. |
| NetCommon.FlushOutcome | src/libwrtctl/net-common.c:112-150 | On success the queue is empty and the wire has every queued frame appended in order. On failure: shutdown is set, dd_errno is NET_ERR_CONNRESET or NET_ERR, the failing packet is dropped, the later packets stay queued, and every earlier frame went out whole. |
| NetCommon.FlushDelivers | src/libwrtctl/net-common.c:112-124 | When flush_sendq returns NET_OK, the queue is empty, shutdown is unchanged, and the wire has every queued frame appended in order. |
| NetCommon.FlushFails | src/libwrtctl/net-common.c:112-150 | When flush_sendq fails: shutdown is set, dd_errno is the code, which is NET_ERR_CONNRESET or NET_ERR, the failing packet is dropped, the later packets stay queued, and every earlier frame went out whole. |
| NetCommon.StrnLen | src/libwrtctl/net-common.c:88 | strnlen: the count of leading non-NUL bytes, bounded by n and the buffer. |
| NetCommon.CreatePacket | src/libwrtctl/net-common.c:79-110 | The result is NET_PKTSZ exactly when header plus data exceeds MAX_PACKET_SIZE, otherwise NET_ERR_INVAL exactly when the tag is not three characters, otherwise NET_OK. A packet is: big-endian total length, the three-byte tag and a NUL, then the data. |
| NetCommon.CreatePacketAsWritten | src/libwrtctl/net-common.c:84 | As written, the length is computed in uint32_t: header plus data, modulo 2^32. |
| NetCommon.CreatePacketWraps | src/libwrtctl/net-common.c:84-86 | With 2^32 - 8 bytes of data, the size check passes. It then builds a packet whose length field says 0, which is not a frame. |
| NetCommon.CreatePacketAgrees | src/libwrtctl/net-common.c:79-110 | Whenever the length does not wrap, the as-written and the corrected create_packet agree. |
| NetCommon.NetMagicLength | src/libwrtctl/wrtctl-net.h:71-72 | "NET" passes create_packet's tag check: strnlen(NET_CMD_MAGIC, CMD_ID_LEN) is CMD_ID_LEN - 1. |
| NetCommon.NetCmdRoundTrip | src/libwrtctl/net-common.c:248-310 | The corrected create_net_cmd_packet, which passes the image's whole length, only fails with NET_ERR_TPL or NET_ERR_PKTSZ. Its packet carries the "NET" tag, and unpack_net_cmd_packet gives back the same command. |
| NetCommon.CreateNetCmdPacketAsWritten | src/libwrtctl/net-common.c:248-288 | As written, the size_t length of the dumped image becomes create_packet's uint32_t data_len. A failed dump gives NET_ERR_TPL. A packet that is built frames exactly the first (length modulo 2^32) bytes of the image. |
| NetCommon.CreateNetCmdPacketAgrees | src/libwrtctl/net-common.c:252-279 | For every image shorter than 2^32 - 8 bytes, nothing is cut and nothing wraps: the as-written and the corrected create_net_cmd_packet agree. |
| NetCommon.CreateNetCmdPacketTruncates | src/libwrtctl/net-common.c:252-279 | A NULL subsystem and a value of (2^32 - 1) / 3 characters give an image of 2^32 + 7 bytes. As written this returns NET_OK with a 15-byte packet that does not unpack. The corrected form returns NET_ERR_PKTSZ. |
| NetCommon.Conn.constructor | src/libwrtctl/net-common.c:18-34 | A new connection is open, with dd_errno 0, empty queues and the given socket. |
| NetCommon.Conn.AddPacket | src/libwrtctl/wrtctl-net.h:179-180 | nc_add_packet appends to sendq and changes nothing else. |
| NetCommon.Conn.RecvPacket | src/libwrtctl/net-common.c:152-229 | recv_packet on the object computes RecvPacketSpec. |
| NetCommon.Conn.Drain | src/libwrtctl/net-client.c:86 | Draining the object computes DrainSpec. |
| NetCommon.Conn.SendPacket | src/libwrtctl/net-common.c:126-150 | send_packet resets dd_errno. It delivers the frame, or sets shutdown and NET_ERR_CONNRESET or NET_ERR. |
| NetCommon.Conn.FlushSendq | src/libwrtctl/net-common.c:112-124 | flush_sendq on the object computes FlushSpec, and the queue still holds only frames. |
| NetCommon.CreateDd | src/libwrtctl/net-common.c:18-58 | Failure codes: ENOTCONN from getpeername gives NET_ERR_CONNRESET, another getpeername failure gives NET_ERR_MEM, and getnameinfo failing gives NET_ERR_NS. A connection exists exactly when the result is NET_OK. It then has the peer's host name and a fresh state. |
| NetClient.WaitOutcome | src/libwrtctl/net-client.c:63-100 | A flush failure is returned as is. A select failure gives NET_ERR_FD, and a timeout gives NET_ERR_TIMEOUT. NET_OK means the socket was readable and recvq is non-empty, with the old packets still at its head. After a flush, NET_OK also means every queued frame went out. |
| NetClient.QueuedPacketCounts | src/libwrtctl/net-client.c:86-95 | A reset while a packet is already queued counts as a response, NET_OK. |
| NetClient.OneFrameIsAResponse | src/libwrtctl/net-client.c:63-100 | One complete frame followed by EAGAIN is a response, and the frame is the packet the peer created. |
| NetClient.Client.constructor | src/libwrtctl/net-client.c:16-26 | alloc_client starts without a connection. |
| NetClient.Client.CreateConn | src/libwrtctl/net-client.c:28-61 | getaddrinfo and connect failures give NET_ERR, and socket failure gives NET_ERR_FD. Otherwise the result is create_dd's, and a connection exists exactly on NET_OK. |
| NetClient.Client.WaitOnResponse | src/libwrtctl/net-client.c:63-100 | wait_on_response on the object computes WaitSpec and keeps the connection well formed. |
| NetClient.CloseConn | src/libwrtctl/net-client.c:102-108 | close_conn drops the client's connection. |
| Mod.LoadOrder | src/libwrtctl/mod.c:11-69 | For the corrected load_module, which checks mod_version's lookup before reading it: mod_init is called before any other module symbol is looked up. A failed load closes what it opened, unless WRTCTL_NO_DLCLOSE is set. load_module succeeds exactly when the allocation succeeds, dlopen finds the library, mod_init exists and returns MOD_OK, and all five symbols resolve. |
| Mod.InitBeforeLookups | src/libwrtctl/mod.c:28-55 | No required symbol is looked up before mod_init has run. |
| Mod.LoadAsWritten | src/libwrtctl/mod.c:45-46 | As written, load_module crashes exactly when the allocation, dlopen and mod_init succeed, mod_name and mod_magic_str resolve, and mod_version is missing. Every other load is LoadSpec. |
| Mod.LoadVersionCrashes | src/libwrtctl/mod.c:28-69 | A library lacking only mod_version: as written the loader crashes after mod_init ran, with the library still open. Corrected, the load fails with DlFailure("mod_version") and dlclose is its last call. |
| Mod.LoadSucceeds | src/libwrtctl/mod.c:11-69 | A successful load makes exactly dlopen, the mod_init lookup and call, then one lookup per required symbol, and never dlclose. It succeeds exactly when the allocation and all of these succeed. |
| Mod.ModData.constructor | src/libwrtctl/net-server.c:82-94 | A module record holds the name, magic, version and library it is given. |
| Mod.Loader.constructor | src/libwrtctl/mod.c:22-23 | A loader starts with no dl* calls made. |
| Mod.ModList.constructor | src/libwrtctl/net-server.c:81 | STAILQ_INIT: the list is empty. |
| Mod.ModList.Append | src/libwrtctl/mod.c:57-58 | STAILQ_INSERT_TAIL: the module goes at the end and the list stays free of repeats. |
| Mod.Without | src/libwrtctl/mod.c:82-83 | The result holds only old members and is no longer than the list. No caller removes a module that is not in the list; for that case the model keeps the list, which STAILQ_REMOVE does not (see "Left out"). |
| Mod.WithoutRemoves | src/libwrtctl/mod.c:82-83 | On a list without repeats: the removed module is gone, every other one stays, the length drops by one, and there are still no repeats. |
| Mod.UnloadModule | src/libwrtctl/mod.c:71-85 | unload_module makes exactly its dl* calls: mod_destroy when it resolves, then dlclose unless turned off. It removes the module from the list it was given. |
| Mod.LoadModule | src/libwrtctl/mod.c:11-69 | The corrected load_module returns LoadSpec's error and makes its dl* calls. A module exists exactly on success, carries the library's name, magic and version, and is appended to the list. |
| Mod.UnloadModules | src/libwrtctl/net-server.c:328-335 | unload_modules empties the list. It unloads every module in list order. |
| Mod.UnloadAllAppend | src/libwrtctl/net-server.c:330-333 | Unloading a list with one more module adds exactly that module's unload calls at the end. |
| Mod.ModStrerrorTable | src/libwrtctl/mod.c:87-102 | Every code from MOD_ERR_MAX up maps to "Unknown error number". Two codes get the same text exactly when they are equal or both are out of range. |
| NetServer.SkipDelims | src/libwrtctl/net-server.c:310 | strtok skips the leading run of ' ' and ','. |
| NetServer.RunLength | src/libwrtctl/net-server.c:310 | A token runs up to the first delimiter. |
| NetServer.NextToken | src/libwrtctl/net-server.c:310-322 | strtok yields a non-empty token without delimiters and shrinks the input. It yields nothing exactly when only delimiters remain. |
| NetServer.TokensAreTokens | src/libwrtctl/net-server.c:310-322 | Every token strtok yields is non-empty and free of delimiters. |
| NetServer.TokensOfJoin | src/libwrtctl/net-server.c:310-322 | Module names joined with "," split back into the same names. |
| NetServer.LoadTokensOutcome | src/libwrtctl/net-server.c:300-325 | load_modules succeeds exactly when every token's path fits MAXPATHLEN and its module loads. The modules appended are exactly those that loaded, in token order; a failure does not stop the loop. |
| NetServer.LoadToken | src/libwrtctl/net-server.c:312-321 | One token: a path that does not fit is a failure with no dl* call. Otherwise load_module runs on "<dir>/<token>.so". |
| NetServer.LoadModules | src/libwrtctl/net-server.c:300-325 | The result is MOD_OK exactly when every token loaded, otherwise MOD_ERR_LOAD. The dl* calls are LoadTokens'. The list keeps its old modules and gains the loaded ones, in order. |
| NetServer.DaemonOutcome | src/libwrtctl/net-server.c:369-430 | The reply code always fits uint16_t. |
| NetServer.CreatedIsReply | src/libwrtctl/net-common.c:248-287 | create_net_cmd_packet gives a packet exactly on NET_OK, and that packet is a frame. |
| NetServer.DaemonReply | src/libwrtctl/net-server.c:338-430 | The reply reads back as the outcome's code and text under "DAE". The server shuts down exactly on SHUTDOWN with the shutdown program executable and fork succeeding. Ping answers the time modulo 2^32 in decimal with code 0. Any other id is NET_ERR_INVAL, "Unknown command". |
| NetServer.FirstMatch | src/libwrtctl/net-server.c:255-257 | The chosen module is the first whose magic matches the subsystem in three bytes, and no module matches when none is chosen. |
| NetServer.Dispatch | src/libwrtctl/net-server.c:243-290 | The corrected scan, which stops at the first match and lets a command without a subsystem match nothing: one command queues at most one answer, and it is a frame. |
| NetServer.DispatchAsWritten | src/libwrtctl/net-server.c:243-280 | As written, the scan crashes exactly when the command has no subsystem and the module list is not empty. It reads freed memory when the first matching module's handler returns MOD_OK and another module follows, since the subsystem was freed at the end of that handler's turn. |
| NetServer.NullSubsystemCrashes | src/libwrtctl/net-server.c:247-256 | A peer can send a command with a NULL subsystem: its packet is created and unpacks. As written the scan then crashes; the corrected Dispatch answers nothing. |
| NetServer.DispatchAsWrittenAgrees | src/libwrtctl/net-server.c:255-277 | With a subsystem present, the scan as written reads freed memory exactly when the first match's handler succeeds and the match is not the last module. In every other case it gives what Dispatch gives. |
| NetServer.DaemonThenModuleReadsFreed | src/libwrtctl/net-server.c:255-277 | A "DAE" command the daemon answers with MOD_OK, while any module is loaded behind the built-in one, reads freed memory as written. |
| NetServer.DispatchFirstIsAll | src/libwrtctl/net-server.c:255-277 | When the magics differ pairwise, stopping at the first match is the same as scanning the whole list. |
| NetServer.NoneMatch | src/libwrtctl/net-server.c:255-280 | A subsystem no module claims queues nothing and stops nothing. |
| NetServer.DispatchCmd | src/libwrtctl/net-server.c:255-280 | The module scan computes Dispatch. |
| NetServer.HandleSpec | src/libwrtctl/net-server.c:236-290 | default_handler touches only the two queues. It leaves the socket, shutdown and dd_errno alone, and keeps sendq made of frames. |
| NetServer.HandleConsumes | src/libwrtctl/net-server.c:243-288 | default_handler removes a prefix of recvq. What it leaves starts at a "NET" packet that does not unpack, where the loop broke. |
| NetServer.HandleAppends | src/libwrtctl/net-server.c:271 | Answers are only appended to sendq; what was queued stays at its head. |
| NetServer.HandleDropsForeign | src/libwrtctl/net-server.c:281-286 | Packets that are not "NET" packets are dropped without an answer. |
| NetServer.HandleCreated | src/libwrtctl/net-server.c:243-288 | A queued command packet is consumed, and the module's answer is queued. |
| NetServer.HandleNullSubsystem | src/libwrtctl/net-server.c:243-288 | In the corrected handler, a command packet without a subsystem is consumed with nothing queued and no shutdown. |
| NetServer.DaemonFirst | src/libwrtctl/net-server.c:82-94 | With the built-in daemon module first in the list, a "DAE" command is answered by daemon_mod_handler. |
| NetServerLoop.DrainDecide | src/libwrtctl/net-server.c:176-187 | After draining, a connection survives only on a reset while it still has queued packets. Any other outcome marks it for shutdown. |
| NetServerLoop.DrainConn | src/libwrtctl/net-server.c:175-188 | The drain of a readable connection computes DrainDecide. An unreadable one is untouched. |
| NetServerLoop.FlushConn | src/libwrtctl/net-server.c:211-216 | A connection selected for writing is flushed, and a failed flush marks it for shutdown. The other connections are untouched. |
| NetServerLoop.FirstPassAccounts | src/libwrtctl/net-server.c:174-201 | The first pass closes connections, keeps the others in order, and loses none. |
| NetServerLoop.FlushPassKeepsFds | src/libwrtctl/net-server.c:210-218 | The flush pass keeps every connection, in order. |
| NetServerLoop.ReapPassKeeps | src/libwrtctl/net-server.c:220-223 | After the reap pass, no surviving connection is marked for shutdown. |
| NetServerLoop.ReapPassAccounts | src/libwrtctl/net-server.c:220-223 | Reaping closes the marked connections, keeps the others in order, and loses none. |
| NetServerLoop.AcceptConserves | src/libwrtctl/net-server.c:117-138 | accept_connection adds at most the accepted connection and loses none. |
| NetServerLoop.TurnFramed | src/libwrtctl/net-server.c:147-224 | After a turn that does not break out of the loop, every connection's queue holds only frames and none is marked for shutdown. |
| NetServerLoop.TurnAccounts | src/libwrtctl/net-server.c:147-224 | Every connection present after accept is, at the end of the turn, either still open or closed exactly once. |
| NetServerLoop.ServeFinishes | src/libwrtctl/net-server.c:226-233 | When the loop ends, dd_list is empty and the listening socket was the last one closed. |
| NetServerLoop.ServeRunning | src/libwrtctl/net-server.c:140-224 | While the loop has not ended, rc is NET_OK, and a server that is shutting down has not changed. |
| NetServerLoop.ServeCloses | src/libwrtctl/net-server.c:140-234 | When the loop ends, every connection is closed and the listening socket is closed last. While it has not ended, rc is NET_OK. |
| NetServerLoop.Server.constructor | src/libwrtctl/net-server.c:31-35 | A new server is not shutting down and has no connections. |
| NetServerLoop.Server.AcceptConnection | src/libwrtctl/net-server.c:117-138 | On ECONNABORTED the result is NET_ERR_CONNRESET, on another accept failure NET_ERR. Otherwise it is create_dd's result, with the socket closed on failure and the connection appended on success. |
| NetServerLoop.Server.Admit | src/libwrtctl/net-server.c:136 | STAILQ_INSERT_TAIL on dd_list appends the connection. |
| NetServerLoop.Server.ShutdownDd | src/libwrtctl/net-server.c:293-298 | default_shutdown_dd closes the socket and removes the connection from dd_list. |
| NetServerLoop.Server.DefaultHandler | src/libwrtctl/net-server.c:236-290 | default_handler always returns NET_OK. It computes HandleSpec, and the server shuts down when the daemon module asks. |
| NetServerLoop.Server.VisitConn | src/libwrtctl/net-server.c:175-200 | One connection of the first pass: drain it if readable, close it if it is marked, otherwise handle it and select it for writing. |
| NetServerLoop.Server.SettleConn | src/libwrtctl/net-server.c:189-200 | A drained connection marked for shutdown is closed and removed; any other is handled, kept in order and selected for writing. |
| NetServerLoop.Server.WalkOne | src/libwrtctl/net-server.c:174-201 | One step of the first pass visits the next connection, as FirstPass does with Visit. |
| NetServerLoop.Server.WalkFrom | src/libwrtctl/net-server.c:174-201 | The loop of the first pass visits every connection of dd_list in order, keeping FirstPass's account. |
| NetServerLoop.Server.FirstPassRun | src/libwrtctl/net-server.c:174-201 | The first pass over dd_list computes FirstPass on the connections' states. |
| NetServerLoop.Server.FlushRun | src/libwrtctl/net-server.c:210-218 | The flush pass computes FlushPass. |
| NetServerLoop.Server.Reap | src/libwrtctl/net-server.c:220-223 | The reap pass computes ReapPass. |
| NetServerLoop.Server.ReapFrom | src/libwrtctl/net-server.c:220-223 | The loop of the reap pass visits every connection of dd_list in order, keeping ReapPass's account, and leaves shutdown alone. |
| NetServerLoop.Server.Cleanup | src/libwrtctl/net-server.c:226-233 | On exit every connection is closed in list order, then the listening socket. |
| NetServerLoop.Server.Turn | src/libwrtctl/net-server.c:147-224 | One turn computes TurnSpec: select, accept, the three passes, and a break on a select or accept failure. |
| NetServerLoop.Server.Serve | src/libwrtctl/net-server.c:140-234 | default_server_loop over a sequence of turns computes ServeSpec. |
| NetServerLoop.UnloadRegistry | src/libwrtctl/net-server.c:106-111 | Unloading a list of the daemon module and loaded modules makes only the loaded modules' calls, in order. The daemon module has no library. |
| NetServerLoop.Register | src/libwrtctl/net-server.c:80-102 | The daemon module is registered first. The listed modules follow, and a load failure unloads everything again. |
| NetServerLoop.LoadAfter | src/libwrtctl/net-server.c:96-111 | load_modules runs after the daemon module. A failure unloads all modules, leaving the list empty. |
| NetServerLoop.Unwind | src/libwrtctl/net-server.c:106-111 | unload_modules on a registry that failed to load empties the list and makes only the loaded modules' dl* calls, in order. |
| NetServerLoop.CreateNs | src/libwrtctl/net-server.c:20-115 | A socket setup failure gives NET_ERR_FD and a load failure gives NET_ERR, with no server. On NET_OK the server is fresh: no connections, not shutting down, the shutdown path from WRTCTL_SYS_SHUTDOWN_PATH or /sbin/shutdown, and the daemon module first. |
| UciCmds.FirstAnonWith | src/mods/uci-cmds.c:605-622 | The chosen section is the first anonymous section having the option, and there is none when nothing is chosen. |
| UciCmds.SectionForPicks | src/mods/uci-cmds.c:590-627 | A missing package or no anonymous section with the option is UCI_ERR_NOTFOUND. A found name belongs to the first anonymous section with the option. |
| UciCmds.HasOption | src/mods/uci-cmds.c:609-619 | The option loop finds the option exactly when the section has it. |
| UciCmds.FindSection | src/mods/uci-cmds.c:590-627 | uci_find_section computes SectionFor: UCI_OK exactly when it gives a name. |
| UciCmds.FindsDiffer | src/mods/uci-cmds.c:669-672 | The path passes the separator check exactly when index and rindex find two different dots. |
| UciCmds.FillInvalid | src/mods/uci-cmds.c:669-673 | uci_fill_section refuses with UCI_ERR_INVAL exactly when the path has fewer than two dots. |
| UciCmds.FillRewrites | src/mods/uci-cmds.c:674-713 | "pkg..opt" becomes "pkg.<section>.opt" with the found section, or fails with uci_find_section's code. |
| UciCmds.FillOnlyRewrites | src/mods/uci-cmds.c:658-715 | uci_fill_section only ever rewrites paths of the form "pkg..opt". |
| UciCmds.FillIdempotent | src/mods/uci-cmds.c:658-715 | When section names are non-empty, filling a filled path changes nothing. |
| UciCmds.FillSection | src/mods/uci-cmds.c:658-715 | uci_fill_section computes FillSpec. |
| UciCmds.EqToken | src/mods/uci-cmds.c:227-228 | strtok(pso, "=") finds nothing exactly when the value is all '='. Otherwise it finds a non-empty, '='-free run, which is the text up to the first '=' when the value does not start with '='. |
| UciCmds.SetArgsRefuses | src/mods/uci-cmds.c:209-235 | set refuses a value that has no '=' or is all '='. |
| UciCmds.SetArgsRoundTrip | src/mods/uci-cmds.c:227-237 | For "key=value" not starting with '=', key and value are split at the first '=' and join back into the input. |
| UciCmds.SetArgsLeadingEquals | src/mods/uci-cmds.c:227-237 | "=k=v" is read as key "k" and value "=v": the strdup skips strlen(pso)+1 characters from the start, not from the token. |
| UciCmds.SetOutcome | src/mods/uci-cmds.c:202-279 | For the corrected uci_cmd_set, which frees the copy strdup made: set succeeds exactly when: the value is "key=value", the section fills in, the lookup does not fail, and uci_set and uci_save return UCI_OK. Success has no message. A missing, empty or '='-less value is UCI_ERR_INVAL with the usage text. |
| UciCmds.SetAsWritten | src/mods/uci-cmds.c:209-276 | As written, uci_cmd_set frees a pointer into its copy exactly when the value starts with '=' and still holds a key. Every other command gets SetSpec's reply. |
| UciCmds.SetLeadingEqualsFrees | src/mods/uci-cmds.c:227-276 | "=k=v" is undefined as written. Corrected, it parses as key "k" and value "=v". |
| UciCmds.CmdSet | src/mods/uci-cmds.c:202-279 | uci_cmd_set computes the corrected SetSpec, which frees the copy strdup made. |
| UciCmds.GetOutcome | src/mods/uci-cmds.c:281-391 | get succeeds exactly when the section fills in and the lookup is complete; success always has a text. A successful reply reads back as the filled path and the option's value. An incomplete lookup is UCI_ERR_NOTFOUND with "<path> not found". |
| UciCmds.JoinList | src/mods/uci-cmds.c:340-366 | The list loop prints the items in order, as Joined says. |
| UciCmds.JoinedConcat | src/mods/uci-cmds.c:361-364 | List items are printed side by side with nothing between them, because need_sep is never set. |
| UciCmds.CmdGet | src/mods/uci-cmds.c:281-391 | uci_cmd_get computes GetSpec. |
| UciCmds.PackageOf | src/mods/uci-cmds.c:400-402 | The package name is the text before the first '.', itself without a dot. |
| UciCmds.CommitEachLastFailure | src/mods/uci-cmds.c:429-441 | The commit-all loop reports the code of the last failure, or UCI_OK when nothing failed. |
| UciCmds.CommitOrderAsWritten | src/mods/uci-cmds.c:429 | As written, the loop visits as many names as the list holds. |
| UciCmds.CommitSkipsLast | src/mods/uci-cmds.c:429 | As written, the first config is committed twice and the last one never. |
| UciCmds.CommitAllMissesFailure | src/mods/uci-cmds.c:424-443 | As written, with "network" committing and "wireless" failing, commit-all reports success. The corrected loop reports the failure. |
| UciCmds.CommitAllOutcome | src/mods/uci-cmds.c:417-444 | Corrected commit-all: UCI_OK when every config commits, otherwise the last failure's code with the "uci_commit_all" message. |
| UciCmds.CmdCommit | src/mods/uci-cmds.c:393-450 | uci_cmd_commit computes the corrected CommitSpec: the named package, or every config once, in list order. The loop as written is under "Findings". |
| UciCmds.RevertEachLastFailure | src/mods/uci-cmds.c:500-511 | The revert-all loop reports the code of the last failure, or UCI_OK when nothing failed. |
| UciCmds.RevertAllOutcome | src/mods/uci-cmds.c:483-515 | revert-all: UCI_OK when every config reverts, otherwise the last failure's code with the "uci_revert_all" message. |
| UciCmds.CmdRevert | src/mods/uci-cmds.c:452-523 | uci_cmd_revert computes RevertSpec. |
| UciCmds.HandlerReply | src/mods/uci-cmds.c:171-200 | The answer reads back as the code cast to uint16_t, "UCI" and the message. An unknown id answers 0 with no value. |
| UciCmds.ModHandler | src/mods/uci-cmds.c:171-200 | mod_handler builds the reply packet of HandlerSpec, with the corrected commit-all and set. |
| SysCmds.Basename | src/mods/sys-cmds.c:119 | basename is the '/'-free tail after the last '/'. |
| SysCmds.CommandIs | src/mods/sys-cmds.c:132-135 | strnlen(c, len+1) == len together with strncmp(c, w, len) == 0 holds exactly when the C string c is w. |
| SysCmds.IsValidCommand | src/mods/sys-cmds.c:131-139 | The loop accepts a command exactly when it is "restart", "stop" or "start". |
| SysCmds.ExitMessageOverwritten | src/mods/sys-cmds.c:168-174 | As written, a failing script is ECANCELED with the same text as a success. As corrected, its text is "<daemon> exited with failure." |
| SysCmds.InitdOutcome | src/mods/sys-cmds.c:98-182 | initd succeeds exactly when: the value is "<daemon> <command>" with a valid command, the script is executable, fork and waitpid succeed, and the script exits with success. A non-executable script is EPERM, checked before the command. The script path is the init directory, '/', and a '/'-free name, which may be empty, "." or ".." (GNU basename of the daemon). |
| SysCmds.CmdInitd | src/mods/sys-cmds.c:98-145 | sys_cmd_initd computes the corrected InitdSpec, in which a failing script keeps its failure text. |
| SysCmds.RunScript | src/mods/sys-cmds.c:147-174 | The fork and waitpid part computes the corrected RunSpec, in which a failing script keeps its failure text. |
| SysCmds.HandlerReply | src/mods/sys-cmds.c:70-96 | The answer reads back as the code cast to uint16_t, "SYS" and the text. An unknown id is NET_ERR_INVAL, "Unknown command". |
| SysCmds.ModHandler | src/mods/sys-cmds.c:70-96 | mod_handler builds the reply packet of HandlerSpec, with the corrected initd failure text. |
| WrtctlClient.LineOf | src/bin/wrtctl.c:41-42 | The trailing newline is cut, giving a C string no longer than the line. |
| WrtctlClient.Pad40 | src/bin/wrtctl.c:80 | "%-40s" pads with spaces to at least 40 characters and keeps the text. |
| WrtctlClient.LineStep | src/bin/wrtctl.c:33-92 | A line that goes on leaves the send queue empty. |
| WrtctlClient.StopIsFailure | src/bin/wrtctl.c:35-77 | Every way one line stops the loop has a non-zero code. |
| WrtctlClient.LineOutcome | src/bin/wrtctl.c:35-57 | A line of MAX_LINE characters, or one line_to_packet refuses, is EINVAL before anything is sent. An answered line put exactly the earlier queue and its own packet on the wire. |
| WrtctlClient.ClientSucceeds | src/bin/wrtctl.c:33-107 | client_loop returns 0 exactly when every line was answered without error and the file was read to its end. |
| WrtctlClient.ClientSendsInOrder | src/bin/wrtctl.c:44-57 | When every line is answered, the wire carries exactly the lines' packets, in file order. |
| WrtctlClient.LineTurn | src/bin/wrtctl.c:33-92 | One pass of the loop body computes LineStep. |
| WrtctlClient.ClientLoop | src/bin/wrtctl.c:20-108 | client_loop computes ClientSpec: its code, what it prints, and the connection afterwards. |
| Stunnel.PidPathRoundTrip | src/libwrtctl/stunnel.c:90-97 | The pid path is "/tmp/stunnel.pid-" plus the mkstemp suffix. It differs from the conf path, and the conf path can be recovered from it. |
| Stunnel.PidPathInjective | src/bin/stunnel.c:60-67 | Different temporary names give different pid paths. |
| Stunnel.StunnelCtx.constructor | src/libwrtctl/stunnel.c:73-103 | A context has the conf path, the matching pid path, an open empty file and pid 0. |
| Stunnel.AllocStunnelCtx | src/libwrtctl/stunnel.c:64-114 | A mkstemp or fdopen failure returns its errno and no context. Success returns 0 and a context for the temporary name. |
| Stunnel.StunnelCtx.WriteConf | src/libwrtctl/stunnel.c:131-209 | A refusal returns its code and diagnostic and changes nothing. Otherwise it returns 0, appends the rendered configuration and closes the file. |
| Stunnel.Refusal | src/libwrtctl/stunnel.c:144-162 | The checks pass exactly when: a client has a hostname, a key path is given, the file is open, and the key is readable. |
| Stunnel.WriteChecks | src/bin/stunnel.c:114-132 | The configuration is written exactly when the checks pass. A client without a hostname is EINVAL first, then a missing key is EINVAL. EPERM means only the key is unreadable. |
| Stunnel.ConfOfRole | src/libwrtctl/stunnel.c:164-201 | Field values by role. Client: accepts on localhost:wrtctl_port (default 2451) and connects to hostname:wrtctld_port (default 2452) under [wrtctl]. Server: accepts on wrtctld_port (default 2452) and connects to localhost:port (default 2450) under [wrtctld]. Both: the key path in cert, key and CAfile, and the pid path. |
| Stunnel.ConfRoundTrip | src/bin/stunnel.c:16-29 | The template's text reads back field by field into the values put in, for either copy. |
| Stunnel.WrittenConf | src/libwrtctl/stunnel.c:131-209 | What write_stunnel_conf writes reads back as the configuration of its role. |

## Left out

- **System calls.** recv(2), send(2), select(2), accept(2), getpeername(2),
  getnameinfo(3), getaddrinfo(3), socket(2), connect(2), bind(2), listen(2)
  and setsockopt(2) are outcomes given to the model, not calls it makes. The
  same holds for access(2), fork(2), execve(2), waitpid(2), time(2),
  getenv(3), mkstemp(3) and fdopen(3). Errno texts (strerror) are strings
  that come with those outcomes.
- **TPL.** The TPL library is not part of this model. `Tpl` replaces its
  image with an invertible layout of its own. The properties proved are the
  round trip and when packing fails, not TPL's byte format.
- CreateNetCmdPacket (`NetCommon.CreateNetCmdPacket`) and `NetCommon.NetCmdRoundTrip`
  state the corrected call, which passes the image's whole length. As
  written (net-common.c:252, 279), an image of 2^32 bytes or more is cut to
  its length modulo 2^32 and sent with NET_OK. That behaviour is
  `NetCommon.CreateNetCmdPacketAsWritten`, and the round trip it breaks is
  `NetCommon.CreateNetCmdPacketTruncates`. Because the image layout is this
  model's own, the exact command length that triggers it differs from TPL's.
- **Dynamic loading.** dlopen(3), dlsym(3), dlerror(3) and dlclose(3) are a
  `Loader` that says which libraries exist and which symbols they export.
  dlerror's text is replaced by the failing path or symbol. The loader's
  trace leaves out the dlerror calls and a dlopen that fails
  (`mod.c:22-26`): a load whose dlopen fails records nothing.
- **libuci.** libuci is a `Uci` value that gives each library call's result.
  uci_get_errorstr's text is only named by its prefix.
- **The uci lookup.** uci_lookup_ptr's replacing of separators with NUL, and
  the restoring of them afterwards, is not modelled: the path is kept whole.
- **Allocation failures.** malloc, strdup and asprintf failures are not
  modelled, except where they decide a code the model states. These are:
  - `load_module`'s struct allocation (`allocOk`);
  - `create_dd`'s getpeername path.

  The asprintf failures inside write_stunnel_conf and alloc_stunnel_ctx are
  not modelled. The ignored strdup failure in uci_find_section is not
  modelled either.
- **Memory, handles and logging.** Freeing memory, the fd and temporary file
  leaked when fdopen fails, and logging to stderr or syslog are not modelled.
  The one exception is write_stunnel_conf's diagnostics, which are modelled.
- **line_to_packet and getline.** line_to_packet and the reading of the
  command file are inputs to `ClientLoop`. The file is a sequence of lines
  plus whether reading stopped on an error rather than at the end.
- **Module internals.** The uci and sys modules' mod_init and mod_destroy
  are not modelled. Only the sys module's choice of init directory is
  (`SysCmds.InitdDirOf`). The uci_list_packages, uci_list_package_contents
  and uci_list_section debug dumps are not modelled.
- **The rest of stunnel.** fork_stunnel, kill_stunnel, the signal handlers,
  free_stunnel_ctx and the rest of both stunnel.c files are not modelled.
- **The rest of wrtctl.c.** main and the option parsing are not modelled.
- **free_dd, free_ns and init_tpl_hook** are not modelled: they only release
  memory or install a logging hook.
- Dispatch (`NetServer.Dispatch`) stops at the first module whose magic
  matches. default_handler as written keeps scanning the module list after a
  handler has returned MOD_OK and the command's strings have been freed.
  Every later module's comparison then reads the freed subsystem, and a
  second match would call a handler with freed strings and free them again.
  `DispatchAsWritten` models the first freed read as an undefined outcome;
  `DispatchAll` is the scan the loop's shape describes if the strings stayed
  alive, and `DispatchFirstIsAll` shows it agrees with Dispatch whenever
  magics are distinct. Distinct magics are an assumption of that lemma: nothing in
  create_ns or load_module compares a module's magic with the others'.
  Dispatch also lets a command without a subsystem match nothing, where the
  code crashes (see "Findings"); `HandleSpec` and the server use this
  corrected scan.
- LoadSpec (`Mod.LoadSpec`), and with it `Mod.LoadOrder`, `Mod.LoadModule`
  and load_modules, report a missing mod_version like any other missing
  symbol. As written, load_module crashes there (see "Findings").
- Without (`Mod.Without`) returns the list unchanged when the module is not
  in it. STAILQ_REMOVE would run off the end of the list in that case; no
  caller removes a module that is not in its list.
- SetSpec (`UciCmds.SetSpec`), and with it `UciCmds.SetOutcome`,
  `UciCmds.CmdSet` and `UciCmds.ModHandler`, frees the copy strdup made.
  As written, a value that starts with '=' and still holds a key makes
  uci_cmd_set free strtok's pointer into that copy (see "Findings").
- SetArgsLeadingEquals (`UciCmds.SetArgsLeadingEquals`) states how the
  code splits a value with a leading '='. As written, uci_cmd_set then
  frees an interior pointer (`SetAsWritten`); the split is kept for the
  corrected SetSpec, with no further correction of the offset.
- CmdCommit (`UciCmds.CmdCommit`) and `UciCmds.ModHandler` compute the
  corrected commit-all, which commits every config once. The loop as
  written is `CommitOrderAsWritten` (see "Findings").
- ModHandler (`UciCmds.ModHandler` and `SysCmds.ModHandler`) answers with
  the corrected set, commit-all and initd behaviour described on the
  neighbouring lines.
- CmdInitd (`SysCmds.CmdInitd`) and RunScript (`SysCmds.RunScript`) reply
  "<daemon> exited with failure." for a failing script. As written, the
  success text overwrites it (see "Findings").
- RunScript (`SysCmds.RunScript`): see the line above.
- RecvPacketSpec (`NetCommon.RecvPacketSpec`), `NetCommon.ReceiveFrame` and
  `NetCommon.ReceiveCreatedFrame` keep the wire's big-endian length bytes
  at the head of the stored data. recv_packet copies p_len after ntohl, in
  host order. The stored bytes match only on a big-endian host; on a
  little-endian host those four bytes are reversed. The length, the tag and
  the rest of the data are the same on both.
- ReceiveFrame (`NetCommon.ReceiveFrame`): see the line above.
- ReceiveCreatedFrame (`NetCommon.ReceiveCreatedFrame`): the "very same
  packet" holds on a big-endian host; see the RecvPacketSpec line.
- TagOf (`NetCommon.TagOf`) pads a body shorter than three bytes with zero
  bytes. For a length of 4 to 7, recv_packet's four-byte memcpy of cmd_id
  reads past the end of the buffer; the model does not say what it reads.
- CreatePacket (`NetCommon.CreatePacket`) gives the packet a cmdId equal to
  the tag it writes into the frame. create_packet never fills struct
  packet's cmd_id, which stays uninitialised; only the frame bytes and the
  length are what the code sets.
- UnpackNetCmdPacket (`NetCommon.UnpackNetCmdPacket`) returns None for a
  packet shorter than its eight-byte header. As written,
  `p->len - sizeof(uint32_t) - CMD_ID_LEN` is a size_t that wraps, and
  tpl_load is handed a huge length; what TPL does with it is not modelled.
- create_ns: its error path (`net-server.c:104-108`) is not modelled
  beyond its result: every socket setup failure is one outcome. For the
  getaddrinfo failure it reads listen_fd before it is set. For the
  getaddrinfo, socket, setsockopt, bind and listen failures and the
  shutdown-path strdup failure, it calls unload_modules on a mod_list that
  STAILQ_INIT has not yet initialised.
- JoinList (`UciCmds.JoinList`) prints list items with no separator, as
  written (need_sep is never set). No corrected version is given.
- Basename (`SysCmds.Basename`) follows GNU basename on the daemon name. The
  POSIX variant, which strips trailing slashes, is not modelled.
- ReceivedLength (`NetCommon.ReceivedLength`) states what happens for a
  length below 4. recv_packet then copies four bytes into a buffer of fewer
  bytes and receives into it past its end: an out-of-bounds write. The
  model reads the bytes the script offers; it does not model the memory
  corruption.
- Turn (`NetServerLoop.Server.Turn`) ends the loop on any accept failure,
  ECONNABORTED included, as the code does.
- **Strings.** Strings are the contents of C strings. Temporary-file
  suffixes are taken to be alphanumeric, as mkstemp makes them.
- **Integer widths.** Integers are unbounded. The uint16_t casts of reply
  codes and the uint32_t arithmetic of create_packet and recv_packet are
  written out, and so is the size_t-to-uint32_t conversion of the image
  length at net-common.c:279 (CreateNetCmdPacketAsWritten). The uint32_t time value of ping is written out as a modulo.

## Findings

| source | as written | input that shows it | evidently intended | confidence | as-written member | corrected member |
|---|---|---|---|---|---|---|
| src/mods/uci-cmds.c:429 | `for (i=0,pn=configs[i]; configs[i]; pn=configs[i],i++)` sets pn before incrementing i. The first config is committed twice and the last never. | configs ["network", "wireless"], with "wireless" failing to commit: commit-all reports success | commit every config once, in order, and report the last failure | not executed | UciCmds.CommitAllMissesFailure | UciCmds.CommitAllOutcome |
| src/libwrtctl/net-common.c:252,279 | `size_t dl` from tpl_dump is passed as create_packet's `uint32_t data_len`, so only its low 32 bits count | an image of 2^32 + 7 bytes (in this model's image layout: a NULL subsystem and a value of 1431655765 characters): NET_OK with a 15-byte packet holding the first 7 bytes of the image, which does not unpack | refuse an image too large for a packet with NET_ERR_PKTSZ | not executed | NetCommon.CreateNetCmdPacketTruncates | NetCommon.NetCmdRoundTrip |
| src/libwrtctl/net-common.c:84 | `p_len = sizeof(uint32_t) + CMD_ID_LEN + data_len` is computed in uint32_t and can wrap below MAX_PACKET_SIZE | data_len = 2^32 - 8: the size check passes and the length field says 0 | refuse every payload whose frame would exceed MAX_PACKET_SIZE | not executed | NetCommon.CreatePacketWraps | NetCommon.CreatePacket |
| src/mods/sys-cmds.c:169-174 | after a failing script sets ECANCELED and its message, the success message is written over it | an init script that exits with status 1: the reply says "<daemon> <command> success." with code ECANCELED | reply ECANCELED with "<daemon> exited with failure." | not executed | SysCmds.ExitMessageOverwritten | SysCmds.InitdOutcome |
| src/libwrtctl/net-server.c:255-256 | `strncmp(nc.subsystem, md->mod_magic_str, MOD_MAGIC_LEN-1)` runs with no check that the subsystem is present, and the built-in module is always in the list | a NET packet whose image carries id 0, a NULL subsystem and a NULL value: the daemon dereferences NULL | a command without a subsystem matches no module and is dropped | not executed | NetServer.NullSubsystemCrashes | NetServer.HandleNullSubsystem |
| src/libwrtctl/net-server.c:255-277 | after a handler returns MOD_OK, `nc.subsystem` and `nc.value` are freed inside the module loop, and the loop goes on comparing the next module's magic with the freed subsystem | a "DAE" ping answered by the daemon while any module is loaded behind the built-in one: the next strncmp reads freed memory | stop the scan at the first match, or free the strings after the loop | not executed | NetServer.DaemonThenModuleReadsFreed | NetServer.DaemonFirst |
| src/libwrtctl/mod.c:45-46 | `*(int*)dlsym(md->dlp, "mod_version")` reads through the lookup before dlerror is asked whether it failed | a module exporting mod_init, mod_name, mod_magic_str, mod_handler and mod_errstr but not mod_version: load_module dereferences NULL after mod_init ran | report the missing symbol and unload, as for every other symbol | not executed | Mod.LoadVersionCrashes | Mod.LoadOrder |
| src/mods/uci-cmds.c:227-276 | `pso = strtok(pso, "=")` keeps only the token, and every exit frees pso; after a leading '=' the token starts inside the strdup'd copy | set with value "=k=v": free(3) of a pointer one byte into the copy | free the copy strdup returned | not executed | UciCmds.SetLeadingEqualsFrees | UciCmds.SetOutcome |
