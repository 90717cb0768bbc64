/** The uci-cmds module (src/mods/uci-cmds.c): set, get, commit and revert
    of UCI options. libuci itself is not modelled; a handler call works
    against a `Uci` value that says what each libuci call it makes gives. */
module UciCmds {
  import opened WrtctlNet
  import opened NetCommon

  // ---------------------------------------------------------------------------
  // libuci, as the handlers see it

  /** libuci's return codes that the handlers produce themselves. */
  const UCI_OK: nat := 0
  const UCI_ERR_INVAL: nat := 2
  const UCI_ERR_NOTFOUND: nat := 3

  /** A section of a package, in file order: its name, whether it was
      declared without one, and the names of its options in order. */
  datatype Section = Section(name: string, anonymous: bool, options: seq<string>)

  /** The value of an option. */
  datatype OptValue = Str(s: Option<string>) | List(items: seq<string>)

  /** uci_lookup_ptr with extended syntax: a failure code, a path that does
      not name a whole option, or the option's value. */
  datatype Lookup = LookupFault(code: Positive) | Incomplete | Complete(value: OptValue)

  /** uci_list_configs: a failure code, or the names of all configs. */
  datatype Configs = ListFault(code: Positive) | Listed(names: seq<string>)

  /** What the libuci calls return for one handler call. `packages` holds
      the packages uci_load_package finds (already loaded or loadable);
      every other field gives a call's return code, 0 being UCI_OK, or
      its result; `errText` is the text uci_get_errorstr builds after a
      failure, if it builds one. */
  datatype Uci = Uci(
    packages: map<string, seq<Section>>,
    lookup: string -> Lookup,
    lookupPlain: string -> nat,
    setRc: (string, string) -> nat,
    saveRc: string -> nat,
    commitRc: string -> nat,
    revertRc: string -> nat,
    configs: Configs,
    errText: string -> Option<string>)

  /** out_str: nothing, a text of the handler's own, or libuci's message
      for the call named by the prefix. */
  datatype Msg = NoMsg | Text(s: string) | UciError(prefix: string)

  /** What a command puts in the reply: its code and out_str. */
  datatype UciOut = UciOut(rc: nat, msg: Msg)

  // ---------------------------------------------------------------------------
  // uci_find_section

  /** The index of the first anonymous section, in package order, that has
      an option named o. */
  function FirstAnonWith(secs: seq<Section>, o: string): (r: Option<nat>)
    ensures r.Some? ==> r.value < |secs| && secs[r.value].anonymous && o in secs[r.value].options
    ensures r.Some? ==> forall j :: 0 <= j < r.value ==> !(secs[j].anonymous && o in secs[j].options)
    ensures r.None? ==> forall j :: 0 <= j < |secs| ==> !(secs[j].anonymous && o in secs[j].options)
  {
    if secs == [] then None
    else if secs[0].anonymous && o in secs[0].options then Some(0)
    else match FirstAnonWith(secs[1..], o)
      case None => None
      case Some(i) => Some(i + 1)
  }

  /** uci_find_section's answer: a section name, or a failure code. */
  datatype Found = Found(name: string) | Missing(code: nat)

  /** The section uci_find_section picks for option o of package p. */
  function SectionFor(u: Uci, p: string, o: string): Found
  {
    if p !in u.packages then Missing(UCI_ERR_NOTFOUND)
    else match FirstAnonWith(u.packages[p], o)
      case None => Missing(UCI_ERR_NOTFOUND)
      case Some(i) => Found(u.packages[p][i].name)
  }

  /** Named sections are never picked, and a missing package or option is
      UCI_ERR_NOTFOUND. */
  lemma SectionForPicks(u: Uci, p: string, o: string)
    ensures var f := SectionFor(u, p, o);
      (f.Missing? ==>
         f.code == UCI_ERR_NOTFOUND &&
         (p in u.packages ==> forall j :: 0 <= j < |u.packages[p]| ==>
            !(u.packages[p][j].anonymous && o in u.packages[p][j].options))) &&
      (f.Found? ==>
         p in u.packages &&
         exists j :: 0 <= j < |u.packages[p]| && u.packages[p][j].anonymous &&
           o in u.packages[p][j].options && u.packages[p][j].name == f.name &&
           forall k :: 0 <= k < j ==> !(u.packages[p][k].anonymous && o in u.packages[p][k].options))
  {
    if p in u.packages {
      var i := FirstAnonWith(u.packages[p], o);
      if i.Some? {
        assert u.packages[p][i.value].name == SectionFor(u, p, o).name;
      }
    }
  }

  /** The inner loop of uci_find_section: strcmp against every option name. */
  method HasOption(sec: Section, o: string) returns (found: bool)
    ensures found <==> o in sec.options
  {
    var k := 0;
    while k < |sec.options|
      invariant k <= |sec.options| && o !in sec.options[..k]
    {
      if sec.options[k] == o {
        return true;
      }
      assert sec.options[..k + 1] == sec.options[..k] + [sec.options[k]];
      k := k + 1;
    }
    assert sec.options[..k] == sec.options;
    found := false;
  }

  /** uci_find_section: load the package, then walk its sections, skipping
      the named ones. */
  method FindSection(u: Uci, p: string, o: string) returns (rc: nat, s: Option<string>)
    ensures rc == UCI_OK <==> s.Some?
    ensures SectionFor(u, p, o) == if s.Some? then Found(s.value) else Missing(rc)
  {
    if p !in u.packages {
      return UCI_ERR_NOTFOUND, None;
    }
    var secs := u.packages[p];
    var i := 0;
    while i < |secs|
      invariant i <= |secs|
      invariant forall j :: 0 <= j < i ==> !(secs[j].anonymous && o in secs[j].options)
    {
      if secs[i].anonymous {
        var found := HasOption(secs[i], o);
        if found {
          return UCI_OK, Some(secs[i].name);
        }
      }
      i := i + 1;
    }
    rc, s := UCI_ERR_NOTFOUND, None;
  }

  // ---------------------------------------------------------------------------
  // uci_fill_section

  /** A path and the code uci_fill_section leaves with it. */
  datatype Filled = Filled(rc: nat, path: string)

  /** uci_fill_section: "pkg..opt" becomes "pkg.<sec>.opt" with the section
      uci_find_section picks; a path with two '.' that are not adjacent is
      left alone; fewer than two '.' is UCI_ERR_INVAL. */
  function FillSpec(u: Uci, pso: string): Filled
  {
    var first := Find(pso, '.');
    var last := FindLast(pso, '.');
    if first.None? || last.None? || first.value == last.value then Filled(UCI_ERR_INVAL, pso)
    else if last.value != first.value + 1 then Filled(UCI_OK, pso)
    else match SectionFor(u, pso[..first.value], pso[last.value + 1..])
      case Missing(rc) => Filled(rc, pso)
      case Found(sec) => Filled(UCI_OK, pso[..first.value] + "." + sec + "." + pso[last.value + 1..])
  }

  /** The path holds at least two '.'. */
  predicate TwoDots(s: string)
  {
    exists i, j :: 0 <= i < j < |s| && s[i] == '.' && s[j] == '.'
  }

  /** index and rindex differ exactly when there are two '.'. */
  lemma FindsDiffer(s: string)
    ensures TwoDots(s) <==> Find(s, '.').Some? && FindLast(s, '.').Some? && Find(s, '.').value != FindLast(s, '.').value
  {
    var first, last := Find(s, '.'), FindLast(s, '.');
    if TwoDots(s) {
      var i, j :| 0 <= i < j < |s| && s[i] == '.' && s[j] == '.';
      assert s[..first.value] + [s[first.value]] == s[..first.value + 1];
    }
  }

  /** Find on a string whose first c is at i. */
  lemma FindAt(s: string, c: char, i: nat)
    requires i < |s| && s[i] == c && c !in s[..i]
    ensures Find(s, c) == Some(i)
  {
  }

  /** FindLast on a string whose last c is at i. */
  lemma FindLastAt(s: string, c: char, i: nat)
    requires i < |s| && s[i] == c && c !in s[i + 1..]
    ensures FindLast(s, c) == Some(i)
  {
  }

  /** uci_fill_section refuses exactly the paths with fewer than two '.'. */
  lemma FillInvalid(u: Uci, pso: string)
    ensures FillSpec(u, pso).rc == UCI_ERR_INVAL <==> !TwoDots(pso)
  {
    FindsDiffer(pso);
  }

  /** A path "p..o" (p and o free of '.') becomes "p.<sec>.o" with the
      section uci_find_section picks, or stays as it is with the lookup's
      failure code. */
  lemma FillRewrites(u: Uci, pso: string, p: string, o: string)
    requires '.' !in p && '.' !in o && pso == p + ".." + o
    ensures FillSpec(u, pso) == match SectionFor(u, p, o)
      case Found(sec) => Filled(UCI_OK, p + "." + sec + "." + o)
      case Missing(rc) => Filled(rc, pso)
  {
    assert pso[..|p|] == p;
    FindAt(pso, '.', |p|);
    assert pso[|p| + 2..] == o;
    FindLastAt(pso, '.', |p| + 1);
  }

  /** No other path is changed. */
  lemma FillOnlyRewrites(u: Uci, pso: string)
    ensures FillSpec(u, pso).path != pso ==>
      exists p, o :: '.' !in p && '.' !in o && pso == p + ".." + o
  {
    var first, last := Find(pso, '.'), FindLast(pso, '.');
    if FillSpec(u, pso).path != pso {
      var p, o := pso[..first.value], pso[last.value + 1..];
      assert pso == p + ".." + o;
    }
  }

  /** Filling a filled path changes nothing, as long as libuci's section
      names are not empty. */
  lemma FillIdempotent(u: Uci, pso: string)
    requires forall p, j :: p in u.packages && 0 <= j < |u.packages[p]| ==> u.packages[p][j].name != ""
    requires FillSpec(u, pso).rc == UCI_OK
    ensures var r := FillSpec(u, pso); FillSpec(u, r.path) == r
  {
    var r := FillSpec(u, pso);
    if r.path != pso {
      FillOnlyRewrites(u, pso);
      var p, o :| '.' !in p && '.' !in o && pso == p + ".." + o;
      FillRewrites(u, pso, p, o);
      SectionForPicks(u, p, o);
      var sec := SectionFor(u, p, o).name;
      var q := p + "." + sec + "." + o;
      assert q[..|p|] == p;
      FindAt(q, '.', |p|);
      assert q[|p| + |sec| + 2..] == o;
      FindLastAt(q, '.', |p| + |sec| + 1);
    }
  }

  /** uci_fill_section on a copy of the path. */
  method FillSection(u: Uci, pso: string) returns (rc: nat, path: string)
    ensures Filled(rc, path) == FillSpec(u, pso)
  {
    var first := Find(pso, '.');
    var last := FindLast(pso, '.');
    if first.None? || last.None? || first.value == last.value {
      return UCI_ERR_INVAL, pso;
    }
    if last.value != first.value + 1 {
      return UCI_OK, pso;
    }
    var p, o := pso[..first.value], pso[last.value + 1..];
    var sec;
    rc, sec := FindSection(u, p, o);
    if rc != UCI_OK {
      return rc, pso;
    }
    path := p + "." + sec.value + "." + o;
  }

  // ---------------------------------------------------------------------------
  // uci_cmd_set

  /** strtok(s, "="): skip the leading '=', then the run up to the next '='. */
  function EqToken(s: string): (r: Option<string>)
    ensures r.None? <==> forall i :: 0 <= i < |s| ==> s[i] == '='
    ensures r.Some? ==> r.value != [] && '=' !in r.value && |r.value| <= |s|
    ensures r.Some? && |r.value| == |s| ==> r.value == s
    ensures s != [] && s[0] != '=' ==> r == Some(s[..RunTo(s, '=')])
  {
    if s == [] then None
    else if s[0] == '=' then EqToken(s[1..])
    else Some(s[..RunTo(s, '=')])
  }

  /** The length of the run of characters other than c at the front. */
  function RunTo(s: string, c: char): (n: nat)
    ensures n <= |s| && c !in s[..n] && (n < |s| ==> s[n] == c)
  {
    if s == [] || s[0] == c then 0
    else
      var n := RunTo(s[1..], c);
      assert s[..n + 1] == [s[0]] + s[1..][..n];
      n + 1
  }

  /** The key and new value uci_cmd_set takes from "key=value": the first
      token, and the text that starts one past the token's length. */
  function SetArgs(value: string): Option<(string, string)>
  {
    var t := EqToken(value);
    if t.None? || |t.value| >= |value| then None
    else Some((t.value, value[|t.value| + 1..]))
  }

  /** A value is refused exactly when it has no '=' or nothing but '='. */
  lemma SetArgsRefuses(value: string)
    ensures SetArgs(value).None? <==> '=' !in value || forall i :: 0 <= i < |value| ==> value[i] == '='
  {
    var t := EqToken(value);
    if t.Some? && '=' in value {
      assert |t.value| < |value|;
    }
    if value != [] && value[0] != '=' && '=' !in value {
      assert RunTo(value, '=') == |value|;
    }
  }

  /** Without a leading '=', the key is the text before the first '=' and
      the new value all the text after it, so the two give the command
      back. */
  lemma SetArgsRoundTrip(value: string)
    requires value != [] && value[0] != '=' && '=' in value
    ensures var i := Find(value, '=').value;
      SetArgs(value) == Some((value[..i], value[i + 1..])) &&
      SetArgs(value).value.0 + "=" + SetArgs(value).value.1 == value
  {
    var n := RunTo(value, '=');
    FindAt(value, '=', n);
    assert value == value[..n] + "=" + value[n + 1..];
  }

  /** The text after the token is taken from an offset counted from the
      start of the value, so leading '=' move it: "=k=v" sets k to "=v". */
  lemma SetArgsLeadingEquals()
    ensures SetArgs("=k=v") == Some(("k", "=v"))
  {
    var s := "k=v";
    var n := RunTo(s, '=');
    assert s[1] == '=';
    assert n == 1;
    assert "=k=v"[1..] == s;
    assert s[..1] == "k";
    assert EqToken(s) == Some("k");
  }

  const SET_USAGE: string := "uci_cmd_set:  Invalid command line."
  const GET_USAGE: string := "uci_cmd_get:  Invalid command line."

  /** uci_cmd_set: parse "key=value", fill in the section, look the key up,
      set it and save its package, freeing the copy strdup made (the code
      as written frees strtok's pointer instead: SetAsWritten). */
  function SetSpec(u: Uci, value: Option<string>): UciOut
  {
    if value.None? || value.value == [] then UciOut(UCI_ERR_INVAL, Text(SET_USAGE))
    else match SetArgs(value.value)
      case None => UciOut(UCI_ERR_INVAL, Text(SET_USAGE))
      case Some((key, v)) =>
        var f := FillSpec(u, key);
        if f.rc != UCI_OK then UciOut(f.rc, UciError("uci_cmd_set:uci_fill_section"))
        else if u.lookup(f.path).LookupFault? then UciOut(u.lookup(f.path).code, UciError("uci_lookup_ptr"))
        else if u.setRc(f.path, v) != UCI_OK then UciOut(u.setRc(f.path, v), UciError("uci_set"))
        else if u.saveRc(f.path) != UCI_OK then UciOut(u.saveRc(f.path), UciError("uci_save"))
        else UciOut(UCI_OK, NoMsg)
  }

  /** uci_cmd_set succeeds exactly when the command parses, its path fills
      and libuci's lookup, set and save all succeed; it then sets the filled
      path to the text after the '=' and says nothing. A malformed command
      is UCI_ERR_INVAL with the usage text. */
  lemma SetOutcome(u: Uci, value: Option<string>)
    ensures var r := SetSpec(u, value);
      (r.rc == UCI_OK <==>
        value.Some? && value.value != [] && SetArgs(value.value).Some? &&
        var (key, v) := SetArgs(value.value).value;
        var f := FillSpec(u, key);
        f.rc == UCI_OK && !u.lookup(f.path).LookupFault? && u.setRc(f.path, v) == UCI_OK && u.saveRc(f.path) == UCI_OK) &&
      (r.rc == UCI_OK ==> r.msg == NoMsg) &&
      (value.None? || value == Some([]) || SetArgs(value.value).None? ==> r == UciOut(UCI_ERR_INVAL, Text(SET_USAGE)))
  {
  }

  /** uci_cmd_set as the code runs it: it replies, or it hands free(3) a
      pointer malloc did not return. */
  datatype SetRun = SetReplied(out: UciOut) | FreesInterior

  /** strtok skips the leading '=' and returns a pointer past them into the
      copy strdup made; pso keeps only that pointer, and every exit frees it
      (at done:, or in uci_fill_section when it rewrites the key). */
  predicate TokenInsideCopy(value: string)
  {
    value != [] && value[0] == '=' && EqToken(value).Some?
  }

  /** uci_cmd_set as written: undefined exactly for the commands that begin
      with '=' and still hold a key, the ones SetArgs splits with its
      offset; every other command gets the reply SetSpec states. */
  function SetAsWritten(u: Uci, value: Option<string>): (r: SetRun)
    ensures r.FreesInterior? <==>
      value.Some? && value.value != [] && value.value[0] == '=' && SetArgs(value.value).Some?
    ensures r.SetReplied? ==> r.out == SetSpec(u, value)
  {
    if value.Some? && TokenInsideCopy(value.value) then
      FreesInterior
    else SetReplied(SetSpec(u, value))
  }

  /** "=k=v" parses, so the code reaches its frees with strtok's pointer one
      byte into the copy: undefined as written. The corrected SetSpec frees
      the copy itself and sets k to "=v". */
  lemma SetLeadingEqualsFrees(u: Uci)
    ensures SetAsWritten(u, Some("=k=v")) == FreesInterior
    ensures SetArgs("=k=v") == Some(("k", "=v"))
  {
    SetArgsLeadingEquals();
  }

  /** uci_cmd_set. */
  method CmdSet(u: Uci, value: Option<string>) returns (out: UciOut)
    ensures out == SetSpec(u, value)
  {
    if value.None? || value.value == [] {
      return UciOut(UCI_ERR_INVAL, Text(SET_USAGE));
    }
    var args := SetArgs(value.value);
    if args.None? {
      return UciOut(UCI_ERR_INVAL, Text(SET_USAGE));
    }
    var (key, v) := args.value;
    var rc, path := FillSection(u, key);
    if rc != UCI_OK {
      return UciOut(rc, UciError("uci_cmd_set:uci_fill_section"));
    }
    var l := u.lookup(path);
    if l.LookupFault? {
      return UciOut(l.code, UciError("uci_lookup_ptr"));
    }
    rc := u.setRc(path, v);
    if rc != UCI_OK {
      return UciOut(rc, UciError("uci_set"));
    }
    rc := u.saveRc(path);
    if rc != UCI_OK {
      return UciOut(rc, UciError("uci_save"));
    }
    out := UciOut(UCI_OK, NoMsg);
  }

  // ---------------------------------------------------------------------------
  // uci_cmd_get

  /** The list items as uci_cmd_get prints them: each followed by a
      separator that is only written when need_sep is set, which it never
      is. */
  function Joined(items: seq<string>): (r: string)
  {
    if items == [] then [] else Joined(items[..|items| - 1]) + items[|items| - 1]
  }

  /** The items run together, nothing between them: joining a list is
      joining its parts and putting the results side by side. */
  lemma {:induction false} JoinedConcat(a: seq<string>, b: seq<string>)
    ensures Joined(a + b) == Joined(a) + Joined(b)
    decreases |b|
  {
    if b == [] {
      assert a + b == a;
    } else {
      var b' := b[..|b| - 1];
      assert (a + b)[..|a + b| - 1] == a + b';
      JoinedConcat(a, b');
    }
  }

  /** One item joins to itself. */
  lemma JoinedSingle(x: string)
    ensures Joined([x]) == x
  {
    assert [x][..0] == [];
  }

  /** The value part of a successful get. */
  function ValueText(v: OptValue): string
  {
    match v
      case Str(None) => "(null)"
      case Str(Some(s)) => s
      case List(items) => Joined(items)
  }

  /** uci_cmd_get: fill in the section, look the path up, and print
      "<path>=<value>"; an incomplete lookup is "<path> not found". */
  function GetSpec(u: Uci, value: Option<string>): UciOut
  {
    if value.None? then UciOut(UCI_ERR_INVAL, Text(GET_USAGE))
    else
      var f := FillSpec(u, value.value);
      if f.rc != UCI_OK then UciOut(f.rc, UciError("uci_cmd_get:uci_fill_section"))
      else match u.lookup(f.path)
        case LookupFault(c) => UciOut(c, UciError("uci_lookup_ptr"))
        case Incomplete => UciOut(UCI_ERR_NOTFOUND, Text(f.path + " not found"))
        case Complete(v) => UciOut(UCI_OK, Text(f.path + "=" + ValueText(v)))
  }

  /** A get reply read back: the text before the first '=' and after it. */
  function SplitReply(t: string): Option<(string, string)>
  {
    match Find(t, '=')
      case None => None
      case Some(i) => Some((t[..i], t[i + 1..]))
  }

  /** A successful get reads back as the filled path and the option's value
      (when the path holds no '='); an incomplete lookup is NOTFOUND naming
      the path; UCI_OK always comes with a text. */
  lemma GetOutcome(u: Uci, value: Option<string>)
    ensures var r := GetSpec(u, value);
      (value.None? ==> r == UciOut(UCI_ERR_INVAL, Text(GET_USAGE))) &&
      (r.rc == UCI_OK ==> r.msg.Text?) &&
      (value.Some? ==>
        var f := FillSpec(u, value.value);
        (r.rc == UCI_OK <==> f.rc == UCI_OK && u.lookup(f.path).Complete?) &&
        (f.rc == UCI_OK && u.lookup(f.path).Incomplete? ==> r == UciOut(UCI_ERR_NOTFOUND, Text(f.path + " not found"))) &&
        (r.rc == UCI_OK && '=' !in f.path ==>
           SplitReply(r.msg.s) == Some((f.path, ValueText(u.lookup(f.path).value)))))
  {
    var r := GetSpec(u, value);
    if value.Some? {
      var f := FillSpec(u, value.value);
      if r.rc == UCI_OK && '=' !in f.path {
        var t := r.msg.s;
        assert t == f.path + "=" + ValueText(u.lookup(f.path).value);
        assert t[|f.path|] == '=' && t[..|f.path|] == f.path;
        assert Find(t, '=') == Some(|f.path|);
        assert t[|f.path| + 1..] == ValueText(u.lookup(f.path).value);
      }
    }
  }

  /** The list loop of uci_cmd_get: sprintf each item into the buffer. */
  method JoinList(items: seq<string>) returns (buf: string)
    ensures buf == Joined(items)
  {
    var needSep := false;
    buf := [];
    var i := 0;
    while i < |items|
      invariant i <= |items| && buf == Joined(items[..i])
    {
      buf := buf + items[i] + (if needSep then ", " else "");
      assert items[..i + 1][..i] == items[..i];
      i := i + 1;
    }
    assert items[..i] == items;
  }

  /** uci_cmd_get. */
  method CmdGet(u: Uci, value: Option<string>) returns (out: UciOut)
    ensures out == GetSpec(u, value)
  {
    if value.None? {
      return UciOut(UCI_ERR_INVAL, Text(GET_USAGE));
    }
    var rc, path := FillSection(u, value.value);
    if rc != UCI_OK {
      return UciOut(rc, UciError("uci_cmd_get:uci_fill_section"));
    }
    match u.lookup(path) {
      case LookupFault(c) =>
        out := UciOut(c, UciError("uci_lookup_ptr"));
      case Incomplete =>
        out := UciOut(UCI_ERR_NOTFOUND, Text(path + " not found"));
      case Complete(v) =>
        var valStr: string;
        match v {
          case Str(s) =>
            valStr := if s.Some? then s.value else "(null)";
          case List(items) =>
            valStr := JoinList(items);
        }
        out := UciOut(UCI_OK, Text(path + "=" + valStr));
    }
  }

  // ---------------------------------------------------------------------------
  // uci_cmd_commit and uci_cmd_revert

  /** The package part of "pkg.sec.opt": the text before the first '.'. */
  function PackageOf(v: string): (r: string)
    ensures '.' !in r && |r| <= |v| && r == v[..|r|]
  {
    match Find(v, '.')
      case None => v
      case Some(i) => v[..i]
  }

  /** One turn of the commit-all loop: load the package, commit it, and keep
      the code of a failure. */
  function CommitOne(u: Uci, pn: string, rc: nat): nat
  {
    if pn !in u.packages then UCI_ERR_NOTFOUND
    else if u.commitRc(pn) != UCI_OK then u.commitRc(pn)
    else rc
  }

  /** The commit-all loop over the configs in the order it visits them. */
  function CommitEach(u: Uci, order: seq<string>, rc: nat): nat
    decreases |order|
  {
    if order == [] then rc else CommitEach(u, order[1..], CommitOne(u, order[0], rc))
  }

  /** The code each config's commit fails with, in order; configs that
      commit are left out. */
  function CommitFailures(u: Uci, order: seq<string>): (r: seq<nat>)
    ensures forall k :: 0 <= k < |r| ==> r[k] != UCI_OK
  {
    if order == [] then []
    else
      var pn := order[0];
      (if pn !in u.packages then [UCI_ERR_NOTFOUND]
       else if u.commitRc(pn) != UCI_OK then [u.commitRc(pn)] else []) + CommitFailures(u, order[1..])
  }

  /** The commit-all loop keeps going past failures and ends with the code
      of the last one, or with the code it started with if none failed. */
  lemma {:induction false} CommitEachLastFailure(u: Uci, order: seq<string>, rc: nat)
    ensures var f := CommitFailures(u, order);
      CommitEach(u, order, rc) == if f == [] then rc else f[|f| - 1]
    decreases |order|
  {
    if order != [] {
      CommitEachLastFailure(u, order[1..], CommitOne(u, order[0], rc));
    }
  }

  /** The configs the commit-all loop of uci_cmd_commit visits as written:
      its increment sets pn before it advances i, so configs[0] comes twice
      and the last config never. */
  function CommitOrderAsWritten(configs: seq<string>): (r: seq<string>)
    ensures |r| == |configs|
  {
    if configs == [] then [] else [configs[0]] + configs[..|configs| - 1]
  }

  /** With two configs or more, the loop as written commits the first one
      twice and never the last. */
  lemma CommitSkipsLast(configs: seq<string>)
    requires |configs| >= 2 && configs[|configs| - 1] !in configs[..|configs| - 1]
    ensures var r := CommitOrderAsWritten(configs);
      r[0] == configs[0] && r[1] == configs[0] && configs[|configs| - 1] !in r
  {
  }

  /** A failing last config is reported by the corrected loop and missed by
      the loop as written. */
  lemma CommitAllMissesFailure(u: Uci)
    requires "network" in u.packages && "wireless" in u.packages
    requires u.commitRc("network") == UCI_OK && u.commitRc("wireless") == 4
    ensures CommitEach(u, CommitOrderAsWritten(["network", "wireless"]), UCI_OK) == UCI_OK
    ensures CommitEach(u, ["network", "wireless"], UCI_OK) == 4
  {
    assert CommitOrderAsWritten(["network", "wireless"]) == ["network", "network"];
    assert ["network", "network"][1..] == ["network"];
    assert ["network", "wireless"][1..] == ["wireless"];
  }

  /** uci_cmd_commit: one package (the part of the value before the first
      '.'), or every config when there is no value. */
  function CommitSpec(u: Uci, value: Option<string>): UciOut
  {
    match value
      case Some(v) =>
        var pkg := PackageOf(v);
        if pkg !in u.packages then UciOut(UCI_ERR_NOTFOUND, UciError("uci_load_package"))
        else if u.commitRc(pkg) != UCI_OK then UciOut(u.commitRc(pkg), UciError("uci_commit"))
        else UciOut(UCI_OK, NoMsg)
      case None =>
        match u.configs
          case ListFault(c) => UciOut(c, UciError("uci_list_configs"))
          case Listed(names) =>
            var rc := CommitEach(u, names, UCI_OK);
            if rc != UCI_OK then UciOut(rc, UciError("uci_commit_all")) else UciOut(UCI_OK, NoMsg)
  }

  /** Committing everything tries every config, each once, and reports the
      last failure under "uci_commit_all", or succeeds silently. */
  lemma CommitAllOutcome(u: Uci, names: seq<string>)
    requires u.configs == Listed(names)
    ensures var f := CommitFailures(u, names);
      CommitSpec(u, None) == if f == [] then UciOut(UCI_OK, NoMsg) else UciOut(f[|f| - 1], UciError("uci_commit_all"))
  {
    CommitEachLastFailure(u, names, UCI_OK);
  }

  /** uci_cmd_commit. */
  method CmdCommit(u: Uci, value: Option<string>) returns (out: UciOut)
    ensures out == CommitSpec(u, value)
  {
    if value.Some? {
      var pkg := PackageOf(value.value);
      if pkg !in u.packages {
        return UciOut(UCI_ERR_NOTFOUND, UciError("uci_load_package"));
      }
      var rc := u.commitRc(pkg);
      if rc != UCI_OK {
        return UciOut(rc, UciError("uci_commit"));
      }
      return UciOut(UCI_OK, NoMsg);
    }
    if u.configs.ListFault? {
      return UciOut(u.configs.code, UciError("uci_list_configs"));
    }
    var configs := u.configs.names;
    var uciRc := UCI_OK;
    var i := 0;
    while i < |configs|
      invariant i <= |configs|
      invariant CommitEach(u, configs, UCI_OK) == CommitEach(u, configs[i..], uciRc)
    {
      var pn := configs[i];
      assert configs[i..][1..] == configs[i + 1..];
      if pn !in u.packages {
        uciRc := UCI_ERR_NOTFOUND;
      } else {
        var loopRc := u.commitRc(pn);
        if loopRc != UCI_OK {
          uciRc := loopRc;
        }
      }
      i := i + 1;
    }
    out := if uciRc != UCI_OK then UciOut(uciRc, UciError("uci_commit_all")) else UciOut(UCI_OK, NoMsg);
  }

  /** One turn of the revert-all loop. */
  function RevertOne(u: Uci, pn: string, rc: nat): nat
  {
    if u.lookupPlain(pn) != UCI_OK then u.lookupPlain(pn)
    else if u.revertRc(pn) != UCI_OK then u.revertRc(pn)
    else rc
  }

  function RevertEach(u: Uci, order: seq<string>, rc: nat): nat
    decreases |order|
  {
    if order == [] then rc else RevertEach(u, order[1..], RevertOne(u, order[0], rc))
  }

  /** The code each config's revert fails with, in order. */
  function RevertFailures(u: Uci, order: seq<string>): (r: seq<nat>)
    ensures forall k :: 0 <= k < |r| ==> r[k] != UCI_OK
  {
    if order == [] then []
    else
      var pn := order[0];
      (if u.lookupPlain(pn) != UCI_OK then [u.lookupPlain(pn)]
       else if u.revertRc(pn) != UCI_OK then [u.revertRc(pn)] else []) + RevertFailures(u, order[1..])
  }

  lemma {:induction false} RevertEachLastFailure(u: Uci, order: seq<string>, rc: nat)
    ensures var f := RevertFailures(u, order);
      RevertEach(u, order, rc) == if f == [] then rc else f[|f| - 1]
    decreases |order|
  {
    if order != [] {
      RevertEachLastFailure(u, order[1..], RevertOne(u, order[0], rc));
    }
  }

  /** uci_cmd_revert: the path up to its first '.', or every config. */
  function RevertSpec(u: Uci, value: Option<string>): UciOut
  {
    match value
      case Some(v) =>
        var path := PackageOf(v);
        if u.lookupPlain(path) != UCI_OK then UciOut(u.lookupPlain(path), UciError("uci_lookup_ptr"))
        else if u.revertRc(path) != UCI_OK then UciOut(u.revertRc(path), UciError("uci_revert"))
        else UciOut(UCI_OK, NoMsg)
      case None =>
        match u.configs
          case ListFault(c) => UciOut(c, UciError("uci_list_configs"))
          case Listed(names) =>
            var rc := RevertEach(u, names, UCI_OK);
            if rc != UCI_OK then UciOut(rc, UciError("uci_revert_all")) else UciOut(UCI_OK, NoMsg)
  }

  /** Reverting everything tries every config once and reports the last
      failure under "uci_revert_all". */
  lemma RevertAllOutcome(u: Uci, names: seq<string>)
    requires u.configs == Listed(names)
    ensures var f := RevertFailures(u, names);
      RevertSpec(u, None) == if f == [] then UciOut(UCI_OK, NoMsg) else UciOut(f[|f| - 1], UciError("uci_revert_all"))
  {
    RevertEachLastFailure(u, names, UCI_OK);
  }

  /** uci_cmd_revert. */
  method CmdRevert(u: Uci, value: Option<string>) returns (out: UciOut)
    ensures out == RevertSpec(u, value)
  {
    if value.Some? {
      var path := PackageOf(value.value);
      var rc := u.lookupPlain(path);
      if rc != UCI_OK {
        return UciOut(rc, UciError("uci_lookup_ptr"));
      }
      rc := u.revertRc(path);
      if rc != UCI_OK {
        return UciOut(rc, UciError("uci_revert"));
      }
      return UciOut(UCI_OK, NoMsg);
    }
    if u.configs.ListFault? {
      return UciOut(u.configs.code, UciError("uci_list_configs"));
    }
    var configs := u.configs.names;
    var uciRc := UCI_OK;
    var i := 0;
    while i < |configs|
      invariant i <= |configs|
      invariant RevertEach(u, configs, UCI_OK) == RevertEach(u, configs[i..], uciRc)
    {
      var pn := configs[i];
      assert configs[i..][1..] == configs[i + 1..];
      var loopRc := u.lookupPlain(pn);
      if loopRc != UCI_OK {
        uciRc := loopRc;
      } else {
        loopRc := u.revertRc(pn);
        if loopRc != UCI_OK {
          uciRc := loopRc;
        }
      }
      i := i + 1;
    }
    out := if uciRc != UCI_OK then UciOut(uciRc, UciError("uci_revert_all")) else UciOut(UCI_OK, NoMsg);
  }

  // ---------------------------------------------------------------------------
  // mod_handler

  /** The command's value as the C code sees it. */
  function CValue(cmd: NetCmd): Option<string>
  {
    if cmd.value.Some? then Some(CStr(cmd.value.value)) else None
  }

  /** What the four commands answer; any other id is UCI_OK with nothing. */
  function HandlerSpec(u: Uci, cmd: NetCmd): UciOut
  {
    var v := CValue(cmd);
    if cmd.id == UCI_CMD_SET then SetSpec(u, v)
    else if cmd.id == UCI_CMD_GET then GetSpec(u, v)
    else if cmd.id == UCI_CMD_COMMIT then CommitSpec(u, v)
    else if cmd.id == UCI_CMD_REVERT then RevertSpec(u, v)
    else UciOut(UCI_OK, NoMsg)
  }

  /** out_str as a C string: uci_get_errorstr's text for a libuci failure. */
  function MsgText(u: Uci, m: Msg): Option<string>
  {
    match m
      case NoMsg => None
      case Text(s) => Some(s)
      case UciError(prefix) => u.errText(prefix)
  }

  /** The reply's net_cmd: the code cast to uint16_t, "UCI", out_str. */
  function ReplyCmd(u: Uci, out: UciOut): NetCmd
  {
    NetCmd(out.rc % U16_MOD, Some(UCI_CMDS_MAGIC), MsgText(u, out.msg))
  }

  /** The reply of mod_handler comes back to the client as the command's
      code and text under "UCI"; an unknown id gets UCI_OK and no text. */
  lemma HandlerReply(u: Uci, cmd: NetCmd)
    ensures var r := CreateNetCmdPacket(ReplyCmd(u, HandlerSpec(u, cmd)));
      var o := HandlerSpec(u, cmd);
      (r.rc == NET_OK ==> UnpackNetCmdPacket(r.packet.value) == Some(NetCmd(o.rc % U16_MOD, Some("UCI"), MsgText(u, o.msg)))) &&
      (!(1 <= cmd.id <= 4) ==> o == UciOut(UCI_OK, NoMsg) && ReplyCmd(u, o) == NetCmd(0, Some("UCI"), None))
  {
    NetCmdRoundTrip(ReplyCmd(u, HandlerSpec(u, cmd)));
  }

  /** mod_handler: run the command, then pack its code and out_str into the
      reply packet. */
  method ModHandler(u: Uci, cmd: NetCmd) returns (r: Created)
    ensures r == CreateNetCmdPacket(ReplyCmd(u, HandlerSpec(u, cmd)))
  {
    var out := UciOut(UCI_OK, NoMsg);
    var v := CValue(cmd);
    if cmd.id == UCI_CMD_SET {
      out := CmdSet(u, v);
    } else if cmd.id == UCI_CMD_GET {
      out := CmdGet(u, v);
    } else if cmd.id == UCI_CMD_COMMIT {
      out := CmdCommit(u, v);
    } else if cmd.id == UCI_CMD_REVERT {
      out := CmdRevert(u, v);
    }
    r := CreateNetCmdPacket(ReplyCmd(u, out));
  }
}
