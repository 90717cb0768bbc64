/** A stand-in for the TPL image of a net_cmd ("S(vss)"): the library that
    produces the real image is not part of this model, so this module fixes
    one concrete, invertible layout and proves that unpacking a packed image
    gives the command back.

    Layout: the id as two big-endian bytes, then each string as a presence
    byte (0 for NULL, 1 otherwise) followed, when present, by its length as
    four big-endian bytes and three bytes per character. */
module Tpl {
  import opened WrtctlNet

  /** Every Unicode scalar value fits in 21 bits, so three bytes hold one. */
  function CharBytes(c: char): (b: seq<byte>)
    ensures |b| == 3
  {
    var v := c as int;
    [v / 0x1_0000, (v / 0x100) % 0x100, v % 0x100]
  }

  /** The character three bytes stand for, if they stand for a scalar value. */
  function CharOf(b: seq<byte>): Option<char>
    requires |b| == 3
  {
    var v := (b[0] as int) * 0x1_0000 + (b[1] as int) * 0x100 + b[2] as int;
    if v < 0xD800 || 0xE000 <= v < 0x11_0000 then Some(v as char) else None
  }

  lemma CharRoundTrip(c: char)
    ensures CharOf(CharBytes(c)) == Some(c)
  {
    var v := c as int;
    assert v == (v / 0x1_0000) * 0x1_0000 + ((v / 0x100) % 0x100) * 0x100 + v % 0x100;
  }

  function StrBytes(s: string): (b: seq<byte>)
    ensures |b| == 3 * |s|
  {
    if s == [] then [] else CharBytes(s[0]) + StrBytes(s[1..])
  }

  /** Reads n characters from the front of b; None when b is too short or
      holds a value that is no character. */
  function ParseChars(b: seq<byte>, n: nat): Option<(string, seq<byte>)>
  {
    if n == 0 then Some(([], b))
    else if |b| < 3 then None
    else match CharOf(b[..3])
      case None => None
      case Some(c) =>
        match ParseChars(b[3..], n - 1)
          case None => None
          case Some((s, rest)) => Some(([c] + s, rest))
  }

  lemma {:induction false} ParseStrBytes(s: string, rest: seq<byte>)
    ensures ParseChars(StrBytes(s) + rest, |s|) == Some((s, rest))
  {
    var b := StrBytes(s) + rest;
    if s == [] {
      assert b == rest;
    } else {
      assert b[..3] == CharBytes(s[0]);
      assert b[3..] == StrBytes(s[1..]) + rest;
      CharRoundTrip(s[0]);
      ParseStrBytes(s[1..], rest);
      assert ParseChars(b[3..], |s| - 1) == Some((s[1..], rest));
      assert [s[0]] + s[1..] == s;
    }
  }

  /** The image of one `s` field; None when its length does not fit the
      four-byte count. */
  function PackStr(o: Option<string>): Option<seq<byte>>
  {
    match o
      case None => Some([0])
      case Some(s) => if |s| < U32_MOD then Some([1] + BeU32(|s|) + StrBytes(s)) else None
  }

  function ParseStr(b: seq<byte>): Option<(Option<string>, seq<byte>)>
  {
    if |b| == 0 then None
    else if b[0] == 0 then Some((None, b[1..]))
    else if b[0] != 1 || |b| < 5 then None
    else match ParseChars(b[5..], BeValue(b[1..5]))
      case None => None
      case Some((s, rest)) => Some((Some(s), rest))
  }

  lemma ParsePackedStr(o: Option<string>, rest: seq<byte>)
    requires PackStr(o).Some?
    ensures ParseStr(PackStr(o).value + rest) == Some((o, rest))
  {
    var b := PackStr(o).value + rest;
    match o {
      case None =>
        assert b[1..] == rest;
      case Some(s) =>
        assert b[1..5] == BeU32(|s|);
        BeU32RoundTrip(|s|);
        assert b[5..] == StrBytes(s) + rest;
        ParseStrBytes(s, rest);
    }
  }

  /** tpl_pack followed by tpl_dump; None stands for a failed dump. */
  function Pack(c: NetCmd): Option<seq<byte>>
  {
    match (PackStr(c.subsystem), PackStr(c.value))
      case (Some(a), Some(b)) => Some([c.id / 0x100, c.id % 0x100] + a + b)
      case _ => None
  }

  /** tpl_load followed by tpl_unpack; None when the image is not one Pack
      can produce (a failed tpl_load). */
  function Unpack(b: seq<byte>): Option<NetCmd>
  {
    if |b| < 2 then None
    else match ParseStr(b[2..])
      case None => None
      case Some((sub, r1)) =>
        match ParseStr(r1)
          case None => None
          case Some((val, r2)) =>
            if r2 != [] then None
            else Some(NetCmd((b[0] as int) * 0x100 + b[1] as int, sub, val))
  }

  /** The image round-trips: what is packed unpacks to the same command. */
  lemma PackUnpack(c: NetCmd)
    requires Pack(c).Some?
    ensures Unpack(Pack(c).value) == Some(c)
  {
    var a := PackStr(c.subsystem).value;
    var v := PackStr(c.value).value;
    var b := Pack(c).value;
    assert b[2..] == a + (v + []);
    ParsePackedStr(c.subsystem, v + []);
    ParsePackedStr(c.value, []);
    assert v + [] == v;
  }

  /** Packing fails exactly when one of the strings is too long for its count. */
  lemma PackDefined(c: NetCmd)
    ensures Pack(c).None? <==>
      (c.subsystem.Some? && |c.subsystem.value| >= U32_MOD) || (c.value.Some? && |c.value.value| >= U32_MOD)
  {
  }
}
