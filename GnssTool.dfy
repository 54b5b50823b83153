/** The UBX monitor of gnss_tool.py: a flag-to-text decoder, length-guarded
    decoders for UBX-CFG-PRT and UBX-NAV-STATUS, the dispatch of received
    frames, and the byte-at-a-time receive state machine of `Parser.listen`.
    The socket is left out: `Listen` is given the bytes received until the
    socket fails, and what `print` would show is returned as outcomes. The
    checksum and frame builder of `GnssUBlox` are the ones of module Ubx. */
module GnssTool {
  import opened Common
  import opened Ubx

  // ---------------------------------------------------------------------
  // flag_s
  // ---------------------------------------------------------------------

  /** `key == (key & flag)`: every bit of the key is set in the flag. */
  predicate Matches(key: nat, flag: nat) {
    key == BitAnd(key, flag)
  }

  /** The descriptions of the keys all of whose bits are set in `flag`, in
      the order of `items` (the items of a description map, sorted by key). */
  function Selected(flag: nat, items: seq<(nat, string)>): seq<string>
  {
    if items == [] then []
    else
      var key := items[|items| - 1].0;
      Selected(flag, items[..|items| - 1])
        + (if Matches(key, flag) then [items[|items| - 1].1] else [])
  }

  /** The text accumulated by the loop of `flag_s`: each selected description
      followed by one space. */
  function FlagWords(flag: nat, items: seq<(nat, string)>): string
  {
    if items == [] then []
    else
      var key := items[|items| - 1].0;
      FlagWords(flag, items[..|items| - 1])
        + (if Matches(key, flag) then items[|items| - 1].1 + " " else [])
  }

  /** The result of `flag_s`. */
  function FlagText(flag: nat, items: seq<(nat, string)>): string
  {
    Strip(FlagWords(flag, items))
  }

  predicate SortedItems(items: seq<(nat, string)>) {
    forall i, j :: 0 <= i < j < |items| ==> items[i].0 < items[j].0
  }

  /** Descriptions that are single words. */
  predicate WordItems(items: seq<(nat, string)>) {
    forall i :: 0 <= i < |items| ==> items[i].1 != [] && NoSpace(items[i].1)
  }

  method FlagS(flag: nat, items: seq<(nat, string)>) returns (s: string)
    ensures s == FlagText(flag, items)
  {
    var acc := "";
    for i := 0 to |items|
      invariant acc == FlagWords(flag, items[..i])
    {
      assert items[..i + 1][..i] == items[..i];
      var key := items[i].0;
      var value := items[i].1;
      if key == BitAnd(key, flag) {
        acc := acc + value;
        acc := acc + " ";
      }
      assert acc == FlagWords(flag, items[..i + 1]);
    }
    assert items[..|items|] == items;
    s := Strip(acc);
  }

  lemma {:induction false} JoinSnoc(sep: string, ws: seq<string>, w: string)
    requires ws != []
    ensures Join(sep, ws + [w]) == Join(sep, ws) + sep + w
    decreases |ws|
  {
    if |ws| > 1 {
      assert (ws + [w])[1..] == ws[1..] + [w];
      JoinSnoc(sep, ws[1..], w);
    } else {
      assert (ws + [w])[1..] == [w];
    }
  }

  lemma {:induction false} FlagWordsJoin(flag: nat, items: seq<(nat, string)>)
    ensures var sel := Selected(flag, items);
      FlagWords(flag, items) == if sel == [] then [] else Join(" ", sel) + " "
    decreases |items|
  {
    if items != [] {
      var pre := items[..|items| - 1];
      FlagWordsJoin(flag, pre);
      var sel := Selected(flag, pre);
      var w := items[|items| - 1].1;
      if Matches(items[|items| - 1].0, flag) {
        assert Selected(flag, items) == sel + [w];
        assert FlagWords(flag, items) == FlagWords(flag, pre) + (w + " ");
        if sel != [] {
          JoinSnoc(" ", sel, w);
          assert Join(" ", sel) + " " + (w + " ") == Join(" ", sel) + " " + w + " ";
        } else {
          assert Selected(flag, items) == [w];
        }
      } else {
        assert Selected(flag, items) == sel;
        assert FlagWords(flag, items) == FlagWords(flag, pre) + [];
      }
    }
  }

  lemma {:induction false} JoinWordsEnds(ws: seq<string>)
    requires ws != []
    requires forall i :: 0 <= i < |ws| ==> ws[i] != [] && NoSpace(ws[i])
    ensures var j := Join(" ", ws); j != [] && !IsSpace(j[0]) && !IsSpace(j[|j| - 1])
    decreases |ws|
  {
    if |ws| > 1 {
      JoinWordsEnds(ws[1..]);
    }
  }

  lemma SelectedAreItems(flag: nat, items: seq<(nat, string)>, k: nat)
    requires k < |Selected(flag, items)|
    ensures exists i :: 0 <= i < |items| && Selected(flag, items)[k] == items[i].1
    decreases |items|
  {
    var pre := items[..|items| - 1];
    if k < |Selected(flag, pre)| {
      SelectedAreItems(flag, pre, k);
      var i :| 0 <= i < |pre| && Selected(flag, pre)[k] == pre[i].1;
      assert items[i] == pre[i];
    } else {
      assert Selected(flag, items)[k] == items[|items| - 1].1;
    }
  }

  /** With one-word descriptions, `flag_s` is the selected descriptions
      joined by single spaces, with no space before the first or after the
      last. */
  lemma FlagTextIsJoin(flag: nat, items: seq<(nat, string)>)
    requires WordItems(items)
    ensures FlagText(flag, items) == Join(" ", Selected(flag, items))
  {
    FlagWordsJoin(flag, items);
    var sel := Selected(flag, items);
    if sel != [] {
      forall k | 0 <= k < |sel| ensures sel[k] != [] && NoSpace(sel[k]) {
        SelectedAreItems(flag, items, k);
      }
      var j := Join(" ", sel);
      JoinWordsEnds(sel);
      assert (j + " ")[..|j|] == j;
      assert RStrip(j + " ") == RStrip(j) == j;
    }
  }

  /** A key is selected exactly when all its bits are set in the flag. */
  lemma {:induction false} SelectedMembers(flag: nat, items: seq<(nat, string)>)
    ensures |Selected(flag, items)| <= |items|
    ensures forall i :: 0 <= i < |items| && Matches(items[i].0, flag) ==>
              items[i].1 in Selected(flag, items)
    decreases |items|
  {
    if items != [] {
      var pre := items[..|items| - 1];
      SelectedMembers(flag, pre);
      var sel := Selected(flag, pre);
      forall i | 0 <= i < |items| && Matches(items[i].0, flag)
        ensures items[i].1 in Selected(flag, items)
      {
        if i < |pre| {
          assert items[i] == pre[i];
          assert items[i].1 in sel;
        }
      }
    }
  }

  /** Bits of the flag that belong to no key do not change the text. */
  lemma {:induction false} UnknownBitsIgnored(flag: nat, extra: nat, items: seq<(nat, string)>)
    requires forall i :: 0 <= i < |items| ==> BitAnd(items[i].0, extra) == 0
    ensures Selected(BitOr(flag, extra), items) == Selected(flag, items)
    ensures FlagText(BitOr(flag, extra), items) == FlagText(flag, items)
    decreases |items|
  {
    if items != [] {
      var pre := items[..|items| - 1];
      UnknownBitsIgnored(flag, extra, pre);
      AndOfDisjointOr(items[|items| - 1].0, flag, extra);
    }
    FlagWordsSelected(BitOr(flag, extra), flag, items);
  }

  lemma {:induction false} FlagWordsSelected(f1: nat, f2: nat, items: seq<(nat, string)>)
    requires Selected(f1, items) == Selected(f2, items)
    ensures FlagWords(f1, items) == FlagWords(f2, items)
  {
    FlagWordsJoin(f1, items);
    FlagWordsJoin(f2, items);
  }

  /** `cfg_prt_proto` and `cfg_prt_flags`, as their sorted items. */
  const ProtoItems: seq<(nat, string)> := [(0x1, "UBX"), (0x2, "NMEA"), (0x4, "RTCM2"), (0x20, "RTCM3")]
  const PortFlagItems: seq<(nat, string)> := [(0x2, "extendedTxTimeout")]

  lemma DescriptionTables()
    ensures SortedItems(ProtoItems) && WordItems(ProtoItems)
    ensures SortedItems(PortFlagItems) && WordItems(PortFlagItems)
  {
  }

  /** UBX, NMEA and RTCM3 enabled (mask 0x23) read "UBX NMEA RTCM3". */
  lemma ProtoExample()
    ensures FlagText(0x23, ProtoItems) == "UBX NMEA RTCM3"
  {
    ProtoSelected();
    FlagTextIsJoin(0x23, ProtoItems);
    ProtoJoined();
  }

  lemma ProtoBits()
    ensures BitAnd(1, 0x23) == 1 && BitAnd(2, 0x23) == 2
    ensures BitAnd(4, 0x23) == 0 && BitAnd(0x20, 0x23) == 0x20
  {
    assert BitAnd(1, 0x11) == 1;
    assert BitAnd(1, 8) == 0 && BitAnd(2, 0x11) == 0;
    assert BitAnd(1, 1) == 1 && BitAnd(2, 2) == 2 && BitAnd(4, 4) == 4;
    assert BitAnd(8, 8) == 8 && BitAnd(0x10, 0x11) == 0x10;
  }

  lemma ProtoSelected()
    ensures Selected(0x23, ProtoItems) == ["UBX", "NMEA", "RTCM3"]
  {
    ProtoBits();
    var items: seq<(nat, string)> := ProtoItems;
    assert Selected(0x23, items[..1]) == ["UBX"] by {
      assert |items[..1][..0]| == 0;
    }
    assert Selected(0x23, items[..2]) == ["UBX", "NMEA"] by {
      assert items[..2][..1] == items[..1];
    }
    assert Selected(0x23, items[..3]) == ["UBX", "NMEA"] by {
      assert items[..3][..2] == items[..2];
    }
    assert items[..3] == items[..|items| - 1];
  }

  lemma ProtoJoined()
    ensures Join(" ", ["UBX", "NMEA", "RTCM3"]) == "UBX NMEA RTCM3"
  {
    var ws: seq<string> := ["UBX", "NMEA", "RTCM3"];
    assert Join(" ", ws[2..]) == "RTCM3";
    assert ws[1..][1..] == ws[2..];
    assert Join(" ", ws[1..]) == "NMEA" + " " + "RTCM3";
    var text := "UBX" + " " + ("NMEA" + " " + "RTCM3");
    assert Join(" ", ws) == text;
    forall k | 0 <= k < 14 ensures text[k] == "UBX NMEA RTCM3"[k] {}
  }

  /** A mask with none of the keys' bits selects nothing and reads as the
      empty text. */
  lemma {:induction false} NoKeyBitsNoText(flag: nat, items: seq<(nat, string)>)
    requires forall i :: 0 <= i < |items| ==> items[i].0 != 0 && BitAnd(items[i].0, flag) == 0
    ensures Selected(flag, items) == [] && FlagText(flag, items) == ""
    decreases |items|
  {
    if items != [] {
      var pre := items[..|items| - 1];
      NoKeyBitsNoText(flag, pre);
      assert !Matches(items[|items| - 1].0, flag);
      assert Selected(flag, items) == [];
    }
    FlagWordsJoin(flag, items);
  }

  // ---------------------------------------------------------------------
  // Little-endian fields
  // ---------------------------------------------------------------------

  function U16(b: seq<Byte>, o: nat): (r: nat)
    requires o + 2 <= |b|
    ensures r < 0x1_0000
  {
    b[o] as int + 256 * (b[o + 1] as int)
  }

  function U32(b: seq<Byte>, o: nat): (r: nat)
    requires o + 4 <= |b|
    ensures r < 0x1_0000_0000
  {
    U16(b, o) + 0x1_0000 * U16(b, o + 2)
  }

  function LE16(n: nat): seq<Byte>
    requires n < 0x1_0000
  {
    [n % 256, n / 256]
  }

  function LE32(n: nat): seq<Byte>
    requires n < 0x1_0000_0000
  {
    LE16(n % 0x1_0000) + LE16(n / 0x1_0000)
  }

  lemma ReadLE16(pre: seq<Byte>, n: nat, post: seq<Byte>)
    requires n < 0x1_0000
    ensures U16(pre + LE16(n) + post, |pre|) == n
  {
    var b := pre + LE16(n) + post;
    assert b[|pre|] == n % 256 && b[|pre| + 1] == n / 256;
  }

  lemma ReadLE32(pre: seq<Byte>, n: nat, post: seq<Byte>)
    requires n < 0x1_0000_0000
    ensures U32(pre + LE32(n) + post, |pre|) == n
  {
    var b := pre + LE32(n) + post;
    assert b == pre + LE16(n % 0x1_0000) + (LE16(n / 0x1_0000) + post);
    ReadLE16(pre, n % 0x1_0000, LE16(n / 0x1_0000) + post);
    assert b == (pre + LE16(n % 0x1_0000)) + LE16(n / 0x1_0000) + post;
    ReadLE16(pre + LE16(n % 0x1_0000), n / 0x1_0000, post);
  }

  // ---------------------------------------------------------------------
  // ubx_decoder
  // ---------------------------------------------------------------------

  /** The fields of one 20-byte UBX-CFG-PRT block (`<BBHLLHHHH`). */
  datatype PortConfig = PortConfig(
    portId: Byte, reserved1: Byte, txReady: nat, mode: nat, baudRate: nat,
    inProtoMask: nat, outProtoMask: nat, flags: nat, reserved: nat)

  /** The fields of UBX-NAV-STATUS (`<LBBBBLL`). */
  datatype NavStatusFields = NavStatusFields(
    iTow: nat, gpsFix: Byte, flags: Byte, fixStat: Byte, flags2: Byte, ttff: nat, msss: nat)

  /** What a decoder hands to `print`: a fixed text, or the decoded fields. */
  datatype Decoded =
    | Text(text: string)
    | Port(idStr: string, cfg: PortConfig, slaveAddr: Option<nat>,
           inProto: string, outProto: string, flagsText: Option<string>)
    | NavStatus(nav: NavStatusFields)

  /** `port_ids.get(portid, '?')`. */
  function PortName(portId: Byte): string {
    if portId == 0 then "DDC"
    else if portId == 1 then "UART1"
    else if portId == 2 then "UART2"
    else if portId == 3 then "USB"
    else if portId == 4 then "SPI"
    else "?"
  }

  /** `'%u (%s)' % (portid, name)`. */
  function IdStr(portId: Byte): string {
    ShowNat(portId) + " (" + PortName(portId) + ")"
  }

  predicate PortConfigInRange(c: PortConfig) {
    c.txReady < 0x1_0000 && c.mode < 0x1_0000_0000 && c.baudRate < 0x1_0000_0000
    && c.inProtoMask < 0x1_0000 && c.outProtoMask < 0x1_0000
    && c.flags < 0x1_0000 && c.reserved < 0x1_0000
  }

  /** UBX-CFG-PRT: a poll request when empty, a port poll with one byte, a
      length error below 20 bytes, otherwise the first 20-byte block. */
  function CfgPrt(buf: seq<Byte>): Decoded
  {
    var mLen := |buf|;
    if mLen == 0 then Text(" Poll request")
    else
      var idStr := IdStr(buf[0]);
      if mLen == 1 then Text(" Poll request PortID " + idStr)
      else if mLen < 20 then Text("Bad Length " + ShowNat(mLen))
      else
        var c := PortConfig(buf[0], buf[1], U16(buf, 2), U32(buf, 4), U32(buf, 8),
                            U16(buf, 12), U16(buf, 14), U16(buf, 16), U16(buf, 18));
        Port(idStr, c,
             if c.portId == 0 then Some((c.mode / 2) % 128) else None,
             FlagText(c.inProtoMask, ProtoItems),
             FlagText(c.outProtoMask, ProtoItems),
             if c.portId in {1, 2, 4, 0} then Some(FlagText(c.flags, PortFlagItems)) else None)
  }

  /** The length guards of `cfg_prt`: every length below 20 gives a fixed
      text and never reads past the buffer; from 20 bytes on the block is
      decoded, with the I2C address for port 0 only and the flags text for
      ports 0, 1, 2 and 4 only. */
  lemma CfgPrtCases(buf: seq<Byte>)
    ensures var r := CfgPrt(buf);
      && (|buf| == 0 ==> r == Text(" Poll request"))
      && (|buf| == 1 ==> r == Text(" Poll request PortID " + IdStr(buf[0])))
      && (2 <= |buf| < 20 ==> r == Text("Bad Length " + ShowNat(|buf|)))
      && (r.Port? <==> |buf| >= 20)
      && (r.Port? ==> r.cfg.portId == buf[0] && r.idStr == IdStr(buf[0]) && PortConfigInRange(r.cfg))
      && (r.Port? ==> (r.slaveAddr.Some? <==> buf[0] == 0))
      && (r.Port? && buf[0] == 0 ==> r.slaveAddr == Some((r.cfg.mode / 2) % 128))
      && (r.Port? ==> (r.flagsText.Some? <==> buf[0] in {0, 1, 2, 4}))
  {
  }

  /** The 20-byte block that carries `c`. */
  function EncodePortConfig(c: PortConfig): (b: seq<Byte>)
    requires PortConfigInRange(c)
    ensures |b| == 20
  {
    [c.portId, c.reserved1] + LE16(c.txReady) + LE32(c.mode) + LE32(c.baudRate)
      + LE16(c.inProtoMask) + LE16(c.outProtoMask) + LE16(c.flags) + LE16(c.reserved)
  }

  /** Decoding an encoded block gives back every field. */
  lemma CfgPrtDecodesEncoding(c: PortConfig)
    requires PortConfigInRange(c)
    ensures CfgPrt(EncodePortConfig(c)).Port?
    ensures CfgPrt(EncodePortConfig(c)).cfg == c
    ensures CfgPrt(EncodePortConfig(c)).idStr == IdStr(c.portId)
  {
    var b := EncodePortConfig(c);
    var h: seq<Byte> := [c.portId, c.reserved1];
    ReadLE16(h, c.txReady, b[4..]);
    assert b == h + LE16(c.txReady) + b[4..];
    ReadLE32(b[..4], c.mode, b[8..]);
    assert b == b[..4] + LE32(c.mode) + b[8..];
    ReadLE32(b[..8], c.baudRate, b[12..]);
    assert b == b[..8] + LE32(c.baudRate) + b[12..];
    ReadLE16(b[..12], c.inProtoMask, b[14..]);
    assert b == b[..12] + LE16(c.inProtoMask) + b[14..];
    ReadLE16(b[..14], c.outProtoMask, b[16..]);
    assert b == b[..14] + LE16(c.outProtoMask) + b[16..];
    ReadLE16(b[..16], c.flags, b[18..]);
    assert b == b[..16] + LE16(c.flags) + b[18..];
    ReadLE16(b[..18], c.reserved, []);
    assert b == b[..18] + LE16(c.reserved) + [];
  }

  /** UBX-NAV-STATUS: a poll request when empty, a length error below 16
      bytes, otherwise the fields of the first 16 bytes. */
  function NavStatusDecode(buf: seq<Byte>): Decoded
  {
    var mLen := |buf|;
    if mLen == 0 then Text(" Poll request")
    else if mLen < 16 then Text(" Bad Length " + ShowNat(mLen))
    else NavStatus(NavStatusFields(U32(buf, 0), buf[4], buf[5], buf[6], buf[7], U32(buf, 8), U32(buf, 12)))
  }

  /** The length guards of `nav_status`, and the fields of a full message
      read from their offsets. */
  lemma NavStatusCases(buf: seq<Byte>)
    ensures var r := NavStatusDecode(buf);
      && (|buf| == 0 ==> r == Text(" Poll request"))
      && (1 <= |buf| < 16 ==> r == Text(" Bad Length " + ShowNat(|buf|)))
      && (r.NavStatus? <==> |buf| >= 16)
      && (r.NavStatus? ==> r.nav.iTow == U32(buf, 0) && r.nav.gpsFix == buf[4] && r.nav.flags == buf[5]
                           && r.nav.fixStat == buf[6] && r.nav.flags2 == buf[7]
                           && r.nav.ttff == U32(buf, 8) && r.nav.msss == U32(buf, 12))
  {
  }

  // ---------------------------------------------------------------------
  // Parser.process
  // ---------------------------------------------------------------------

  /** What handling one frame leads to: which decoder prints which payload,
      an SOS reply that is queued, the IndexError `sos_poll` raises on a
      payload shorter than five bytes, or nothing. */
  datatype Outcome =
    | CfgPrtPrinted(msg: seq<Byte>)
    | NavStatusPrinted(msg: seq<Byte>)
    | SosPolled(len: nat, byte4: Byte)
    | SosIndexError
    | Ignored

  function Decode(msgClass: Byte, msgId: Byte, msg: seq<Byte>): Outcome
  {
    if msgClass == 0x06 && msgId == 0x00 then CfgPrtPrinted(msg)
    else if msgClass == 0x01 && msgId == 0x03 then NavStatusPrinted(msg)
    else if msgClass == 0x09 && msgId == 0x14 then
      (if |msg| < 5 then SosIndexError else SosPolled(|msg|, msg[4]))
    else Ignored
  }

  /** What `print(decoded)` shows for an outcome. */
  function Shown(o: Outcome): Option<Decoded>
  {
    match o
    case CfgPrtPrinted(msg) => Some(CfgPrt(msg))
    case NavStatusPrinted(msg) => Some(NavStatusDecode(msg))
    case _ => None
  }

  /** Only UBX-CFG-PRT (06 00) and UBX-NAV-STATUS (01 03) are decoded and
      printed; only UBX-UPD-SOS (09 14) is queued, and raises IndexError
      when its payload is shorter than five bytes; every other frame is
      ignored. */
  lemma DecodeRoutes(msgClass: Byte, msgId: Byte, msg: seq<Byte>)
    ensures var o := Decode(msgClass, msgId, msg);
      && (Shown(o).Some? <==> (msgClass == 0x06 && msgId == 0x00) || (msgClass == 0x01 && msgId == 0x03))
      && (msgClass == 0x06 && msgId == 0x00 ==> Shown(o) == Some(CfgPrt(msg)))
      && (msgClass == 0x01 && msgId == 0x03 ==> Shown(o) == Some(NavStatusDecode(msg)))
      && ((o.SosPolled? || o.SosIndexError?) <==> msgClass == 0x09 && msgId == 0x14)
      && (o.SosIndexError? <==> msgClass == 0x09 && msgId == 0x14 && |msg| < 5)
      && (o.SosPolled? ==> o.len == |msg| && o.byte4 == msg[4])
  {
  }

  // ---------------------------------------------------------------------
  // The receive state machine of Parser.listen
  // ---------------------------------------------------------------------

  datatype PState = Init | Sync | Class | Id | Len1 | Len2 | Data | Crc1 | Crc2

  /** The loop variables of `listen`. */
  datatype Vars = Vars(state: PState, msgClass: Byte, msgId: Byte, msgLen: nat,
                       msgData: seq<Byte>, ofs: nat)

  datatype Frame = Frame(msgClass: Byte, msgId: Byte, payload: seq<Byte>)

  /** The variables after one byte, and the frame that byte completed, if any. */
  datatype Stepped = Stepped(vars: Vars, frame: Option<Frame>)

  /** The variables after a stream, and every frame completed on the way. */
  datatype Parsed = Parsed(vars: Vars, frames: seq<Frame>)

  const Start := Vars(Init, 0, 0, 0, [], 0)

  /** One byte through the state machine. */
  function Step(v: Vars, d: Byte): Stepped
  {
    match v.state
    case Init => Stepped(if d == 0xB5 then v.(state := Sync) else v, None)
    case Sync =>
      if d == 0x62 then Stepped(Vars(Class, 0, 0, 0, [], 0), None)
      else Stepped(v.(state := Init), None)
    case Class => Stepped(v.(msgClass := d, state := Id), None)
    case Id => Stepped(v.(msgId := d, state := Len1), None)
    case Len1 => Stepped(v.(msgLen := d, state := Len2), None)
    case Len2 => Stepped(v.(msgLen := v.msgLen + 256 * (d as int), state := Data), None)
    case Data =>
      var ofs := v.ofs + 1;
      Stepped(v.(msgData := v.msgData + [d], ofs := ofs,
                 state := if ofs == v.msgLen then Crc1 else Data), None)
    case Crc1 => Stepped(v.(state := Crc2), None)
    case Crc2 =>
      Stepped(Vars(Init, 0, 0, 0, [], v.ofs), Some(Frame(v.msgClass, v.msgId, v.msgData)))
  }

  function Emit(f: Option<Frame>): seq<Frame> {
    if f.Some? then [f.value] else []
  }

  function Feed(p: Parsed, d: Byte): Parsed {
    var s := Step(p.vars, d);
    Parsed(s.vars, p.frames + Emit(s.frame))
  }

  function Run(v: Vars, ds: seq<Byte>): Parsed
    decreases |ds|
  {
    if ds == [] then Parsed(v, [])
    else Feed(Run(v, ds[..|ds| - 1]), ds[|ds| - 1])
  }

  lemma RunSnoc(v: Vars, ds: seq<Byte>, d: Byte)
    ensures Run(v, ds + [d]) == Feed(Run(v, ds), d)
  {
    assert (ds + [d])[..|ds|] == ds;
  }

  lemma SnocSplit<T>(a: seq<T>, b: seq<T>)
    requires b != []
    ensures b == b[..|b| - 1] + [b[|b| - 1]]
    ensures a + b == (a + b[..|b| - 1]) + [b[|b| - 1]]
  {
    assert b == b[..|b| - 1] + [b[|b| - 1]];
  }

  /** Running two streams one after the other is running their concatenation. */
  lemma {:induction false} RunAppend(v: Vars, a: seq<Byte>, b: seq<Byte>)
    ensures Run(v, a + b) == Parsed(Run(Run(v, a).vars, b).vars, Run(v, a).frames + Run(Run(v, a).vars, b).frames)
    decreases |b|
  {
    var ra := Run(v, a);
    if b == [] {
      assert a + b == a;
      assert ra.frames + [] == ra.frames;
    } else {
      var b' := b[..|b| - 1];
      var d := b[|b| - 1];
      RunAppend(v, a, b');
      SnocSplit(a, b);
      RunSnoc(v, a + b', d);
      RunSnoc(ra.vars, b', d);
      var r' := Run(ra.vars, b');
      var s := Step(r'.vars, d);
      assert ra.frames + r'.frames + Emit(s.frame) == ra.frames + (r'.frames + Emit(s.frame));
    }
  }

  /** Without a 0xB5 the parser never leaves `init`. */
  lemma {:induction false} NoSyncStaysInit(v: Vars, ds: seq<Byte>)
    requires v.state == Init && 0xB5 !in ds
    ensures Run(v, ds) == Parsed(v, [])
    decreases |ds|
  {
    if ds != [] {
      var pre := ds[..|ds| - 1];
      assert ds[|ds| - 1] in ds;
      assert forall b :: b in pre ==> b in ds;
      NoSyncStaysInit(v, pre);
    }
  }

  /** From `sync` only 0x62 moves on; any other byte, a second 0xB5
      included, goes back to `init`. */
  lemma SyncTransitions(v: Vars, d: Byte)
    requires v.state == Sync
    ensures d == 0x62 ==> Step(v, d).vars == Vars(Class, 0, 0, 0, [], 0)
    ensures d != 0x62 ==> Step(v, d).vars.state == Init
    ensures Step(v, d).frame == None
  {
  }

  lemma DoubleSyncResets(v: Vars)
    requires v.state == Init
    ensures Run(v, [0xB5, 0xB5, 0x62]) == Parsed(v, [])
  {
    var ds: seq<Byte> := [0xB5, 0xB5, 0x62];
    RunSnoc(v, ds[..0], ds[0]); assert ds[..0] + [ds[0]] == ds[..1];
    RunSnoc(v, ds[..1], ds[1]); assert ds[..1] + [ds[1]] == ds[..2];
    RunSnoc(v, ds[..2], ds[2]); assert ds[..2] + [ds[2]] == ds;
  }

  /** The six header bytes: sync, class, id and the little-endian length. */
  function Header(c: Byte, i: Byte, len: nat): seq<Byte>
    requires len < 0x1_0000
  {
    [0xB5, 0x62, c, i, len % 256, len / 256]
  }

  lemma HeaderRun(v: Vars, c: Byte, i: Byte, len: nat)
    requires v.state == Init && len < 0x1_0000
    ensures Run(v, Header(c, i, len)) == Parsed(Vars(Data, c, i, len, [], 0), [])
  {
    var h := Header(c, i, len);
    RunSnoc(v, h[..0], h[0]); assert h[..0] + [h[0]] == h[..1];
    RunSnoc(v, h[..1], h[1]); assert h[..1] + [h[1]] == h[..2];
    RunSnoc(v, h[..2], h[2]); assert h[..2] + [h[2]] == h[..3];
    RunSnoc(v, h[..3], h[3]); assert h[..3] + [h[3]] == h[..4];
    RunSnoc(v, h[..4], h[4]); assert h[..4] + [h[4]] == h[..5];
    RunSnoc(v, h[..5], h[5]); assert h[..5] + [h[5]] == h;
    assert len % 256 + 256 * (len / 256) == len;
  }

  /** Before the last payload byte the parser stays in `data`, collecting. */
  lemma {:induction false} DataRun(v: Vars, bs: seq<Byte>)
    requires v.state == Data && v.ofs + |bs| < v.msgLen
    ensures Run(v, bs) == Parsed(v.(msgData := v.msgData + bs, ofs := v.ofs + |bs|), [])
    decreases |bs|
  {
    if bs == [] {
      assert v.msgData + bs == v.msgData;
    } else {
      var pre := bs[..|bs| - 1];
      DataRun(v, pre);
      assert pre + [bs[|bs| - 1]] == bs;
      assert v.msgData + pre + [bs[|bs| - 1]] == v.msgData + bs;
    }
  }

  /** For a length of at least one, the `data` state collects exactly that
      many bytes and then moves to `crc1`. */
  lemma PayloadRun(c: Byte, i: Byte, p: seq<Byte>)
    requires 1 <= |p|
    ensures Run(Vars(Data, c, i, |p|, [], 0), p) == Parsed(Vars(Crc1, c, i, |p|, p, |p|), [])
  {
    var v := Vars(Data, c, i, |p|, [], 0);
    var pre := p[..|p| - 1];
    var last := p[|p| - 1];
    DataRun(v, pre);
    assert [] + pre == pre;
    var w := Vars(Data, c, i, |p|, pre, |p| - 1);
    assert Run(v, pre) == Parsed(w, []);
    assert pre + [last] == p;
    RunSnoc(v, pre, last);
    assert Step(w, last) == Stepped(Vars(Crc1, c, i, |p|, p, |p|), None);
  }

  /** The two checksum bytes are consumed without comparison; the second
      hands the frame to `process` and clears the fields. */
  lemma ChecksumRun(v: Vars, cka: Byte, ckb: Byte)
    requires v.state == Crc1
    ensures Run(v, [cka, ckb]) == Parsed(Vars(Init, 0, 0, 0, [], v.ofs), [Frame(v.msgClass, v.msgId, v.msgData)])
  {
    var ck: seq<Byte> := [cka, ckb];
    RunSnoc(v, ck[..0], ck[0]); assert ck[..0] + [ck[0]] == ck[..1];
    RunSnoc(v, ck[..1], ck[1]); assert ck[..1] + [ck[1]] == ck;
  }

  lemma CommandIsHeader(c: Byte, i: Byte, p: seq<Byte>)
    requires |p| < 0x1_0000
    ensures [0xB5, 0x62] + Command(c, i, p) == Header(c, i, |p|) + p
  {
    var sync: seq<Byte> := [0xB5, 0x62];
    var hdr: seq<Byte> := [c, i, |p| % 256, |p| / 256];
    assert sync + hdr == Header(c, i, |p|);
    assert sync + (hdr + p) == (sync + hdr) + p;
  }

  /** Sync bytes, header and a non-empty payload leave the parser waiting
      for the checksum, holding the whole payload. */
  lemma HeaderPayloadRun(v: Vars, c: Byte, i: Byte, p: seq<Byte>)
    requires v.state == Init && 1 <= |p| < 0x1_0000
    ensures Run(v, [0xB5, 0x62] + Command(c, i, p)) == Parsed(Vars(Crc1, c, i, |p|, p, |p|), [])
  {
    var vd := Vars(Data, c, i, |p|, [], 0);
    HeaderRun(v, c, i, |p|);
    PayloadRun(c, i, p);
    RunAppend(v, Header(c, i, |p|), p);
    assert Run(v, Header(c, i, |p|) + p) == Parsed(Run(vd, p).vars, [] + Run(vd, p).frames);
    CommandIsHeader(c, i, p);
  }

  /** A well-formed frame with a non-empty payload is handed to `process`
      exactly once, unchanged, whatever its checksum, and the parser is back
      in `init` with cleared fields; only `ofs` keeps the payload length. */
  lemma FrameRoundTrip(v: Vars, c: Byte, i: Byte, p: seq<Byte>, cka: Byte, ckb: Byte)
    requires v.state == Init && 1 <= |p| < 0x1_0000
    ensures Run(v, [0xB5, 0x62] + Command(c, i, p) + [cka, ckb])
         == Parsed(Vars(Init, 0, 0, 0, [], |p|), [Frame(c, i, p)])
  {
    var m := [0xB5, 0x62] + Command(c, i, p);
    HeaderPayloadRun(v, c, i, p);
    var vc := Vars(Crc1, c, i, |p|, p, |p|);
    ChecksumRun(vc, cka, ckb);
    RunAppend(v, m, [cka, ckb]);
  }

  /** The frames built by module Ubx are received as sent. */
  lemma ReceivesFramed(c: Byte, i: Byte, p: seq<Byte>)
    requires 1 <= |p| < 0x1_0000
    ensures Run(Start, Framed(Command(c, i, p))).frames == [Frame(c, i, p)]
  {
    FrameRoundTrip(Start, c, i, p, ChecksumA(Command(c, i, p)), ChecksumB(Command(c, i, p)));
  }

  /** Once `ofs` has reached the length in `data`, no later byte ever makes
      them equal again: the parser is stuck in `data`. */
  lemma {:induction false} ZeroLengthTrap(v: Vars, ds: seq<Byte>)
    requires v.state == Data && v.ofs >= v.msgLen
    ensures Run(v, ds).vars.state == Data && Run(v, ds).vars.ofs >= v.msgLen
    ensures Run(v, ds).vars.msgLen == v.msgLen
    ensures Run(v, ds).frames == []
    decreases |ds|
  {
    if ds != [] {
      ZeroLengthTrap(v, ds[..|ds| - 1]);
    }
  }

  /** A frame that announces a zero-length payload silences the parser for
      good: nothing that follows reaches `process`. */
  lemma ZeroLengthFrameSilences(c: Byte, i: Byte, rest: seq<Byte>)
    ensures Run(Start, [0xB5, 0x62, c, i, 0, 0] + rest).frames == []
  {
    HeaderRun(Start, c, i, 0);
    assert Header(c, i, 0) == [0xB5, 0x62, c, i, 0, 0];
    RunAppend(Start, Header(c, i, 0), rest);
    ZeroLengthTrap(Vars(Data, c, i, 0, [], 0), rest);
  }

  // ---------------------------------------------------------------------
  // Dispatching the frames
  // ---------------------------------------------------------------------

  predicate NoCrash(outs: seq<Outcome>) {
    SosIndexError !in outs
  }

  /** `process` applied to every frame, in order. */
  function DecodeAll(fs: seq<Frame>): (outs: seq<Outcome>)
    ensures |outs| == |fs|
  {
    if fs == [] then []
    else
      var f := fs[|fs| - 1];
      DecodeAll(fs[..|fs| - 1]) + [Decode(f.msgClass, f.msgId, f.payload)]
  }

  lemma {:induction false} DecodeAllAppend(a: seq<Frame>, b: seq<Frame>)
    ensures DecodeAll(a + b) == DecodeAll(a) + DecodeAll(b)
    decreases |b|
  {
    if b == [] {
      assert a + b == a;
    } else {
      var b' := b[..|b| - 1];
      DecodeAllAppend(a, b');
      assert (a + b)[..|a + b| - 1] == a + b';
    }
  }

  /** Every outcome is the decoding of the frame at the same position. */
  lemma {:induction false} DecodeAllAt(fs: seq<Frame>, k: nat)
    requires k < |fs|
    ensures DecodeAll(fs)[k] == Decode(fs[k].msgClass, fs[k].msgId, fs[k].payload)
    decreases |fs|
  {
    if k < |fs| - 1 {
      DecodeAllAt(fs[..|fs| - 1], k);
    }
  }

  /** The outcomes up to and including the first IndexError, which ends
      `listen`. */
  function UntilCrash(outs: seq<Outcome>): (r: seq<Outcome>)
  {
    if outs == [] then []
    else if outs[0].SosIndexError? then [outs[0]]
    else [outs[0]] + UntilCrash(outs[1..])
  }

  /** What `listen` hands to `print`, in order, for a list of frames. */
  function Dispatch(fs: seq<Frame>): seq<Outcome> {
    UntilCrash(DecodeAll(fs))
  }

  /** The outcomes kept are a prefix of all of them; none before the last is
      an IndexError, and when some are dropped the last kept one is. */
  lemma {:induction false} UntilCrashPrefix(outs: seq<Outcome>)
    ensures var r := UntilCrash(outs);
      && r <= outs
      && (r == [] || NoCrash(r[..|r| - 1]))
      && (|r| < |outs| ==> r != [] && r[|r| - 1].SosIndexError?)
    decreases |outs|
  {
    if outs != [] && !outs[0].SosIndexError? {
      UntilCrashPrefix(outs[1..]);
      var r := UntilCrash(outs);
      var t := UntilCrash(outs[1..]);
      assert r == [outs[0]] + t;
      if t != [] {
        assert r[..|r| - 1] == [outs[0]] + t[..|t| - 1];
      }
    }
  }

  lemma {:induction false} UntilCrashNoCrash(outs: seq<Outcome>)
    requires NoCrash(outs)
    ensures UntilCrash(outs) == outs
    decreases |outs|
  {
    if outs != [] {
      UntilCrashNoCrash(outs[1..]);
    }
  }

  lemma {:induction false} UntilCrashStops(outs: seq<Outcome>, more: seq<Outcome>)
    requires outs != [] && outs[|outs| - 1].SosIndexError? && NoCrash(outs[..|outs| - 1])
    ensures UntilCrash(outs + more) == outs
    decreases |outs|
  {
    assert (outs + more)[0] == outs[0];
    if |outs| > 1 {
      assert !outs[0].SosIndexError?;
      assert (outs + more)[1..] == outs[1..] + more;
      assert outs[1..][..|outs[1..]| - 1] == outs[..|outs| - 1][1..];
      UntilCrashStops(outs[1..], more);
    }
  }

  /** `queue.put((cls, id))` for every SOS reply that was decoded. */
  function Puts(outs: seq<Outcome>): seq<(Byte, Byte)>
  {
    if outs == [] then []
    else Puts(outs[..|outs| - 1]) + (if outs[|outs| - 1].SosPolled? then [(0x09, 0x14)] else [])
  }

  /** After the frame that raised IndexError nothing else is processed. */
  lemma CrashIsFinal(stream: seq<Byte>, n: nat)
    requires n <= |stream|
    requires var outs := DecodeAll(Run(Start, stream[..n]).frames);
      outs != [] && outs[|outs| - 1].SosIndexError? && NoCrash(outs[..|outs| - 1])
    ensures Dispatch(Run(Start, stream).frames) == DecodeAll(Run(Start, stream[..n]).frames)
  {
    var pre := Run(Start, stream[..n]);
    var post := Run(pre.vars, stream[n..]);
    RunSplit(stream, n);
    DecodeAllAppend(pre.frames, post.frames);
    UntilCrashStops(DecodeAll(pre.frames), DecodeAll(post.frames));
  }

  lemma RunSplit(stream: seq<Byte>, n: nat)
    requires n <= |stream|
    ensures Run(Start, stream).frames
         == Run(Start, stream[..n]).frames + Run(Run(Start, stream[..n]).vars, stream[n..]).frames
  {
    RunAppend(Start, stream[..n], stream[n..]);
    assert stream[..n] + stream[n..] == stream;
  }

  /** The state machine after the first `n` bytes of the stream, counted by
      position (the same as `Run` on the prefix). */
  function RunPrefix(stream: seq<Byte>, n: nat): Parsed
    requires n <= |stream|
  {
    if n == 0 then Parsed(Start, []) else Feed(RunPrefix(stream, n - 1), stream[n - 1])
  }

  lemma {:induction false} RunPrefixIsRun(stream: seq<Byte>, n: nat)
    requires n <= |stream|
    ensures RunPrefix(stream, n) == Run(Start, stream[..n])
  {
    if n > 0 {
      RunPrefixIsRun(stream, n - 1);
      RunSnoc(Start, stream[..n - 1], stream[n - 1]);
      assert stream[..n - 1] + [stream[n - 1]] == stream[..n];
    }
  }

  /** The byte in `crc2` appends the collected frame to the frames so far. */
  lemma FrameAppended(stream: seq<Byte>, i: nat, p: Parsed)
    requires i < |stream| && p == RunPrefix(stream, i) && p.vars.state == Crc2
    ensures Run(Start, stream[..i + 1]).frames == p.frames + [Frame(p.vars.msgClass, p.vars.msgId, p.vars.msgData)]
  {
    RunPrefixIsRun(stream, i + 1);
  }

  /** The queue after one more outcome: the items already put, then the
      one for this outcome, if any. */
  lemma PutsSnoc(q: seq<(Byte, Byte)>, outs: seq<Outcome>, o: Outcome)
    ensures (q + Puts(outs)) + Puts([o]) == q + Puts(outs + [o])
  {
    assert (outs + [o])[..|outs|] == outs;
    assert [o][..0] == [];
  }

  /** `listen` after the first `i` bytes of the stream: the state machine's
      variables and the outcome of every frame completed so far, none of
      them an IndexError. */
  ghost predicate Listening(stream: seq<Byte>, i: nat, v: Vars, outs: seq<Outcome>) {
    i <= |stream| && v == RunPrefix(stream, i).vars
    && outs == DecodeAll(RunPrefix(stream, i).frames) && NoCrash(outs)
  }

  lemma NoFrameStep(stream: seq<Byte>, i: nat, v: Vars, outs: seq<Outcome>)
    requires i < |stream| && Listening(stream, i, v, outs) && v.state != Crc2
    ensures Listening(stream, i + 1, Step(v, stream[i]).vars, outs)
  {
    var p := RunPrefix(stream, i);
    assert p.frames + [] == p.frames;
  }

  lemma FrameStep(stream: seq<Byte>, i: nat, v: Vars, outs: seq<Outcome>)
    requires i < |stream| && Listening(stream, i, v, outs) && v.state == Crc2
    requires !Decode(v.msgClass, v.msgId, v.msgData).SosIndexError?
    ensures Listening(stream, i + 1, Step(v, stream[i]).vars, outs + [Decode(v.msgClass, v.msgId, v.msgData)])
  {
    var p := RunPrefix(stream, i);
    DecodeAllAppend(p.frames, [Frame(v.msgClass, v.msgId, v.msgData)]);
  }

  lemma CrashStep(stream: seq<Byte>, i: nat, v: Vars, outs: seq<Outcome>)
    requires i < |stream| && Listening(stream, i, v, outs) && v.state == Crc2
    requires Decode(v.msgClass, v.msgId, v.msgData).SosIndexError?
    ensures outs + [SosIndexError] == Dispatch(Run(Start, stream).frames)
  {
    var p := RunPrefix(stream, i);
    FrameAppended(stream, i, p);
    DecodeAllAppend(p.frames, [Frame(v.msgClass, v.msgId, v.msgData)]);
    assert (outs + [SosIndexError])[..|outs|] == outs;
    CrashIsFinal(stream, i + 1);
  }

  /** A stream that ends without an IndexError: every frame was processed. */
  lemma ListenDone(stream: seq<Byte>, v: Vars, outs: seq<Outcome>)
    requires Listening(stream, |stream|, v, outs)
    ensures outs == Dispatch(Run(Start, stream).frames)
  {
    RunPrefixIsRun(stream, |stream|);
    assert stream[..|stream|] == stream;
    UntilCrashNoCrash(outs);
  }

  /** What `listen` has printed and put on the queue when it ends. */
  datatype Listened = Listened(outs: seq<Outcome>, queue: seq<(Byte, Byte)>)

  /** The rest of `listen` from byte `i` on, with the state machine in `v`,
      the outcomes `outs` so far and the queue `q`: the loop, one byte per
      call, ending at the end of the stream or after an IndexError. */
  function ListenFrom(stream: seq<Byte>, i: nat, v: Vars, outs: seq<Outcome>, q: seq<(Byte, Byte)>): Listened
    decreases |stream| - i
  {
    if i >= |stream| then Listened(outs, q)
    else if v.state != Crc2 then ListenFrom(stream, i + 1, Step(v, stream[i]).vars, outs, q)
    else
      var o := Decode(v.msgClass, v.msgId, v.msgData);
      if o.SosIndexError? then Listened(outs + [o], q)
      else ListenFrom(stream, i + 1, Step(v, stream[i]).vars, outs + [o], q + Puts([o]))
  }

  /** The loop processes exactly the frames of the whole stream up to and
      including the first IndexError, and puts one queue item per SOS reply
      among them. */
  lemma {:induction false} ListenFromDispatch(stream: seq<Byte>, i: nat, v: Vars, outs: seq<Outcome>, q: seq<(Byte, Byte)>)
    requires i <= |stream| && Listening(stream, i, v, outs)
    ensures var d := Dispatch(Run(Start, stream).frames);
      ListenFrom(stream, i, v, outs, q + Puts(outs)) == Listened(d, q + Puts(d))
    decreases |stream| - i
  {
    if i == |stream| {
      ListenDone(stream, v, outs);
    } else if v.state != Crc2 {
      NoFrameStep(stream, i, v, outs);
      ListenFromDispatch(stream, i + 1, Step(v, stream[i]).vars, outs, q);
    } else {
      var o := Decode(v.msgClass, v.msgId, v.msgData);
      PutsSnoc(q, outs, o);
      if o.SosIndexError? {
        CrashStep(stream, i, v, outs);
        assert Puts([o]) == [];
        assert (q + Puts(outs)) + [] == q + Puts(outs);
      } else {
        FrameStep(stream, i, v, outs);
        ListenFromDispatch(stream, i + 1, Step(v, stream[i]).vars, outs + [o], q);
      }
    }
  }

  /** `listen` on a whole stream, from the initial state and an unchanged queue. */
  lemma ListenSpec(stream: seq<Byte>, q: seq<(Byte, Byte)>)
    ensures var r := ListenFrom(stream, 0, Start, [], q);
      r.outs == Dispatch(Run(Start, stream).frames) && r.queue == q + Puts(r.outs)
  {
    assert q + Puts([]) == q;
    ListenFromDispatch(stream, 0, Start, [], q);
  }

  class Parser {
    /** The queue shared with `GnssUBlox`, as the items put on it. */
    var queue: seq<(Byte, Byte)>

    constructor ()
      ensures queue == []
    {
      queue := [];
    }

    method Process(msgClass: Byte, msgId: Byte, msg: seq<Byte>) returns (o: Outcome)
      modifies this
      ensures o == Decode(msgClass, msgId, msg)
      ensures queue == old(queue) + Puts([o])
    {
      if msgClass == 0x06 && msgId == 0x00 {
        o := CfgPrtPrinted(msg);
      } else if msgClass == 0x01 && msgId == 0x03 {
        o := NavStatusPrinted(msg);
      } else if msgClass == 0x09 && msgId == 0x14 {
        if |msg| < 5 {
          o := SosIndexError;
          return;
        }
        o := SosPolled(|msg|, msg[4]);
        queue := queue + [(msgClass, msgId)];
      } else {
        o := Ignored;
      }
    }

    /** Feeds the received bytes through the state machine and processes
        every completed frame; an IndexError from `sos_poll` ends the loop.
        The loop variables of `listen` are kept together in one `Vars`. */
    method Listen(stream: seq<Byte>) returns (outs: seq<Outcome>)
      modifies this
      ensures Listened(outs, queue) == ListenFrom(stream, 0, Start, [], old(queue))
      ensures outs == Dispatch(Run(Start, stream).frames)
      ensures queue == old(queue) + Puts(outs)
    {
      var vars := Start;
      outs := [];
      var i := 0;
      while i < |stream|
        invariant i <= |stream|
        invariant ListenFrom(stream, i, vars, outs, queue) == ListenFrom(stream, 0, Start, [], old(queue))
      {
        var d := stream[i];
        if vars.state == Crc2 {
          var o := Process(vars.msgClass, vars.msgId, vars.msgData);
          outs := outs + [o];
          if o.SosIndexError? {
            ListenSpec(stream, old(queue));
            return;
          }
        }
        vars := Step(vars, d).vars;
        i := i + 1;
      }
      ListenSpec(stream, old(queue));
    }
  }
}
