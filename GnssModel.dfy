/** The GNSS driver facade of vcuui/gnss_model.py (class `Gnss`): caches of
    configuration messages read from the u-blox receiver, setters that
    read, modify and write a configuration message, and fixed command
    sequences. The ubxlib transport is abstract: what the facade hands to it
    is recorded in `sent`, and what a poll or a set returns is a parameter. */
module GnssModel {
  import opened Common

  // ---------------------------------------------------------------------
  // Python's integer bits
  // ---------------------------------------------------------------------

  /** Bit `k` of `x`. */
  function Bit(x: nat, k: nat): (b: nat)
    ensures b <= 1
  {
    if k == 0 then x % 2 else Bit(x / 2, k - 1)
  }

  function Pow2(k: nat): (p: nat)
    ensures p >= 1
  {
    if k == 0 then 1 else 2 * Pow2(k - 1)
  }

  /** Python `a & ~b` for a, b >= 0, bit by bit from the lowest. */
  function BitAndNot(a: nat, b: nat): nat
    decreases a
  {
    if a == 0 then 0
    else if b == 0 then a
    else 2 * BitAndNot(a / 2, b / 2) + (if a % 2 == 1 && b % 2 == 0 then 1 else 0)
  }

  lemma HalfOfDouble(x: nat, e: nat)
    requires e <= 1
    ensures (2 * x + e) / 2 == x && (2 * x + e) % 2 == e
  {
  }

  lemma {:induction false} BitOfOr(a: nat, b: nat, k: nat)
    ensures Bit(BitOr(a, b), k) == if Bit(a, k) == 1 || Bit(b, k) == 1 then 1 else 0
    decreases k
  {
    if a == 0 || b == 0 {
      BitOfZero(k);
    } else {
      HalfOfDouble(BitOr(a / 2, b / 2), if a % 2 == 1 || b % 2 == 1 then 1 else 0);
      if k > 0 {
        BitOfOr(a / 2, b / 2, k - 1);
      }
    }
  }

  lemma {:induction false} BitOfZero(k: nat)
    ensures Bit(0, k) == 0
  {
    if k > 0 {
      BitOfZero(k - 1);
    }
  }

  lemma {:induction false} BitOfAndNot(a: nat, b: nat, k: nat)
    ensures Bit(BitAndNot(a, b), k) == if Bit(a, k) == 1 && Bit(b, k) == 0 then 1 else 0
    decreases k
  {
    if a == 0 {
      BitOfZero(k);
    } else if b == 0 {
      BitOfZero(k);
    } else {
      HalfOfDouble(BitAndNot(a / 2, b / 2), if a % 2 == 1 && b % 2 == 0 then 1 else 0);
      if k > 0 {
        BitOfAndNot(a / 2, b / 2, k - 1);
      }
    }
  }

  /** `x & 2**k` is `2**k` when bit k is set and 0 otherwise. */
  lemma {:induction false} AndPow2(x: nat, k: nat)
    ensures BitAnd(x, Pow2(k)) == if Bit(x, k) == 1 then Pow2(k) else 0
    decreases k
  {
    if x == 0 {
      BitOfZero(k);
    } else if k > 0 {
      var p := Pow2(k - 1);
      AndPow2(x / 2, k - 1);
      AndDouble(x, p);
    }
  }

  /** A mask with a clear lowest bit keeps the halves' conjunction, doubled. */
  lemma AndDouble(x: nat, p: nat)
    requires x > 0 && p > 0
    ensures BitAnd(x, 2 * p) == 2 * BitAnd(x / 2, p)
  {
    HalfOfDouble(p, 0);
  }

  lemma {:induction false} BitOfPow2(j: nat, k: nat)
    ensures Bit(Pow2(j), k) == if j == k then 1 else 0
    decreases k
  {
    if j == 0 {
      if k > 0 {
        BitOfZero(k - 1);
      }
    } else {
      HalfOfDouble(Pow2(j - 1), 0);
      if k > 0 {
        BitOfPow2(j - 1, k - 1);
      }
    }
  }

  // ---------------------------------------------------------------------
  // The IMU auto-alignment bit of UBX-CFG-ESFALG
  // ---------------------------------------------------------------------

  /** `UbxCfgEsfAlg.BITFIELD_doAutoMntAlg`: bit 8 of the CFG-ESFALG bitfield
      in u-blox's receiver protocol description. */
  const DoAutoMntAlg: nat := 0x100

  lemma DoAutoMntAlgIsBit8()
    ensures DoAutoMntAlg == Pow2(8)
  {
  }

  /** `bool(bitfield & BITFIELD_doAutoMntAlg)`. */
  predicate AlignOn(bitfield: nat) {
    BitAnd(bitfield, DoAutoMntAlg) != 0
  }

  /** The bitfield after `|= BITFIELD_doAutoMntAlg` (on) or
      `&= ~BITFIELD_doAutoMntAlg` (off). */
  function WithAlign(bitfield: nat, on: bool): nat {
    if on then BitOr(bitfield, DoAutoMntAlg) else BitAndNot(bitfield, DoAutoMntAlg)
  }

  lemma AlignOnIsBit8(bitfield: nat)
    ensures AlignOn(bitfield) <==> Bit(bitfield, 8) == 1
  {
    DoAutoMntAlgIsBit8();
    AndPow2(bitfield, 8);
  }

  /** Setting or clearing the alignment flag changes bit 8 to the requested
      value and no other bit. */
  lemma WithAlignBits(bitfield: nat, on: bool)
    ensures Bit(WithAlign(bitfield, on), 8) == if on then 1 else 0
    ensures forall k: nat :: k != 8 ==> Bit(WithAlign(bitfield, on), k) == Bit(bitfield, k)
    ensures AlignOn(WithAlign(bitfield, on)) == on
  {
    DoAutoMntAlgIsBit8();
    forall k: nat
      ensures Bit(WithAlign(bitfield, on), k) == if k == 8 then (if on then 1 else 0) else Bit(bitfield, k)
    {
      BitOfPow2(8, k);
      if on {
        BitOfOr(bitfield, DoAutoMntAlg, k);
      } else {
        BitOfAndNot(bitfield, DoAutoMntAlg, k);
      }
    }
    AlignOnIsBit8(WithAlign(bitfield, on));
  }

  // ---------------------------------------------------------------------
  // Messages and requests
  // ---------------------------------------------------------------------

  /** UBX-MON-VER: the fields `version` reads. */
  datatype MonVer = MonVer(swVersion: string, hwVersion: string, extension1: string, extension2: string)
  /** UBX-CFG-PRT for the UART: baud rate and the rendered mode field. */
  datatype PortCfg = PortCfg(baudRate: nat, mode: string)
  /** UBX-CFG-NMEA: the NMEA version byte, 0x41 for version 4.1. */
  datatype NmeaCfg = NmeaCfg(nmeaVersion: Byte)
  /** UBX-CFG-NAV5: the dynamic platform model and every other field, which
      a setter writes back unchanged. */
  datatype Nav5Cfg = Nav5Cfg(dynModel: nat, others: seq<int>)
  /** UBX-CFG-ESFALG: the bitfield and the mounting angles in 1/100 degree. */
  datatype EsfAlgCfg = EsfAlgCfg(bitfield: nat, roll: int, pitch: int, yaw: int)
  datatype Lever = Lever(x: int, y: int, z: int)
  /** UBX-CFG-ESFLA: the two lever arms the facade reads. */
  datatype LeverArms = LeverArms(antenna: Lever, imu: Lever)
  /** UBX-ESF-ALG: the rendering `str(msg.get('flags'))` of its flags. */
  datatype EsfAlgState = EsfAlgState(flagsText: string)

  datatype PollKind = MonVerPoll | PrtPoll(portId: nat) | Nav5Poll | NmeaPoll | EsfAlgCfgPoll | EsflaPoll | EsfAlgPoll

  /** `UbxCfgPrtPoll.PORTID_Uart`: port 1 in u-blox's numbering. */
  const PortIdUart: nat := 1
  /** `UbxCfgCfgAction.MASK_NavConf`: bit 3, navigation configuration. */
  const MaskNavConf: nat := 0x08
  /** `UbxCfgEsflaSet.TYPE_VRP_Antenna` and `TYPE_VRP_IMU`: lever-arm types 0 and 1. */
  const TypeVrpAntenna: nat := 0
  const TypeVrpImu: nat := 1

  /** The messages the facade sets or sends. */
  datatype Msg =
    | Nav5(nav5: Nav5Cfg)
    | EsfAlg(esfAlg: EsfAlgCfg)
    | RstColdStart
    | RstStop
    | RstStart
    | CfgCfg(clearMask: nat, saveMask: nat, loadMask: nat)
    | SosSave
    | SosClear
    | EsflaSet(leverType: nat, lever: Lever)

  /** What the facade hands to the transport: `poll`, `set` (acknowledged)
      and `send` (not acknowledged). */
  datatype Request = Poll(kind: PollKind) | Set(msg: Msg) | Send(msg: Msg)

  /** The answers the setters and commands return, and their text. */
  datatype Answer =
    | Success
    | DynModelSet(model: nat)
    | DynModelKept
    | AlignSet(on: bool)
    | AlignKept
    | AnglesSet(roll: int, pitch: int, yaw: int)
    | VrpAntSet(antenna: Lever)
    | VrpImuSet(imu: Lever)
    | NotAccessible
    | NotAccesible

  function PyBool(b: bool): string {
    if b then "True" else "False"
  }

  /** Python's rendering of a three-entry dictionary of integers. */
  function Dict3(k1: string, v1: int, k2: string, v2: int, k3: string, v3: int): string {
    "{'" + k1 + "': " + ShowInt(v1) + ", '" + k2 + "': " + ShowInt(v2) + ", '" + k3 + "': " + ShowInt(v3) + "}"
  }

  function Text(a: Answer): string {
    match a
    case Success => "Success"
    case DynModelSet(m) => "Dynamic model set to " + ShowNat(m)
    case DynModelKept => "Dynamic model left as is"
    case AlignSet(on) => "IMU automatic alignment set to " + PyBool(on)
    case AlignKept => "IMU automatic alignment left as is"
    case AnglesSet(r, p, y) => "IMU angles set to " + Dict3("roll", r, "pitch", p, "yaw", y)
    case VrpAntSet(l) => "VRP Antenna distance set to " + Dict3("x", l.x, "y", l.y, "z", l.z)
    case VrpImuSet(l) => "VRP IMU distance set to " + Dict3("x", l.x, "y", l.y, "z", l.z)
    case NotAccessible => "Failed: GNSS not accessible."
    case NotAccesible => "Failed: GNSS not accesible."
  }

  // ---------------------------------------------------------------------
  // Caches
  // ---------------------------------------------------------------------

  /** A cached message after a read: re-polled when forced or when nothing
      is cached, kept otherwise. */
  function Reread<T>(cache: Option<T>, force: bool, reply: Option<T>): (r: Option<T>)
    ensures r == cache || r == reply
    ensures force ==> r == reply
    ensures cache.Some? && !force ==> r == cache && r.Some?
    ensures cache.None? ==> r == reply
  {
    if force || cache.None? then reply else cache
  }

  /** The poll a read issues, if any. */
  function PollIf<T>(cache: Option<T>, force: bool, kind: PollKind): (rs: seq<Request>)
    ensures rs == [] || rs == [Poll(kind)]
  {
    if force || cache.None? then [Poll(kind)] else []
  }

  /** Once a read has filled the cache, later reads that are not forced
      return the same message and issue no poll, whatever the transport
      would answer. */
  lemma FilledCacheStays<T>(cache: Option<T>, force: bool, reply: Option<T>, later: Option<T>, kind: PollKind)
    requires reply.Some?
    ensures var c := Reread(cache, force, reply);
      c.Some? && Reread(c, false, later) == c && PollIf(c, false, kind) == []
  {
  }

  /** All cache fields of `Gnss` at one moment. */
  datatype Caches = Caches(
    monVer: Option<MonVer>, cfgPort: Option<PortCfg>, cfgNmea: Option<NmeaCfg>,
    cfgNav5: Option<Nav5Cfg>, cfgEsfalg: Option<EsfAlgCfg>, cfgEsfla: Option<LeverArms>,
    esfAlg: Option<EsfAlgState>)

  /** `_clear_cached_values`: the configuration caches a change on the
      receiver can make stale. */
  function Cleared(c: Caches): Caches {
    c.(cfgNav5 := None, cfgEsfalg := None, cfgEsfla := None)
  }

  // ---------------------------------------------------------------------
  // Read-modify-write setters, as functions of the polled message
  // ---------------------------------------------------------------------

  /** `dynamic_model`: the platform model, or -1 without a message. */
  function DynModelValue(c: Option<Nav5Cfg>): int {
    if c.Some? then c.value.dynModel else -1
  }

  /** The NAV5 cache after `set_dynamic_model(m)` polled `reply`: the polled
      message is the cache, and the setter changes it in place. */
  function DynModelCache(m: nat, reply: Option<Nav5Cfg>): Option<Nav5Cfg> {
    if reply.Some? && reply.value.dynModel != m then Some(reply.value.(dynModel := m)) else reply
  }

  function DynModelWrites(m: nat, reply: Option<Nav5Cfg>): seq<Request> {
    if reply.Some? && reply.value.dynModel != m then [Set(Nav5(reply.value.(dynModel := m)))] else []
  }

  function DynModelAnswer(m: nat, reply: Option<Nav5Cfg>): Answer {
    if reply.None? then NotAccessible
    else if reply.value.dynModel != m then DynModelSet(m)
    else DynModelKept
  }

  /** `set_dynamic_model` writes exactly when the receiver answered with a
      different model, and then exactly one message: the polled one with
      only the model replaced. After it, the cache reads back the requested
      model, and repeating the request with the receiver answering what was
      written leaves it as is. */
  lemma DynModelWriteOnChange(m: nat, reply: Option<Nav5Cfg>)
    ensures DynModelWrites(m, reply) != [] <==> reply.Some? && reply.value.dynModel != m
    ensures DynModelWrites(m, reply) != [] ==>
      DynModelWrites(m, reply) == [Set(Nav5(Nav5Cfg(m, reply.value.others)))]
    ensures reply.Some? ==> DynModelValue(DynModelCache(m, reply)) == m
    ensures reply.None? ==> DynModelValue(DynModelCache(m, reply)) == -1
    ensures reply.Some? ==> var again := DynModelCache(m, reply);
      DynModelWrites(m, again) == [] && DynModelAnswer(m, again) == DynModelKept
  {
  }

  /** `auto_align`: 1 or 0 for the flag (Python's True and False), or -1
      without a message. */
  function AlignValue(c: Option<EsfAlgCfg>): int {
    if c.None? then -1 else if AlignOn(c.value.bitfield) then 1 else 0
  }

  function AlignCache(on: bool, reply: Option<EsfAlgCfg>): Option<EsfAlgCfg> {
    if reply.Some? && on != AlignOn(reply.value.bitfield)
    then Some(reply.value.(bitfield := WithAlign(reply.value.bitfield, on)))
    else reply
  }

  function AlignWrites(on: bool, reply: Option<EsfAlgCfg>): seq<Request> {
    if reply.Some? && on != AlignOn(reply.value.bitfield)
    then [Set(EsfAlg(reply.value.(bitfield := WithAlign(reply.value.bitfield, on))))]
    else []
  }

  function AlignAnswer(on: bool, reply: Option<EsfAlgCfg>): Answer {
    if reply.None? then NotAccessible
    else if on != AlignOn(reply.value.bitfield) then AlignSet(on)
    else AlignKept
  }

  /** `set_auto_align` writes only when the flag differs from the request;
      the message written differs from the polled one in bit 8 of the
      bitfield only; the cache then reads back the requested mode, and a
      repeated request is left as is. */
  lemma AlignWriteOnChange(on: bool, reply: Option<EsfAlgCfg>)
    ensures AlignWrites(on, reply) != [] <==> reply.Some? && on != AlignOn(reply.value.bitfield)
    ensures AlignWrites(on, reply) != [] ==> var w := AlignWrites(on, reply)[0].msg.esfAlg;
      && w.roll == reply.value.roll && w.pitch == reply.value.pitch && w.yaw == reply.value.yaw
      && Bit(w.bitfield, 8) == (if on then 1 else 0)
      && (forall k: nat :: k != 8 ==> Bit(w.bitfield, k) == Bit(reply.value.bitfield, k))
    ensures reply.Some? ==> AlignValue(AlignCache(on, reply)) == if on then 1 else 0
    ensures reply.Some? ==> var again := AlignCache(on, reply);
      AlignWrites(on, again) == [] && AlignAnswer(on, again) == AlignKept
  {
    if reply.Some? {
      WithAlignBits(reply.value.bitfield, on);
    }
  }

  // ---------------------------------------------------------------------
  // Text derived from cached messages
  // ---------------------------------------------------------------------

  /** The characters `rstrip('\0x00')` removes: NUL, 'x' and '0' (the
      argument is a set of characters, not the NUL escape it resembles). */
  predicate Stripped(c: char) {
    c == '\0' || c == 'x' || c == '0'
  }

  /** `sanitize` as written: drops every trailing NUL, 'x' and '0'; what
      remains is a prefix of the input that does not end in one of them, and
      everything dropped is one of them. */
  function Sanitize(s: string): (r: string)
    ensures r <= s
    ensures r == [] || !Stripped(r[|r| - 1])
    ensures forall i :: |r| <= i < |s| ==> Stripped(s[i])
  {
    if s != [] && Stripped(s[|s| - 1]) then Sanitize(s[..|s| - 1]) else s
  }

  /** The protocol version of the example in `version`'s own documentation,
      "PROTVER=19.20", comes out as "19.2", and a hardware version
      "00080000" padded with NULs as "0008". */
  lemma SanitizeDropsDigits()
    ensures Sanitize("19.20") == "19.2"
    ensures Sanitize("00080000\0\0") == "0008"
    ensures StripNul("19.20") == "19.20"
    ensures StripNul("00080000\0\0") == "00080000"
  {
    assert "19.20"[..4] == "19.2";
    assert "00080000\0\0"[..9] == "00080000\0";
    assert "00080000\0"[..8] == "00080000";
    assert "00080000"[..7] == "0008000";
    assert "0008000"[..6] == "000800";
    assert "000800"[..5] == "00080";
    assert "00080"[..4] == "0008";
  }

  /** The evidently intended `rstrip('\0')`: only the NUL padding of the
      fixed-size string fields is dropped. */
  function StripNul(s: string): (r: string)
    ensures r <= s
    ensures r == [] || r[|r| - 1] != '\0'
    ensures forall i :: |r| <= i < |s| ==> s[i] == '\0'
  {
    if s != [] && s[|s| - 1] == '\0' then StripNul(s[..|s| - 1]) else s
  }

  /** A string that does not end in NUL comes back whole from any amount of
      NUL padding. */
  lemma {:induction false} StripNulPadding(s: string, n: nat)
    requires s == [] || s[|s| - 1] != '\0'
    ensures StripNul(s + seq(n, _ => '\0')) == s
    decreases n
  {
    if n > 0 {
      var p := s + seq(n, _ => '\0');
      assert p[..|p| - 1] == s + seq(n - 1, _ => '\0');
      StripNulPadding(s, n - 1);
    } else {
      assert s + seq(n, _ => '\0') == s;
    }
  }

  lemma StripNulIdempotent(s: string)
    ensures StripNul(StripNul(s)) == StripNul(s)
  {
  }

  /** `nmea_protocol`: the version byte as "<high nibble>.<low nibble>", or
      "0.0" without a message. */
  function NmeaText(c: Option<NmeaCfg>): string {
    if c.Some? then ShowNat(c.value.nmeaVersion / 16) + "." + ShowNat(c.value.nmeaVersion % 16)
    else "0.0"
  }

  lemma ShowNatNoDot(n: nat)
    ensures '.' !in ShowNat(n)
  {
  }

  /** The text splits at its only '.' into two decimal numbers that give the
      version byte back as 16 * high + low, with the low one below 16. */
  lemma NmeaTextRoundTrip(v: Byte)
    ensures var parts := Split(NmeaText(Some(NmeaCfg(v))), '.');
      && |parts| == 2
      && ParseInt(parts[0], 10).Some? && ParseInt(parts[1], 10).Some?
      && 16 * ParseInt(parts[0], 10).value + ParseInt(parts[1], 10).value == v
      && 0 <= ParseInt(parts[1], 10).value < 16
  {
    var hi := ShowNat(v / 16);
    var lo := ShowNat(v % 16);
    ShowNatNoDot(v / 16);
    ShowNatNoDot(v % 16);
    assert Join(".", [hi, lo]) == hi + "." + lo;
    SplitJoin([hi, lo], '.');
    ParseShowNat(v / 16);
    ParseShowNat(v % 16);
  }

  lemma NmeaTextExamples()
    ensures NmeaText(Some(NmeaCfg(0x41))) == "4.1"
    ensures NmeaText(Some(NmeaCfg(0x23))) == "2.3"
    ensures NmeaText(None) == "0.0"
  {
  }

  /** `s.split('=')[1]`, which raises IndexError without a '='. */
  function AfterEquals(s: string): Raising<string> {
    var parts := Split(s, '=');
    if |parts| >= 2 then Returned(parts[1]) else Raised("IndexError")
  }

  /** `version`: the four version strings without their NUL padding (see
      `Sanitize` for the stripping as written), or "n/a" without a message. */
  function VersionInfo(c: Option<MonVer>): Raising<map<string, string>> {
    if c.None? then
      Returned(map["swVersion" := "n/a", "hwVersion" := "n/a", "fwVersion" := "n/a", "protocol" := "n/a"])
    else
      var fw := AfterEquals(c.value.extension1);
      var proto := AfterEquals(c.value.extension2);
      if fw.Raised? then Raised(fw.error)
      else if proto.Raised? then Raised(proto.error)
      else Returned(map["swVersion" := StripNul(c.value.swVersion), "hwVersion" := StripNul(c.value.hwVersion),
                        "fwVersion" := StripNul(fw.value), "protocol" := StripNul(proto.value)])
  }

  /** The firmware and protocol versions are the text after "KEY=" of the
      second and third extension lines; an extension without '=' raises. */
  lemma VersionFields(sw: string, hw: string, key1: string, fw: string, key2: string, proto: string)
    requires '=' !in key1 && '=' !in fw && '=' !in key2 && '=' !in proto
    ensures var r := VersionInfo(Some(MonVer(sw, hw, key1 + "=" + fw, key2 + "=" + proto)));
      r.Returned? && r.value["fwVersion"] == StripNul(fw) && r.value["protocol"] == StripNul(proto)
  {
    assert Join("=", [key1, fw]) == key1 + "=" + fw;
    assert Join("=", [key2, proto]) == key2 + "=" + proto;
    SplitJoin([key1, fw], '=');
    SplitJoin([key2, proto], '=');
  }

  lemma VersionNeedsEquals(sw: string, hw: string, e1: string, e2: string)
    requires '=' !in e1
    ensures VersionInfo(Some(MonVer(sw, hw, e1, e2))).Raised?
  {
    assert Split(e1, '=') == [e1] by {
      assert Join("=", [e1]) == e1;
      SplitJoin([e1], '=');
    }
  }

  /** `auto_align_state`: the flags text after its "flags: " label, or
      "<error>" without a message (Python's slice past the end is empty). */
  function AlignStateText(c: Option<EsfAlgState>): string {
    if c.None? then "<error>"
    else if |c.value.flagsText| <= 7 then ""
    else c.value.flagsText[7..]
  }

  lemma AlignStateTextDropsLabel(rest: string)
    ensures AlignStateText(Some(EsfAlgState("flags: " + rest))) == rest
  {
    assert ("flags: " + rest)[7..] == rest;
  }

  // ---------------------------------------------------------------------
  // Lever arms
  // ---------------------------------------------------------------------

  function Pick(arms: LeverArms, leverType: nat): Lever {
    if leverType == TypeVrpImu then arms.imu else arms.antenna
  }

  const NoLever: Lever := Lever(0, 0, 0)

  /** `_cfg_vrp_ant`/`_cfg_vrp_imu` followed by `vrp_ant`/`vrp_imu`, as
      written: the lever arm is read from the cache without checking it, so
      a failed poll raises AttributeError instead of reaching the zero
      default of the caller. */
  function LeverAsWritten(cache: Option<LeverArms>, reply: Option<LeverArms>, leverType: nat): Raising<Lever> {
    var c := Reread(cache, false, reply);
    if c.None? then Raised("AttributeError") else Returned(Pick(c.value, leverType))
  }

  lemma LeverAsWrittenRaises(leverType: nat)
    ensures LeverAsWritten(None, None, leverType) == Raised("AttributeError")
  {
  }

  /** The same read with the check the caller's default implies: zero lever
      arms when the receiver does not answer. */
  function LeverRead(cache: Option<LeverArms>, reply: Option<LeverArms>, leverType: nat): (l: Lever)
    ensures Reread(cache, false, reply).None? ==> l == NoLever
  {
    var c := Reread(cache, false, reply);
    if c.None? then NoLever else Pick(c.value, leverType)
  }

  /** Wherever the code as written returns, the corrected read returns the
      same lever arm; it differs only where the code raises. */
  lemma LeverReadAgrees(cache: Option<LeverArms>, reply: Option<LeverArms>, leverType: nat)
    ensures LeverAsWritten(cache, reply, leverType).Returned? ==>
      LeverRead(cache, reply, leverType) == LeverAsWritten(cache, reply, leverType).value
    ensures LeverAsWritten(cache, reply, leverType).Raised? <==> cache.None? && reply.None?
  {
  }

  // ---------------------------------------------------------------------
  // The facade
  // ---------------------------------------------------------------------

  class Gnss {
    var monVer: Option<MonVer>
    var cfgPort: Option<PortCfg>
    var cfgNmea: Option<NmeaCfg>
    var cfgNav5: Option<Nav5Cfg>
    var cfgEsfalg: Option<EsfAlgCfg>
    var cfgEsfla: Option<LeverArms>
    var esfAlg: Option<EsfAlgState>
    /** Every request handed to the transport, oldest first. */
    var sent: seq<Request>

    function State(): Caches
      reads this
    {
      Caches(monVer, cfgPort, cfgNmea, cfgNav5, cfgEsfalg, cfgEsfla, esfAlg)
    }

    constructor ()
      ensures State() == Caches(None, None, None, None, None, None, None) && sent == []
    {
      monVer := None;
      cfgPort := None;
      cfgNmea := None;
      cfgNav5 := None;
      cfgEsfalg := None;
      cfgEsfla := None;
      esfAlg := None;
      sent := [];
    }

    /** Drops the live values so that the next page load re-reads them. */
    method Invalidate()
      modifies this
      ensures State() == old(State()).(cfgEsfalg := None, esfAlg := None) && sent == old(sent)
    {
      cfgEsfalg := None;
      esfAlg := None;
    }

    method ClearCachedValues()
      modifies this
      ensures State() == Cleared(old(State())) && sent == old(sent)
    {
      cfgNav5 := None;
      cfgEsfalg := None;
      cfgEsfla := None;
    }

    method ReadMonVer(reply: Option<MonVer>) returns (r: Option<MonVer>)
      modifies this
      ensures r == Reread(old(monVer), false, reply)
      ensures State() == old(State()).(monVer := r)
      ensures sent == old(sent) + PollIf(old(monVer), false, MonVerPoll)
    {
      if monVer.None? {
        sent := sent + [Poll(MonVerPoll)];
        monVer := reply;
      }
      r := monVer;
    }

    method ReadCfgPort(reply: Option<PortCfg>) returns (r: Option<PortCfg>)
      modifies this
      ensures r == Reread(old(cfgPort), false, reply)
      ensures State() == old(State()).(cfgPort := r)
      ensures sent == old(sent) + PollIf(old(cfgPort), false, PrtPoll(PortIdUart))
    {
      if cfgPort.None? {
        sent := sent + [Poll(PrtPoll(PortIdUart))];
        cfgPort := reply;
      }
      r := cfgPort;
    }

    method ReadCfgNav5(force: bool, reply: Option<Nav5Cfg>) returns (r: Option<Nav5Cfg>)
      modifies this
      ensures r == Reread(old(cfgNav5), force, reply)
      ensures State() == old(State()).(cfgNav5 := r)
      ensures sent == old(sent) + PollIf(old(cfgNav5), force, Nav5Poll)
    {
      if force || cfgNav5.None? {
        sent := sent + [Poll(Nav5Poll)];
        cfgNav5 := reply;
      }
      r := cfgNav5;
    }

    method ReadCfgNmea(reply: Option<NmeaCfg>) returns (r: Option<NmeaCfg>)
      modifies this
      ensures r == Reread(old(cfgNmea), false, reply)
      ensures State() == old(State()).(cfgNmea := r)
      ensures sent == old(sent) + PollIf(old(cfgNmea), false, NmeaPoll)
    {
      if cfgNmea.None? {
        sent := sent + [Poll(NmeaPoll)];
        cfgNmea := reply;
      }
      r := cfgNmea;
    }

    method ReadCfgEsfalg(force: bool, reply: Option<EsfAlgCfg>) returns (r: Option<EsfAlgCfg>)
      modifies this
      ensures r == Reread(old(cfgEsfalg), force, reply)
      ensures State() == old(State()).(cfgEsfalg := r)
      ensures sent == old(sent) + PollIf(old(cfgEsfalg), force, EsfAlgCfgPoll)
    {
      if force || cfgEsfalg.None? {
        sent := sent + [Poll(EsfAlgCfgPoll)];
        cfgEsfalg := reply;
      }
      r := cfgEsfalg;
    }

    /** `_cfg_vrp_ant` / `_cfg_vrp_imu` with the cache check the callers'
        defaults imply (see `LeverAsWritten`). */
    method ReadLever(leverType: nat, reply: Option<LeverArms>) returns (l: Lever)
      modifies this
      ensures l == LeverRead(old(cfgEsfla), reply, leverType)
      ensures State() == old(State()).(cfgEsfla := Reread(old(cfgEsfla), false, reply))
      ensures sent == old(sent) + PollIf(old(cfgEsfla), false, EsflaPoll)
    {
      if cfgEsfla.None? {
        sent := sent + [Poll(EsflaPoll)];
        cfgEsfla := reply;
      }
      if cfgEsfla.None? {
        l := NoLever;
      } else {
        l := Pick(cfgEsfla.value, leverType);
      }
    }

    method Version(reply: Option<MonVer>) returns (r: Raising<map<string, string>>)
      modifies this
      ensures r == VersionInfo(Reread(old(monVer), false, reply))
      ensures State() == old(State()).(monVer := Reread(old(monVer), false, reply))
      ensures sent == old(sent) + PollIf(old(monVer), false, MonVerPoll)
    {
      var ver := ReadMonVer(reply);
      r := VersionInfo(ver);
    }

    /** `uart_settings`: bit rate and mode of the UART, or 0 and "n/a". */
    method UartSettings(reply: Option<PortCfg>) returns (bitrate: nat, mode: string)
      modifies this
      ensures var c := Reread(old(cfgPort), false, reply);
        if c.Some? then bitrate == c.value.baudRate && mode == c.value.mode
        else bitrate == 0 && mode == "n/a"
      ensures State() == old(State()).(cfgPort := Reread(old(cfgPort), false, reply))
      ensures sent == old(sent) + PollIf(old(cfgPort), false, PrtPoll(PortIdUart))
    {
      var cfg := ReadCfgPort(reply);
      if cfg.Some? {
        bitrate := cfg.value.baudRate;
        mode := cfg.value.mode;
      } else {
        bitrate := 0;
        mode := "n/a";
      }
    }

    method NmeaProtocol(reply: Option<NmeaCfg>) returns (s: string)
      modifies this
      ensures s == NmeaText(Reread(old(cfgNmea), false, reply))
      ensures State() == old(State()).(cfgNmea := Reread(old(cfgNmea), false, reply))
      ensures sent == old(sent) + PollIf(old(cfgNmea), false, NmeaPoll)
    {
      var res := ReadCfgNmea(reply);
      var ver, rev;
      if res.Some? {
        var verInHex := res.value.nmeaVersion;
        ver := verInHex / 16;
        rev := verInHex % 16;
      } else {
        ver := 0;
        rev := 0;
      }
      s := ShowNat(ver) + "." + ShowNat(rev);
    }

    method ColdStart() returns (a: Answer)
      modifies this
      ensures a == Success
      ensures State() == Cleared(old(State()))
      ensures sent == old(sent) + [Send(RstColdStart)]
    {
      sent := sent + [Send(RstColdStart)];
      ClearCachedValues();
      a := Success;
    }

    method SaveConfig() returns (a: Answer)
      modifies this
      ensures a == Success
      ensures State() == old(State())
      ensures sent == old(sent) + [Set(CfgCfg(0, MaskNavConf, 0))]
    {
      sent := sent + [Set(CfgCfg(0, MaskNavConf, 0))];
      a := Success;
    }

    method ResetConfig() returns (a: Answer)
      modifies this
      ensures a == Success
      ensures State() == Cleared(old(State()))
      ensures sent == old(sent) + [Set(CfgCfg(MaskNavConf, 0, MaskNavConf))]
    {
      sent := sent + [Set(CfgCfg(MaskNavConf, 0, MaskNavConf))];
      ClearCachedValues();
      a := Success;
    }

    /** Save on shutdown: stop the receiver, save its state, start it again. */
    method SaveState() returns (a: Answer)
      modifies this
      ensures a == Success
      ensures State() == old(State())
      ensures sent == old(sent) + [Send(RstStop), Set(SosSave), Send(RstStart)]
    {
      sent := sent + [Send(RstStop)];
      sent := sent + [Set(SosSave)];
      sent := sent + [Send(RstStart)];
      a := Success;
    }

    method ClearState() returns (a: Answer)
      modifies this
      ensures a == Success
      ensures State() == old(State())
      ensures sent == old(sent) + [Set(SosClear)]
    {
      sent := sent + [Set(SosClear)];
      a := Success;
    }

    method DynamicModel(reply: Option<Nav5Cfg>) returns (m: int)
      modifies this
      ensures m == DynModelValue(Reread(old(cfgNav5), false, reply))
      ensures State() == old(State()).(cfgNav5 := Reread(old(cfgNav5), false, reply))
      ensures sent == old(sent) + PollIf(old(cfgNav5), false, Nav5Poll)
    {
      var res := ReadCfgNav5(false, reply);
      if res.Some? {
        m := res.value.dynModel;
      } else {
        m := -1;
      }
    }

    method SetDynamicModel(dynModel: nat, reply: Option<Nav5Cfg>) returns (a: Answer)
      requires dynModel <= 7
      modifies this
      ensures a == DynModelAnswer(dynModel, reply)
      ensures State() == old(State()).(cfgNav5 := DynModelCache(dynModel, reply))
      ensures sent == old(sent) + [Poll(Nav5Poll)] + DynModelWrites(dynModel, reply)
    {
      var res := ReadCfgNav5(true, reply);
      if res.Some? {
        if dynModel != res.value.dynModel {
          cfgNav5 := Some(res.value.(dynModel := dynModel));
          sent := sent + [Set(Nav5(cfgNav5.value))];
          a := DynModelSet(dynModel);
        } else {
          a := DynModelKept;
        }
      } else {
        a := NotAccessible;
      }
    }

    method AutoAlign(reply: Option<EsfAlgCfg>) returns (v: int)
      modifies this
      ensures v == AlignValue(Reread(old(cfgEsfalg), false, reply))
      ensures State() == old(State()).(cfgEsfalg := Reread(old(cfgEsfalg), false, reply))
      ensures sent == old(sent) + PollIf(old(cfgEsfalg), false, EsfAlgCfgPoll)
    {
      var res := ReadCfgEsfalg(false, reply);
      if res.Some? {
        v := if BitAnd(res.value.bitfield, DoAutoMntAlg) != 0 then 1 else 0;
      } else {
        v := -1;
      }
    }

    method SetAutoAlign(alignMode: bool, reply: Option<EsfAlgCfg>) returns (a: Answer)
      modifies this
      ensures a == AlignAnswer(alignMode, reply)
      ensures State() == old(State()).(cfgEsfalg := AlignCache(alignMode, reply))
      ensures sent == old(sent) + [Poll(EsfAlgCfgPoll)] + AlignWrites(alignMode, reply)
    {
      var res := ReadCfgEsfalg(true, reply);
      if res.Some? {
        var current := BitAnd(res.value.bitfield, DoAutoMntAlg) != 0;
        if alignMode != current {
          var bitfield := res.value.bitfield;
          if alignMode {
            bitfield := BitOr(bitfield, DoAutoMntAlg);
          } else {
            bitfield := BitAndNot(bitfield, DoAutoMntAlg);
          }
          cfgEsfalg := Some(res.value.(bitfield := bitfield));
          sent := sent + [Set(EsfAlg(cfgEsfalg.value))];
          a := AlignSet(alignMode);
        } else {
          a := AlignKept;
        }
      } else {
        a := NotAccessible;
      }
    }

    /** Writes the three mounting angles (in 1/100 degree) unconditionally
        when the receiver answers. */
    method SetImuCfgAngles(roll: int, pitch: int, yaw: int, reply: Option<EsfAlgCfg>) returns (a: Answer)
      modifies this
      ensures reply.None? ==>
        && a == NotAccesible
        && State() == old(State()).(cfgEsfalg := None)
        && sent == old(sent) + [Poll(EsfAlgCfgPoll)]
      ensures reply.Some? ==> var w := reply.value.(roll := roll, pitch := pitch, yaw := yaw);
        && a == AnglesSet(roll, pitch, yaw)
        && State() == old(State()).(cfgEsfalg := Some(w))
        && sent == old(sent) + [Poll(EsfAlgCfgPoll), Set(EsfAlg(w))]
    {
      var res := ReadCfgEsfalg(true, reply);
      if res.Some? {
        cfgEsfalg := Some(res.value.(roll := roll, pitch := pitch, yaw := yaw));
        sent := sent + [Set(EsfAlg(cfgEsfalg.value))];
        a := AnglesSet(roll, pitch, yaw);
      } else {
        a := NotAccesible;
      }
    }

    method VrpAnt(reply: Option<LeverArms>) returns (l: Lever)
      modifies this
      ensures l == LeverRead(old(cfgEsfla), reply, TypeVrpAntenna)
      ensures State() == old(State()).(cfgEsfla := Reread(old(cfgEsfla), false, reply))
      ensures sent == old(sent) + PollIf(old(cfgEsfla), false, EsflaPoll)
    {
      l := ReadLever(TypeVrpAntenna, reply);
    }

    method VrpImu(reply: Option<LeverArms>) returns (l: Lever)
      modifies this
      ensures l == LeverRead(old(cfgEsfla), reply, TypeVrpImu)
      ensures State() == old(State()).(cfgEsfla := Reread(old(cfgEsfla), false, reply))
      ensures sent == old(sent) + PollIf(old(cfgEsfla), false, EsflaPoll)
    {
      l := ReadLever(TypeVrpImu, reply);
    }

    /** Writes a lever arm; the cached lever arms are dropped whether or not
        the receiver acknowledged. */
    method SetVrp(leverType: nat, lever: Lever, acked: bool) returns (a: Answer)
      requires leverType == TypeVrpAntenna || leverType == TypeVrpImu
      modifies this
      ensures a == (if !acked then NotAccessible
                    else if leverType == TypeVrpAntenna then VrpAntSet(lever) else VrpImuSet(lever))
      ensures State() == old(State()).(cfgEsfla := None)
      ensures sent == old(sent) + [Set(EsflaSet(leverType, lever))]
    {
      sent := sent + [Set(EsflaSet(leverType, lever))];
      if acked {
        a := if leverType == TypeVrpAntenna then VrpAntSet(lever) else VrpImuSet(lever);
      } else {
        a := NotAccessible;
      }
      cfgEsfla := None;
    }

    method AutoAlignState(reply: Option<EsfAlgState>) returns (s: string)
      modifies this
      ensures s == AlignStateText(Reread(old(esfAlg), false, reply))
      ensures State() == old(State()).(esfAlg := Reread(old(esfAlg), false, reply))
      ensures sent == old(sent) + PollIf(old(esfAlg), false, EsfAlgPoll)
    {
      if esfAlg.None? {
        sent := sent + [Poll(EsfAlgPoll)];
        esfAlg := reply;
      }
      if esfAlg.Some? {
        var flags := esfAlg.value.flagsText;
        s := if |flags| <= 7 then "" else flags[7..];
      } else {
        s := "<error>";
      }
    }
  }
}
