/** The live page's WebSocket handler of vcuui/realtime.py
    (`RealtimeWebSocket`): the open connections, a tick counter and a
    periodic timer are class attributes shared by every handler; the timer
    runs while a connection is open and each tick sends one record to every
    connection. The store's contents and the inertial-sensor status are
    parameters; the latency field (a float) is left out. */
module Realtime {
  import opened Common

  // ---------------------------------------------------------------------
  // safeget
  // ---------------------------------------------------------------------

  /** `safeget(default, dct, *keys)`: follows the keys in order and gives
      `default` at the first key a dictionary lacks. Indexing anything but
      a dictionary with a key raises TypeError, which is not caught. */
  function SafeGetOf(default: Value, dct: Value, keys: seq<string>): Raising<Value> {
    if keys == [] then Returned(dct)
    else match dct
      case VMap(f) => if keys[0] in f then SafeGetOf(default, f[keys[0]], keys[1..]) else Returned(default)
      case _ => Raised("TypeError")
  }

  /** The loop of `safeget`, rebinding `dct` key by key. */
  method SafeGet(default: Value, dct: Value, keys: seq<string>) returns (r: Raising<Value>)
    ensures r == SafeGetOf(default, dct, keys)
  {
    var d := dct;
    for i := 0 to |keys|
      invariant SafeGetOf(default, d, keys[i..]) == SafeGetOf(default, dct, keys)
    {
      assert keys[i..][0] == keys[i] && keys[i..][1..] == keys[i + 1..];
      if !d.VMap? {
        return Raised("TypeError");
      }
      if keys[i] !in d.fields {
        return Returned(default);
      }
      d := d.fields[keys[i]];
    }
    assert keys[|keys|..] == [];
    r := Returned(d);
  }

  /** With no keys the dictionary itself; a missing key gives the default,
      whatever keys follow it. */
  lemma SafeGetEnds(default: Value, f: map<string, Value>, key: string, rest: seq<string>)
    ensures SafeGetOf(default, VMap(f), []) == Returned(VMap(f))
    ensures key !in f ==> SafeGetOf(default, VMap(f), [key] + rest) == Returned(default)
    ensures key in f ==> SafeGetOf(default, VMap(f), [key] + rest) == SafeGetOf(default, f[key], rest)
  {
    assert ([key] + rest)[0] == key && ([key] + rest)[1..] == rest;
  }

  /** Following a path and then more keys is following the longer path: once
      the first keys lead to a value, the rest is looked up in that value. */
  lemma {:induction false} SafeGetAppend(default: Value, dct: Value, k1: seq<string>, k2: seq<string>, found: Value)
    requires SafeGetOf(VNone, dct, k1) == Returned(found) && KeysOnPath(dct, k1)
    ensures SafeGetOf(default, dct, k1 + k2) == SafeGetOf(default, found, k2)
    decreases |k1|
  {
    if k1 == [] {
      assert k1 + k2 == k2;
    } else {
      var f := dct.fields;
      assert (k1 + k2)[0] == k1[0] && (k1 + k2)[1..] == k1[1..] + k2;
      SafeGetAppend(default, f[k1[0]], k1[1..], k2, found);
    }
  }

  /** Every key of the path is present in a dictionary along the way. */
  predicate KeysOnPath(dct: Value, keys: seq<string>)
    decreases |keys|
  {
    keys == [] || (dct.VMap? && keys[0] in dct.fields && KeysOnPath(dct.fields[keys[0]], keys[1..]))
  }

  // ---------------------------------------------------------------------
  // Thousands separators: f'{n:,}'
  // ---------------------------------------------------------------------

  /** Three decimal digits, with leading zeros. */
  function Pad3(k: nat): (s: string)
    requires k < 1000
    ensures |s| == 3 && ',' !in s
  {
    [DigitChar(k / 100), DigitChar(k / 10 % 10), DigitChar(k % 10)]
  }

  /** Python `f'{n:,}'` for n >= 0: the decimal digits, a comma before each
      group of three from the right. */
  function Grouped(n: nat): string {
    if n < 1000 then ShowNat(n) else Grouped(n / 1000) + [','] + Pad3(n % 1000)
  }

  /** Python `f'{i:,}'` for any integer. */
  function ShowGrouped(i: int): string {
    if i < 0 then "-" + Grouped(-i) else Grouped(i)
  }

  /** The number a text of digits and commas denotes, commas ignored: what
      `int(s.replace(',', ''))` gives. */
  function UngroupValue(s: string): nat {
    if s == [] then 0
    else if s[|s| - 1] == ',' then UngroupValue(s[..|s| - 1])
    else UngroupValue(s[..|s| - 1]) * 10 + (if DigitValue(s[|s| - 1]) < 10 then DigitValue(s[|s| - 1]) else 0)
  }

  lemma UngroupSnoc(s: string, c: char)
    ensures UngroupValue(s + [c]) ==
      if c == ',' then UngroupValue(s) else UngroupValue(s) * 10 + (if DigitValue(c) < 10 then DigitValue(c) else 0)
  {
    assert (s + [c])[..|s|] == s;
  }

  lemma {:induction false} UngroupDigits(s: string)
    requires ',' !in s && AllDigits(s, 10)
    ensures UngroupValue(s) == DigitsValue(s, 10)
  {
    if s != [] {
      UngroupDigits(s[..|s| - 1]);
    }
  }

  lemma Digits3(k: nat)
    requires k < 1000
    ensures 100 * (k / 100) + 10 * (k / 10 % 10) + k % 10 == k
  {
  }

  lemma UngroupPad3(a: string, k: nat)
    requires k < 1000
    ensures UngroupValue(a + [','] + Pad3(k)) == UngroupValue(a) * 1000 + k
  {
    var p := Pad3(k);
    var u := UngroupValue(a);
    var x0 := a + [','];
    var x1 := x0 + [p[0]];
    var x2 := x1 + [p[1]];
    var x3 := x2 + [p[2]];
    UngroupSnoc(a, ',');
    UngroupSnoc(x0, p[0]);
    UngroupSnoc(x1, p[1]);
    UngroupSnoc(x2, p[2]);
    assert a + [','] + p == x3;
    assert UngroupValue(x3) == ((u * 10 + k / 100) * 10 + k / 10 % 10) * 10 + k % 10;
    Digits3(k);
  }

  /** Reading the grouped text with its commas ignored gives the number
      back, and below 1000 there is no comma. */
  lemma {:induction false} GroupedValue(n: nat)
    ensures UngroupValue(Grouped(n)) == n
    ensures n < 1000 ==> Grouped(n) == ShowNat(n)
  {
    if n < 1000 {
      ShowNatValue(n);
      UngroupDigits(ShowNat(n));
    } else {
      GroupedValue(n / 1000);
      UngroupPad3(Grouped(n / 1000), n % 1000);
    }
  }

  lemma GroupedThousands()
    ensures Grouped(1234) == "1,234"
  {
    assert Grouped(1) == "1";
    assert Pad3(234) == "234";
  }

  lemma GroupedExample()
    ensures Grouped(1234567) == "1,234,567"
  {
    GroupedThousands();
    assert Pad3(567) == "567";
    assert Grouped(1234567) == "1,234" + [','] + "567";
  }

  // ---------------------------------------------------------------------
  // The record a tick sends
  // ---------------------------------------------------------------------

  datatype Info = Info(time: nat, pos: Value, esf: Value, rx: string, tx: string)

  const DefaultBytes := VList([VInt(0), VInt(0)])

  /** The position sent when the store has none. */
  const DefaultPos := VMap(map["fix" := VStr("-"), "lon" := VReal(0.0), "lat" := VReal(0.0), "speed" := VReal(0.0)])

  /** The received and sent byte counts of the mobile interface, grouped by
      thousands; (0, 0) when the store has none. The store holds the pair
      `ifinfo` read from sysfs: two decimal texts, or (None, None) without
      the statistics files. `rx, tx = ...` needs a pair (TypeError for a
      value that is not a list, ValueError for a list of another length),
      and each count goes through `int()`, rx first. */
  function RxTx(md: map<string, Value>): Raising<(string, string)> {
    match SafeGetOf(DefaultBytes, VMap(md), ["net-wwan0", "bytes"])
    case Raised(e) => Raised(e)
    case Returned(b) =>
      if !b.VList? then Raised("TypeError")
      else if |b.items| != 2 then Raised("ValueError")
      else
        match IntOfValue(b.items[0])
        case Raised(e) => Raised(e)
        case Returned(rx) =>
          match IntOfValue(b.items[1])
          case Raised(e) => Raised(e)
          case Returned(tx) => Returned((ShowGrouped(rx), ShowGrouped(tx)))
  }

  /** The store's byte pair under 'net-wwan0'/'bytes'. */
  predicate BytesAre(md: map<string, Value>, pair: Value) {
    "net-wwan0" in md && md["net-wwan0"].VMap? && "bytes" in md["net-wwan0"].fields
    && md["net-wwan0"].fields["bytes"] == pair
  }

  lemma BytesLookup(md: map<string, Value>, pair: Value)
    requires BytesAre(md, pair)
    ensures SafeGetOf(DefaultBytes, VMap(md), ["net-wwan0", "bytes"]) == Returned(pair)
  {
    var f := md["net-wwan0"].fields;
    SafeGetEnds(DefaultBytes, md, "net-wwan0", ["bytes"]);
    SafeGetEnds(DefaultBytes, f, "bytes", []);
    assert ["net-wwan0"] + ["bytes"] == ["net-wwan0", "bytes"];
    assert ["bytes"] + [] == ["bytes"];
  }

  /** The counters as the store holds them, two texts of decimal digits: each
      is sent grouped by thousands, and reading it back with the commas
      ignored gives the counter file's number. */
  lemma RxTxOfCounterTexts(md: map<string, Value>, a: string, b: string)
    requires BytesAre(md, VList([VStr(a), VStr(b)]))
    requires a != [] && forall k :: 0 <= k < |a| ==> '0' <= a[k] <= '9'
    requires b != [] && forall k :: 0 <= k < |b| ==> '0' <= b[k] <= '9'
    ensures AllDigits(a, 10) && AllDigits(b, 10)
    ensures RxTx(md) == Returned((Grouped(DigitsValue(a, 10)), Grouped(DigitsValue(b, 10))))
    ensures UngroupValue(RxTx(md).value.0) == DigitsValue(a, 10)
    ensures UngroupValue(RxTx(md).value.1) == DigitsValue(b, 10)
  {
    BytesLookup(md, VList([VStr(a), VStr(b)]));
    IntOfValueCases(0, a);
    IntOfValueCases(0, b);
    GroupedValue(DigitsValue(a, 10));
    GroupedValue(DigitsValue(b, 10));
  }

  /** Without the statistics files the store holds (None, None), and `int()`
      of None raises TypeError. */
  lemma RxTxNoCounterFiles(md: map<string, Value>)
    requires BytesAre(md, VList([VNone, VNone]))
    ensures RxTx(md) == Raised("TypeError")
  {
    BytesLookup(md, VList([VNone, VNone]));
  }

  /** A store without the interface's counters reports '0' and '0'. */
  lemma RxTxMissing(md: map<string, Value>)
    requires "net-wwan0" !in md || (md["net-wwan0"].VMap? && !HasKey(md["net-wwan0"], "bytes"))
    ensures RxTx(md) == Returned(("0", "0"))
  {
    assert ShowNat(0) == "0";
    SafeGetEnds(DefaultBytes, md, "net-wwan0", ["bytes"]);
    if "net-wwan0" in md {
      SafeGetEnds(DefaultBytes, md["net-wwan0"].fields, "bytes", []);
      assert ["bytes"] + [] == ["bytes"];
    }
    assert ["net-wwan0"] + ["bytes"] == ["net-wwan0", "bytes"];
  }

  /** The record of the tick with counter `counter`, the ESF status being
      `esf` (already refreshed if this tick refreshes it). */
  function TickInfo(counter: nat, esf: Value, md: map<string, Value>): Raising<Info> {
    match RxTx(md)
    case Raised(e) => Raised(e)
    case Returned(rt) =>
      match SafeGetOf(DefaultPos, VMap(md), ["gnss-pos"])
      case Raised(e) => Raised(e)
      case Returned(pos) => Returned(Info(counter, pos, esf, rt.0, rt.1))
  }

  /** The position is the store's 'gnss-pos' record, or the default one. */
  lemma TickPosition(counter: nat, esf: Value, md: map<string, Value>)
    requires RxTx(md).Returned?
    ensures TickInfo(counter, esf, md).Returned?
    ensures TickInfo(counter, esf, md).value.pos == (if "gnss-pos" in md then md["gnss-pos"] else DefaultPos)
    ensures TickInfo(counter, esf, md).value.time == counter && TickInfo(counter, esf, md).value.esf == esf
  {
    SafeGetEnds(DefaultPos, md, "gnss-pos", []);
    assert ["gnss-pos"] + [] == ["gnss-pos"];
  }

  /** Whether the tick with counter `counter` polls the ESF status. */
  predicate RefreshesEsf(counter: nat) {
    counter % 6 == 0
  }

  lemma AddNewGrows(s: set<nat>, c: nat)
    requires c !in s
    ensures |s + {c}| == |s| + 1
  {
  }

  // ---------------------------------------------------------------------
  // The class attributes
  // ---------------------------------------------------------------------

  /** The attributes of `RealtimeWebSocket` shared by all its handlers.
      Connections and timers are named by numbers. */
  class Handlers {
    var connections: set<nat>
    var counter: nat
    var esfStatus: Value
    /** The timer object `timer_fn` names, None before any handler exists. */
    var timerFn: Option<nat>
    /** The timers started and not stopped. */
    var running: set<nat>
    /** How many timer objects were created. */
    var timers: nat

    /** The class as defined: no connection, counter 0, no timer. */
    constructor ()
      ensures connections == {} && counter == 0 && esfStatus == VNone
      ensures timerFn == None && running == {} && timers == 0
    {
      connections := {};
      counter := 0;
      esfStatus := VNone;
      timerFn := None;
      running := {};
      timers := 0;
    }

    /** The timer runs exactly while some connection is open, and it is
        the timer `timer_fn` names. */
    predicate Valid()
      reads this
    {
      && (connections == {} ==> running == {})
      && (connections != {} ==> timerFn.Some? && running == {timerFn.value})
      && (timerFn.Some? ==> timerFn.value < timers)
      && (forall t :: t in running ==> t < timers)
    }

    /** `__init__` as written: every new handler resets the ESF status and
        replaces `timer_fn` with a new timer, even while the old one runs. */
    method NewHandlerAsWritten()
      modifies this
      ensures esfStatus == VNone && timerFn == Some(old(timers)) && timers == old(timers) + 1
      ensures connections == old(connections) && counter == old(counter) && running == old(running)
    {
      esfStatus := VNone;
      timerFn := Some(timers);
      timers := timers + 1;
    }

    /** `__init__` with one shared timer: the timer is created with the
        first handler and kept by the others. */
    method NewHandler()
      requires Valid()
      modifies this
      ensures Valid()
      ensures esfStatus == VNone && timerFn.Some?
      ensures old(timerFn).Some? ==> timerFn == old(timerFn) && timers == old(timers)
      ensures connections == old(connections) && counter == old(counter) && running == old(running)
    {
      esfStatus := VNone;
      if timerFn.None? {
        timerFn := Some(timers);
        timers := timers + 1;
      }
    }

    /** `timer`: one tick. The ESF status is polled (here: `esf`) on every
        sixth tick; the same record goes to every open connection; the
        counter advances. An exception leaves everything as it was. */
    method Tick(md: map<string, Value>, esf: Value) returns (sent: Raising<map<nat, Info>>)
      modifies this
      ensures var newEsf := if RefreshesEsf(old(counter)) then esf else old(esfStatus);
        match TickInfo(old(counter), newEsf, md)
        case Raised(e) => sent == Raised(e) && counter == old(counter) && esfStatus == old(esfStatus)
        case Returned(info) =>
          && sent.Returned? && sent.value.Keys == connections
          && (forall c :: c in connections ==> sent.value[c] == info)
          && counter == old(counter) + 1 && esfStatus == newEsf
      ensures connections == old(connections) && timerFn == old(timerFn)
      ensures running == old(running) && timers == old(timers)
    {
      var rt := RxTx(md);
      if rt.Raised? {
        return Raised(rt.error);
      }
      var pos := SafeGetOf(DefaultPos, VMap(md), ["gnss-pos"]);
      if pos.Raised? {
        return Raised(pos.error);
      }
      if counter % 6 == 0 {
        esfStatus := esf;
      }
      var info := Info(counter, pos.value, esfStatus, rt.value.0, rt.value.1);
      sent := Returned(map c | c in connections :: info);
      counter := counter + 1;
    }

    /** `open`: adds the connection; the first one gets an immediate tick
        and then starts the timer. A tick that raises ends `open` before the
        timer starts, leaving the connection open without a timer. */
    method Open(c: nat, md: map<string, Value>, esf: Value) returns (first: Option<Raising<map<nat, Info>>>)
      requires c !in connections && timerFn.Some?
      modifies this
      ensures connections == old(connections) + {c}
      ensures timerFn == old(timerFn) && timers == old(timers)
      ensures old(connections) == {} <==> first.Some?
      ensures first.Some? ==>
        (first.value.Returned? <==>
         TickInfo(old(counter), if RefreshesEsf(old(counter)) then esf else old(esfStatus), md).Returned?)
      ensures first.Some? && first.value.Returned? ==> running == old(running) + {old(timerFn.value)}
      ensures first.Some? && first.value.Raised? ==> running == old(running)
      ensures first.None? ==> running == old(running) && counter == old(counter) && esfStatus == old(esfStatus)
      ensures old(Valid()) && (first.None? || first.value.Returned?) ==> Valid()
      ensures old(Valid()) && first.Some? && first.value.Raised? ==> connections == {c} && running == {}
    {
      AddNewGrows(connections, c);
      connections := connections + {c};
      if |connections| == 1 {
        var s := Tick(md, esf);
        first := Some(s);
        if s.Returned? {
          running := running + {timerFn.value};
        }
      } else {
        first := None;
      }
    }

    /** `on_close`: removes the connection; the last one stops the timer
        `timer_fn` names. */
    method OnClose(c: nat)
      requires c in connections && timerFn.Some?
      modifies this
      ensures connections == old(connections) - {c}
      ensures timerFn == old(timerFn) && timers == old(timers) && counter == old(counter) && esfStatus == old(esfStatus)
      ensures connections == {} ==> running == old(running) - {old(timerFn.value)}
      ensures connections != {} ==> running == old(running)
      ensures old(Valid()) ==> Valid()
    {
      connections := connections - {c};
      if |connections| == 0 {
        running := running - {timerFn.value};
      }
    }
  }

  /** Two overlapping connections with the handler as written: when both
      have closed, the first timer still runs, and the next connection
      starts a second one beside it, so the counter advances twice per
      period. */
  method OverlapAsWritten(md: map<string, Value>, esf: Value) returns (h: Handlers)
    requires RxTx(md).Returned?
    ensures h.connections == {} && h.running == {0}
    ensures !h.Valid()
  {
    h := new Handlers();
    h.NewHandlerAsWritten();
    TickPosition(0, esf, md);
    var _ := h.Open(1, md, esf);
    h.NewHandlerAsWritten();
    var _ := h.Open(2, md, esf);
    h.OnClose(1);
    h.OnClose(2);
    assert h.running == {0};
  }

  /** The same connections with one shared timer: it stops with the last
      connection. */
  method OverlapShared(md: map<string, Value>, esf: Value) returns (h: Handlers)
    requires RxTx(md).Returned?
    ensures h.connections == {} && h.running == {} && h.Valid()
  {
    h := new Handlers();
    h.NewHandler();
    TickPosition(0, esf, md);
    var _ := h.Open(1, md, esf);
    h.NewHandler();
    var _ := h.Open(2, md, esf);
    h.OnClose(1);
    h.OnClose(2);
  }
}
