/** The in-memory store every worker publishes to, and the worker that fills
    it on a one-second tick (vcuui/data_model.py). The lock around the store
    is left out: each method is one atomic step. Readings from sysfs, the
    command line and ModemManager are parameters. */
module DataModel {
  import opened Common

  // ---------------------------------------------------------------------
  // The store
  // ---------------------------------------------------------------------

  /** The colour of a bi-colour LED; `Dark` before `setup`. */
  datatype Color = Dark | Green | Yellow

  /** The indicator LED after `publish(origin, value)`: only the cloud
      logger's record drives it, yellow while it is sending, green otherwise. */
  function LedAfter(led: Color, origin: string, value: Value): Color
    requires origin == "things" ==> HasKey(value, "state")
  {
    if origin != "things" then led
    else if value.fields["state"] == VStr("sending") then Yellow
    else Green
  }

  lemma LedFollowsThings(led: Color, origin: string, value: Value)
    requires origin == "things" ==> HasKey(value, "state")
    ensures origin != "things" ==> LedAfter(led, origin, value) == led
    ensures origin == "things" ==>
      (LedAfter(led, origin, value) == Yellow <==> value.fields["state"] == VStr("sending"))
      && LedAfter(led, origin, value) != Dark
  {
  }

  /** `get`: the stored value, or Python's None for an unknown origin. */
  function Lookup(data: map<string, Value>, origin: string): Value {
    if origin in data then data[origin] else VNone
  }

  /** A published value is read back, and publishing touches no other
      origin. */
  lemma LookupAfterPublish(data: map<string, Value>, origin: string, value: Value, other: string)
    ensures Lookup(data[origin := value], origin) == value
    ensures other != origin ==> Lookup(data[origin := value], other) == Lookup(data, other)
  {
  }

  /** The `[OBD2]` entries as `__init__` reads them from /etc/vcuui.conf:
      None for an entry the file lacks. A missing Port or Speed is a
      configparser error, which is caught and gives None for both; a Speed
      that `int()` rejects raises ValueError out of `__init__`. */
  function ReadObd2(port: Option<string>, speed: Option<string>): Raising<Option<(string, int)>> {
    if port.None? || speed.None? then Returned(None)
    else
      match IntOfValue(VStr(speed.value))
      case Raised(e) => Raised(e)
      case Returned(n) => Returned(Some((port.value, n)))
  }

  /** A missing entry gives no configuration, a number is read back, and a
      Speed that is no number stops the model from being created. */
  lemma ReadObd2Cases(port: string, other: Option<string>, n: int)
    ensures ReadObd2(None, other) == Returned(None) && ReadObd2(other, None) == Returned(None)
    ensures ReadObd2(Some(port), Some(ShowInt(n))) == Returned(Some((port, n)))
    ensures ReadObd2(Some(port), Some("")) == Raised("ValueError")
    ensures ReadObd2(Some(port), Some("fast")) == Raised("ValueError")
  {
    IntOfValueCases(n, "");
    assert DigitValue('f') >= 10;
  }

  class Model {
    var data: map<string, Value>
    var ledInd: Color
    var ledStat: Color
    /** `[OBD2] Port` and `Speed` of /etc/vcuui.conf; both None when either
        is missing, since one configparser error resets both. */
    const obd2Port: Option<string>
    const obd2Speed: Option<int>

    constructor (config: Option<(string, int)>)
      ensures data == map[] && ledInd == Dark && ledStat == Dark
      ensures config.Some? ==> obd2Port == Some(config.value.0) && obd2Speed == Some(config.value.1)
      ensures config.None? ==> obd2Port == None && obd2Speed == None
    {
      data := map[];
      ledInd := Dark;
      ledStat := Dark;
      if config.Some? {
        obd2Port := Some(config.value.0);
        obd2Speed := Some(config.value.1);
      } else {
        obd2Port := None;
        obd2Speed := None;
      }
    }

    /** `Model()`: reads the configuration, then builds the store; the
        ValueError of a non-numeric Speed leaves no model. */
    static method Create(port: Option<string>, speed: Option<string>) returns (r: Raising<Model>)
      ensures ReadObd2(port, speed).Raised? ==> r == Raised(ReadObd2(port, speed).error)
      ensures ReadObd2(port, speed).Returned? ==>
        && r.Returned? && fresh(r.value) && r.value.data == map[]
        && r.value.ledInd == Dark && r.value.ledStat == Dark
        && (ReadObd2(port, speed).value.Some? ==>
              r.value.obd2Port == Some(ReadObd2(port, speed).value.value.0)
              && r.value.obd2Speed == Some(ReadObd2(port, speed).value.value.1))
        && (ReadObd2(port, speed).value.None? ==> r.value.obd2Port == None && r.value.obd2Speed == None)
    {
      var config := ReadObd2(port, speed);
      if config.Raised? {
        return Raised(config.error);
      }
      var m := new Model(config.value);
      r := Returned(m);
    }

    method Setup()
      modifies this
      ensures ledStat == Green && ledInd == Green && data == old(data)
    {
      ledStat := Green;
      ledInd := Green;
    }

    method GetAll() returns (d: map<string, Value>)
      ensures d == data
    {
      d := data;
    }

    method Get(origin: string) returns (v: Value)
      ensures v == Lookup(data, origin)
    {
      if origin in data {
        v := data[origin];
      } else {
        v := VNone;
      }
    }

    /** Stores `value` under `origin`, replacing any earlier value. */
    method Publish(origin: string, value: Value)
      requires origin == "things" ==> HasKey(value, "state")
      modifies this
      ensures data == old(data)[origin := value]
      ensures ledInd == LedAfter(old(ledInd), origin, value) && ledStat == old(ledStat)
    {
      data := data[origin := value];
      if origin == "things" {
        if value.fields["state"] == VStr("sending") {
          ledInd := Yellow;
        } else {
          ledInd := Green;
        }
      }
    }

    /** Drops `origin` from the store. The class as written has no such
        method, although the position reader calls it (see
        `GnssPos.TimeoutAsWritten`). */
    method Remove(origin: string)
      modifies this
      ensures data == old(data) - {origin}
      ensures ledInd == old(ledInd) && ledStat == old(ledStat)
    {
      data := data - {origin};
    }
  }

  /** The methods `Model` defines, by their Python names. */
  const ModelMethods: set<string> := {"setup", "get_all", "get", "publish"}

  // ---------------------------------------------------------------------
  // The worker's schedule
  // ---------------------------------------------------------------------

  datatype Task = SysInfo | Network | Phy | Modem | Disc | Obd2Poll

  /** The readings taken on the tick with counter `cnt`; `obd2` is whether an
      OBD-II port is configured. */
  function Scheduled(cnt: nat, obd2: bool): set<Task> {
    {SysInfo}
    + (if cnt == 0 || cnt % 4 == 2 then {Network} else {})
    + (if cnt == 0 || cnt % 4 == 3 then {Phy} else {})
    + (if cnt == 0 || cnt % 10 == 5 then {Modem} else {})
    + (if cnt == 0 || cnt % 20 == 15 then {Disc} else {})
    + (if obd2 then {Obd2Poll} else {})
  }

  /** The first tick takes every reading; after it the schedule repeats
      every 20 ticks. */
  lemma ScheduleShape(cnt: nat, obd2: bool)
    ensures Scheduled(0, obd2) == {SysInfo, Network, Phy, Modem, Disc} + (if obd2 then {Obd2Poll} else {})
    ensures cnt >= 1 ==> Scheduled(cnt + 20, obd2) == Scheduled(cnt, obd2)
    ensures SysInfo in Scheduled(cnt, obd2) && (Obd2Poll in Scheduled(cnt, obd2) <==> obd2)
  {
    if cnt >= 1 {
      assert (cnt + 20) % 4 == cnt % 4 && (cnt + 20) % 10 == cnt % 10 && (cnt + 20) % 20 == cnt % 20;
    }
  }

  /** After the first tick the network and PHY readings alternate: a network
      tick is never a PHY tick, and the PHY reading follows it on the next
      tick. */
  lemma NetworkThenPhy(cnt: nat, obd2: bool)
    requires cnt >= 1 && Network in Scheduled(cnt, obd2)
    ensures Phy !in Scheduled(cnt, obd2) && Phy in Scheduled(cnt + 1, obd2)
    ensures Network !in Scheduled(cnt + 1, obd2)
  {
  }

  /** `_obd2_setup`: an unsupported bit rate becomes 500000. */
  function Obd2Bitrate(speed: int): (r: int)
    ensures r == 250000 || r == 500000
    ensures r == speed <==> speed == 250000 || speed == 500000
    ensures r != speed ==> r == 500000
  {
    if speed != 250000 && speed != 500000 then 500000 else speed
  }

  /** `setup`: the OBD-II client's port and bit rate, when both settings are
      given (and truthy). */
  function Obd2Client(port: Option<string>, speed: Option<int>): (c: Option<(string, int)>)
    ensures c.Some? <==> port.Some? && port.value != "" && speed.Some? && speed.value != 0
    ensures c.Some? ==> c.value.0 == port.value && c.value.1 == Obd2Bitrate(speed.value)
  {
    if port.Some? && port.value != "" && speed.Some? && speed.value != 0
    then Some((port.value, Obd2Bitrate(speed.value)))
    else None
  }

  // ---------------------------------------------------------------------
  // Records the worker publishes
  // ---------------------------------------------------------------------

  /** `_obd2_poll`: the vehicle speed, 0.0 when the query failed. */
  function Obd2Record(speed: Option<int>): Value {
    VMap(map["speed" := if speed.Some? then VInt(speed.value) else VReal(0.0)])
  }

  /** What ModemManager reports about a bearer, a SIM and a modem. */
  datatype BearerInfo = BearerInfo(id: int, uptime: Value, ip: Value)
  datatype SimInfo = SimInfo(id: int, imsi: Value, iccid: Value)
  datatype ModemInfo = ModemInfo(
    id: int, state: Value, accessTech: Value, location: map<string, Value>,
    signal: Value, signalLte: Value, signalUmts: Value,
    bearer: Option<BearerInfo>, sim: Option<SimInfo>)

  function WithSignal(r: map<string, Value>, m: ModemInfo): map<string, Value> {
    if m.accessTech == VStr("lte") then r["signal-lte" := m.signalLte]
    else if m.accessTech == VStr("umts") then r["signal-umts" := m.signalUmts]
    else r
  }

  function WithBearer(r: map<string, Value>, b: Option<BearerInfo>): map<string, Value> {
    if b.None? then r
    else
      var r1 := r["bearer-id" := VStr(ShowInt(b.value.id))];
      if Truthy(b.value.uptime) then r1["bearer-uptime" := b.value.uptime]["bearer-ip" := b.value.ip] else r1
  }

  function WithSim(r: map<string, Value>, s: Option<SimInfo>): map<string, Value> {
    if s.None? then r
    else r["sim-id" := VStr(ShowInt(s.value.id))]["sim-imsi" := s.value.imsi]["sim-iccid" := s.value.iccid]
  }

  /** `_modem`: the record published under 'modem'; empty without a modem. */
  function ModemRecord(m: Option<ModemInfo>): map<string, Value>
    requires m.Some? ==> "mcc" in m.value.location
  {
    if m.None? then map[]
    else
      var mi := m.value;
      var base := map["modem-id" := VStr(ShowInt(mi.id)), "state" := mi.state,
                      "access-tech" := mi.accessTech, "signal-quality" := mi.signal];
      var withLoc := if Truthy(mi.location["mcc"]) then base["location" := VMap(mi.location)] else base;
      WithSim(WithBearer(WithSignal(withLoc, mi), mi.bearer), mi.sim)
  }

  const SimKeys: set<string> := {"sim-id", "sim-imsi", "sim-iccid"}
  const BearerKeys: set<string> := {"bearer-id", "bearer-uptime", "bearer-ip"}
  const SignalKeys: set<string> := {"signal-lte", "signal-umts"}

  lemma WithSimKeeps(r: map<string, Value>, s: Option<SimInfo>, k: string)
    requires k !in SimKeys
    ensures (k in WithSim(r, s) <==> k in r) && (k in r ==> WithSim(r, s)[k] == r[k])
  {
  }

  lemma WithBearerKeeps(r: map<string, Value>, b: Option<BearerInfo>, k: string)
    requires k !in BearerKeys
    ensures (k in WithBearer(r, b) <==> k in r) && (k in r ==> WithBearer(r, b)[k] == r[k])
  {
  }

  lemma WithSignalKeeps(r: map<string, Value>, m: ModemInfo, k: string)
    requires k !in SignalKeys
    ensures (k in WithSignal(r, m) <==> k in r) && (k in r ==> WithSignal(r, m)[k] == r[k])
  {
  }

  /** The modem record's first entries, and its location entry, which is
      there exactly when the location has a (truthy) mobile country code;
      the id is decimal text that parses back to the modem's id. */
  lemma ModemRecordBase(mi: ModemInfo, k: string)
    requires "mcc" in mi.location
    requires k in {"modem-id", "state", "access-tech", "signal-quality", "location"}
    ensures var r := ModemRecord(Some(mi));
      && (k in r <==> k != "location" || Truthy(mi.location["mcc"]))
      && (k == "modem-id" ==> r[k].VStr? && ParseInt(r[k].s, 10) == Some(mi.id))
  {
    var base := map["modem-id" := VStr(ShowInt(mi.id)), "state" := mi.state,
                    "access-tech" := mi.accessTech, "signal-quality" := mi.signal];
    var withLoc := if Truthy(mi.location["mcc"]) then base["location" := VMap(mi.location)] else base;
    WithSignalKeeps(withLoc, mi, k);
    WithBearerKeeps(WithSignal(withLoc, mi), mi.bearer, k);
    WithSimKeeps(WithBearer(WithSignal(withLoc, mi), mi.bearer), mi.sim, k);
    ParseShowInt(mi.id);
  }

  /** The signal entry follows the access technology: LTE or UMTS figures,
      and neither for any other technology. */
  lemma ModemRecordSignal(mi: ModemInfo)
    requires "mcc" in mi.location
    ensures var r := ModemRecord(Some(mi));
      && ("signal-lte" in r <==> mi.accessTech == VStr("lte"))
      && ("signal-umts" in r <==> mi.accessTech == VStr("umts"))
  {
    var base := map["modem-id" := VStr(ShowInt(mi.id)), "state" := mi.state,
                    "access-tech" := mi.accessTech, "signal-quality" := mi.signal];
    var withLoc := if Truthy(mi.location["mcc"]) then base["location" := VMap(mi.location)] else base;
    var withSig := WithSignal(withLoc, mi);
    assert "signal-lte" in withSig <==> mi.accessTech == VStr("lte");
    assert "signal-umts" in withSig <==> mi.accessTech == VStr("umts");
    WithBearerKeeps(withSig, mi.bearer, "signal-lte");
    WithBearerKeeps(withSig, mi.bearer, "signal-umts");
    WithSimKeeps(WithBearer(withSig, mi.bearer), mi.sim, "signal-lte");
    WithSimKeeps(WithBearer(withSig, mi.bearer), mi.sim, "signal-umts");
  }

  /** The bearer's id is there with a bearer; its uptime and address only
      when the uptime is truthy. */
  lemma ModemRecordBearer(mi: ModemInfo)
    requires "mcc" in mi.location
    ensures var r := ModemRecord(Some(mi));
      && ("bearer-id" in r <==> mi.bearer.Some?)
      && ("bearer-ip" in r <==> mi.bearer.Some? && Truthy(mi.bearer.value.uptime))
      && ("bearer-uptime" in r <==> mi.bearer.Some? && Truthy(mi.bearer.value.uptime))
      && (mi.bearer.Some? ==> r["bearer-id"].VStr? && ParseInt(r["bearer-id"].s, 10) == Some(mi.bearer.value.id))
      && ("sim-id" in r <==> mi.sim.Some?)
  {
    var base := map["modem-id" := VStr(ShowInt(mi.id)), "state" := mi.state,
                    "access-tech" := mi.accessTech, "signal-quality" := mi.signal];
    var withLoc := if Truthy(mi.location["mcc"]) then base["location" := VMap(mi.location)] else base;
    var withSig := WithSignal(withLoc, mi);
    WithSignalKeeps(withLoc, mi, "bearer-id");
    WithSignalKeeps(withLoc, mi, "bearer-ip");
    WithSignalKeeps(withLoc, mi, "bearer-uptime");
    WithSignalKeeps(withLoc, mi, "sim-id");
    WithBearerKeeps(withSig, mi.bearer, "sim-id");
    var wb := WithBearer(withSig, mi.bearer);
    WithSimKeeps(wb, mi.sim, "bearer-id");
    WithSimKeeps(wb, mi.sim, "bearer-ip");
    WithSimKeeps(wb, mi.sim, "bearer-uptime");
    if mi.bearer.Some? {
      ParseShowInt(mi.bearer.value.id);
    }
  }

  /** `_100base_t1`: the PHY's state and `str(quality)`, which is "None" when
      the PHY node is missing. */
  function PhyRecord(state: Value, quality: Option<nat>): Value {
    VMap(map["state" := state, "quality" := VStr(if quality.Some? then ShowNat(quality.value) else "None")])
  }

  class ModelWorker {
    const model: Model
    /** The tick counter of `run`. */
    var cnt: nat
    /** The OBD-II client's port and bit rate, once set up. */
    var obd2: Option<(string, int)>

    constructor (model: Model)
      ensures this.model == model && cnt == 0 && obd2 == None
    {
      this.model := model;
      cnt := 0;
      obd2 := None;
    }

    method Setup()
      modifies this
      ensures obd2 == Obd2Client(model.obd2Port, model.obd2Speed) && cnt == old(cnt)
    {
      if model.obd2Port.Some? && model.obd2Port.value != "" && model.obd2Speed.Some? && model.obd2Speed.value != 0 {
        var speed := model.obd2Speed.value;
        if speed != 250000 && speed != 500000 {
          speed := 500000;
        }
        obd2 := Some((model.obd2Port.value, speed));
      } else {
        obd2 := None;
      }
    }

    /** One pass of `run`'s loop: the readings it takes, then the counter
        advances. */
    method Tick() returns (tasks: set<Task>)
      modifies this
      ensures tasks == Scheduled(old(cnt), model.obd2Port.Some? && model.obd2Port.value != "")
      ensures cnt == old(cnt) + 1 && obd2 == old(obd2)
    {
      tasks := {SysInfo};
      if cnt == 0 || cnt % 4 == 2 {
        tasks := tasks + {Network};
      }
      if cnt == 0 || cnt % 4 == 3 {
        tasks := tasks + {Phy};
      }
      if cnt == 0 || cnt % 10 == 5 {
        tasks := tasks + {Modem};
      }
      if cnt == 0 || cnt % 20 == 15 {
        tasks := tasks + {Disc};
      }
      if model.obd2Port.Some? && model.obd2Port.value != "" {
        tasks := tasks + {Obd2Poll};
      }
      cnt := cnt + 1;
    }

    /** `_obd2_poll` with the result of the speed query: publishes only when
        a client was set up. */
    method Obd2PollStep(speed: Option<int>)
      modifies model
      ensures obd2.Some? ==> model.data == old(model.data)["obd2" := Obd2Record(speed)]
      ensures obd2.None? ==> model.data == old(model.data)
      ensures model.ledInd == old(model.ledInd) && model.ledStat == old(model.ledStat)
    {
      if obd2.Some? {
        model.Publish("obd2", Obd2Record(speed));
      }
    }

    method ModemStep(m: Option<ModemInfo>)
      requires m.Some? ==> "mcc" in m.value.location
      modifies model
      ensures model.data == old(model.data)["modem" := VMap(ModemRecord(m))]
      ensures model.ledInd == old(model.ledInd) && model.ledStat == old(model.ledStat)
    {
      model.Publish("modem", VMap(ModemRecord(m)));
    }

    method PhyStep(state: Value, quality: Option<nat>)
      modifies model
      ensures model.data == old(model.data)["phy-broadr0" := PhyRecord(state, quality)]
      ensures model.ledInd == old(model.ledInd) && model.ledStat == old(model.ledStat)
    {
      model.Publish("phy-broadr0", PhyRecord(state, quality));
    }
  }
}
