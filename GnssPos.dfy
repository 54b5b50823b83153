/** The position reader of vcuui/gnss_pos.py (class `GnssPosition`): a state
    machine over a gpsd connection that keeps the latest fix, speed, PDOP and
    position from gpsd's TPV and SKY reports and publishes a position record
    to the store. The gpsd client is abstract: whether `setup` succeeded and
    what `next` returned are parameters. */
module GnssPos {
  import opened Common
  import DataModel

  datatype State = Init | Connected | Timeout

  /** What `gps.next()` gave: a report (a JSON object of gpsd), nothing
      (a timeout), or a KeyError raised inside the client. */
  datatype Next = Got(report: map<string, Value>) | Nothing | NextKeyError

  /** The fields `_handle_report` keeps between reports. */
  datatype Pos = Pos(fix: Value, lon: Value, lat: Value, speed: Value, pdop: Value)

  const StartPos: Pos := Pos(VInt(0), VInt(0), VInt(0), VInt(0), VInt(0))

  /** Python's `v == n` for an integer `n`: ints, floats and booleans
      compare by value. */
  predicate PyEqInt(v: Value, n: int) {
    v == VInt(n) || v == VReal(n as real) || (n == 1 && v == VBool(true)) || (n == 0 && v == VBool(false))
  }

  /** The fix after a TPV report with gpsd mode `mode`. */
  function FixForMode(fix: Value, mode: Value): Value {
    if PyEqInt(mode, 0) || PyEqInt(mode, 1) then VStr("No Fix")
    else if PyEqInt(mode, 2) then VStr("2D")
    else if PyEqInt(mode, 3) then VStr("3D")
    else fix
  }

  /** A differential status (2) upgrades a 3D fix. */
  function WithStatus(fix: Value, report: map<string, Value>): Value {
    if "status" in report && PyEqInt(report["status"], 2) && fix == VStr("3D") then VStr("3D DGPS") else fix
  }

  /** Modes 0 and 1 mean no fix, 2 and 3 a 2D and a 3D fix, and any other
      mode keeps the previous fix; the differential status changes a 3D fix
      into a 3D DGPS fix and no other fix. */
  lemma FixLadder(fix: Value, mode: Value, report: map<string, Value>)
    ensures PyEqInt(mode, 0) || PyEqInt(mode, 1) ==> FixForMode(fix, mode) == VStr("No Fix")
    ensures PyEqInt(mode, 2) ==> FixForMode(fix, mode) == VStr("2D")
    ensures PyEqInt(mode, 3) ==> FixForMode(fix, mode) == VStr("3D")
    ensures (forall n :: 0 <= n <= 3 ==> !PyEqInt(mode, n)) ==> FixForMode(fix, mode) == fix
    ensures WithStatus(fix, report) != fix ==> fix == VStr("3D") && WithStatus(fix, report) == VStr("3D DGPS")
  {
    if forall n :: 0 <= n <= 3 ==> !PyEqInt(mode, n) {
      assert !PyEqInt(mode, 0) && !PyEqInt(mode, 1) && !PyEqInt(mode, 2) && !PyEqInt(mode, 3);
    }
  }

  predicate IsClass(report: map<string, Value>, cls: string) {
    "class" in report && report["class"] == VStr(cls)
  }

  /** Whether a TPV report carries a position: the mode (without which the
      report raises KeyError) and both coordinates. */
  predicate HasPosition(report: map<string, Value>) {
    IsClass(report, "TPV") && "mode" in report && "lon" in report && "lat" in report
  }

  /** The fields after `_handle_report`. A report without a class, and a TPV
      report without a mode, raise KeyError before changing anything. */
  function Handled(p: Pos, report: map<string, Value>): Pos {
    if IsClass(report, "SKY") then
      if "pdop" in report then p.(pdop := report["pdop"]) else p
    else if IsClass(report, "TPV") && "mode" in report then
      var fix := WithStatus(FixForMode(p.fix, report["mode"]), report);
      var speed := if "speed" in report then report["speed"] else p.speed;
      if "lon" in report && "lat" in report then Pos(fix, report["lon"], report["lat"], speed, p.pdop)
      else p.(fix := fix, speed := speed)
    else p
  }

  /** The record published under 'gnss-pos'. */
  function PosRecord(p: Pos): Value {
    VMap(map["fix" := p.fix, "lon" := p.lon, "lat" := p.lat, "speed" := p.speed, "pdop" := p.pdop])
  }

  /** What `_handle_report` publishes, if anything. */
  function Published(p: Pos, report: map<string, Value>): Option<Value> {
    if HasPosition(report) then Some(PosRecord(Handled(p, report))) else None
  }

  /** A SKY report only remembers its PDOP, when it has one, and publishes
      nothing. */
  lemma SkyOnlyPdop(p: Pos, report: map<string, Value>)
    requires IsClass(report, "SKY")
    ensures Published(p, report) == None
    ensures Handled(p, report) == p.(pdop := if "pdop" in report then report["pdop"] else p.pdop)
  {
  }

  /** A position is published exactly for a TPV report with a mode and both
      coordinates; it carries those coordinates, the new fix and speed and
      the last PDOP. Without both coordinates the old position stays. */
  lemma PublishedIffPosition(p: Pos, report: map<string, Value>)
    ensures Published(p, report).Some? <==> HasPosition(report)
    ensures HasPosition(report) ==> var q := Handled(p, report);
      && Published(p, report) == Some(PosRecord(q))
      && q.lon == report["lon"] && q.lat == report["lat"] && q.pdop == p.pdop
      && q.fix == WithStatus(FixForMode(p.fix, report["mode"]), report)
      && q.speed == (if "speed" in report then report["speed"] else p.speed)
    ensures !HasPosition(report) ==> Handled(p, report).lon == p.lon && Handled(p, report).lat == p.lat
  {
  }

  /** The PDOP of a SKY report reaches the next published position. */
  lemma PdopCarried(p: Pos, sky: map<string, Value>, tpv: map<string, Value>)
    requires IsClass(sky, "SKY") && "pdop" in sky && HasPosition(tpv)
    ensures Published(Handled(p, sky), tpv).Some?
    ensures Published(Handled(p, sky), tpv).value.fields["pdop"] == sky["pdop"]
  {
    PublishedIffPosition(Handled(p, sky), tpv);
  }

  /** `_state_timeout` as written: it calls `remove` on the store, a method
      `Model` does not define, so the AttributeError ends `run` and with it
      the reader thread. */
  function TimeoutAsWritten(): Raising<State> {
    if "remove" in DataModel.ModelMethods then Returned(Init) else Raised("AttributeError")
  }

  /** The first lost connection ends the reader instead of reconnecting. */
  lemma TimeoutAsWrittenRaises()
    ensures TimeoutAsWritten() == Raised("AttributeError")
  {
  }

  class GnssPosition {
    const model: DataModel.Model
    var state: State
    /** Whether a gpsd client object is held. */
    var hasGps: bool
    /** How many gpsd client objects were created. */
    var gpsCreated: nat
    var pos: Pos

    constructor (model: DataModel.Model)
      ensures this.model == model && state == Init && !hasGps && gpsCreated == 0 && pos == StartPos
    {
      this.model := model;
      state := Init;
      hasGps := false;
      gpsCreated := 0;
      pos := StartPos;
    }

    /** `_state_init`: connects when `setup` succeeds, otherwise stays in
        `Init` and keeps the client for the next attempt. */
    method StateInit(setupOk: bool)
      requires state == Init
      modifies this
      ensures hasGps && gpsCreated == old(gpsCreated) + (if old(hasGps) then 0 else 1)
      ensures state == (if setupOk then Connected else Init)
      ensures pos == old(pos)
    {
      if !hasGps {
        hasGps := true;
        gpsCreated := gpsCreated + 1;
      }
      if setupOk {
        state := Connected;
      }
    }

    method HandleReport(report: map<string, Value>)
      modifies this, model
      ensures pos == Handled(old(pos), report)
      ensures Published(old(pos), report).Some? ==>
        model.data == old(model.data)["gnss-pos" := Published(old(pos), report).value]
      ensures Published(old(pos), report).None? ==> model.data == old(model.data)
      ensures model.ledInd == old(model.ledInd) && model.ledStat == old(model.ledStat)
      ensures state == old(state) && hasGps == old(hasGps) && gpsCreated == old(gpsCreated)
    {
      if IsClass(report, "SKY") {
        if "pdop" in report {
          pos := pos.(pdop := report["pdop"]);
        }
      } else if IsClass(report, "TPV") && "mode" in report {
        var mode := report["mode"];
        var fix := pos.fix;
        if PyEqInt(mode, 0) || PyEqInt(mode, 1) {
          fix := VStr("No Fix");
        } else if PyEqInt(mode, 2) {
          fix := VStr("2D");
        } else if PyEqInt(mode, 3) {
          fix := VStr("3D");
        }
        if "status" in report && PyEqInt(report["status"], 2) && fix == VStr("3D") {
          fix := VStr("3D DGPS");
        }
        pos := pos.(fix := fix);
        if "speed" in report {
          pos := pos.(speed := report["speed"]);
        }
        if "lon" in report && "lat" in report {
          pos := pos.(lon := report["lon"], lat := report["lat"]);
          model.Publish("gnss-pos", PosRecord(pos));
        }
      }
    }

    /** `_state_connected`: an empty answer means the connection timed out;
        a KeyError changes nothing. */
    method StateConnected(next: Next)
      requires state == Connected
      modifies this, model
      ensures next.Got? && next.report != map[] ==>
        && state == Connected && pos == Handled(old(pos), next.report)
        && model.data == (if HasPosition(next.report)
                          then old(model.data)["gnss-pos" := PosRecord(pos)] else old(model.data))
      ensures next.Nothing? || next == Got(map[]) ==>
        state == Timeout && pos == old(pos) && model.data == old(model.data)
      ensures next.NextKeyError? ==> state == Connected && pos == old(pos) && model.data == old(model.data)
      ensures hasGps == old(hasGps) && gpsCreated == old(gpsCreated)
    {
      if next.Got? && next.report != map[] {
        HandleReport(next.report);
      } else if !next.NextKeyError? {
        state := Timeout;
      }
    }

    /** `_state_timeout` with the store able to drop the stale position:
        the position leaves the store, the client is dropped and the reader
        starts over. */
    method StateTimeout()
      requires state == Timeout
      modifies this, model
      ensures state == Init && !hasGps && gpsCreated == old(gpsCreated) && pos == old(pos)
      ensures model.data == old(model.data) - {"gnss-pos"}
    {
      model.Remove("gnss-pos");
      hasGps := false;
      state := Init;
    }
  }

  /** After a lost connection, reconnecting and a TPV report with a position
      put a position back into the store. */
  method Reconnect(r: GnssPosition, report: map<string, Value>)
    requires r.state == Timeout && HasPosition(report)
    modifies r, r.model
    ensures r.state == Connected && r.hasGps
    ensures "gnss-pos" in r.model.data && r.model.data["gnss-pos"] == PosRecord(r.pos)
    ensures r.pos.lon == report["lon"] && r.pos.lat == report["lat"]
  {
    r.StateTimeout();
    assert "gnss-pos" !in r.model.data;
    r.StateInit(true);
    r.StateConnected(Got(report));
  }
}
