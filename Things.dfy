/** The cloud logger of vcuui/things.py (class `Things`): switched on and off
    from the web page, it waits for a mobile data link, then queues
    telemetry on a one-second tick and uploads the queue to a ThingsBoard
    server. HTTP, the clock and the distance computation are parameters. */
module Things {
  import opened Common
  import TransmitQueue
  import DataModel

  type Entry = TransmitQueue.Entry<Value>

  /** `MAX_QUEUE_SIZE`. */
  const MaxQueueSize: nat := 300

  // ---------------------------------------------------------------------
  // The inline transmit queue
  // ---------------------------------------------------------------------

  /** The queue after `_queue_timed`: when it holds more than
      `MAX_QUEUE_SIZE` entries only the newest `MAX_QUEUE_SIZE` are kept,
      then the new entry goes to the tail. */
  function Timed(q: seq<Entry>, e: Entry): seq<Entry> {
    (if |q| > MaxQueueSize then q[|q| - MaxQueueSize..] else q) + [e]
  }

  /** The trimming happens before the append, so the queue can hold
      `MAX_QUEUE_SIZE + 1` entries: it behaves exactly as a transmit queue
      of capacity 301. */
  lemma TimedIsAdded(q: seq<Entry>, e: Entry)
    requires |q| <= MaxQueueSize + 1
    ensures Timed(q, e) == TransmitQueue.Added(q, MaxQueueSize + 1, e)
    ensures |Timed(q, e)| <= MaxQueueSize + 1 && Timed(q, e)[|Timed(q, e)| - 1] == e
  {
  }

  function TimedAll(q: seq<Entry>, es: seq<Entry>): seq<Entry>
    decreases |es|
  {
    if es == [] then q else TimedAll(Timed(q, es[0]), es[1..])
  }

  /** Whatever was queued, the queue holds exactly the newest 301 entries of
      everything it held and everything queued since. */
  lemma {:induction false} TimedAllKeepsNewest(q: seq<Entry>, es: seq<Entry>)
    requires |q| <= MaxQueueSize + 1
    ensures TimedAll(q, es) == TransmitQueue.Newest(MaxQueueSize + 1, q + es)
    decreases |es|
  {
    if es == [] {
      TransmitQueue.AddAllKeepsNewest(q, MaxQueueSize + 1, es);
    } else {
      TimedIsAdded(q, es[0]);
      TimedAllIsAddAll(Timed(q, es[0]), es[1..]);
      TransmitQueue.AddAllKeepsNewest(q, MaxQueueSize + 1, es);
    }
  }

  lemma {:induction false} TimedAllIsAddAll(q: seq<Entry>, es: seq<Entry>)
    requires |q| <= MaxQueueSize + 1
    ensures TimedAll(q, es) == TransmitQueue.AddAll(q, MaxQueueSize + 1, es)
    decreases |es|
  {
    if es != [] {
      TimedIsAdded(q, es[0]);
      TimedAllIsAddAll(Timed(q, es[0]), es[1..]);
    }
  }

  /** One row of the telemetry upload: `{'ts': time, 'values': data}`. */
  function Row(e: Entry): Value {
    VMap(map["ts" := VInt(e.time), "values" := e.data])
  }

  /** The telemetry body: one row per queued entry, in queue order. */
  function HttpData(q: seq<Entry>): (rows: seq<Value>)
    ensures |rows| == |q|
    ensures forall i :: 0 <= i < |q| ==> rows[i] == Row(q[i])
  {
    if q == [] then [] else HttpData(q[..|q| - 1]) + [Row(q[|q| - 1])]
  }

  method BuildHttpData(q: seq<Entry>) returns (rows: seq<Value>)
    ensures rows == HttpData(q)
  {
    rows := [];
    for i := 0 to |q|
      invariant rows == HttpData(q[..i])
    {
      assert q[..i + 1][..i] == q[..i];
      rows := rows + [Row(q[i])];
    }
    assert q[..|q|] == q;
  }

  /** The record `_upload_telemetry` queues before the upload. */
  function QueueSize(n: nat): Value {
    VMap(map["tb-qsize" := VInt(n)])
  }

  /** The 'things' record after a post: 'sending' while it runs, and
      'sent' with the body's size once it went out; a failed post leaves
      'sending' in the store. */
  function PostRecord(ok: bool, bytesSent: nat): Value {
    if ok then VMap(map["state" := VStr("sent"), "bytes" := VInt(bytesSent)])
    else VMap(map["state" := VStr("sending")])
  }

  lemma PostRecordLed(led: DataModel.Color, ok: bool, bytesSent: nat)
    ensures DataModel.LedAfter(led, "things", PostRecord(ok, bytesSent)) == if ok then DataModel.Green else DataModel.Yellow
  {
  }

  // ---------------------------------------------------------------------
  // The schedule
  // ---------------------------------------------------------------------

  datatype LinkState = Init | Connected

  /** Whether the modem record shows a modem with a data bearer. */
  predicate LinkReady(md: map<string, Value>) {
    "modem" in md && HasKey(md["modem"], "modem-id") && HasKey(md["modem"], "bearer-id")
  }

  datatype Job = Gnss(force: bool) | Info | Telemetry | Attributes

  /** `TELEMETRY_UPLOAD_PERIOD` and `ATTRIBUTE_UPLOAD_PERIOD`, in ticks. */
  const TelemetryPeriod: nat := 30
  const AttributePeriod: nat := 120

  /** The work of a connected tick with counter `cnt`, in the order the
      tick does it. */
  function Jobs(cnt: nat): seq<Job> {
    [Gnss(cnt % 60 == 0)]
    + (if cnt % 15 == 0 then [Info] else [])
    + (if cnt % TelemetryPeriod == 5 then [Telemetry] else [])
    + (if cnt % AttributePeriod == 7 then [Attributes] else [])
  }

  /** The place of a job within a tick. */
  function Rank(j: Job): nat {
    match j
    case Gnss(_) => 0
    case Info => 1
    case Telemetry => 2
    case Attributes => 3
  }

  /** The position is looked at on every connected tick and forced once a
      minute; the schedule repeats every 120 ticks; the counter is 1 on the
      first connected tick, so the first upload comes on the fifth. */
  lemma JobsShape(cnt: nat)
    ensures exists f :: Gnss(f) in Jobs(cnt)
    ensures Gnss(true) in Jobs(cnt) <==> cnt % 60 == 0
    ensures Jobs(cnt + 120) == Jobs(cnt)
    ensures Telemetry in Jobs(cnt) <==> cnt % 30 == 5
    ensures Attributes in Jobs(cnt) <==> cnt % 120 == 7
    ensures Telemetry in Jobs(5) && forall c :: 1 <= c < 5 ==> Telemetry !in Jobs(c)
  {
    assert Gnss(cnt % 60 == 0) in Jobs(cnt);
    assert (cnt + 120) % 60 == cnt % 60 && (cnt + 120) % 15 == cnt % 15;
    assert (cnt + 120) % 30 == cnt % 30 && (cnt + 120) % 120 == cnt % 120;
  }

  /** The jobs of a tick come in the source's order: the position first, so
      a position queued on an upload tick goes out with that upload, then
      the information, the telemetry upload and the attributes. */
  lemma JobsInSourceOrder(cnt: nat)
    ensures Jobs(cnt)[0] == Gnss(cnt % 60 == 0)
    ensures forall i, j :: 0 <= i < j < |Jobs(cnt)| ==> Rank(Jobs(cnt)[i]) < Rank(Jobs(cnt)[j])
  {
    var a := if cnt % 15 == 0 then [Info] else [];
    var b := if cnt % TelemetryPeriod == 5 then [Telemetry] else [];
    var c := if cnt % AttributePeriod == 7 then [Attributes] else [];
    assert Jobs(cnt) == [Gnss(cnt % 60 == 0)] + a + b + c;
  }

  /** `_gnss`: a position is queued only when it has both coordinates, and
      then when forced or when it moved more than `GNSS_UPDATE_DISTANCE`
      (`moved`; the haversine distance is not modelled). */
  predicate GnssQueued(md: map<string, Value>, force: bool, moved: bool) {
    "gnss-pos" in md && HasKey(md["gnss-pos"], "lon") && HasKey(md["gnss-pos"], "lat") && (force || moved)
  }

  class Things {
    const model: DataModel.Model
    /** Whether /etc/thingsboard.conf names a server and a token. */
    const hasServer: bool
    var state: LinkState
    var active: bool
    var dataQueue: seq<Entry>
    /** The tick counter of `run`. */
    var cnt: nat

    ghost predicate Valid()
      reads this
    {
      |dataQueue| <= MaxQueueSize + 1
    }

    constructor (model: DataModel.Model, hasServer: bool)
      ensures Valid()
      ensures this.model == model && this.hasServer == hasServer
      ensures state == Init && !active && dataQueue == [] && cnt == 0
    {
      this.model := model;
      this.hasServer := hasServer;
      state := Init;
      active := false;
      dataQueue := [];
      cnt := 0;
    }

    /** Switches the logger on or off and publishes the resulting flag under
        'cloud'. Without a server configuration it cannot be switched on. */
    method Enable(enable: bool) returns (res: string)
      modifies this, model
      ensures active == (if enable then old(active) || hasServer else false)
      ensures res == (if enable then
                        (if !hasServer then "Cannot start. No configuration present"
                         else if old(active) then "Cloud logger already running"
                         else "Started cloud logger")
                      else if old(active) then "Stopped cloud logger" else "Cloud logger not running")
      ensures model.data == old(model.data)["cloud" := VBool(active)]
      ensures model.ledInd == old(model.ledInd) && model.ledStat == old(model.ledStat)
      ensures state == old(state) && dataQueue == old(dataQueue) && cnt == old(cnt)
    {
      if enable {
        if hasServer {
          if !active {
            active := true;
            res := "Started cloud logger";
          } else {
            res := "Cloud logger already running";
          }
        } else {
          res := "Cannot start. No configuration present";
        }
      } else {
        if active {
          active := false;
          res := "Stopped cloud logger";
        } else {
          res := "Cloud logger not running";
        }
      }
      model.Publish("cloud", VBool(active));
    }

    /** One pass of `run`'s loop with the store's content `md`: the work it
        does, the link state and the counter. Nothing happens while the
        logger is off; the link becomes connected, with the counter reset,
        once the modem has a bearer, and nothing leaves the connected state. */
    method Tick(md: map<string, Value>) returns (jobs: seq<Job>)
      modifies this
      ensures !old(active) ==> jobs == [] && state == old(state) && cnt == old(cnt)
      ensures old(active) && old(state) == Connected ==>
        jobs == Jobs(old(cnt)) && state == Connected && cnt == old(cnt) + 1
      ensures old(active) && old(state) == Init ==>
        jobs == []
        && state == (if LinkReady(md) then Connected else Init)
        && cnt == (if LinkReady(md) then 1 else old(cnt) + 1)
      ensures active == old(active) && dataQueue == old(dataQueue)
    {
      jobs := [];
      if active {
        var nextState := state;
        if state != Connected {
          if "modem" in md {
            var m := md["modem"];
            if HasKey(m, "modem-id") {
              if HasKey(m, "bearer-id") {
                cnt := 0;
                nextState := Connected;
              }
            }
          }
        } else {
          jobs := [Gnss(cnt % 60 == 0)];
          if cnt % 15 == 0 {
            jobs := jobs + [Info];
          }
          if cnt % TelemetryPeriod == 5 {
            jobs := jobs + [Telemetry];
          }
          if cnt % AttributePeriod == 7 {
            jobs := jobs + [Attributes];
          }
        }
        if state != nextState {
          state := nextState;
        }
        cnt := cnt + 1;
      }
    }

    method QueueTimed(data: Value, nowMs: int)
      requires Valid()
      modifies this
      ensures Valid()
      ensures dataQueue == Timed(old(dataQueue), TransmitQueue.Entry(nowMs, data))
      ensures state == old(state) && active == old(active) && cnt == old(cnt)
    {
      var dataSet := TransmitQueue.Entry(nowMs, data);
      var numEntries := |dataQueue|;
      if numEntries > MaxQueueSize {
        dataQueue := dataQueue[|dataQueue| - MaxQueueSize..];
      }
      dataQueue := dataQueue + [dataSet];
    }

    /** `_gnss` with the outcome of the distance test as `moved`. */
    method QueueGnss(md: map<string, Value>, force: bool, moved: bool, nowMs: int)
      requires Valid()
      modifies this
      ensures Valid()
      ensures GnssQueued(md, force, moved) ==>
        dataQueue == Timed(old(dataQueue), TransmitQueue.Entry(nowMs, md["gnss-pos"]))
      ensures !GnssQueued(md, force, moved) ==> dataQueue == old(dataQueue)
      ensures state == old(state) && active == old(active) && cnt == old(cnt)
    {
      if "gnss-pos" in md {
        var pos := md["gnss-pos"];
        if HasKey(pos, "lon") && HasKey(pos, "lat") {
          if force || moved {
            QueueTimed(pos, nowMs);
          }
        }
      }
    }

    /** `_post_data`: reports 'sending', then 'sent' when the post went
        through; `ok` is the outcome of the HTTP request. */
    method PostData(ok: bool, bytesSent: nat) returns (res: bool)
      modifies model
      ensures res == ok
      ensures model.data == old(model.data)["things" := PostRecord(ok, bytesSent)]
      ensures model.ledInd == (if ok then DataModel.Green else DataModel.Yellow)
      ensures model.ledStat == old(model.ledStat)
    {
      model.Publish("things", VMap(map["state" := VStr("sending")]));
      res := false;
      if ok {
        model.Publish("things", VMap(map["state" := VStr("sent"), "bytes" := VInt(bytesSent)]));
        res := true;
      }
    }

    /** Queues the queue's size, posts every entry in queue order, and
        empties the queue only when the post succeeded. */
    method UploadTelemetry(nowMs: int, ok: bool, bytesSent: nat) returns (posted: seq<Value>)
      requires Valid()
      modifies this, model
      ensures Valid()
      ensures var q := Timed(old(dataQueue), TransmitQueue.Entry(nowMs, QueueSize(|old(dataQueue)|)));
        && posted == HttpData(q)
        && dataQueue == (if ok then [] else q)
      ensures model.data == old(model.data)["things" := PostRecord(ok, bytesSent)]
      ensures state == old(state) && active == old(active) && cnt == old(cnt)
    {
      var numEntries := |dataQueue|;
      QueueTimed(QueueSize(numEntries), nowMs);
      posted := BuildHttpData(dataQueue);
      var res := PostData(ok, bytesSent);
      if res {
        dataQueue := [];
      }
    }
  }

  /** The upload's first row after the queue's own entries is the queue
      size, counted before it was queued. */
  lemma UploadEndsWithSize(q: seq<Entry>, nowMs: int)
    requires |q| <= MaxQueueSize
    ensures var rows := HttpData(Timed(q, TransmitQueue.Entry(nowMs, QueueSize(|q|))));
      && |rows| == |q| + 1
      && rows[..|q|] == HttpData(q)
      && rows[|q|] == VMap(map["ts" := VInt(nowMs), "values" := QueueSize(|q|)])
  {
    var e := TransmitQueue.Entry(nowMs, QueueSize(|q|));
    assert Timed(q, e) == q + [e];
    assert (q + [e])[..|q|] == q;
  }
}
