/** The mobile-link watcher of vcuui/wwan_model.py (`GsmWorker.run`): on
    every one-second tick it reads the modem record from the store, moves
    between `init` and `connected` as the bearer's IP address appears and
    disappears, and while connected pings a fixed host every fifth tick and
    publishes the round-trip delay under 'link'. The ping is a parameter;
    its rounding to three decimals is left out. */
module WwanModel {
  import opened Common
  import DataModel

  datatype State = Init | Connected

  /** What `ping(PING_HOST)` did: a delay in seconds, a falsy result (None
      for a timeout, False for an error), or an OSError. */
  datatype Ping = Delay(seconds: real) | NoReply | PingOSError

  /** The delay published for a ping that returned: 0.0 unless the delay is
      truthy. */
  function DelayOf(p: Ping): real
    requires !p.PingOSError?
  {
    if p.Delay? && p.seconds != 0.0 then p.seconds else 0.0
  }

  /** Whether the modem record carries a bearer address. */
  predicate HasBearer(info: Value) {
    Truthy(info) && HasKey(info, "bearer-ip")
  }

  /** Whether the record shows a modem without a bearer address. */
  predicate LostBearer(info: Value) {
    Truthy(info) && !HasKey(info, "bearer-ip")
  }

  /** Whether a tick in `connected` pings. */
  predicate Pings(counter: nat) {
    counter % 5 == 2
  }

  /** One tick: the next state and the delay published, if any. `ping` is
      used only on a tick that pings. */
  function Step(state: State, counter: nat, info: Value, ping: Ping): (State, Option<real>) {
    match state
    case Init => (if HasBearer(info) then Connected else Init, None)
    case Connected =>
      if LostBearer(info) then (Init, Some(0.0))
      else if !Pings(counter) then (Connected, None)
      else if ping.PingOSError? then (Init, Some(0.0))
      else (Connected, Some(DelayOf(ping)))
  }

  /** `init` moves to `connected` exactly when the record holds a bearer
      address, and publishes nothing. */
  lemma InitConnectsOnBearer(counter: nat, info: Value, ping: Ping)
    ensures Step(Init, counter, info, ping).0 == Connected <==> Truthy(info) && HasKey(info, "bearer-ip")
    ensures Step(Init, counter, info, ping).1 == None
  {
  }

  /** `connected` falls back to `init` exactly when the record is present
      without a bearer address or the ping raises; either publishes a delay
      of 0.0. A missing or empty record keeps the link. */
  lemma ConnectedFallsBack(counter: nat, info: Value, ping: Ping)
    ensures Step(Connected, counter, info, ping).0 == Init <==>
      LostBearer(info) || (Pings(counter) && ping.PingOSError?)
    ensures Step(Connected, counter, info, ping).0 == Init ==> Step(Connected, counter, info, ping).1 == Some(0.0)
    ensures !Truthy(info) && !(Pings(counter) && ping.PingOSError?) ==> Step(Connected, counter, info, ping).0 == Connected
  {
  }

  /** Something is published only in `connected`, and apart from a lost
      bearer only on a ping tick, where the published delay is the ping's
      (0.0 for a falsy reply or an OSError). */
  lemma PublishesOnPingTicks(state: State, counter: nat, info: Value, ping: Ping)
    ensures Step(state, counter, info, ping).1.Some? <==> state == Connected && (LostBearer(info) || Pings(counter))
    ensures state == Connected && !LostBearer(info) && Pings(counter) ==>
      Step(state, counter, info, ping).1 == Some(if ping.PingOSError? then 0.0 else DelayOf(ping))
    ensures Step(state, counter, info, ping).1.Some? && Step(state, counter, info, ping).1.value != 0.0 ==>
      ping.Delay? && Step(state, counter, info, ping).1.value == ping.seconds && Step(state, counter, info, ping).0 == Connected
  {
  }

  class GsmWorker {
    const model: DataModel.Model
    var state: State
    var counter: nat
    /** The `link_data` dictionary `run` keeps and publishes. */
    var linkData: map<string, Value>

    constructor (model: DataModel.Model)
      ensures this.model == model && state == Init && counter == 0 && linkData == map[]
    {
      this.model := model;
      state := Init;
      counter := 0;
      linkData := map[];
    }

    /** The start of `run`. */
    method Start()
      modifies this
      ensures state == Init && counter == 0 && linkData == map[]
    {
      state := Init;
      counter := 0;
      linkData := map[];
    }

    /** One pass of the loop of `run`: the counter advances on every tick. */
    method Tick(ping: Ping)
      modifies this, model
      ensures var next := Step(old(state), old(counter), DataModel.Lookup(old(model.data), "modem"), ping);
        && state == next.0 && counter == old(counter) + 1
        && (next.1.Some? ==> linkData == old(linkData)["delay" := VReal(next.1.value)]
                             && model.data == old(model.data)["link" := VMap(linkData)])
        && (next.1.None? ==> linkData == old(linkData) && model.data == old(model.data))
      ensures model.ledInd == old(model.ledInd) && model.ledStat == old(model.ledStat)
    {
      var info := model.Get("modem");
      if state == Init {
        if Truthy(info) && HasKey(info, "bearer-ip") {
          state := Connected;
        }
      } else {
        if Truthy(info) && !HasKey(info, "bearer-ip") {
          linkData := linkData["delay" := VReal(0.0)];
          model.Publish("link", VMap(linkData));
          state := Init;
        } else if counter % 5 == 2 {
          match ping {
            case PingOSError =>
              linkData := linkData["delay" := VReal(0.0)];
              model.Publish("link", VMap(linkData));
              state := Init;
            case _ =>
              linkData := linkData["delay" := VReal(DelayOf(ping))];
              model.Publish("link", VMap(linkData));
          }
        }
      }
      counter := counter + 1;
    }
  }

  /** A bearer that comes up and later goes away: connected after the first
      tick, back to `init` with a delay of 0.0 in the store after the
      second. */
  method BearerUpAndDown(w: GsmWorker, withIp: Value, withoutIp: Value, ping: Ping)
    requires w.state == Init && HasBearer(withIp) && LostBearer(withoutIp)
    modifies w, w.model
    ensures w.state == Init && w.counter == old(w.counter) + 2
    ensures "link" in w.model.data && HasKey(w.model.data["link"], "delay")
      && w.model.data["link"].fields["delay"] == VReal(0.0)
  {
    w.model.Publish("modem", withIp);
    w.Tick(ping);
    assert w.state == Connected;
    w.model.Publish("modem", withoutIp);
    w.Tick(ping);
  }
}
