/**
 * The server's central state (app.py): merging a loaded snapshot into the `state`
 * dictionary, switching the LED and the fan from the temperature and the thresholds,
 * deriving the fan status, and updating the thresholds from a request.
 *
 * Python values are `Value`s; a Python exception in a handler is a result with
 * `raised` set, after which the handler has changed what it changed so far and emits
 * nothing. Python's `float()` on a string is the parameter `floatOf` (None when it
 * raises); the telnet commands sent to the emulator are returned as a list of strings.
 */
module Server {
  import opened Wrappers

  /** A value decoded from JSON, as Python holds it. */
  datatype Value =
    | Null
    | Bool(b: bool)
    | Int(i: int)
    | Num(r: real)
    | Str(s: string)
    | List(items: seq<Value>)
    | Dict(fields: map<string, Value>)

  type State = map<string, Value>

  const TemperatureLed: string := "temperature_led"
  const TemperatureFan: string := "temperature_fan"

  /** The order of the `thresholds` dictionary, in which `set_threshold` visits its keys. */
  const ThresholdOrder: seq<string> := [TemperatureLed, TemperatureFan]

  const Running: string := "En marche"
  const Stopped: string := "Arr\U{EA}t\U{E9}"

  const InitialState: State := map[
    "temperature" := Null,
    "humidity" := Null,
    "pressure" := Null,
    "led" := Dict(map["id" := Str("extraLed"), "value" := Bool(false)]),
    "fan" := Dict(map["id" := Str("fan0"), "speed" := Int(0)])
  ]

  const InitialThresholds: map<string, real> := map[TemperatureLed := 30.0, TemperatureFan := 28.0]

  /** The emulator commands that switch the LED and the fan. */
  function LedCommand(on: bool): string {
    "sysbus.gpioA.extraLed " + if on then "Set" else "Reset"
  }

  function FanCommand(on: bool): string {
    "sysbus.gpioA.fan0 " + if on then "Set" else "Reset"
  }

  // ---------------------------------------------------------------- merge

  /** One key of the merge: two dictionaries are merged one level deep, anything else is replaced. */
  function MergeValue(current: Value, loaded: Value): (r: Value)
    ensures current.Dict? && loaded.Dict? ==>
              r.Dict? && r.fields.Keys == current.fields.Keys + loaded.fields.Keys &&
              (forall f :: f in loaded.fields ==> r.fields[f] == loaded.fields[f]) &&
              (forall f :: f in current.fields && f !in loaded.fields ==> r.fields[f] == current.fields[f])
    ensures !(current.Dict? && loaded.Dict?) ==> r == loaded
  {
    if current.Dict? && loaded.Dict? then Dict(current.fields + loaded.fields) else loaded
  }

  /**
   * The merge loop of `index` and `handle_get_state`: every loaded key is merged into
   * the state, every other key of the state is left alone, and no key is removed.
   */
  function Merge(state: State, loaded: State): (r: State)
    ensures r.Keys == state.Keys + loaded.Keys
    ensures forall k :: k in state && k !in loaded ==> r[k] == state[k]
    ensures forall k :: k in loaded && k !in state ==> r[k] == loaded[k]
    ensures forall k :: k in loaded && k in state ==> r[k] == MergeValue(state[k], loaded[k])
  {
    map k | k in state.Keys + loaded.Keys ::
      if k !in loaded then state[k]
      else if k in state then MergeValue(state[k], loaded[k])
      else loaded[k]
  }

  /** Merging one more loaded key changes the merge at that key only. */
  lemma MergeOneMore(state: State, part: State, k: string, v: Value)
    requires k !in part
    ensures Merge(state, part[k := v]) ==
              Merge(state, part)[k := if k in state then MergeValue(state[k], v) else v]
  {
  }

  /** Merging a snapshot twice is merging it once. */
  lemma MergeIdempotent(state: State, loaded: State)
    ensures Merge(Merge(state, loaded), loaded) == Merge(state, loaded)
  {
    var once := Merge(state, loaded);
    forall k | k in loaded && k in once
      ensures MergeValue(once[k], loaded[k]) == once[k]
    {
      if once[k].Dict? && loaded[k].Dict? {
        assert once[k].fields + loaded[k].fields == once[k].fields;
      }
    }
  }

  // ---------------------------------------------------------------- conversions

  /** Python's `float(v)`; None where it raises. */
  function ToFloat(v: Value, floatOf: string -> Option<real>): Option<real> {
    match v
    case Bool(b) => Some(if b then 1.0 else 0.0)
    case Int(i) => Some(i as real)
    case Num(r) => Some(r)
    case Str(s) => floatOf(s)
    case _ => None
  }

  /** Python's `int(x)` on a float: truncation toward zero. */
  function Truncate(x: real): (n: int)
    ensures x >= 0.0 ==> n as real <= x < n as real + 1.0
    ensures x < 0.0 ==> n as real - 1.0 < x <= n as real
  {
    if x >= 0.0 then x.Floor else -((-x).Floor)
  }

  /** `int(float(speed)) > 0` holds exactly for speeds of at least one. */
  lemma TruncatedPositive(x: real)
    ensures Truncate(x) > 0 <==> x >= 1.0
  {
  }

  /** `d[field]`: item access on a dictionary holding the field; None where it raises. */
  function GetField(v: Value, field: string): Option<Value> {
    if v.Dict? && field in v.fields then Some(v.fields[field]) else None
  }

  /**
   * `d[field] = x`: item assignment, which only a dictionary accepts with a string key.
   * Reading the field back gives `x`; every other field reads as before.
   */
  function SetField(v: Value, field: string, x: Value): (r: Option<Value>)
    ensures r.Some? <==> v.Dict?
    ensures r.Some? ==> r.value.Dict? && r.value.fields.Keys == v.fields.Keys + {field}
    ensures r.Some? ==> GetField(r.value, field) == Some(x)
    ensures r.Some? ==> forall g :: g != field ==> GetField(r.value, g) == GetField(v, g)
  {
    if v.Dict? then Some(Dict(v.fields[field := x])) else None
  }

  // ---------------------------------------------------------------- automation

  /** A handler's effect: the new state, the emulator commands sent, and whether it raised. */
  datatype Handled = Handled(state: State, commands: seq<string>, raised: bool)

  /** The fan speed set for a temperature: full at or above the fan threshold, else off. */
  function FanSpeedFor(temp: real, fanThreshold: real): (speed: int)
    ensures speed == 0 || speed == 100
    ensures speed == 100 <==> temp >= fanThreshold
  {
    if temp >= fanThreshold then 100 else 0
  }

  /** The thresholds dictionary holds its two keys. */
  predicate ThresholdsWellKeyed(th: map<string, real>) {
    th.Keys == {TemperatureLed, TemperatureFan}
  }

  /**
   * The automatic LED and fan switching. With no temperature nothing happens; a
   * temperature that `float()` rejects raises before any write; otherwise the LED is on
   * exactly at or above its threshold and the fan runs at 100 exactly at or above its
   * own, each written into its dictionary and sent to the emulator. A `fan` that is not
   * a dictionary raises after the LED has been written and switched.
   */
  function Automate(state: State, th: map<string, real>, floatOf: string -> Option<real>): (h: Handled)
    requires "led" in state && "fan" in state && ThresholdsWellKeyed(th)
    ensures h.state.Keys == state.Keys
    ensures forall k :: k in state && k != "led" && k != "fan" ==> h.state[k] == state[k]
    ensures "temperature" !in state || state["temperature"] == Null ==> h == Handled(state, [], false)
    ensures !h.raised && "temperature" in state && state["temperature"] != Null ==>
              ToFloat(state["temperature"], floatOf).Some? && state["led"].Dict? && state["fan"].Dict? &&
              var t := ToFloat(state["temperature"], floatOf).value;
              h.state["led"] == Dict(state["led"].fields["value" := Bool(t >= th[TemperatureLed])]) &&
              h.state["fan"] == Dict(state["fan"].fields["speed" := Int(FanSpeedFor(t, th[TemperatureFan]))]) &&
              h.commands == [LedCommand(t >= th[TemperatureLed]), FanCommand(t >= th[TemperatureFan])]
    ensures h.raised <==>
              Get(state, "temperature").Some? && state["temperature"] != Null &&
              (ToFloat(state["temperature"], floatOf).None? || !state["led"].Dict? || !state["fan"].Dict?)
    ensures h.raised && "temperature" in state &&
            (ToFloat(state["temperature"], floatOf).None? || !state["led"].Dict?) ==>
              h.state == state && h.commands == []
    ensures h.raised && "temperature" in state && ToFloat(state["temperature"], floatOf).Some? && state["led"].Dict? ==>
              var ledOn := ToFloat(state["temperature"], floatOf).value >= th[TemperatureLed];
              h.state == state["led" := Dict(state["led"].fields["value" := Bool(ledOn)])] &&
              h.commands == [LedCommand(ledOn)]
  {
    var temp := if "temperature" in state then state["temperature"] else Null;
    if temp == Null then Handled(state, [], false)
    else match ToFloat(temp, floatOf)
      case None => Handled(state, [], true)
      case Some(t) =>
        var ledOn := t >= th[TemperatureLed];
        match SetField(state["led"], "value", Bool(ledOn))
        case None => Handled(state, [], true)
        case Some(led) =>
          var lit := state["led" := led];
          var speed := FanSpeedFor(t, th[TemperatureFan]);
          match SetField(lit["fan"], "speed", Int(speed))
          case None => Handled(lit, [LedCommand(ledOn)], true)
          case Some(fan) => Handled(lit["fan" := fan], [LedCommand(ledOn), FanCommand(speed > 0)], false)
  }

  function Get(state: State, key: string): Option<Value> {
    if key in state then Some(state[key]) else None
  }

  /** With the fan threshold at or below the LED threshold, as by default, a lit LED means a running fan. */
  lemma LedOnImpliesFanFull(state: State, th: map<string, real>, floatOf: string -> Option<real>)
    requires "led" in state && "fan" in state && ThresholdsWellKeyed(th)
    requires th[TemperatureFan] <= th[TemperatureLed]
    requires "temperature" in state && state["temperature"] != Null
    ensures var h := Automate(state, th, floatOf);
            !h.raised && h.state["led"].fields["value"] == Bool(true) ==> h.state["fan"].fields["speed"] == Int(100)
  {
  }

  /**
   * `fan_status`: "En marche" exactly when `int(float(fan["speed"])) > 0`, "Arrêté"
   * otherwise; None where that expression raises.
   */
  function FanStatus(state: State, floatOf: string -> Option<real>): (r: Option<string>)
    requires "fan" in state
    ensures r.Some? <==>
              GetField(state["fan"], "speed").Some? && ToFloat(state["fan"].fields["speed"], floatOf).Some?
    ensures r.Some? ==> (r.value == Running <==> ToFloat(state["fan"].fields["speed"], floatOf).value >= 1.0)
    ensures r.Some? ==> r.value == Running || r.value == Stopped
  {
    match GetField(state["fan"], "speed")
    case None => None
    case Some(speed) =>
      match ToFloat(speed, floatOf)
      case None => None
      case Some(x) =>
        TruncatedPositive(x);
        Some(if Truncate(x) > 0 then Running else Stopped)
  }

  /** Stores the fan status, or records that deriving it raised. */
  function WithFanStatus(h: Handled, floatOf: string -> Option<real>): Handled
    requires "fan" in h.state
  {
    match FanStatus(h.state, floatOf)
    case None => h.(raised := true)
    case Some(status) => h.(state := h.state["fan_status" := Str(status)])
  }

  /** A snapshot that Python's `if new_state:` lets through: present and not empty. */
  predicate Applies(loaded: Option<State>) {
    loaded.Some? && loaded.value != map[]
  }

  /** The `handle_get_state` handler up to its emit. */
  function GetState(state: State, th: map<string, real>, loaded: Option<State>, floatOf: string -> Option<real>): Handled
    requires "led" in state && "fan" in state && ThresholdsWellKeyed(th)
  {
    if !Applies(loaded) then Handled(state, [], false)
    else
      var h := Automate(Merge(state, loaded.value), th, floatOf);
      if h.raised then h else WithFanStatus(h, floatOf)
  }

  /** The `index` handler up to its rendering: the merge and the fan status, without the automation. */
  function IndexState(state: State, loaded: Option<State>, floatOf: string -> Option<real>): Handled
    requires "fan" in state
  {
    if !Applies(loaded) then Handled(state, [], false)
    else WithFanStatus(Handled(Merge(state, loaded.value), [], false), floatOf)
  }

  /** A missing or empty snapshot changes nothing, the fan status included, and sends no command. */
  lemma NoSnapshotNoChange(state: State, th: map<string, real>, loaded: Option<State>, floatOf: string -> Option<real>)
    requires "led" in state && "fan" in state && ThresholdsWellKeyed(th)
    requires !Applies(loaded)
    ensures GetState(state, th, loaded, floatOf) == Handled(state, [], false)
    ensures IndexState(state, loaded, floatOf) == Handled(state, [], false)
  {
  }

  /**
   * When `handle_get_state` completes on a snapshot, the emitted state holds every key
   * it held before and every loaded key, a fan status agreeing with the stored speed,
   * and, when the merged temperature is a number, a fan speed of 0 or 100.
   */
  lemma GetStateOutcome(state: State, th: map<string, real>, loaded: State, floatOf: string -> Option<real>)
    requires "led" in state && "fan" in state && ThresholdsWellKeyed(th)
    requires loaded != map[]
    ensures var h := GetState(state, th, Some(loaded), floatOf);
            !h.raised ==>
              h.state.Keys == state.Keys + loaded.Keys + {"fan_status"} &&
              h.state["fan_status"] == Str(FanStatus(h.state, floatOf).value) &&
              var merged := Merge(state, loaded);
              ("temperature" in merged && merged["temperature"] != Null ==>
                 h.state["fan"].fields["speed"] == Int(0) || h.state["fan"].fields["speed"] == Int(100))
  {
  }

  // ---------------------------------------------------------------- thresholds

  /** The thresholds and whether the update ran to the end without `float()` raising. */
  datatype ThresholdUpdate = ThresholdUpdate(thresholds: map<string, real>, ok: bool)

  /** The index of the first key the request names with a value `float()` rejects; `|keys|` when there is none. */
  function FirstRejected(data: map<string, Option<real>>, keys: seq<string>): (n: nat)
    ensures n <= |keys|
    ensures forall i :: 0 <= i < n && keys[i] in data ==> data[keys[i]].Some?
    ensures n < |keys| ==> keys[n] in data && data[keys[n]].None?
    decreases |keys|
  {
    if keys == [] then 0
    else
      var n := FirstRejected(data, keys[..|keys| - 1]);
      if n < |keys| - 1 then n
      else if keys[n] in data && data[keys[n]].None? then n
      else |keys|
  }

  /**
   * The `set_threshold` loop over `keys` in order: each key present in the request takes
   * its parsed value; the first value `float()` rejects stops the loop, keeping the
   * updates made before it.
   */
  function UpdateThresholds(th: map<string, real>, data: map<string, Option<real>>, keys: seq<string>): (r: ThresholdUpdate)
    requires forall i :: 0 <= i < |keys| ==> keys[i] in th
    ensures r.thresholds.Keys == th.Keys
    ensures forall k :: k in th && (k !in data || k !in keys) ==> r.thresholds[k] == th[k]
    ensures r.ok <==> forall i :: 0 <= i < |keys| && keys[i] in data ==> data[keys[i]].Some?
    ensures r.ok ==> forall k :: k in keys && k in data ==> r.thresholds[k] == data[k].value
    decreases |keys|
  {
    if keys == [] then ThresholdUpdate(th, true)
    else
      var before := UpdateThresholds(th, data, keys[..|keys| - 1]);
      var key := keys[|keys| - 1];
      if !before.ok || key !in data then before
      else match data[key]
        case None => ThresholdUpdate(before.thresholds, false)
        case Some(x) => ThresholdUpdate(before.thresholds[key := x], true)
  }

  /**
   * A rejected value stops the update where it stands: the thresholds are those of an
   * update over the keys before the first rejected one.
   */
  lemma {:induction false} UpdateStopsAtRejection(th: map<string, real>, data: map<string, Option<real>>, keys: seq<string>)
    requires forall i :: 0 <= i < |keys| ==> keys[i] in th
    ensures var n := FirstRejected(data, keys);
            UpdateThresholds(th, data, keys).thresholds == UpdateThresholds(th, data, keys[..n]).thresholds
    decreases |keys|
  {
    if keys != [] {
      var prefix := keys[..|keys| - 1];
      var key := keys[|keys| - 1];
      var m := FirstRejected(data, prefix);
      UpdateStopsAtRejection(th, data, prefix);
      if m < |prefix| {
        assert FirstRejected(data, keys) == m;
        assert prefix[..m] == keys[..m];
        assert !UpdateThresholds(th, data, prefix).ok by {
          assert prefix[m] in data && data[prefix[m]].None?;
        }
      } else if key in data && data[key].None? {
        assert FirstRejected(data, keys) == m;
        assert prefix[..m] == prefix == keys[..m];
      } else {
        assert FirstRejected(data, keys) == |keys|;
        assert keys[..|keys|] == keys;
      }
    }
  }

  /**
   * After a rejected value the keys named before it hold their sent values, and every
   * other key, the rejected one and all after it included, holds its old value.
   */
  lemma RejectionKeepsEarlierUpdates(th: map<string, real>, data: map<string, Option<real>>, keys: seq<string>)
    requires forall i :: 0 <= i < |keys| ==> keys[i] in th
    ensures var r, done := UpdateThresholds(th, data, keys), keys[..FirstRejected(data, keys)];
            (r.ok <==> |done| == |keys|) &&
            (forall k :: k in done && k in data ==> r.thresholds[k] == data[k].value) &&
            (forall k :: k in th && (k !in done || k !in data) ==> r.thresholds[k] == th[k])
  {
    UpdateStopsAtRejection(th, data, keys);
    var done := keys[..FirstRejected(data, keys)];
    assert UpdateThresholds(th, data, done).ok;
  }

  // ---------------------------------------------------------------- the server

  class App {
    var state: State
    var thresholds: map<string, real>
    /** Python's `float()` on a string: None where it raises. */
    const floatOf: string -> Option<real>

    ghost predicate Valid()
      reads this
    {
      InitialState.Keys <= state.Keys && ThresholdsWellKeyed(thresholds)
    }

    constructor (floatOf: string -> Option<real>)
      ensures Valid() && this.floatOf == floatOf
      ensures state == InitialState && thresholds == InitialThresholds
    {
      this.floatOf := floatOf;
      state := InitialState;
      thresholds := InitialThresholds;
    }

    /** The merge loop: every loaded key is merged into `state` in place. */
    method MergeSnapshot(loaded: State)
      requires Valid()
      modifies this`state
      ensures Valid()
      ensures state == Merge(old(state), loaded)
    {
      var remaining := loaded.Keys;
      while remaining != {}
        invariant remaining <= loaded.Keys
        invariant state == Merge(old(state), loaded - remaining)
        decreases remaining
      {
        var k :| k in remaining;
        var v := loaded[k];
        MergeOneMore(old(state), loaded - remaining, k, v);
        assert loaded - (remaining - {k}) == (loaded - remaining)[k := v];
        if k in state && state[k].Dict? && v.Dict? {
          state := state[k := Dict(state[k].fields + v.fields)];
        } else {
          state := state[k := v];
        }
        remaining := remaining - {k};
      }
      assert loaded - remaining == loaded;
    }

    /** `fan_status`, written into the state; false where it raises. */
    method StoreFanStatus() returns (ok: bool)
      requires Valid()
      modifies this`state
      ensures Valid()
      ensures WithFanStatus(Handled(old(state), [], false), floatOf) == Handled(state, [], !ok)
    {
      var fan := state["fan"];
      if !fan.Dict? || "speed" !in fan.fields {
        return false;
      }
      var speed := ToFloat(fan.fields["speed"], floatOf);
      if speed.None? {
        return false;
      }
      state := state["fan_status" := Str(if Truncate(speed.value) > 0 then Running else Stopped)];
      ok := true;
    }

    /** The `index` route up to rendering: returns the state rendered, or None where it raised. */
    method Index(loaded: Option<State>) returns (rendered: Option<State>)
      requires Valid()
      modifies this`state
      ensures Valid()
      ensures var h := IndexState(old(state), loaded, floatOf);
              state == h.state && rendered == if h.raised then None else Some(h.state)
    {
      if loaded.Some? && loaded.value != map[] {
        MergeSnapshot(loaded.value);
        var ok := StoreFanStatus();
        if !ok {
          return None;
        }
      }
      rendered := Some(state);
    }

    /** The LED and fan switching, in place; false where it raised. */
    method SwitchLedAndFan() returns (ok: bool, commands: seq<string>)
      requires Valid()
      modifies this`state
      ensures Valid()
      ensures Automate(old(state), thresholds, floatOf) == Handled(state, commands, !ok)
    {
      commands := [];
      var temp := if "temperature" in state then state["temperature"] else Null;
      if temp == Null {
        return true, commands;
      }
      var t := ToFloat(temp, floatOf);
      if t.None? {
        return false, commands;
      }
      var ledOn := t.value >= thresholds[TemperatureLed];
      var led := state["led"];
      if !led.Dict? {
        return false, commands;
      }
      state := state["led" := Dict(led.fields["value" := Bool(ledOn)])];
      commands := commands + [LedCommand(ledOn)];
      var fanSpeed := if t.value >= thresholds[TemperatureFan] then 100 else 0;
      var fan := state["fan"];
      if !fan.Dict? {
        return false, commands;
      }
      state := state["fan" := Dict(fan.fields["speed" := Int(fanSpeed)])];
      commands := commands + [FanCommand(fanSpeed > 0)];
      ok := true;
    }

    /**
     * The `get_state` handler: merges the snapshot, switches the LED and the fan, stores
     * the fan status and emits the state; None where a step raised.
     */
    method HandleGetState(loaded: Option<State>) returns (emitted: Option<State>, commands: seq<string>)
      requires Valid()
      modifies this`state
      ensures Valid()
      ensures var h := GetState(old(state), thresholds, loaded, floatOf);
              state == h.state && commands == h.commands &&
              emitted == if h.raised then None else Some(h.state)
    {
      commands := [];
      if loaded.Some? && loaded.value != map[] {
        MergeSnapshot(loaded.value);
        var ok;
        ok, commands := SwitchLedAndFan();
        if !ok {
          return None, commands;
        }
        ok := StoreFanStatus();
        if !ok {
          return None, commands;
        }
      }
      emitted := Some(state);
    }

    /**
     * `set_threshold`: updates, in the dictionary's order, the thresholds the request
     * names; ignores every other key; never adds or removes a key. Returns the new
     * thresholds, or None where `float()` raised part-way.
     */
    method SetThreshold(data: map<string, Option<real>>) returns (response: Option<map<string, real>>)
      requires Valid()
      modifies this`thresholds
      ensures Valid()
      ensures var u := UpdateThresholds(old(thresholds), data, ThresholdOrder);
              thresholds == u.thresholds && response == if u.ok then Some(thresholds) else None
    {
      for i := 0 to |ThresholdOrder|
        invariant ThresholdsWellKeyed(thresholds)
        invariant UpdateThresholds(old(thresholds), data, ThresholdOrder[..i]) == ThresholdUpdate(thresholds, true)
      {
        var key := ThresholdOrder[i];
        assert ThresholdOrder[..i + 1][..i] == ThresholdOrder[..i];
        if key in data {
          if data[key].None? {
            return None;
          }
          thresholds := thresholds[key := data[key].value];
        }
      }
      assert ThresholdOrder[..|ThresholdOrder|] == ThresholdOrder;
      response := Some(thresholds);
    }
  }
}
