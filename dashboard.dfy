/**
 * The dashboard's `state_update` handler (static/dashboard.js): each field of the
 * server's state moves one gauge, independently of the others, and a field that is
 * missing or not a number leaves its gauge as it was.
 */
module Dashboard {
  import opened Wrappers

  /** A JavaScript value, as far as the LED check tells values apart. */
  datatype JsValue = Undefined | Null | Boolean(b: bool) | Number(n: real) | Text(s: string) | Object

  /** `data.fan` when it is truthy; `speed` is `parseInt(data.fan.speed)`, None where that is NaN. */
  datatype FanData = FanData(speed: Option<int>)

  /**
   * One `state_update` message. A sensor field holds `parseFloat` of the sent value, None
   * where the value is null, undefined or not a number; `fan` and `led` are None where
   * `data.fan` or `data.led` is falsy; `fanStatus` is None where `data.fan_status` is absent.
   */
  datatype Update = Update(
    temperature: Option<real>,
    humidity: Option<real>,
    pressure: Option<real>,
    fan: Option<FanData>,
    fanStatus: Option<string>,
    led: Option<JsValue>)

  const Running: string := "En marche"
  const Stopped: string := "Arr\U{EA}t\U{E9}"

  function Min(x: real, y: real): real {
    if x <= y then x else y
  }

  function Max(x: real, y: real): real {
    if x >= y then x else y
  }

  /** The mercury height in percent: the temperature clamped to [0, 100]. */
  function ThermometerPercent(temp: real): (p: real)
    ensures 0.0 <= p <= 100.0
    ensures 0.0 <= temp <= 100.0 ==> p == temp
    ensures temp < 0.0 ==> p == 0.0
    ensures temp > 100.0 ==> p == 100.0
  {
    Min(Max((temp / 100.0) * 100.0, 0.0), 100.0)
  }

  /** The humidity needle in degrees: a half turn for 0 to 100 %, not clamped. */
  function HumidityAngle(hum: real): (a: real)
    ensures 0.0 <= hum <= 100.0 ==> -90.0 <= a <= 90.0
    ensures hum == 0.0 ==> a == -90.0
    ensures hum == 100.0 ==> a == 90.0
    ensures hum < 0.0 ==> a < -90.0
    ensures hum > 100.0 ==> a > 90.0
  {
    -90.0 + (hum / 100.0) * 180.0
  }

  /** Equal steps of humidity turn the needle by equal angles, 1.8 degrees per percent. */
  lemma HumidityAngleLinear(h1: real, h2: real)
    ensures HumidityAngle(h2) - HumidityAngle(h1) == (h2 - h1) * 1.8
  {
  }

  /** The pressure scale's position, from 900 hPa (0) to 1100 hPa (1), clamped. */
  function PressureLevel(pres: real): (n: real)
    ensures 0.0 <= n <= 1.0
    ensures 900.0 <= pres <= 1100.0 ==> n == (pres - 900.0) / 200.0
    ensures pres <= 900.0 ==> n == 0.0
    ensures pres >= 1100.0 ==> n == 1.0
  {
    Max(Min((pres - 900.0) / 200.0, 1.0), 0.0)
  }

  /** The pressure needle in degrees, always within a half turn. */
  function PressureAngle(pres: real): (a: real)
    ensures -90.0 <= a <= 90.0
    ensures pres <= 900.0 ==> a == -90.0
    ensures pres >= 1100.0 ==> a == 90.0
  {
    -90.0 + PressureLevel(pres) * 180.0
  }

  /** A higher pressure never turns the needle back. */
  lemma PressureAngleMonotone(p1: real, p2: real)
    requires p1 <= p2
    ensures PressureAngle(p1) <= PressureAngle(p2)
  {
  }

  /** JavaScript truthiness of an optional string: present and not empty. */
  predicate IsTruthy(s: Option<string>) {
    s.Some? && s.value != ""
  }

  /** The fan label: the server's status when truthy, otherwise derived from the speed. */
  function FanStatusText(status: Option<string>, speed: int): (t: string)
    ensures IsTruthy(status) ==> t == status.value
    ensures !IsTruthy(status) ==> (t == Running <==> speed > 0) && (t == Running || t == Stopped)
  {
    if IsTruthy(status) then status.value else if speed > 0 then Running else Stopped
  }

  /** The seconds per turn of a spinning fan, `1 / (speed / 100)`: one turn a second at full speed. */
  function SpinSeconds(speed: int): (d: real)
    requires speed > 0
    ensures d > 0.0 && d * speed as real == 100.0
  {
    1.0 / (speed as real / 100.0)
  }

  /** A faster fan turns faster. */
  lemma SpinSecondsDecreasing(s1: int, s2: int)
    requires 0 < s1 <= s2
    ensures SpinSeconds(s2) <= SpinSeconds(s1)
  {
    var d1, d2 := SpinSeconds(s1), SpinSeconds(s2);
    assert d1 * s1 as real == d2 * s2 as real;
    assert d2 * s1 as real <= d2 * s2 as real;
  }

  /** The LED check: exactly "True", true, "true" and 1 light it (strict equality). */
  function LedIsOn(v: JsValue): (on: bool)
    ensures on <==> v in {Text("True"), Boolean(true), Text("true"), Number(1.0)}
  {
    v == Text("True") || v == Boolean(true) || v == Text("true") || v == Number(1.0)
  }

  /** The boolean the server stores for the LED shows as sent; look-alike strings and numbers do not light it. */
  lemma LedTruthTable(b: bool)
    ensures LedIsOn(Boolean(b)) == b
    ensures !LedIsOn(Text("1")) && !LedIsOn(Text("TRUE")) && !LedIsOn(Text("on"))
    ensures !LedIsOn(Number(2.0)) && !LedIsOn(Null) && !LedIsOn(Undefined) && !LedIsOn(Object)
  {
  }

  /** The gauges the handler writes into. */
  class View {
    var temperatureShown: real
    var mercuryPercent: real
    var humidityShown: real
    var humidityNeedle: real
    var pressureShown: real
    var pressureNeedle: real
    var fanSpeedShown: int
    var fanStatusShown: string
    var fanSpinning: bool
    var fanSpinSeconds: real
    var ledLabel: string
    var ledLit: bool

    constructor ()
    {
    }

    /** The `state_update` handler: every present field sets its own gauges and nothing else. */
    method OnStateUpdate(data: Update)
      modifies this`temperatureShown, this`mercuryPercent, this`humidityShown, this`humidityNeedle
      modifies this`pressureShown, this`pressureNeedle
      modifies this`fanSpeedShown, this`fanStatusShown, this`fanSpinning, this`fanSpinSeconds
      modifies this`ledLabel, this`ledLit
      ensures data.temperature.Some? ==>
                temperatureShown == data.temperature.value &&
                mercuryPercent == ThermometerPercent(data.temperature.value)
      ensures data.temperature.None? ==>
                temperatureShown == old(temperatureShown) && mercuryPercent == old(mercuryPercent)
      ensures data.humidity.Some? ==>
                humidityShown == data.humidity.value && humidityNeedle == HumidityAngle(data.humidity.value)
      ensures data.humidity.None? ==>
                humidityShown == old(humidityShown) && humidityNeedle == old(humidityNeedle)
      ensures data.pressure.Some? ==>
                pressureShown == data.pressure.value && pressureNeedle == PressureAngle(data.pressure.value)
      ensures data.pressure.None? ==>
                pressureShown == old(pressureShown) && pressureNeedle == old(pressureNeedle)
      ensures data.fan.Some? && data.fan.value.speed.Some? ==>
                var speed := data.fan.value.speed.value;
                fanSpeedShown == speed &&
                fanStatusShown == FanStatusText(data.fanStatus, speed) &&
                fanSpinning == (speed > 0) &&
                fanSpinSeconds == (if speed > 0 then SpinSeconds(speed) else old(fanSpinSeconds))
      ensures data.fan.None? || data.fan.value.speed.None? ==>
                fanSpeedShown == old(fanSpeedShown) && fanStatusShown == old(fanStatusShown) &&
                fanSpinning == old(fanSpinning) && fanSpinSeconds == old(fanSpinSeconds)
      ensures data.led.Some? ==>
                ledLit == LedIsOn(data.led.value) && ledLabel == (if ledLit then "ON" else "OFF")
      ensures data.led.None? ==> ledLit == old(ledLit) && ledLabel == old(ledLabel)
    {
      ShowTemperature(data.temperature);
      ShowHumidity(data.humidity);
      ShowPressure(data.pressure);
      ShowFan(data.fan, data.fanStatus);
      ShowLed(data.led);
    }

    /** The temperature block: the value and the mercury height, when the field is a number. */
    method ShowTemperature(temp: Option<real>)
      modifies this`temperatureShown, this`mercuryPercent
      ensures temp.Some? ==> temperatureShown == temp.value && mercuryPercent == ThermometerPercent(temp.value)
      ensures temp.None? ==> temperatureShown == old(temperatureShown) && mercuryPercent == old(mercuryPercent)
    {
      if temp.Some? {
        temperatureShown := temp.value;
        var percent := Min(Max((temp.value / 100.0) * 100.0, 0.0), 100.0);
        mercuryPercent := percent;
      }
    }

    /** The humidity block: the value and the needle, when the field is a number. */
    method ShowHumidity(hum: Option<real>)
      modifies this`humidityShown, this`humidityNeedle
      ensures hum.Some? ==> humidityShown == hum.value && humidityNeedle == HumidityAngle(hum.value)
      ensures hum.None? ==> humidityShown == old(humidityShown) && humidityNeedle == old(humidityNeedle)
    {
      if hum.Some? {
        humidityShown := hum.value;
        var angle := -90.0 + (hum.value / 100.0) * 180.0;
        humidityNeedle := angle;
      }
    }

    /** The pressure block: the value and the needle, when the field is a number. */
    method ShowPressure(pres: Option<real>)
      modifies this`pressureShown, this`pressureNeedle
      ensures pres.Some? ==> pressureShown == pres.value && pressureNeedle == PressureAngle(pres.value)
      ensures pres.None? ==> pressureShown == old(pressureShown) && pressureNeedle == old(pressureNeedle)
    {
      if pres.Some? {
        pressureShown := pres.value;
        var normalized := Max(Min((pres.value - 900.0) / 200.0, 1.0), 0.0);
        var angle := -90.0 + normalized * 180.0;
        pressureNeedle := angle;
      }
    }

    /** The fan block: speed, label and spinning, when `data.fan` is truthy and its speed a number. */
    method ShowFan(fan: Option<FanData>, status: Option<string>)
      modifies this`fanSpeedShown, this`fanStatusShown, this`fanSpinning, this`fanSpinSeconds
      ensures fan.Some? && fan.value.speed.Some? ==>
                var speed := fan.value.speed.value;
                fanSpeedShown == speed && fanStatusShown == FanStatusText(status, speed) &&
                fanSpinning == (speed > 0) &&
                fanSpinSeconds == (if speed > 0 then SpinSeconds(speed) else old(fanSpinSeconds))
      ensures fan.None? || fan.value.speed.None? ==>
                fanSpeedShown == old(fanSpeedShown) && fanStatusShown == old(fanStatusShown) &&
                fanSpinning == old(fanSpinning) && fanSpinSeconds == old(fanSpinSeconds)
    {
      if fan.Some? && fan.value.speed.Some? {
        var speed := fan.value.speed.value;
        fanSpeedShown := speed;
        fanStatusShown := if IsTruthy(status) then status.value else if speed > 0 then Running else Stopped;
        if speed > 0 {
          fanSpinning := true;
          fanSpinSeconds := 1.0 / (speed as real / 100.0);
        } else {
          fanSpinning := false;
        }
      }
    }

    /** The LED block: label and light, when `data.led` is truthy. */
    method ShowLed(led: Option<JsValue>)
      modifies this`ledLabel, this`ledLit
      ensures led.Some? ==> ledLit == LedIsOn(led.value) && ledLabel == (if ledLit then "ON" else "OFF")
      ensures led.None? ==> ledLit == old(ledLit) && ledLabel == old(ledLabel)
    {
      if led.Some? {
        var v := led.value;
        var ledOn := v == Text("True") || v == Boolean(true) || v == Text("true") || v == Number(1.0);
        ledLabel := if ledOn then "ON" else "OFF";
        ledLit := ledOn;
      }
    }
  }
}
