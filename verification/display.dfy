/**
 * The firmware's global state and entry points, updated in place: the
 * array of three arcs, the dial value and the time of the last redraw,
 * the MQTT message callback, the arc drawing loop, one display refresh,
 * and the refresh check of the main loop.
 */
module Display {
  import opened Gauge
  import opened Geometry
  import opened Cadence

  /** Topic on which each refresh publishes the temperature reading. */
  const TemperatureTopic := "ha_display/temperature"

  /** One outgoing MQTT publication. */
  datatype Publication = Publication(topic: string, payload: string, retained: bool)

  /** What one pass of the main loop did about the display. */
  datatype Tick = Idle | Rendered(frame: seq<Primitive>, status: Publication)

  /** Collects the first `length` payload bytes into a string, one character per byte. */
  method PayloadText(payload: seq<byte>, length: nat) returns (val: string)
    requires length <= |payload|
    ensures val == PayloadString(payload[..length])
  {
    val := "";
    for i := 0 to length
      invariant val == PayloadString(payload[..i])
    {
      assert payload[..i + 1][..i] == payload[..i];
      val := val + [payload[i] as int as char];
    }
  }

  class GaugeDisplay {
    /** The three arcs, outermost first. */
    var arcs: array<Arc>
    var dialValue: real
    /** Counter reading at the end of the last redraw. */
    var lastRefresh: u32

    ghost predicate Valid()
      reads this
    {
      arcs.Length == ArcCount
    }

    /** The gauge state as a value. */
    function State(): (g: Gauges)
      reads this, arcs
      requires Valid()
      ensures g.Valid()
    {
      Gauges(arcs[..], dialValue)
    }

    /** Power-on state: default arcs, dial at 0, last redraw at counter 0. */
    constructor ()
      ensures Valid() && fresh(arcs)
      ensures State() == Initial && lastRefresh == 0
    {
      arcs := new Arc[ArcCount](_ => DefaultArc);
      dialValue := 0.0;
      lastRefresh := 0;
      new;
      assert arcs[..] == Initial.arcs;
    }

    /**
     * The MQTT message callback. The payload text is parsed by `toFloat`
     * (the string library's parser) and written to the one gauge the topic
     * addresses; `Apply` states which, and that nothing else changes.
     */
    method Callback(topic: string, payload: seq<byte>, length: nat, toFloat: string -> real)
      requires Valid()
      requires length <= |payload|
      modifies this, arcs
      ensures Valid() && arcs == old(arcs) && lastRefresh == old(lastRefresh)
      ensures State() == Apply(old(State()), topic, toFloat(PayloadString(payload[..length])))
    {
      var val := PayloadText(payload, length);
      var f := toFloat(val);
      if topic == Arc1Topic {
        arcs[0] := arcs[0].(value := f);
      } else if topic == Arc2Topic {
        arcs[1] := arcs[1].(value := f);
      } else if topic == Arc3Topic {
        arcs[2] := arcs[2].(value := f);
      } else if topic == DialTopic {
        dialValue := f;
      }
    }

    /** Walks the arcs outermost first with a running radius and emits one band per drawn arc. */
    method DrawArcs() returns (prims: seq<Primitive>)
      requires Valid()
      ensures prims == Layout(arcs[..])
    {
      ghost var s := arcs[..];
      prims := [];
      var r := Radius;
      for i := 0 to ArcCount
        invariant prims + LayoutFrom(s[i..], r) == Layout(s)
      {
        assert s[i..][0] == arcs[i] && s[i..][1..] == s[i + 1..];
        LayoutStep(s[i..], r);
        if arcs[i].width <= 0 {
          continue;
        }
        var inner := r - arcs[i].width;
        var angle := ArcEndAngle(arcs[i].value);
        prims := prims + [FillArc(Center, Center, r, inner, ArcStartAngle, angle, arcs[i].color)];
        r := inner - ArcGap;
      }
    }

    /**
     * One refresh: the frame drawn from the current state with the formatted
     * temperature `reading`, and the retained publication of that same text.
     */
    method UpdateDisplay(reading: string) returns (frame: seq<Primitive>, status: Publication)
      requires Valid()
      ensures frame == Frame(State(), reading)
      ensures status == Publication(TemperatureTopic, reading, true)
      ensures frame[|frame| - 1].DrawString? && frame[|frame| - 1].text == status.payload
    {
      var bands := DrawArcs();
      frame := [FillScreen(Black)] + bands + DialPrimitives(dialValue)
        + [DrawString(reading, Center, LabelY, White, Black)];
      status := Publication(TemperatureTopic, reading, true);
    }

    /**
     * The refresh check of the main loop at counter reading `now`. When a
     * redraw is due it renders and records `doneAt`, the counter read again
     * once the redraw is finished; otherwise nothing changes.
     */
    method Loop(now: u32, doneAt: u32, reading: string) returns (tick: Tick)
      requires Valid()
      modifies this`lastRefresh
      ensures tick.Rendered? <==> RefreshDue(old(lastRefresh), now)
      ensures tick.Rendered? ==> tick.frame == Frame(State(), reading) && lastRefresh == doneAt
      ensures tick.Rendered? ==> tick.status == Publication(TemperatureTopic, reading, true)
      ensures !tick.Rendered? ==> lastRefresh == old(lastRefresh)
    {
      if Elapsed(now, lastRefresh) as int > RefreshPeriod {
        var frame, status := UpdateDisplay(reading);
        tick := Rendered(frame, status);
        lastRefresh := doneAt;
      } else {
        tick := Idle;
      }
    }
  }
}
