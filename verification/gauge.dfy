/**
 * The gauge state of the display firmware and the routing of incoming
 * MQTT messages onto it, as values.
 *
 * The firmware keeps three arc records and one dial value as globals and
 * overwrites exactly one of them per message. This module states that
 * behaviour on an immutable snapshot (`Gauges`); the class in module
 * `Display` holds the same state in place and is proved to follow it.
 */
module Gauge {

  /** An unsigned 8-bit payload byte. */
  newtype byte = x: int | 0 <= x < 0x100

  /** A packed RGB565 colour, as the graphics library stores it. */
  type Color = bv16

  const White: Color := 0xFFFF
  const Black: Color := 0x0000
  const Red: Color := 0xF800

  /** Default stroke thickness of an arc, in pixels. */
  const DefaultWidth: int := 8

  /** One concentric progress arc. `value` is a percentage by convention (0-100) but is never clamped. */
  datatype Arc = Arc(value: real, width: int, color: Color)

  const DefaultArc := Arc(0.0, DefaultWidth, White)

  /** The number of arcs on the display. */
  const ArcCount: nat := 3

  /** A snapshot of all gauge state: the three arcs, outermost first, and the dial value. */
  datatype Gauges = Gauges(arcs: seq<Arc>, dial: real)
  {
    predicate Valid() { |arcs| == ArcCount }
  }

  /** The state at power-on: three default arcs and a dial at 0. */
  const Initial := Gauges([DefaultArc, DefaultArc, DefaultArc], 0.0)

  /** What a message topic addresses. */
  datatype Target = ArcTarget(index: nat) | DialTarget | Ignored

  const Arc1Topic := "ha_display/arc1"
  const Arc2Topic := "ha_display/arc2"
  const Arc3Topic := "ha_display/arc3"
  const DialTopic := "ha_display/dial"

  /** The topics the firmware subscribes to after connecting to the broker. */
  const Subscriptions: set<string> := {Arc1Topic, Arc2Topic, Arc3Topic, DialTopic}

  /** The chain of string comparisons in the message callback, first match wins. */
  function Route(topic: string): (t: Target)
    ensures t.ArcTarget? ==> t.index < ArcCount
    ensures t != Ignored <==> topic in Subscriptions
  {
    if topic == Arc1Topic then ArcTarget(0)
    else if topic == Arc2Topic then ArcTarget(1)
    else if topic == Arc3Topic then ArcTarget(2)
    else if topic == DialTopic then DialTarget
    else Ignored
  }

  /** The topic that addresses a target; the inverse of `Route` on the subscribed topics. */
  function TopicFor(t: Target): (topic: string)
    requires t.ArcTarget? ==> t.index < ArcCount
    requires t != Ignored
    ensures topic in Subscriptions
  {
    match t
    case ArcTarget(i) => if i == 0 then Arc1Topic else if i == 1 then Arc2Topic else Arc3Topic
    case DialTarget => DialTopic
  }

  /** Every routable target has exactly one topic: `Route` and `TopicFor` are mutually inverse. */
  lemma RouteTopicRoundTrip(t: Target, topic: string)
    ensures (t != Ignored && (t.ArcTarget? ==> t.index < ArcCount)) ==> Route(TopicFor(t)) == t
    ensures topic in Subscriptions ==> TopicFor(Route(topic)) == topic
  {
  }

  /**
   * The effect of one message carrying the parsed number `f` on topic `topic`:
   * an arc topic overwrites that arc's value, the dial topic overwrites the
   * dial value, any other topic changes nothing.
   */
  function Apply(g: Gauges, topic: string, f: real): (h: Gauges)
    requires g.Valid()
    ensures h.Valid()
    ensures forall k :: 0 <= k < ArcCount ==>
      h.arcs[k].width == g.arcs[k].width && h.arcs[k].color == g.arcs[k].color
    ensures forall k :: 0 <= k < ArcCount && Route(topic) != ArcTarget(k) ==> h.arcs[k] == g.arcs[k]
    ensures Route(topic).ArcTarget? ==> h.arcs[Route(topic).index].value == f
    ensures h.dial == (if Route(topic) == DialTarget then f else g.dial)
  {
    match Route(topic)
    case ArcTarget(i) => g.(arcs := g.arcs[i := g.arcs[i].(value := f)])
    case DialTarget => g.(dial := f)
    case Ignored => g
  }

  /** Last write wins: a second message on the same topic hides the first entirely. */
  lemma ApplyLastWriteWins(g: Gauges, topic: string, f1: real, f2: real)
    requires g.Valid()
    ensures Apply(Apply(g, topic, f1), topic, f2) == Apply(g, topic, f2)
  {
  }

  /** Messages on different topics touch disjoint state, so their order does not matter. */
  lemma ApplyCommutes(g: Gauges, t1: string, f1: real, t2: string, f2: real)
    requires g.Valid()
    requires t1 != t2
    ensures Apply(Apply(g, t1, f1), t2, f2) == Apply(Apply(g, t2, f2), t1, f1)
  {
  }

  /** A message is a pair of topic and parsed number. */
  datatype Message = Message(topic: string, number: real)

  /** The state after applying a sequence of messages in order of receipt. */
  function ApplyAll(g: Gauges, msgs: seq<Message>): (h: Gauges)
    requires g.Valid()
    ensures h.Valid()
    decreases |msgs|
  {
    if msgs == [] then g
    else ApplyAll(Apply(g, msgs[0].topic, msgs[0].number), msgs[1..])
  }

  /**
   * No message ever changes an arc's width or colour: whatever was received,
   * every arc still has the default width and colour it had at power-on.
   */
  lemma {:induction false} ReceivedKeepsStyle(g: Gauges, msgs: seq<Message>)
    requires g.Valid()
    requires forall k :: 0 <= k < ArcCount ==> g.arcs[k].width == DefaultWidth && g.arcs[k].color == White
    ensures forall k :: 0 <= k < ArcCount ==>
      ApplyAll(g, msgs).arcs[k].width == DefaultWidth && ApplyAll(g, msgs).arcs[k].color == White
    decreases |msgs|
  {
    if msgs != [] {
      ReceivedKeepsStyle(Apply(g, msgs[0].topic, msgs[0].number), msgs[1..]);
    }
  }

  /** The payload bytes as the characters of an Arduino `String`, one character per byte. */
  function PayloadString(bytes: seq<byte>): (s: string)
    ensures |s| == |bytes|
    ensures forall i :: 0 <= i < |bytes| ==> s[i] as int == bytes[i] as int
    decreases |bytes|
  {
    if bytes == [] then ""
    else PayloadString(bytes[..|bytes| - 1]) + [bytes[|bytes| - 1] as int as char]
  }
}
