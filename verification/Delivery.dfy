/** Obfuscation and delivery of an output payload, from obfuscation.py and output.py. */
module Delivery {
  import opened Wrappers
  import opened Flattening
  import opened Blacklist
  import opened Facts

  type Payload = map<string, Value>

  const OBFUSCATED := Str("OBFUSCATED")
  const CHANNEL_FIELDS := {"channelid", "programid", "channelname"}

  predicate Truthy(v: Value) {
    match v
    case Null => false
    case Bool(b) => b
    case Str(s) => s != ""
    case Other(truthy, _) => truthy
  }

  /** str() of a value that is not None. */
  function Text(v: Value): string
    requires v != Null
  {
    match v
    case Bool(b) => if b then "True" else "False"
    case Str(s) => s
    case Other(_, text) => text
  }

  /** iscontentblocked, where a string counts as true only when it spells "true" in any case. */
  predicate Blocked(output: Payload) {
    "iscontentblocked" in output &&
    var v := output["iscontentblocked"];
    if v.Str? then Lower(v.s) == "true" else Truthy(v)
  }

  /** The channel id as the blacklist sees it; a missing or null one is no channel. */
  function ChannelOf(output: Payload): Option<string> {
    if "channelid" in output && output["channelid"] != Null then Some(Text(output["channelid"])) else None
  }

  function Obfuscated(output: Payload): Payload {
    output["channelid" := OBFUSCATED]["programid" := OBFUSCATED]["channelname" := OBFUSCATED]
  }

  predicate ShouldObfuscate(output: Payload, cache: Cache, world: World) {
    Blocked(output) || Answers(cache, ChannelOf(output), world)
  }

  datatype Message = Message(topic: string, payload: Payload)

  /** The environment: which streams are on, and the names of their topics. */
  datatype Settings = Settings(debug: bool, sendEvergreen: bool, sendLegacy: bool,
                               evergreen: string, legacy: string, evergreenDebug: string, legacyDebug: string)

  function Topics(settings: Settings, debug: bool): seq<string> {
    (if settings.sendEvergreen then [if debug then settings.evergreenDebug else settings.evergreen] else []) +
    (if settings.sendLegacy then [if debug then settings.legacyDebug else settings.legacy] else [])
  }

  /** The topics that get an obfuscated payload in the open first. */
  function OpenTopics(settings: Settings): seq<string> {
    if settings.debug then Topics(settings, true) else []
  }

  /** The messages sent to the topics in order, up to the first that raises. */
  function Sends(payload: Payload, topics: seq<string>, raises: Message -> bool): seq<Message> {
    if topics == [] || raises(Message(topics[0], payload)) then []
    else [Message(topics[0], payload)] + Sends(payload, topics[1..], raises)
  }

  predicate AllSent(payload: Payload, topics: seq<string>, raises: Message -> bool) {
    forall t :: t in topics ==> !raises(Message(t, payload))
  }

  /** Everything one call of push_changes_to_kafka puts on the topics. */
  function Pushed(output: Payload, obfuscate: bool, settings: Settings, raises: Message -> bool): seq<Message> {
    if !obfuscate then Sends(output, Topics(settings, false), raises)
    else
      Sends(output, OpenTopics(settings), raises) +
      if !AllSent(output, OpenTopics(settings), raises) then []
      else Sends(Obfuscated(output), Topics(settings, false), raises)
  }

  /** The push raises nowhere. */
  predicate Delivered(output: Payload, obfuscate: bool, settings: Settings, raises: Message -> bool) {
    && (obfuscate ==> AllSent(output, OpenTopics(settings), raises))
    && AllSent(if obfuscate then Obfuscated(output) else output, Topics(settings, false), raises)
  }

  lemma {:induction false} SendsOnTopics(payload: Payload, topics: seq<string>, raises: Message -> bool)
    ensures forall m :: m in Sends(payload, topics, raises) ==> m.topic in topics && m.payload == payload
    ensures AllSent(payload, topics, raises) <==> |Sends(payload, topics, raises)| == |topics|
  {
    SendsInOrder(payload, topics, raises);
    var sent := Sends(payload, topics, raises);
    if |sent| == |topics| {
      forall t | t in topics ensures !raises(Message(t, payload)) {
        var i :| 0 <= i < |topics| && topics[i] == t;
        assert sent[i] == Message(t, payload);
      }
    }
  }

  /** The messages go to the topics one after the other, up to the first that raises. */
  lemma {:induction false} SendsInOrder(payload: Payload, topics: seq<string>, raises: Message -> bool)
    ensures var sent := Sends(payload, topics, raises);
            && |sent| <= |topics|
            && (forall i :: 0 <= i < |sent| ==> sent[i] == Message(topics[i], payload) && !raises(sent[i]))
            && (|sent| < |topics| ==> raises(Message(topics[|sent|], payload)))
  {
    if topics != [] {
      SendsInOrder(payload, topics[1..], raises);
    }
  }

  /** The channel fields are hidden, and nothing else differs from the output. */
  ghost predicate Hidden(payload: Payload, output: Payload) {
    && (forall f :: f in CHANNEL_FIELDS ==> f in payload && payload[f] == OBFUSCATED)
    && payload - CHANNEL_FIELDS == output - CHANNEL_FIELDS
  }

  /** The payload may be seen as it is: its content is not blocked and its channel is not on the list. */
  ghost predicate Clear(output: Payload, listed: seq<string>) {
    !Blocked(output) && (ChannelOf(output).Some? ==> ChannelOf(output).value !in listed)
  }

  /** The message gives no channel away that is blocked or on the list. */
  ghost predicate Safe(m: Message, output: Payload, listed: seq<string>) {
    Hidden(m.payload, output) || (m.payload == output && Clear(output, listed))
  }

  /** What a push sends after a list was taken and quiet calls followed. */
  function PushedAfter(c: Cache, take: Step, quiet: seq<Step>, world: World,
                       output: Payload, settings: Settings, raises: Message -> bool): seq<Message>
  {
    Pushed(output, ShouldObfuscate(output, Run(Next(c, take), quiet), world), settings, raises)
  }

  /**
   * With a list taken from the database at startup, by a refresh or a lookup, and whatever lookups and failed
   * refreshes came in between, each message on a topic that is not served in the open has its channel
   * fields hidden, or carries the unchanged output and that output is clear.
   */
  lemma {:induction false} OnlyClearOrHidden(c: Cache, take: Step, quiet: seq<Step>, world: World,
                                             output: Payload, settings: Settings, raises: Message -> bool)
    requires Takes(c, take) && forall q :: q in quiet ==> Quiet(q)
    ensures forall m :: m in PushedAfter(c, take, quiet, world, output, settings, raises) ==>
              m.topic !in OpenTopics(settings) ==> Safe(m, output, take.world.rds)
  {
    TakenListAnswers(c, take, quiet, if ChannelOf(output).Some? then ChannelOf(output).value else "", world);
    SendsOnTopics(output, Topics(settings, false), raises);
    SendsOnTopics(Obfuscated(output), Topics(settings, false), raises);
    SendsOnTopics(output, OpenTopics(settings), raises);
    HiddenByObfuscation(output);
  }

  /** No debug topic in use has the name of a main topic. */
  predicate SeparateTopics(settings: Settings) {
    settings.debug ==> forall t :: t in Topics(settings, true) ==> t !in Topics(settings, false)
  }

  ghost predicate MainTopicsSafe(c: Cache, take: Step, quiet: seq<Step>, world: World,
                                 output: Payload, settings: Settings, raises: Message -> bool)
  {
    Takes(c, take) && (forall q :: q in quiet ==> Quiet(q)) ==>
      forall m :: m in PushedAfter(c, take, quiet, world, output, settings, raises) ==>
        m.topic in Topics(settings, false) ==> Safe(m, output, take.world.rds)
  }

  /**
   * Whatever the cache, the list, the calls since, the payload and the sends that raise, the main topics get
   * only hidden or clear payloads exactly when debugging is off or no debug topic is named like a main one.
   */
  lemma {:induction false} MainTopicsSafeIffSeparate(settings: Settings)
    ensures (forall c, take, quiet, world, output, raises ::
               MainTopicsSafe(c, take, quiet, world, output, settings, raises)) <==> SeparateTopics(settings)
  {
    if SeparateTopics(settings) {
      forall c, take, quiet, world, output, raises
        ensures MainTopicsSafe(c, take, quiet, world, output, settings, raises)
      {
        if Takes(c, take) && forall q :: q in quiet ==> Quiet(q) {
          OnlyClearOrHidden(c, take, quiet, world, output, settings, raises);
        }
      }
    } else {
      var topic :| topic in Topics(settings, true) && topic in Topics(settings, false);
      SharedTopicSeesChannel(settings, topic);
    }
  }

  const BLOCKED_PAYLOAD: Payload := map["iscontentblocked" := Bool(true)]

  /** On any topic that is debug and main at once, a blocked payload goes out unchanged. */
  lemma {:induction false} SharedTopicSeesChannel(settings: Settings, topic: string)
    requires settings.debug && topic in Topics(settings, true) && topic in Topics(settings, false)
    ensures var take := Init(World(["1"], Written));
            var m := Message(topic, BLOCKED_PAYLOAD);
            && m in PushedAfter(Cache(None, None), take, [], take.world, BLOCKED_PAYLOAD, settings, m => false)
            && !Safe(m, BLOCKED_PAYLOAD, take.world.rds)
            && !MainTopicsSafe(Cache(None, None), take, [], take.world, BLOCKED_PAYLOAD, settings, m => false)
  {
    var raises := (m: Message) => false;
    SendsAll(BLOCKED_PAYLOAD, Topics(settings, true), raises);
    var i :| 0 <= i < |Topics(settings, true)| && Topics(settings, true)[i] == topic;
    assert Sends(BLOCKED_PAYLOAD, Topics(settings, true), raises)[i] == Message(topic, BLOCKED_PAYLOAD);
    assert "channelid" in CHANNEL_FIELDS && "channelid" !in BLOCKED_PAYLOAD;
  }

  lemma {:induction false} HiddenByObfuscation(output: Payload)
    ensures Hidden(Obfuscated(output), output)
    ensures forall f :: f in Obfuscated(output) <==>
              f in output || f == "channelid" || f == "programid" || f == "channelname"
    ensures forall f :: f in Obfuscated(output) ==>
              Obfuscated(output)[f] ==
              if f == "channelid" || f == "programid" || f == "channelname" then Str("OBFUSCATED") else output[f]
  {
  }

  /** With a list taken, a payload is hidden exactly when it is blocked or its channel is on the list. */
  lemma {:induction false} ObfuscatedIffNotClear(c: Cache, take: Step, quiet: seq<Step>, world: World, output: Payload)
    requires Takes(c, take) && forall q :: q in quiet ==> Quiet(q)
    ensures ShouldObfuscate(output, Run(Next(c, take), quiet), world) <==> !Clear(output, take.world.rds)
  {
    TakenListAnswers(c, take, quiet, if ChannelOf(output).Some? then ChannelOf(output).value else "", world);
  }

  /** A text flag blocks exactly when it spells "true" in any letter case, another one when Python takes it as true. */
  lemma BlockedMeans(output: Payload)
    ensures "iscontentblocked" !in output ==> !Blocked(output)
    ensures "iscontentblocked" in output ==>
              (Blocked(output) <==>
               match output["iscontentblocked"]
               case Null => false
               case Bool(b) => b
               case Str(s) => |s| == 4 && s[0] in "tT" && s[1] in "rR" && s[2] in "uU" && s[3] in "eE"
               case Other(truthy, _) => truthy)
  {
    if "iscontentblocked" in output && output["iscontentblocked"].Str? {
      var s := output["iscontentblocked"].s;
      assert |Lower(s)| == |s|;
      assert Lower(s) == "true" <==>
             && |s| == 4 && LowerChar(s[0]) == 't' && LowerChar(s[1]) == 'r'
             && LowerChar(s[2]) == 'u' && LowerChar(s[3]) == 'e';
    }
  }

  /** The channel is the id as text, and there is none when the id is missing or null. */
  lemma ChannelMeans(output: Payload, id: string)
    ensures ChannelOf(output).None? <==> "channelid" !in output || output["channelid"] == Null
    ensures "channelid" in output && output["channelid"] == Str(id) ==> ChannelOf(output) == Some(id)
    ensures "channelid" in output && output["channelid"].Other? ==> ChannelOf(output) == Some(output["channelid"].text)
    ensures "channelid" in output && output["channelid"].Bool? ==>
              ChannelOf(output) == Some(if output["channelid"].b then "True" else "False")
  {
  }

  /** Each switch puts one topic on the list, the debug name for debugging, Evergreen first. */
  lemma TopicsMean(settings: Settings)
    ensures settings.sendEvergreen && settings.sendLegacy ==>
              && Topics(settings, false) == [settings.evergreen, settings.legacy]
              && Topics(settings, true) == [settings.evergreenDebug, settings.legacyDebug]
    ensures settings.sendEvergreen && !settings.sendLegacy ==>
              Topics(settings, false) == [settings.evergreen] && Topics(settings, true) == [settings.evergreenDebug]
    ensures !settings.sendEvergreen && settings.sendLegacy ==>
              Topics(settings, false) == [settings.legacy] && Topics(settings, true) == [settings.legacyDebug]
    ensures !settings.sendEvergreen && !settings.sendLegacy ==>
              Topics(settings, false) == [] && Topics(settings, true) == []
  {
  }

  /** One message for each topic, in order. */
  function ToEach(payload: Payload, topics: seq<string>): (r: seq<Message>)
    ensures |r| == |topics| && forall i :: 0 <= i < |topics| ==> r[i] == Message(topics[i], payload)
  {
    if topics == [] then [] else [Message(topics[0], payload)] + ToEach(payload, topics[1..])
  }

  /** The debug topics get the output in the open when it must be hidden and debugging is on. */
  function InTheOpen(output: Payload, obfuscate: bool, settings: Settings): seq<Message> {
    if obfuscate && settings.debug then ToEach(output, Topics(settings, true)) else []
  }

  /**
   * When no send raises, that is what is sent first, and then each active main topic gets the payload, in order,
   * hidden exactly when it must be. Nothing else is sent.
   */
  lemma {:induction false} EveryTopicServed(output: Payload, obfuscate: bool, settings: Settings,
                                            raises: Message -> bool)
    requires forall m :: !raises(m)
    ensures Pushed(output, obfuscate, settings, raises) ==
            InTheOpen(output, obfuscate, settings) +
            ToEach(if obfuscate then Obfuscated(output) else output, Topics(settings, false))
  {
    SendsAll(output, OpenTopics(settings), raises);
    SendsAll(if obfuscate then Obfuscated(output) else output, Topics(settings, false), raises);
  }

  /** Nothing in the open goes to a main topic exactly when nothing is hidden or the topics are separate. */
  lemma {:induction false} ServedOnceIff(output: Payload, obfuscate: bool, settings: Settings)
    ensures (forall m :: m in InTheOpen(output, obfuscate, settings) ==> m.topic !in Topics(settings, false)) <==>
            !obfuscate || SeparateTopics(settings)
  {
    var open, debug := InTheOpen(output, obfuscate, settings), Topics(settings, true);
    if obfuscate && settings.debug {
      forall t | t in debug ensures Message(t, output) in open {
        var i :| 0 <= i < |debug| && debug[i] == t;
        assert open[i] == Message(t, output);
      }
      forall m | m in open ensures m.topic in debug {
        var i :| 0 <= i < |open| && open[i] == m;
        assert debug[i] == m.topic;
      }
    }
  }

  /** When no send raises, every topic gets its message. */
  lemma {:induction false} SendsAll(payload: Payload, topics: seq<string>, raises: Message -> bool)
    requires forall m :: !raises(m)
    ensures Sends(payload, topics, raises) == ToEach(payload, topics)
  {
    if topics != [] {
      SendsAll(payload, topics[1..], raises);
    }
  }

  /** The Kafka module: what it has accepted so far, and which messages it raises on. */
  class Kafka {
    var accepted: seq<Message>
    const raises: Message -> bool

    constructor (raises: Message -> bool)
      ensures accepted == [] && this.raises == raises
    {
      accepted, this.raises := [], raises;
    }

    /** send_to_kafka. */
    method Send(data: Payload, topics: seq<string>) returns (ok: bool)
      modifies this`accepted
      ensures accepted == old(accepted) + Sends(data, topics, raises)
      ensures ok <==> AllSent(data, topics, raises)
    {
      var i := 0;
      while i < |topics|
        invariant 0 <= i <= |topics|
        invariant accepted + Sends(data, topics[i..], raises) == old(accepted) + Sends(data, topics, raises)
        invariant forall t :: t in topics[..i] ==> !raises(Message(t, data))
      {
        assert topics[..i + 1] == topics[..i] + [topics[i]];
        if raises(Message(topics[i], data)) {
          return false;
        }
        accepted := accepted + [Message(topics[i], data)];
        i := i + 1;
      }
      assert topics[..i] == topics;
      ok := true;
    }

    /** send_to_kafka as push_changes_to_kafka calls it: only when there are topics. */
    method SendIfAny(data: Payload, topics: seq<string>) returns (ok: bool)
      modifies this`accepted
      ensures accepted == old(accepted) + Sends(data, topics, raises)
      ensures ok <==> AllSent(data, topics, raises)
    {
      ok := true;
      if |topics| > 0 {
        ok := Send(data, topics);
      }
    }

    /** push_changes_to_kafka on the generated output; ok is false when it raises. */
    method PushChanges(outputJson: Payload, settings: Settings, blacklist: BlacklistCache,
                       world: World) returns (ok: bool)
      modifies this`accepted, blacklist
      ensures var obfuscate := ShouldObfuscate(outputJson, old(blacklist.State()), world);
              && accepted == old(accepted) + Pushed(outputJson, obfuscate, settings, raises)
              && (ok <==> Delivered(outputJson, obfuscate, settings, raises))
      ensures blacklist.State() ==
              if Blocked(outputJson) then old(blacklist.State())
              else AfterLookup(old(blacklist.State()), ChannelOf(outputJson), world)
    {
      var obfuscate := Blocked(outputJson);
      if !obfuscate {
        obfuscate := blacklist.IsBlacklisted(ChannelOf(outputJson), world);
      }
      assert obfuscate == ShouldObfuscate(outputJson, old(blacklist.State()), world);
      ok := Deliver(outputJson, obfuscate, settings);
    }

    /** The deliveries, once it is known whether to obfuscate. */
    method Deliver(outputJson: Payload, obfuscate: bool, settings: Settings) returns (ok: bool)
      modifies this`accepted
      ensures accepted == old(accepted) + Pushed(outputJson, obfuscate, settings, raises)
      ensures ok <==> Delivered(outputJson, obfuscate, settings, raises)
    {
      var output := outputJson;
      if obfuscate {
        var debugTopics := OpenTopics(settings);
        ok := SendIfAny(output, debugTopics);
        if !ok {
          return;
        }
        output := Obfuscated(output);
        Regroup(old(accepted), Sends(outputJson, debugTopics, raises), Sends(output, Topics(settings, false), raises));
      }
      ok := SendIfAny(output, Topics(settings, false));
    }
  }
}
