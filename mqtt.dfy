/**
 * The MQTT output (src/mqtt_output.c). `mqtt_open` remembers the topic base,
 * builds the broker URL and the last-will topic `<base>/lwt` and asks the
 * client library to connect with the will message "offline"; the connect
 * callback publishes "online" to that topic; `mqtt_send` walks the wires and
 * publishes one device message per wire followed by three messages per
 * thermometer (scratchpad, temperature, info).
 *
 * A message is kept as what `snprintf` was given, a template and its
 * arguments (`Topic`, `Payload`); `TopicText` and `PayloadText` are the text
 * `snprintf` leaves in the 256- and 64-byte buffers. The client library is
 * not modelled: a publish is the message appended to `MqttClient.outbox`,
 * and a connect request is the `ConnectOptions` value `mqtt_open` hands
 * over. The `%.5f` rendering of a temperature is the parameter `fmt5`.
 */
module MqttOutput {
  import opened TempTypes
  import opened Format
  import opened Snapshot

  /** Size of the topic, URL and last-will topic buffers. */
  const TOPIC_SIZE: nat := 256
  /** Size of the payload buffer. */
  const PAYLOAD_SIZE: nat := 64
  /** Seconds between keep-alive pings requested from the broker. */
  const KEEP_ALIVE: nat := 60
  const CLIENT_ID: string := "temp_daemon"
  const WILL_MESSAGE: string := "offline"
  const ONLINE_MESSAGE: string := "online"

  /** The last component of a sensor topic. */
  datatype Leaf = ScratchpadLeaf | TemperatureLeaf | InfoLeaf

  function LeafName(l: Leaf): string {
    match l
    case ScratchpadLeaf => "scratchpad"
    case TemperatureLeaf => "temperature"
    case InfoLeaf => "info"
  }

  /** A topic template with its arguments, or a buffer published as it stands. */
  datatype Topic =
    | DeviceTopic(base: string, num: int)
    | SensorTopic(base: string, address: Address, leaf: Leaf)
    | LwtTopic(base: string)
    | RawTopic(text: string)

  /** A payload template with its arguments, or a literal payload. */
  datatype Payload =
    | DeviceInfo(device: string, status: int, thermoCount: int)
    | ScratchpadBytes(scratchpad: Scratchpad)
    | TemperatureText(text: string)
    | SensorInfo(num: int, deviceNum: int, status: int)
    | RawPayload(text: string)

  /** One call of `MQTTAsync_sendMessage`. */
  datatype Message = Message(topic: Topic, payload: Payload)

  /** What `mqtt_open` passes to `MQTTAsync_create` and `MQTTAsync_connect`. */
  datatype ConnectOptions = ConnectOptions(
    url: string,
    clientId: string,
    keepAlive: nat,
    cleanSession: bool,
    willTopic: string,
    willMessage: string)

  // ---------------------------------------------------------------- text

  /** `snprintf(url, TOPIC_SIZE, "tcp://%s:%d", server, port)`. */
  function ServerUrl(server: string, port: int): string {
    Truncate("tcp://" + server + ":" + IntString(port), TOPIC_SIZE)
  }

  /**
   * The topic as formatted into its 256-byte buffer: `%s/device/%d`,
   * `%s/ds18x20/<8 x %02X>/<leaf>` and `%s/lwt`.
   */
  function TopicText(t: Topic): string {
    match t
    case DeviceTopic(base, num) => Truncate(base + "/device/" + IntString(num), TOPIC_SIZE)
    case SensorTopic(base, address, leaf) =>
      Truncate(base + "/ds18x20/" + HexRun(address) + "/" + LeafName(leaf), TOPIC_SIZE)
    case LwtTopic(base) => Truncate(base + "/lwt", TOPIC_SIZE)
    case RawTopic(text) => text
  }

  /** `"<key>":<value>`, one member of the flat objects the payloads are. */
  function Member(key: string, value: string): string {
    "\"" + key + "\":" + value
  }

  /** `"<s>"` */
  function Quoted(s: string): string {
    "\"" + s + "\""
  }

  /** `{<a>,<b>,<c>}` */
  function Object3(a: string, b: string, c: string): string {
    "{" + a + "," + b + "," + c + "}"
  }

  /**
   * The payload before it is cut to the buffer:
   * `{"device":"%s","status":%d,"thermo_count":%d}`, nine `%02X` in
   * SCR_L ... SCR_CRC order, the `%.5f` text, and
   * `{"num":%d,"device_num":%d,"status":%d}`.
   */
  function PayloadFull(p: Payload): string {
    match p
    case DeviceInfo(device, status, count) =>
      Object3(Member("device", Quoted(device)), Member("status", IntString(status)),
              Member("thermo_count", IntString(count)))
    case ScratchpadBytes(scr) => HexRun(ScratchpadFields(scr))
    case TemperatureText(text) => text
    case SensorInfo(num, deviceNum, status) =>
      Object3(Member("num", IntString(num)), Member("device_num", IntString(deviceNum)),
              Member("status", IntString(status)))
    case RawPayload(text) => text
  }

  /** The payload as sent: formatted payloads are cut to the 64-byte buffer, literal ones are not. */
  function PayloadText(p: Payload): string {
    if p.RawPayload? then p.text else Truncate(PayloadFull(p), PAYLOAD_SIZE)
  }

  // ---------------------------------------------------------------- messages

  /** The device message for wire `i`. */
  function DeviceMessage(base: string, i: int, w: WireView): Message {
    Message(DeviceTopic(base, i), DeviceInfo(w.device, w.status, |w.thermometers|))
  }

  /** The scratchpad, temperature and info messages of one step of the walk, in sending order. */
  function ThermoMessages(base: string, e: Entry, fmt5: real -> string): (ms: seq<Message>) {
    var th := e.thermometer;
    [Message(SensorTopic(base, th.address, ScratchpadLeaf), ScratchpadBytes(th.scratchpad)),
     Message(SensorTopic(base, th.address, TemperatureLeaf), TemperatureText(fmt5(th.temperature))),
     Message(SensorTopic(base, th.address, InfoLeaf), SensorInfo(e.num, e.deviceNum, th.status))]
  }

  /** The messages of a run of walk steps. */
  function ThermoRun(base: string, es: seq<Entry>, fmt5: real -> string): (ms: seq<Message>)
    ensures |ms| == 3 * |es|
    decreases |es|
  {
    if es == [] then []
    else ThermoRun(base, es[..|es| - 1], fmt5) + ThermoMessages(base, es[|es| - 1], fmt5)
  }

  /** The messages for wire `i`: its device message, then its thermometers'. */
  function WireMessages(base: string, wires: seq<WireView>, i: nat, fmt5: real -> string): (ms: seq<Message>)
    requires i < |wires|
  {
    [DeviceMessage(base, i, wires[i])] + ThermoRun(base, WireEntries(wires, i), fmt5)
  }

  /** The messages for wires `0 .. n - 1`. */
  function MessagesUpTo(base: string, wires: seq<WireView>, n: nat, fmt5: real -> string): (ms: seq<Message>)
    requires n <= |wires|
    ensures |ms| == n + 3 * CountUpTo(wires, n)
  {
    if n == 0 then [] else MessagesUpTo(base, wires, n - 1, fmt5) + WireMessages(base, wires, n - 1, fmt5)
  }

  /** Everything one `mqtt_send` publishes. */
  function SendMessages(base: string, wires: seq<WireView>, fmt5: real -> string): seq<Message> {
    MessagesUpTo(base, wires, |wires|, fmt5)
  }

  /** The connect request `mqtt_open` makes. */
  function OpenOptions(server: string, port: int, base: string): ConnectOptions {
    ConnectOptions(ServerUrl(server, port), CLIENT_ID, KEEP_ALIVE, true, TopicText(LwtTopic(base)), WILL_MESSAGE)
  }

  // ---------------------------------------------------------------- client

  /**
   * The module's static state: `main_topic`, the `lwt_topic` buffer, the
   * connect request made (if any) and every message handed to
   * `MQTTAsync_sendMessage`, in order. Before `mqtt_open` the topic base and
   * the last-will buffer are empty and no connect was requested.
   */
  class MqttClient {
    var mainTopic: string
    var lwtTopic: string
    var connect: Option<ConnectOptions>
    var outbox: seq<Message>

    constructor ()
      ensures mainTopic == [] && lwtTopic == [] && connect == None && outbox == []
    {
      mainTopic := [];
      lwtTopic := [];
      connect := None;
      outbox := [];
    }

    /**
     * `mqtt_open`. The topic base is stored first; when the URL buffer cannot
     * be allocated (`urlAllocated` false) nothing else happens, otherwise the
     * last-will topic is formatted and the connect is requested with it.
     */
    method Open(server: string, port: int, base: string, urlAllocated: bool)
      modifies this
      ensures mainTopic == base && outbox == old(outbox)
      ensures urlAllocated ==> lwtTopic == TopicText(LwtTopic(base)) && connect == Some(OpenOptions(server, port, base))
      ensures !urlAllocated ==> lwtTopic == old(lwtTopic) && connect == old(connect)
    {
      mainTopic := base;
      if !urlAllocated {
        return;
      }
      var url := ServerUrl(server, port);
      lwtTopic := TopicText(LwtTopic(mainTopic));
      connect := Some(ConnectOptions(url, CLIENT_ID, KEEP_ALIVE, true, lwtTopic, WILL_MESSAGE));
    }

    /** `onConnect`: announce "online" on the last-will topic. */
    method OnConnect()
      modifies this
      ensures outbox == old(outbox) + [Message(RawTopic(lwtTopic), RawPayload(ONLINE_MESSAGE))]
      ensures mainTopic == old(mainTopic) && lwtTopic == old(lwtTopic) && connect == old(connect)
    {
      outbox := outbox + [Message(RawTopic(lwtTopic), RawPayload(ONLINE_MESSAGE))];
    }

    /**
     * `mqtt_send`: for each wire its device message, then for each of its
     * thermometers the scratchpad, temperature and info messages, numbering
     * the thermometers with a running index `t` shared by all wires.
     */
    method Send(wires: seq<WireView>, fmt5: real -> string)
      modifies this
      ensures outbox == old(outbox) + SendMessages(mainTopic, wires, fmt5)
      ensures mainTopic == old(mainTopic) && lwtTopic == old(lwtTopic) && connect == old(connect)
    {
      var t := 0;
      var i := 0;
      while i < |wires|
        invariant 0 <= i <= |wires|
        invariant t == CountUpTo(wires, i)
        invariant outbox == old(outbox) + MessagesUpTo(mainTopic, wires, i, fmt5)
        invariant mainTopic == old(mainTopic) && lwtTopic == old(lwtTopic) && connect == old(connect)
      {
        t := SendWire(wires, i, t, fmt5);
        AppendAssoc(old(outbox), MessagesUpTo(mainTopic, wires, i, fmt5), WireMessages(mainTopic, wires, i, fmt5));
        i := i + 1;
      }
    }

    /**
     * One pass of `mqtt_send`'s outer loop: wire `i`'s device message, then
     * the three messages of each of its thermometers, `t` counting on.
     */
    method SendWire(wires: seq<WireView>, i: nat, t0: nat, fmt5: real -> string) returns (t: nat)
      requires i < |wires| && t0 == CountUpTo(wires, i)
      modifies this
      ensures t == CountUpTo(wires, i + 1)
      ensures outbox == old(outbox) + WireMessages(mainTopic, wires, i, fmt5)
      ensures mainTopic == old(mainTopic) && lwtTopic == old(lwtTopic) && connect == old(connect)
    {
      var base := mainTopic;
      var w := wires[i];
      var device := Message(DeviceTopic(base, i), DeviceInfo(w.device, w.status, |w.thermometers|));
      ghost var head := outbox + [device];
      ghost var es := WireEntries(wires, i);
      outbox := outbox + [device];
      t := t0;
      var j := 0;
      while j < |w.thermometers|
        invariant 0 <= j <= |w.thermometers|
        invariant t == CountUpTo(wires, i) + j
        invariant outbox == head + ThermoRun(base, es[..j], fmt5)
        invariant mainTopic == base && lwtTopic == old(lwtTopic) && connect == old(connect)
      {
        ghost var sofar := outbox;
        var th := w.thermometers[j];
        var scratchpad := Message(SensorTopic(base, th.address, ScratchpadLeaf), ScratchpadBytes(th.scratchpad));
        var temperature := Message(SensorTopic(base, th.address, TemperatureLeaf), TemperatureText(fmt5(th.temperature)));
        var info := Message(SensorTopic(base, th.address, InfoLeaf), SensorInfo(t, i, th.status));
        outbox := outbox + [scratchpad];
        outbox := outbox + [temperature];
        outbox := outbox + [info];
        SnocThree(sofar, scratchpad, temperature, info);
        assert es[j] == Entry(t, i, th);
        ThermoRunSnoc(base, es, j, fmt5);
        AppendAssoc(head, ThermoRun(base, es[..j], fmt5), ThermoMessages(base, es[j], fmt5));
        j := j + 1;
        t := t + 1;
      }
      assert es[..j] == es;
      AppendAssoc(old(outbox), [device], ThermoRun(base, es, fmt5));
    }
  }

  // ---------------------------------------------------------------- layout

  /** Extending a run of walk steps by one step adds that step's three messages. */
  lemma ThermoRunSnoc(base: string, es: seq<Entry>, j: nat, fmt5: real -> string)
    requires j < |es|
    ensures ThermoRun(base, es[..j + 1], fmt5) == ThermoRun(base, es[..j], fmt5) + ThermoMessages(base, es[j], fmt5)
  {
    assert es[..j + 1][..j] == es[..j];
  }

  /** Step `k` of a run owns messages `3k`, `3k + 1` and `3k + 2` of the run. */
  lemma {:induction false} ThermoRunAt(base: string, es: seq<Entry>, k: nat, fmt5: real -> string)
    requires k < |es|
    ensures ThermoRun(base, es, fmt5)[3 * k .. 3 * k + 3] == ThermoMessages(base, es[k], fmt5)
    decreases |es|
  {
    var init := es[..|es| - 1];
    var last := ThermoMessages(base, es[|es| - 1], fmt5);
    assert ThermoRun(base, es, fmt5) == ThermoRun(base, init, fmt5) + last;
    if k < |es| - 1 {
      SliceLeft(ThermoRun(base, init, fmt5), last, 3 * k, 3 * k + 3);
      ThermoRunAt(base, init, k, fmt5);
      assert init[k] == es[k];
    } else {
      SliceRight(ThermoRun(base, init, fmt5), last, 0, 3);
      assert last[0..3] == last;
    }
  }

  /** The messages for fewer wires are a prefix of those for more. */
  lemma {:induction false} MessagesPrefix(base: string, wires: seq<WireView>, n: nat, m: nat, fmt5: real -> string)
    requires n <= m <= |wires|
    ensures MessagesUpTo(base, wires, n, fmt5) <= MessagesUpTo(base, wires, m, fmt5)
    decreases m - n
  {
    if n < m {
      MessagesPrefix(base, wires, n, m - 1, fmt5);
    }
  }

  /** One send publishes `wire_count + 3 * (sum of thermo_count)` messages. */
  lemma SendCount(base: string, wires: seq<WireView>, fmt5: real -> string)
    ensures |SendMessages(base, wires, fmt5)| == |wires| + 3 * TotalCount(wires)
  {
  }

  /**
   * Wire `i`'s device message comes after every message of the earlier wires:
   * it is message `i + 3 * CountUpTo(wires, i)`, on `<base>/device/<i>`,
   * carrying the wire's path, status and thermometer count.
   */
  lemma SendDeviceAt(base: string, wires: seq<WireView>, i: nat, fmt5: real -> string)
    requires i < |wires|
    ensures var ms := SendMessages(base, wires, fmt5);
      var k := i + 3 * CountUpTo(wires, i);
      k < |ms| && ms[k] == Message(DeviceTopic(base, i), DeviceInfo(wires[i].device, wires[i].status, |wires[i].thermometers|))
  {
    MessagesPrefix(base, wires, i + 1, |wires|, fmt5);
  }

  /**
   * Thermometer `j` of wire `i` is walk step `t = CountUpTo(wires, i) + j`;
   * its scratchpad, temperature and info messages directly follow the
   * device message of wire `i` and the three messages of each earlier
   * thermometer of that wire, all on the thermometer's own sensor topics,
   * and the info message carries `t` and `i`.
   */
  lemma SendThermometerAt(base: string, wires: seq<WireView>, i: nat, j: nat, fmt5: real -> string)
    requires i < |wires| && j < |wires[i].thermometers|
    ensures var ms := SendMessages(base, wires, fmt5);
      var th := wires[i].thermometers[j];
      var t := CountUpTo(wires, i) + j;
      var k := i + 1 + 3 * t;
      && k + 3 <= |ms|
      && ms[k] == Message(SensorTopic(base, th.address, ScratchpadLeaf), ScratchpadBytes(th.scratchpad))
      && ms[k + 1] == Message(SensorTopic(base, th.address, TemperatureLeaf), TemperatureText(fmt5(th.temperature)))
      && ms[k + 2] == Message(SensorTopic(base, th.address, InfoLeaf), SensorInfo(t, i, th.status))
  {
    var th := wires[i].thermometers[j];
    var t := CountUpTo(wires, i) + j;
    var done := MessagesUpTo(base, wires, i, fmt5);
    var k := i + 1 + 3 * t;
    var three := ThermoMessages(base, Entry(t, i, th), fmt5);
    MessagesPrefix(base, wires, i + 1, |wires|, fmt5);
    WireMessagesAt(base, wires, i, j, fmt5);
    SliceRight(done, WireMessages(base, wires, i, fmt5), 1 + 3 * j, 1 + 3 * j + 3);
    var ms := SendMessages(base, wires, fmt5);
    assert ms[k .. k + 3] == three;
    assert ms[k] == three[0] && ms[k + 1] == three[1] && ms[k + 2] == three[2];
  }

  /** Within wire `i`'s messages, thermometer `j`'s three follow the device message and `j` earlier triples. */
  lemma WireMessagesAt(base: string, wires: seq<WireView>, i: nat, j: nat, fmt5: real -> string)
    requires i < |wires| && j < |wires[i].thermometers|
    ensures WireMessages(base, wires, i, fmt5)[1 + 3 * j .. 1 + 3 * j + 3]
         == ThermoMessages(base, Entry(CountUpTo(wires, i) + j, i, wires[i].thermometers[j]), fmt5)
  {
    var es := WireEntries(wires, i);
    assert es[j] == Entry(CountUpTo(wires, i) + j, i, wires[i].thermometers[j]);
    ThermoRunAt(base, es, j, fmt5);
    SliceRight([DeviceMessage(base, i, wires[i])], ThermoRun(base, es, fmt5), 3 * j, 3 * j + 3);
  }

  // ---------------------------------------------------------------- topics

  /** The device index read back from a device topic. */
  function ParseDeviceTopic(base: string, topic: string): Option<int> {
    var head := base + "/device/";
    if |topic| >= |head| && topic[..|head|] == head then ParseInt(topic[|head|..]) else None
  }

  /** A device topic that fits its buffer is `<base>/device/<i>` and names the wire it was sent for. */
  lemma DeviceTopicRoundTrip(base: string, i: int)
    requires |base| + 8 + |IntString(i)| < TOPIC_SIZE
    ensures TopicText(DeviceTopic(base, i)) == base + "/device/" + IntString(i)
    ensures ParseDeviceTopic(base, TopicText(DeviceTopic(base, i))) == Some(i)
  {
    var topic := TopicText(DeviceTopic(base, i));
    assert topic[|base| + 8..] == IntString(i);
    IntStringRoundTrip(i);
  }

  /** The ROM code and leaf read back from a sensor topic. */
  function ParseSensorTopic(base: string, topic: string): Option<(seq<Byte>, string)> {
    var head := base + "/ds18x20/";
    var n := |head|;
    if |topic| >= n + 17 && topic[..n] == head && topic[n + 16] == '/' then
      match ParseHexRun(topic[n .. n + 16])
      case Some(a) => Some((a, topic[n + 17..]))
      case None => None
    else None
  }

  /**
   * A sensor topic that fits its buffer is `<base>/ds18x20/` followed by 16
   * upper-case hex digits and `/<leaf>`, and reads back as the ROM code and leaf.
   */
  lemma SensorTopicRoundTrip(base: string, address: Address, leaf: Leaf)
    requires |base| + 26 + |LeafName(leaf)| < TOPIC_SIZE
    ensures var topic := TopicText(SensorTopic(base, address, leaf));
      && topic[..|base| + 9] == base + "/ds18x20/"
      && (forall k :: |base| + 9 <= k < |base| + 25 ==> IsHexChar(topic[k]))
      && ParseSensorTopic(base, topic) == Some((address, LeafName(leaf)))
  {
    var topic := TopicText(SensorTopic(base, address, leaf));
    var n := |base| + 9;
    assert topic == base + "/ds18x20/" + HexRun(address) + "/" + LeafName(leaf);
    assert topic[n .. n + 16] == HexRun(address);
    assert topic[n + 17..] == LeafName(leaf);
    HexRunRoundTrip(address);
  }

  /** With a base that fits, the last-will topic is `<base>/lwt`. */
  lemma LwtTopicShape(base: string)
    requires |base| + 4 < TOPIC_SIZE
    ensures TopicText(LwtTopic(base)) == base + "/lwt"
  {
  }

  /**
   * A device or sensor topic never equals the last-will topic: right after
   * `<base>/` it has the `d` of "device" or "ds18x20" where the last-will
   * topic has the `l` of "lwt".
   */
  lemma TopicNotLwt(t: Topic)
    requires t.DeviceTopic? || t.SensorTopic?
    requires |t.base| + 4 < TOPIC_SIZE
    ensures TopicText(t) != TopicText(LwtTopic(t.base))
  {
    var full := if t.DeviceTopic? then t.base + "/device/" + IntString(t.num)
                else t.base + "/ds18x20/" + HexRun(t.address) + "/" + LeafName(t.leaf);
    assert TopicText(t) == Truncate(full, TOPIC_SIZE);
    assert TopicText(t)[|t.base| + 1] == full[|t.base| + 1] == 'd';
    assert TopicText(LwtTopic(t.base))[|t.base| + 1] == 'l';
  }

  /**
   * With a base of 254 characters or more, every device and sensor topic is
   * cut to the first 255 characters of `<base>/`, and so is the last-will
   * topic: data then lands on the last-will topic.
   */
  lemma LongBaseHitsLwt(t: Topic)
    requires t.DeviceTopic? || t.SensorTopic?
    requires |t.base| >= TOPIC_SIZE - 2
    ensures TopicText(t) == (t.base + "/")[..TOPIC_SIZE - 1]
    ensures TopicText(t) == TopicText(LwtTopic(t.base))
  {
    var full := if t.DeviceTopic? then t.base + "/device/" + IntString(t.num)
                else t.base + "/ds18x20/" + HexRun(t.address) + "/" + LeafName(t.leaf);
    assert TopicText(t) == Truncate(full, TOPIC_SIZE);
    assert full[..TOPIC_SIZE - 1] == (t.base + "/")[..TOPIC_SIZE - 1];
    assert (t.base + "/lwt")[..TOPIC_SIZE - 1] == (t.base + "/")[..TOPIC_SIZE - 1];
  }

  /** Every message of `ms` goes to a device or sensor topic under `base`. */
  predicate UnderBase(ms: seq<Message>, base: string) {
    forall k :: 0 <= k < |ms| ==> (ms[k].topic.DeviceTopic? || ms[k].topic.SensorTopic?) && ms[k].topic.base == base
  }

  lemma {:induction false} ThermoRunUnderBase(base: string, es: seq<Entry>, fmt5: real -> string)
    ensures UnderBase(ThermoRun(base, es, fmt5), base)
    decreases |es|
  {
    if es != [] {
      ThermoRunUnderBase(base, es[..|es| - 1], fmt5);
    }
  }

  lemma {:induction false} MessagesUnderBase(base: string, wires: seq<WireView>, n: nat, fmt5: real -> string)
    requires n <= |wires|
    ensures UnderBase(MessagesUpTo(base, wires, n, fmt5), base)
    decreases n
  {
    if n > 0 {
      MessagesUnderBase(base, wires, n - 1, fmt5);
      ThermoRunUnderBase(base, WireEntries(wires, n - 1), fmt5);
    }
  }

  /**
   * A send publishes only on `<base>/device/...` and `<base>/ds18x20/...`
   * topics, so nothing it sends lands on the last-will topic, which only
   * the will ("offline") and `onConnect` ("online") use.
   */
  lemma SendAvoidsLwt(base: string, wires: seq<WireView>, fmt5: real -> string)
    requires |base| + 4 < TOPIC_SIZE
    ensures forall m :: m in SendMessages(base, wires, fmt5) ==>
      (m.topic.DeviceTopic? || m.topic.SensorTopic?) && TopicText(m.topic) != TopicText(LwtTopic(base))
  {
    var ms := SendMessages(base, wires, fmt5);
    MessagesUnderBase(base, wires, |wires|, fmt5);
    forall m | m in ms
      ensures (m.topic.DeviceTopic? || m.topic.SensorTopic?) && TopicText(m.topic) != TopicText(LwtTopic(base))
    {
      TopicNotLwt(m.topic);
    }
  }

  // ---------------------------------------------------------------- payloads

  /** The value of a member, when the member has that key. */
  function MemberValue(f: string, key: string): Option<string> {
    var head := "\"" + key + "\":";
    if |f| >= |head| && f[..|head|] == head then Some(f[|head|..]) else None
  }

  /** The members of a flat object `{m1,m2,...}` split on commas. */
  function ObjectMembers(p: string): Option<seq<string>> {
    if |p| >= 2 && p[0] == '{' && p[|p| - 1] == '}' then Some(Split(p[1..|p| - 1], ',')) else None
  }

  lemma MemberValueOf(key: string, value: string)
    ensures MemberValue(Member(key, value), key) == Some(value)
  {
    assert Member(key, value)[..|key| + 3] == "\"" + key + "\":";
  }

  /** A flat object whose three members hold no comma splits back into those members. */
  lemma ObjectMembersOf(a: string, b: string, c: string)
    requires ',' !in a && ',' !in b && ',' !in c
    ensures ObjectMembers(Object3(a, b, c)) == Some([a, b, c])
  {
    var p := Object3(a, b, c);
    assert p[1..|p| - 1] == a + [','] + (b + [','] + c);
    SplitNoSep(c, ',');
    SplitField(b, ',', c);
    SplitField(a, ',', b + [','] + c);
    assert [a] + ([b] + [c]) == [a, b, c];
  }

  /** The info payload read back: global index, wire index, status. */
  function ParseInfo(p: string): Option<(int, int, int)> {
    match ObjectMembers(p)
    case Some(ms) =>
      if |ms| != 3 then None
      else
        (match (MemberValue(ms[0], "num"), MemberValue(ms[1], "device_num"), MemberValue(ms[2], "status"))
         case (Some(a), Some(b), Some(c)) =>
           (match (ParseInt(a), ParseInt(b), ParseInt(c))
            case (Some(num), Some(dev), Some(st)) => Some((num, dev, st))
            case _ => None)
         case _ => None)
    case None => None
  }

  /**
   * An info payload that fits the 64-byte buffer reads back as the global
   * index, wire index and status it was formatted from.
   */
  lemma InfoPayloadRoundTrip(num: int, deviceNum: int, status: int)
    requires |PayloadFull(SensorInfo(num, deviceNum, status))| < PAYLOAD_SIZE
    ensures ParseInfo(PayloadText(SensorInfo(num, deviceNum, status))) == Some((num, deviceNum, status))
  {
    var a, b, c := IntString(num), IntString(deviceNum), IntString(status);
    NoSeparatorInInt(num, ',');
    NoSeparatorInInt(deviceNum, ',');
    NoSeparatorInInt(status, ',');
    ObjectMembersOf(Member("num", a), Member("device_num", b), Member("status", c));
    MemberValueOf("num", a);
    MemberValueOf("device_num", b);
    MemberValueOf("status", c);
    IntStringRoundTrip(num);
    IntStringRoundTrip(deviceNum);
    IntStringRoundTrip(status);
  }

  /** The device payload read back: path (between the quotes), status, thermometer count. */
  function ParseDeviceInfo(p: string): Option<(string, int, int)> {
    match ObjectMembers(p)
    case Some(ms) =>
      if |ms| != 3 then None
      else
        (match (MemberValue(ms[0], "device"), MemberValue(ms[1], "status"), MemberValue(ms[2], "thermo_count"))
         case (Some(d), Some(b), Some(c)) =>
           if |d| < 2 || d[0] != '"' || d[|d| - 1] != '"' then None
           else
             (match (ParseInt(b), ParseInt(c))
              case (Some(st), Some(n)) => Some((d[1..|d| - 1], st, n))
              case _ => None)
         case _ => None)
    case None => None
  }

  /**
   * A device payload that fits the 64-byte buffer reads back as the wire's
   * path, status and thermometer count, provided the path holds no comma.
   */
  lemma DeviceInfoPayloadRoundTrip(device: string, status: int, count: int)
    requires ',' !in device
    requires |PayloadFull(DeviceInfo(device, status, count))| < PAYLOAD_SIZE
    ensures ParseDeviceInfo(PayloadText(DeviceInfo(device, status, count))) == Some((device, status, count))
  {
    var d, b, c := Quoted(device), IntString(status), IntString(count);
    NoSeparatorInInt(status, ',');
    NoSeparatorInInt(count, ',');
    ObjectMembersOf(Member("device", d), Member("status", b), Member("thermo_count", c));
    MemberValueOf("device", d);
    MemberValueOf("status", b);
    MemberValueOf("thermo_count", c);
    assert d[1..|d| - 1] == device;
    IntStringRoundTrip(status);
    IntStringRoundTrip(count);
  }

  /** The scratchpad payload is 18 upper-case hex digits that read back as the nine bytes. */
  lemma ScratchpadPayload(scr: Scratchpad)
    ensures var p := PayloadText(ScratchpadBytes(scr));
      && |p| == 2 * SCR_LENGTH
      && (forall k :: 0 <= k < |p| ==> IsHexChar(p[k]))
      && ParseHexRun(p) == Some(scr)
  {
    HexRunRoundTrip(ScratchpadFields(scr));
    ScratchpadFieldsInOrder(scr);
  }

  /**
   * A formatted payload is sent whole exactly when it is shorter than the
   * buffer; otherwise only its first 63 characters go out, so a device
   * payload with a long path loses its closing brace. The `%.5f` text is
   * never trimmed beyond that.
   */
  lemma PayloadCut(p: Payload)
    requires !p.RawPayload?
    ensures PayloadText(p) == PayloadFull(p) <==> |PayloadFull(p)| < PAYLOAD_SIZE
    ensures |PayloadFull(p)| >= PAYLOAD_SIZE ==> PayloadText(p) == PayloadFull(p)[..PAYLOAD_SIZE - 1]
  {
  }
}
