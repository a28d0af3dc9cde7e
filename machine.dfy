/**
 * The state of one `DeviceSerialClass` object, apart from its receive buffer,
 * and what each of its state-changing operations does to it: the status cache
 * with change-driven notification (`WriteStatus`, `NewStatus`, `ReadStatus`,
 * `SubscribeStatus`), the liveness fields (`counter`, `connectionFlag`,
 * `initializationChk`) driven by `__UpdateHelper`, `OnConnected`,
 * `OnDisconnected` and `__MatchError`, the send policy of `__SetHelper`, the
 * `Set`/`Update` dispatch by command name, and the reply handlers that
 * `__ReceiveData` invokes.
 */
module Machine {
  import opened Wrappers
  import opened Wire
  import opened Codec
  import opened Matcher

  /** `self.connectionCounter`. */
  const ConnectionCounter := 15

  /** The identity of a subscribed callback function. */
  type Callback = nat

  /** One call `callback(command, value, None)`. */
  datatype Notification = Notification(callback: Callback, command: Command, value: Value)

  /** One call on the transport. */
  datatype Outbound = Send(frame: string) | SendAndWait(frame: string)

  /** One call of `self.Error` or `self.Discard`. */
  datatype LogEntry = Error(message: string) | Discarded(message: string)

  datatype State = State(
    deviceId: string,
    unidirectional: bool,
    counter: int,
    connectionFlag: bool,
    initializationChk: bool,
    debug: bool,
    live: map<Command, Value>,                    // the 'Live' leaf of each command's status
    subscription: map<Command, Option<Callback>>, // the 'callback' entry of each subscription
    notified: seq<Notification>,
    sent: seq<Outbound>,
    log: seq<LogEntry>)

  /** The state right after `DeviceSerialClass.__init__`. */
  const Initial := State("01", false, 0, true, true, false, map[], map[], [], [], [])

  const Connected := Text("Connected")
  const Disconnected := Text("Disconnected")

  /** Broadcast id or unidirectional mode: commands are sent without a reply. */
  predicate WriteOnly(s: State) {
    s.unidirectional || s.deviceId == "00"
  }

  /** The outcome of a public call: the new state and whether it raised. */
  datatype Step = Step(state: State, outcome: Outcome<string>)

  // ---------------------------------------------------------------- status cache

  /** `NewStatus`: call the callback bound to the command, if any. */
  function NewStatus(s: State, c: Command, v: Value): State {
    if c in s.subscription && s.subscription[c].Some? then
      s.(notified := s.notified + [Notification(s.subscription[c].value, c, v)])
    else s
  }

  /** The write-if-changed tail of `WriteStatus`. */
  function Store(s: State, c: Command, v: Value): State {
    if c !in s.live || s.live[c] != v then NewStatus(s.(live := s.live[c := v]), c, v) else s
  }

  /** `WriteStatus(command, value)`. */
  function WriteStatus(s: State, c: Command, v: Value): State
    decreases if s.connectionFlag then 0 else 1, 1
  {
    var s1 := s.(counter := 0);
    var s2 := if !s1.connectionFlag then OnConnected(s1) else s1;
    Store(s2, c, v)
  }

  /** `OnConnected`. */
  function OnConnected(s: State): State
    decreases 1, 0
  {
    WriteStatus(s.(connectionFlag := true), ConnectionStatus, Connected).(counter := 0)
  }

  /** `OnDisconnected`. */
  function OnDisconnected(s: State): State {
    WriteStatus(s, ConnectionStatus, Disconnected).(connectionFlag := false)
  }

  /** `ReadStatus(command)`: the Live value, None before any write, KeyError for an unknown name. */
  function ReadStatus(s: State, name: string): Result<Option<Value>, string> {
    match Lookup(name)
    case None => Failure("Invalid command for ReadStatus: " + name)
    case Some(c) => Success(if c in s.live then Some(s.live[c]) else None)
  }

  /** `SubscribeStatus(command, None, callback)`; a callback of None binds nothing callable. */
  function SubscribeStatus(s: State, name: string, cb: Option<Callback>): Step {
    match Lookup(name)
    case None => Step(s, Fail("Invalid command for SubscribeStatus " + name))
    case Some(c) => Step(s.(subscription := s.subscription[c := cb]), Pass)
  }

  // ---------------------------------------------------------------- sending

  /** `__SetHelper`; `reply` is what `SendAndWait` returns (None on timeout). */
  function SetHelper(s: State, command: string, frame: string, reply: Option<seq<Byte>>): State {
    var s1 := s.(debug := true);
    if WriteOnly(s1) then s1.(sent := s1.sent + [Send(frame)])
    else AwaitReply(s1.(sent := s1.sent + [SendAndWait(frame)]), command, reply)
  }

  /** The reply check of `__SetHelper`: no reply, or one containing `NG`, is logged as an error. */
  function AwaitReply(s: State, command: string, reply: Option<seq<Byte>>): State {
    if reply.None? || reply.value == [] then
      s.(log := s.log + [Error(command + ": Invalid/unexpected response")])
    else
      match CheckResponse(command, reply.value).error
      case Some(message) => s.(log := s.log + [Error(message)])
      case None => s
  }

  /** `__UpdateHelper`. */
  function UpdateHelper(s: State, command: string, frame: string): State {
    if WriteOnly(s) then s.(log := s.log + [Discarded("Inappropriate Command " + command)])
    else
      var s1 := if s.initializationChk then OnConnected(s).(initializationChk := false) else s;
      var s2 := s1.(counter := s1.counter + 1);
      var s3 := if s2.counter > ConnectionCounter && s2.connectionFlag then OnDisconnected(s2) else s2;
      s3.(sent := s3.sent + [Send(frame)])
  }

  /** The command `getattr(self, 'Set' + name)` finds. */
  function SetterNamed(name: string): (r: Option<Command>)
    ensures r.Some? ==> Settable(r.value)
  {
    match Lookup(name)
    case Some(c) => if Settable(c) then Some(c) else None
    case None => None
  }

  /** The command `getattr(self, 'Update' + name)` finds. */
  function UpdaterNamed(name: string): (r: Option<Command>)
    ensures r.Some? ==> Updatable(r.value)
  {
    match Lookup(name)
    case Some(c) => if Updatable(c) then Some(c) else None
    case None => None
  }

  /** `Set(command, value)`: the `Set<Cmd>` method, or AttributeError. */
  function Set(s: State, name: string, v: Value, reply: Option<seq<Byte>>): Step {
    match SetterNamed(name)
    case None => Step(s, Fail(name + "does not support Set."))
    case Some(c) =>
      match EncodeSet(c, v, s.deviceId)
      case Frame(f) => Step(SetHelper(s, Name(c), f, reply), Pass)
      case Discard(m) => Step(s.(log := s.log + [Discarded(m)]), Pass)
      case Fault(m) => Step(s, Fail(m))
  }

  /** `Update(command)`: the `Update<Cmd>` method, or AttributeError. */
  function Update(s: State, name: string): Step {
    match UpdaterNamed(name)
    case None => Step(s, Fail(name + "does not support Update."))
    case Some(c) => Step(UpdateHelper(s, Name(c), QueryFrame(c, s.deviceId)), Pass)
  }

  /** The `DeviceID` setter. */
  function SetDeviceId(s: State, arg: IdArgument): Step {
    match DeviceIdChange(arg)
    case Assign(id) => Step(s.(deviceId := id), Pass)
    case Reject => Step(s.(log := s.log + [Error("Invalid Device ID Parameter.")]), Pass)
    case Raise(m) => Step(s, Fail(m))
  }

  // ---------------------------------------------------------------- replies

  /** The callbacks `__init__` registers with `AddMatchString`. */
  datatype Handler =
    | MatchAspectRatio | MatchAudioMute | MatchExecutiveMode | MatchInput
    | MatchOnScreenDisplay | MatchPower | MatchVideoMute | MatchVolume | MatchError

  /** The command whose status a decoding handler writes. */
  function Decodes(h: Handler): (c: Command)
    requires h != MatchError
    ensures Updatable(c)
  {
    match h
    case MatchAspectRatio => AspectRatio
    case MatchAudioMute => AudioMute
    case MatchExecutiveMode => ExecutiveMode
    case MatchInput => Input
    case MatchOnScreenDisplay => OnScreenDisplay
    case MatchPower => Power
    case MatchVideoMute => VideoMute
    case MatchVolume => Volume
  }

  /** `error_map` of `__MatchError`. */
  const ErrorNames: map<char, string> := map[
    'c' := "Aspect Ratio/Channel/Closed Caption/Keypad/Menu Navigation",
    'e' := "Audio Mute", 'm' := "Executive Mode", 'b' := "Input", 'l' := "On Screen Display",
    'a' := "Power", 'd' := "Video Mute", 'f' := "Volume"]

  /** A `__Match<Cmd>` callback given group 1 of its match object. */
  function HandleMatch(s: State, h: Handler, group: seq<Byte>): State {
    if h == MatchError then
      var s1 := s.(counter := 0);
      if |group| == 1 && Lower(group[0]) in ErrorNames then
        s1.(log := s1.log + [Error("An error occurred: " + ErrorNames[Lower(group[0])] + ".")])
      else s1
    else
      match DecodeToken(Decodes(h), group)
      case Some(v) => WriteStatus(s, Decodes(h), v)
      case None => s
  }

  /** The callbacks of a scan, invoked in order. */
  function ApplyHits(s: State, hits: seq<Hit<Handler>>): State
    decreases |hits|
  {
    if hits == [] then s
    else ApplyHits(HandleMatch(s, hits[0].handler, hits[0].found.group), hits[1..])
  }

  /** The patterns of `__init__`, in registration order, with their callbacks. */
  const InitialRules: seq<Rule<Handler>> := [
    Rule(OkReply('c', AspectTokens), MatchAspectRatio),
    Rule(OkReply('e', OffOnTokens), MatchAudioMute),
    Rule(OkReply('m', OffOnTokens), MatchExecutiveMode),
    Rule(OkReply('b', InputTokens), MatchInput),
    Rule(OkReply('l', OffOnTokens), MatchOnScreenDisplay),
    Rule(OkReply('a', OffOnTokens), MatchPower),
    Rule(OkReply('d', VideoMuteTokens), MatchVideoMute),
    Rule(OkReply('f', AnyHexTokens), MatchVolume),
    Rule(NgReply, MatchError)]
}
