/**
 * `DeviceEthernetClass`: the write-only twin of the serial driver. It has the
 * same `Set<Cmd>` encoders and `DeviceID` setter, a `SetPowerOff` in place of
 * `SetPower`, no `Update`, no status and no receive path, and a
 * `__SetHelper` that only sends.
 */
module Ethernet {
  import opened Wrappers
  import opened Wire
  import opened Codec
  import opened Machine
  import opened Dispatch

  /** The commands with a `Set<Cmd>` method on the Ethernet class. */
  datatype EthernetCommand = Shared(command: Command) | PowerOff

  datatype EthernetState = EthernetState(deviceId: string, debug: bool, sent: seq<string>, log: seq<LogEntry>)

  /** The state right after `DeviceEthernetClass.__init__`. */
  const EthernetInitial := EthernetState("01", false, [], [])

  datatype EthernetStep = EthernetStep(state: EthernetState, outcome: Outcome<string>)

  /** The command `getattr(self, 'Set' + name)` finds on the Ethernet class. */
  function EthernetSetterNamed(name: string): (r: Option<EthernetCommand>)
    ensures r == Some(PowerOff) <==> name == "PowerOff"
    ensures r.Some? && r.value.Shared? ==>
              Settable(r.value.command) && r.value.command != Power && name == Name(r.value.command)
  {
    if name == "PowerOff" then Some(PowerOff)
    else
      match Lookup(name)
      case Some(c) =>
        LookupIsNameInverse(name, c);
        if Settable(c) && c != Power then Some(Shared(c)) else None
      case None => None
  }

  /** `Set<Cmd>(value, None)` on the Ethernet class, up to the call of `__SetHelper`. */
  function EthernetEncode(cmd: EthernetCommand, v: Value, id: string): Encoded
    requires cmd.Shared? ==> Settable(cmd.command)
  {
    match cmd
    case PowerOff => Frame(FrameOf("ka", id, "00"))
    case Shared(c) => EncodeSet(c, v, id)
  }

  /** `Set(command, value)` on the Ethernet class. */
  function EthernetSet(s: EthernetState, name: string, v: Value): EthernetStep {
    match EthernetSetterNamed(name)
    case None => EthernetStep(s, Fail(name + "does not support Set."))
    case Some(cmd) =>
      match EthernetEncode(cmd, v, s.deviceId)
      case Frame(f) => EthernetStep(s.(debug := true, sent := s.sent + [f]), Pass)
      case Discard(m) => EthernetStep(s.(log := s.log + [Discarded(m)]), Pass)
      case Fault(m) => EthernetStep(s, Fail(m))
  }

  /** The `DeviceID` setter of the Ethernet class: the same rule as the serial one. */
  function EthernetSetDeviceId(s: EthernetState, arg: IdArgument): EthernetStep {
    match DeviceIdChange(arg)
    case Assign(id) => EthernetStep(s.(deviceId := id), Pass)
    case Reject => EthernetStep(s.(log := s.log + [Error("Invalid Device ID Parameter.")]), Pass)
    case Raise(m) => EthernetStep(s, Fail(m))
  }

  /**
   * The Ethernet `DeviceID` setter follows the serial one: given the same id
   * and log, both assign the same id, log the same error, or raise with the
   * same message, and the Ethernet state keeps its debug flag and sent log.
   */
  lemma EthernetIdAgreesWithSerial(e: EthernetState, s: State, arg: IdArgument)
    requires e.deviceId == s.deviceId && e.log == s.log
    ensures var t := EthernetSetDeviceId(e, arg);
            var u := SetDeviceId(s, arg);
            && t.outcome == u.outcome
            && t.state.deviceId == u.state.deviceId
            && t.state.log == u.state.log
            && t.state.debug == e.debug && t.state.sent == e.sent
            && (t.state.deviceId != e.deviceId ==> DeviceIdChange(arg).Assign?)
  {
  }

  /** The frames of a transport log, whichever call carried them. */
  function Frames(sent: seq<Outbound>): (r: seq<string>)
    ensures |r| == |sent| && forall i :: 0 <= i < |sent| ==> r[i] == sent[i].frame
  {
    seq(|sent|, i requires 0 <= i < |sent| => sent[i].frame)
  }

  /**
   * For every command both classes have, the Ethernet class raises, discards
   * or sends exactly as the serial class does with the same id: the same
   * outcome, the same log entry, and the same frame.
   */
  lemma {:induction false} EthernetAgreesWithSerial(e: EthernetState, s: State, c: Command, v: Value,
                                                    reply: Option<seq<Byte>>)
    requires Settable(c) && c != Power && e.deviceId == s.deviceId
    ensures var t := EthernetSet(e, Name(c), v);
            var u := Set(s, Name(c), v, reply);
            && t.outcome == u.outcome
            && |t.state.sent| - |e.sent| == |u.state.sent| - |s.sent| <= 1
            && t.state.sent == e.sent + Frames(u.state.sent)[|s.sent|..]
            && (t.state.log == e.log <==> |t.state.sent| == |e.sent| + 1 || t.outcome.Fail?)
            && (EncodeSet(c, v, s.deviceId).Discard? ==>
                  var entry := Discarded(EncodeSet(c, v, s.deviceId).message);
                  t.state.log == e.log + [entry] && u.state.log == s.log + [entry])
  {
    LookupIsNameInverse(Name(c), c);
    assert "PowerOff" != Name(c);
    assert EthernetSetterNamed(Name(c)) == Some(Shared(c));
    var u := Set(s, Name(c), v, reply);
    match EncodeSet(c, v, s.deviceId)
    case Frame(f) =>
      SerialSendsFrame(s, c, f, reply);
    case Discard(m) =>
      assert Frames(u.state.sent)[|s.sent|..] == [];
    case Fault(m) =>
      assert Frames(u.state.sent)[|s.sent|..] == [];
  }

  /** The serial helper appends exactly one transport call carrying the frame. */
  lemma SerialSendsFrame(s: State, c: Command, f: string, reply: Option<seq<Byte>>)
    ensures var u := SetHelper(s, Name(c), f, reply);
            |u.sent| == |s.sent| + 1 && Frames(u.sent)[|s.sent|..] == [f] && u.sent[..|s.sent|] == s.sent
  {
    SetHelperPolicy(s, Name(c), f, reply);
    var u := SetHelper(s, Name(c), f, reply);
    assert u.sent == s.sent + [u.sent[|s.sent|]] && u.sent[|s.sent|].frame == f;
  }

  /** `SetPowerOff` ignores its value and sends `'ka <id> 00\r'`. */
  lemma PowerOffFrame(e: EthernetState, v: Value)
    ensures EthernetSet(e, "PowerOff", v)
            == EthernetStep(e.(debug := true, sent := e.sent + [FrameOf("ka", e.deviceId, "00")]), Pass)
  {
  }

  /** The Ethernet class has no `SetPower`: Set('Power') raises and changes nothing. */
  lemma NoPowerOnEthernet(e: EthernetState, v: Value)
    ensures EthernetSet(e, "Power", v) == EthernetStep(e, Fail("Powerdoes not support Set."))
  {
    PowerHasNoEthernetSetter();
    assert "Power" + "does not support Set." == "Powerdoes not support Set.";
  }

  lemma PowerHasNoEthernetSetter()
    ensures EthernetSetterNamed("Power") == None
  {
    assert |"Power"| != |"PowerOff"|;
    LookupIsNameInverse("Power", Power);
  }
}
