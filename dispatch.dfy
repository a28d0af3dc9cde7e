/**
 * Properties of `Set`, `Update`, `__SetHelper` and the `DeviceID` setter: an
 * invalid value is discarded and sends nothing, a valid one sends exactly one
 * frame, the volume range is enforced, the broadcast id switches replies off,
 * and an unknown command name raises.
 */
module Dispatch {
  import opened Wrappers
  import opened Wire
  import opened Codec
  import opened Machine
  import opened Liveness

  /** `Set` finds a handler for exactly the settable command names; any other name raises. */
  lemma {:induction false} SetUnknownRaises(s: State, name: string, v: Value, reply: Option<seq<Byte>>)
    ensures SetterNamed(name).Some? <==> exists c :: Settable(c) && name == Name(c)
    ensures SetterNamed(name).None? ==> Set(s, name, v, reply) == Step(s, Fail(name + "does not support Set."))
  {
    if SetterNamed(name).Some? {
      LookupIsNameInverse(name, SetterNamed(name).value);
    }
    forall c | Settable(c) && name == Name(c) ensures SetterNamed(name).Some? {
      LookupIsNameInverse(name, c);
    }
  }

  /** `Update` finds a handler for exactly the updatable command names; any other name raises. */
  lemma {:induction false} UpdateUnknownRaises(s: State, name: string)
    ensures UpdaterNamed(name).Some? <==> exists c :: Updatable(c) && name == Name(c)
    ensures UpdaterNamed(name).None? ==> Update(s, name) == Step(s, Fail(name + "does not support Update."))
  {
    if UpdaterNamed(name).Some? {
      LookupIsNameInverse(name, UpdaterNamed(name).value);
    }
    forall c | Updatable(c) && name == Name(c) ensures UpdaterNamed(name).Some? {
      LookupIsNameInverse(name, c);
    }
  }

  /**
   * The send policy of `__SetHelper`: a write-only driver uses plain `Send`;
   * otherwise `SendAndWait`, and an error is logged exactly when the reply is
   * missing or empty or contains 'NG'. The status is never touched.
   */
  lemma SetHelperPolicy(s: State, command: string, frame: string, reply: Option<seq<Byte>>)
    ensures var t := SetHelper(s, command, frame, reply);
            && t.live == s.live && t.notified == s.notified && t.counter == s.counter
            && t.connectionFlag == s.connectionFlag && t.deviceId == s.deviceId && t.debug
            && (WriteOnly(s) ==> t.sent == s.sent + [Send(frame)] && t.log == s.log)
            && (!WriteOnly(s) ==> t.sent == s.sent + [SendAndWait(frame)])
            && (!WriteOnly(s) && (reply.None? || reply.value == []) ==>
                  t.log == s.log + [Error(command + ": Invalid/unexpected response")])
            && (!WriteOnly(s) && reply.Some? && reply.value != [] ==>
                  if exists i :: 0 <= i < |reply.value| - 1 && reply.value[i] == 'N' && reply.value[i + 1] == 'G'
                  then t.log == s.log + [Error("An error occurred: " + command + ".")]
                  else t.log == s.log)
  {
    if !WriteOnly(s) {
      AwaitReplyLogs(s.(debug := true, sent := s.sent + [SendAndWait(frame)]), command, reply);
    }
  }

  /** The reply check changes the log only, by at most the one error it reports. */
  lemma AwaitReplyLogs(s: State, command: string, reply: Option<seq<Byte>>)
    ensures var t := AwaitReply(s, command, reply);
            && t == s.(log := t.log)
            && ((reply.None? || reply.value == []) ==>
                  t.log == s.log + [Error(command + ": Invalid/unexpected response")])
            && (reply.Some? && reply.value != [] ==>
                  if exists i :: 0 <= i < |reply.value| - 1 && reply.value[i] == 'N' && reply.value[i + 1] == 'G'
                  then t.log == s.log + [Error("An error occurred: " + command + ".")]
                  else t.log == s.log)
  {
  }

  /** A value that is not a key of the command's table is discarded and nothing is sent. */
  lemma {:induction false} SetInvalidDiscards(s: State, c: Command, v: Value, reply: Option<seq<Byte>>)
    requires Tabled(c) && !(v.Text? && v.text in SetTable(c))
    ensures Set(s, Name(c), v, reply) == Step(s.(log := s.log + [Discarded("Invalid Command for Set" + Name(c))]), Pass)
  {
    LookupIsNameInverse(Name(c), c);
    EncodeTabled(c, v, s.deviceId);
  }

  /** A value of the table sends exactly one frame `'<op> <id> <token>\r'` and changes no status. */
  lemma {:induction false} SetValidSendsOne(s: State, c: Command, v: string, reply: Option<seq<Byte>>)
    requires Tabled(c) && v in SetTable(c)
    ensures var t := Set(s, Name(c), Text(v), reply);
            && t.outcome == Pass
            && |t.state.sent| == |s.sent| + 1 && t.state.sent[..|s.sent|] == s.sent
            && t.state.sent[|s.sent|].frame == FrameOf(Opcode(c), s.deviceId, SetTable(c)[v])
            && (t.state.sent[|s.sent|].Send? <==> WriteOnly(s))
            && t.state.live == s.live && t.state.notified == s.notified && t.state.counter == s.counter
  {
    LookupIsNameInverse(Name(c), c);
    EncodeTabled(c, Text(v), s.deviceId);
    var frame := FrameOf(Opcode(c), s.deviceId, SetTable(c)[v]);
    SetHelperPolicy(s, Name(c), frame, reply);
    var t := SetHelper(s, Name(c), frame, reply);
    assert t.sent[..|s.sent|] == s.sent;
  }

  /**
   * `SetClosedCaption` ignores its value: every call sends exactly one frame
   * `'mc <id> 39\r'` and changes no status.
   */
  lemma {:induction false} SetClosedCaptionToggles(s: State, v: Value, reply: Option<seq<Byte>>)
    ensures EncodeSet(ClosedCaption, v, s.deviceId) == Frame(FrameOf("mc", s.deviceId, "39"))
    ensures var t := Set(s, "ClosedCaption", v, reply);
            && t.outcome == Pass
            && |t.state.sent| == |s.sent| + 1 && t.state.sent[..|s.sent|] == s.sent
            && t.state.sent[|s.sent|].frame == FrameOf("mc", s.deviceId, "39")
            && (t.state.sent[|s.sent|].Send? <==> WriteOnly(s))
            && t.state.live == s.live && t.state.notified == s.notified && t.state.counter == s.counter
  {
    LookupIsNameInverse("ClosedCaption", ClosedCaption);
    var frame := FrameOf("mc", s.deviceId, "39");
    SetHelperPolicy(s, "ClosedCaption", frame, reply);
    var t := SetHelper(s, "ClosedCaption", frame, reply);
    assert t.sent[..|s.sent|] == s.sent;
  }

  /**
   * `SetVolume` sends exactly for 0..100, the value as two hex digits in the
   * frame `'kf <id> HH\r'`; otherwise it discards and sends nothing.
   */
  lemma {:induction false} SetVolumeRange(s: State, n: int, reply: Option<seq<Byte>>)
    ensures var t := Set(s, "Volume", Number(n), reply);
            && t.outcome == Pass
            && (0 <= n <= 100 <==> |t.state.sent| == |s.sent| + 1)
            && (0 <= n <= 100 ==>
                  t.state.sent[|s.sent|].frame == FrameOf("kf", s.deviceId, Hex2(n))
                  && IsHex2(Hex2(n)) && ParseHex2(Hex2(n)) == n)
            && (!(0 <= n <= 100) ==> t.state == s.(log := s.log + [Discarded("Invalid Command for SetVolume")]))
  {
    LookupIsNameInverse("Volume", Volume);
    EncodeVolume(n, s.deviceId);
    if 0 <= n <= 100 {
      var frame := FrameOf("kf", s.deviceId, Hex2(n));
      SetHelperPolicy(s, Name(Volume), frame, reply);
      ParseHex2OfHex2(n);
    }
  }

  /** A text volume is a TypeError in the range comparison; nothing changes. */
  lemma SetVolumeText(s: State, text: string, reply: Option<seq<Byte>>)
    ensures Set(s, "Volume", Text(text), reply) == Step(s, Fail(VolumeTypeError))
  {
    LookupIsNameInverse("Volume", Volume);
  }

  /** An update of an updatable command on a replying driver sends its query frame `'<op> <id> FF\r'`. */
  lemma {:induction false} UpdateSendsQuery(s: State, c: Command)
    requires Updatable(c)
    ensures var t := Update(s, Name(c));
            && t.outcome == Pass
            && (!WriteOnly(s) ==> t.state.sent == s.sent + [Send(FrameOf(Opcode(c), s.deviceId, "FF"))])
            && (WriteOnly(s) ==> t.state.sent == s.sent && t.state.counter == s.counter)
  {
    LookupIsNameInverse(Name(c), c);
    var frame := QueryFrame(c, s.deviceId);
    if WriteOnly(s) {
      UpdateWriteOnly(s, c, frame);
    } else if s.initializationChk {
      UpdateFirstCall(s, c, frame);
    } else {
      UpdateCounts(s, c, frame);
    }
  }

  /**
   * The `DeviceID` setter: an accepted argument replaces the id, a rejected
   * one logs an error and keeps it, a non-integer raises and changes nothing.
   */
  lemma SetDeviceIdOutcome(s: State, arg: IdArgument)
    ensures var t := SetDeviceId(s, arg);
            && (DeviceIdChange(arg).Assign? ==> t == Step(s.(deviceId := DeviceIdChange(arg).id), Pass))
            && (DeviceIdChange(arg).Reject? ==>
                  t == Step(s.(log := s.log + [Error("Invalid Device ID Parameter.")]), Pass))
            && (DeviceIdChange(arg).Raise? ==> t.state == s && t.outcome.Fail?)
  {
  }

  /**
   * After the id is set to 'Broadcast', an update sends nothing and a valid
   * set goes out with plain `Send`, without waiting for a reply.
   */
  lemma {:induction false} BroadcastIsWriteOnly(s: State, c: Command, v: string, reply: Option<seq<Byte>>)
    requires Tabled(c) && v in SetTable(c)
    ensures var b := SetDeviceId(s, BroadcastWord).state;
            && b.deviceId == "00" && WriteOnly(b)
            && (Updatable(c) ==> Update(b, Name(c)).state.sent == b.sent)
            && Set(b, Name(c), Text(v), reply).state.sent == b.sent + [Send(FrameOf(Opcode(c), "00", SetTable(c)[v]))]
  {
    var b := SetDeviceId(s, BroadcastWord).state;
    if Updatable(c) {
      UpdateSendsQuery(b, c);
    }
    SetValidSendsOne(b, c, v, reply);
    var t := Set(b, Name(c), Text(v), reply).state;
    assert t.sent == t.sent[..|b.sent|] + [t.sent[|b.sent|]];
  }
}
