/**
 * Whole conversations with a freshly constructed driver, as the protocol
 * describes them: subscribe, set, and read back after the device answers.
 */
module Scenarios {
  import opened Wrappers
  import opened Wire
  import opened Codec
  import opened Matcher
  import opened Machine
  import opened StatusCache
  import opened Dispatch
  import opened Replies

  /**
   * Power On sends `'ka 01 01\r'` and waits; the acknowledgement
   * `'a <id> OK01x'` then makes Power read 'On' and calls the subscribed
   * callback once with `('Power', 'On')`.
   */
  lemma {:induction false} PowerOnConversation(cb: Callback, id: seq<Byte>)
    requires IsHex2(id)
    ensures var s1 := SubscribeStatus(Initial, "Power", Some(cb)).state;
            var ack := AckFrame(Power, id, "01");
            var s2 := Set(s1, "Power", Text("On"), Some(ack)).state;
            var s3 := ApplyHits(s2, Receive(InitialRules, ack).hits);
            && s2.sent == [SendAndWait("ka 01 01\r")] && s2.log == []
            && Receive(InitialRules, ack).buffer == []
            && ReadStatus(s3, Name(Power)) == Success(Some(Text("On")))
            && s3.notified == [Notification(cb, Power, Text("On"))]
  {
    var s1 := SubscribeStatus(Initial, "Power", Some(cb)).state;
    PowerOnSent(cb, id);
    PowerOnAcknowledged(Set(s1, "Power", Text("On"), Some(AckFrame(Power, id, "01"))).state, cb, id);
  }

  lemma PowerOnAcknowledged(s2: State, cb: Callback, id: seq<Byte>)
    requires IsHex2(id)
    requires s2.live == map[] && s2.connectionFlag && s2.subscription == map[Power := Some(cb)]
    requires s2.notified == []
    ensures var ack := AckFrame(Power, id, "01");
            var s3 := ApplyHits(s2, Receive(InitialRules, ack).hits);
            && Receive(InitialRules, ack).buffer == []
            && ReadStatus(s3, Name(Power)) == Success(Some(Text("On")))
            && s3.notified == [Notification(cb, Power, Text("On"))]
  {
    SetAcknowledged(s2, Power, "On", id);
    PowerOnNotifies(s2, cb);
  }

  lemma PowerOnSent(cb: Callback, id: seq<Byte>)
    requires IsHex2(id)
    ensures var s1 := SubscribeStatus(Initial, "Power", Some(cb)).state;
            var s2 := Set(s1, "Power", Text("On"), Some(AckFrame(Power, id, "01"))).state;
            && s2.sent == [SendAndWait("ka 01 01\r")] && s2.log == []
            && s2.live == map[] && s2.connectionFlag && s2.subscription == map[Power := Some(cb)]
            && s2.notified == []
  {
    PowerSubscribed(cb);
    AckIsClean(id);
    PowerOnSetSends(Initial.(subscription := map[Power := Some(cb)]), AckFrame(Power, id, "01"));
  }

  lemma PowerSubscribed(cb: Callback)
    ensures SubscribeStatus(Initial, "Power", Some(cb)).state == Initial.(subscription := map[Power := Some(cb)])
  {
    LookupIsNameInverse("Power", Power);
  }

  /** A Power acknowledgement contains no `NG`. */
  lemma AckIsClean(id: seq<Byte>)
    requires IsHex2(id)
    ensures CheckResponse("Power", AckFrame(Power, id, "01")).error.None?
  {
    var ack := AckFrame(Power, id, "01");
    assert ack[5] == 'O' && ack[6] == 'K';
    assert !FindNG(ack, 0);
  }

  /** With id '01', Power On goes out as one `SendAndWait` of `'ka 01 01\r'`; a clean reply logs nothing. */
  lemma PowerOnSetSends(s: State, ack: seq<Byte>)
    requires !s.unidirectional && s.deviceId == "01" && s.sent == [] && s.log == []
    requires ack != [] && CheckResponse("Power", ack).error.None?
    ensures Set(s, "Power", Text("On"), Some(ack)).state == s.(debug := true, sent := [SendAndWait("ka 01 01\r")])
  {
    PowerIsSettable();
    PowerOnFrame();
    SetHelperPolicy(s, "Power", "ka 01 01\r", Some(ack));
  }

  lemma PowerIsSettable()
    ensures SetterNamed("Power") == Some(Power) && Name(Power) == "Power"
  {
    LookupIsNameInverse("Power", Power);
  }

  lemma PowerOnFrame()
    ensures EncodeSet(Power, Text("On"), "01") == Frame("ka 01 01\r")
  {
    assert SetTable(Power)["On"] == "01";
    assert FrameOf("ka", "01", "01") == "ka 01 01\r";
  }

  lemma PowerOnNotifies(s2: State, cb: Callback)
    requires s2.live == map[] && s2.connectionFlag && s2.subscription == map[Power := Some(cb)]
    requires s2.notified == []
    ensures WriteStatus(s2, Power, Text("On")).notified == [Notification(cb, Power, Text("On"))]
  {
    WriteConnected(s2, Power, Text("On"));
  }

  /**
   * Volume 55 sends `'kf 01 37\r'`; the acknowledgement `'f <id> OK37x'`
   * makes Volume read 55.
   */
  lemma {:induction false} VolumeConversation(id: seq<Byte>)
    requires IsHex2(id)
    ensures var ack := AckFrame(Volume, id, "37");
            var s2 := Set(Initial, "Volume", Number(55), Some(ack)).state;
            && s2.sent == [SendAndWait("kf 01 37\r")]
            && ReadStatus(ApplyHits(s2, Receive(InitialRules, ack).hits), "Volume") == Success(Some(Number(55)))
  {
    var ack := AckFrame(Volume, id, "37");
    VolumeSent(ack);
    VolumeEchoRead(Set(Initial, "Volume", Number(55), Some(ack)).state, id);
  }

  lemma VolumeSent(ack: seq<Byte>)
    requires ack != []
    ensures Set(Initial, "Volume", Number(55), Some(ack)).state.sent == [SendAndWait("kf 01 37\r")]
  {
    LookupIsNameInverse("Volume", Volume);
    assert Hex2(55) == "37";
    assert EncodeSet(Volume, Number(55), "01") == Frame(FrameOf("kf", "01", "37"));
    assert FrameOf("kf", "01", "37") == "kf 01 37\r";
    SetHelperPolicy(Initial, "Volume", "kf 01 37\r", Some(ack));
  }

  lemma VolumeEchoRead(s: State, id: seq<Byte>)
    requires IsHex2(id)
    ensures var r := Receive(InitialRules, AckFrame(Volume, id, "37"));
            ReadStatus(ApplyHits(s, r.hits), "Volume") == Success(Some(Number(55)))
  {
    assert HexBytes(Hex2(55)) == "37";
    VolumeAcknowledged(s, 55, id);
  }

  /** Volume 150 is discarded: nothing is sent and no status changes. */
  lemma VolumeOutOfRangeConversation(reply: Option<seq<Byte>>)
    ensures var t := Set(Initial, "Volume", Number(150), reply);
            && t.outcome == Pass
            && t.state == Initial.(log := [Discarded("Invalid Command for SetVolume")])
            && ReadStatus(t.state, "Volume") == Success(None)
  {
    SetVolumeRange(Initial, 150, reply);
  }

  /** A rejection `'a <id> NG<code>x'` logs a Power error and Power still reads None. */
  lemma {:induction false} RejectedConversation(id: seq<Byte>, code: seq<Byte>)
    requires IsHex2(id) && IsHex2(code)
    ensures var r := Receive(InitialRules, NakFrame('a', id, code));
            var t := ApplyHits(Initial, r.hits);
            && t.log == [Error("An error occurred: Power.")]
            && ReadStatus(t, "Power") == Success(None)
  {
    var t := ApplyHits(Initial, Receive(InitialRules, NakFrame('a', id, code)).hits);
    RejectedLog(id, code);
    RejectedLive(id, code);
    PowerUnset(t);
  }

  lemma RejectedLog(id: seq<Byte>, code: seq<Byte>)
    requires IsHex2(id) && IsHex2(code)
    ensures ApplyHits(Initial, Receive(InitialRules, NakFrame('a', id, code)).hits).log
            == [Error("An error occurred: Power.")]
  {
    NgReplyHandled(Initial, 'a', id, code);
    PowerErrorMessage();
  }

  lemma PowerErrorMessage()
    ensures Initial.log + [Error("An error occurred: " + ErrorNames[Lower('a')] + ".")] == [Error("An error occurred: Power.")]
  {
    assert "An error occurred: " + ErrorNames['a'] + "." == "An error occurred: Power.";
  }

  lemma RejectedLive(id: seq<Byte>, code: seq<Byte>)
    requires IsHex2(id) && IsHex2(code)
    ensures ApplyHits(Initial, Receive(InitialRules, NakFrame('a', id, code)).hits).live == map[]
  {
    NgReplyHandled(Initial, 'a', id, code);
  }

  lemma PowerUnset(t: State)
    requires t.live == map[]
    ensures ReadStatus(t, "Power") == Success(None)
  {
    ReadByName(t, Power);
  }
}
