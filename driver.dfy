/**
 * `DeviceSerialClass` as an object whose methods update its fields step by
 * step, as the driver does; each method is proved to have the effect of the
 * corresponding operation of `Machine` on the abstract state `Abs()`, and
 * `ReceiveData` to perform the scan of `Matcher.Receive`.
 */
module Driver {
  import opened Wrappers
  import opened Wire
  import opened Codec
  import opened Matcher
  import opened Machine

  /** The callbacks of two scans in a row are those of the first, then those of the second. */
  lemma {:induction false} ApplyHitsAppend(s: State, a: seq<Hit<Handler>>, b: seq<Hit<Handler>>)
    ensures ApplyHits(s, a + b) == ApplyHits(ApplyHits(s, a), b)
    decreases |a|
  {
    if a == [] {
      assert [] + b == b;
    } else {
      assert (a + b)[1..] == a[1..] + b;
      ApplyHitsAppend(HandleMatch(s, a[0].handler, a[0].found.group), a[1..], b);
    }
  }

  /** The nine patterns of `__init__` are pairwise distinct, so each registration adds one rule. */
  lemma RegisterNext(k: nat)
    requires k < |InitialRules|
    ensures AddRule(InitialRules[..k], InitialRules[k].pattern, InitialRules[k].handler) == InitialRules[..k + 1]
  {
    var p := InitialRules[k].pattern;
    var prefix := InitialRules[..k];
    forall j | 0 <= j < k ensures Patterns(prefix)[j] != p {
      assert Patterns(prefix)[j] == InitialRules[j].pattern;
    }
    assert InitialRules[..k + 1] == prefix + [InitialRules[k]];
  }

  /** Hits already taken, followed by the rest of a scan. */
  function Then<H>(hits: seq<Hit<H>>, rest: Scan<H>): Scan<H> {
    Scan(hits + rest.hits, rest.buffer, rest.index)
  }

  lemma ThenThen<H>(a: seq<Hit<H>>, b: seq<Hit<H>>, rest: Scan<H>)
    ensures Then(a, Then(b, rest)) == Then(a + b, rest)
  {
    assert a + (b + rest.hits) == (a + b) + rest.hits;
  }

  lemma ThenNone<H>(a: seq<Hit<H>>, rest: Scan<H>)
    requires rest.hits == []
    ensures Then(a, rest) == Scan(a, rest.buffer, rest.index)
  {
    assert a + [] == a;
  }

  class DeviceSerial {
    var deviceId: string
    var unidirectional: bool
    var counter: int
    var connectionFlag: bool
    var initializationChk: bool
    var debug: bool
    var live: map<Command, Value>
    var subscription: map<Command, Option<Callback>>
    var notified: seq<Notification>
    var sent: seq<Outbound>
    var log: seq<LogEntry>
    var receiveBuffer: seq<Byte>
    var matchRules: seq<Rule<Handler>>

    /** The fields other than the receive buffer and the registered patterns. */
    function Abs(): State
      reads this
    {
      State(deviceId, unidirectional, counter, connectionFlag, initializationChk, debug,
            live, subscription, notified, sent, log)
    }

    /** `__init__`: the initial fields and the nine reply patterns, in order. */
    constructor ()
      ensures Abs() == Initial && receiveBuffer == [] && matchRules == InitialRules
    {
      deviceId := "01";
      unidirectional := false;
      counter := 0;
      connectionFlag := true;
      initializationChk := true;
      debug := false;
      live := map[];
      subscription := map[];
      notified := [];
      sent := [];
      log := [];
      receiveBuffer := [];
      matchRules := [];
      new;
      if !unidirectional && deviceId != "00" {
        RegisterReplyPatterns();
      }
    }

    /** The nine `AddMatchString` calls of `__init__`, on an empty table. */
    method RegisterReplyPatterns()
      requires matchRules == []
      modifies this
      ensures matchRules == InitialRules
      ensures Abs() == old(Abs()) && receiveBuffer == old(receiveBuffer)
    {
      assert matchRules == InitialRules[..0];
      AddMatchString(OkReply('c', AspectTokens), MatchAspectRatio);
      RegisterNext(0);
      AddMatchString(OkReply('e', OffOnTokens), MatchAudioMute);
      RegisterNext(1);
      AddMatchString(OkReply('m', OffOnTokens), MatchExecutiveMode);
      RegisterNext(2);
      AddMatchString(OkReply('b', InputTokens), MatchInput);
      RegisterNext(3);
      AddMatchString(OkReply('l', OffOnTokens), MatchOnScreenDisplay);
      RegisterNext(4);
      AddMatchString(OkReply('a', OffOnTokens), MatchPower);
      RegisterNext(5);
      AddMatchString(OkReply('d', VideoMuteTokens), MatchVideoMute);
      RegisterNext(6);
      AddMatchString(OkReply('f', AnyHexTokens), MatchVolume);
      RegisterNext(7);
      AddMatchString(NgReply, Machine.MatchError);
      RegisterNext(8);
      assert InitialRules[..9] == InitialRules;
    }

    /** `AddMatchString`: register a pattern unless it already is. */
    method AddMatchString(p: Pattern, h: Handler)
      modifies this
      ensures matchRules == AddRule(old(matchRules), p, h)
      ensures Abs() == old(Abs()) && receiveBuffer == old(receiveBuffer)
    {
      if p !in Patterns(matchRules) {
        matchRules := matchRules + [Rule(p, h)];
      }
    }

    /** `ReadStatus(command)`. */
    method ReadStatus(name: string) returns (r: Result<Option<Value>, string>)
      ensures r == Machine.ReadStatus(Abs(), name)
    {
      match Lookup(name)
      case None =>
        r := Failure("Invalid command for ReadStatus: " + name);
      case Some(c) =>
        if c in live {
          r := Success(Some(live[c]));
        } else {
          r := Success(None);
        }
    }

    /** `SubscribeStatus(command, None, callback)`. */
    method SubscribeStatus(name: string, cb: Option<Callback>) returns (outcome: Outcome<string>)
      modifies this
      ensures Step(Abs(), outcome) == Machine.SubscribeStatus(old(Abs()), name, cb)
      ensures receiveBuffer == old(receiveBuffer) && matchRules == old(matchRules)
    {
      match Lookup(name)
      case None =>
        outcome := Fail("Invalid command for SubscribeStatus " + name);
      case Some(c) =>
        subscription := subscription[c := cb];
        outcome := Pass;
    }

    /** `NewStatus(command, value, None)`. */
    method NewStatus(c: Command, v: Value)
      modifies this
      ensures Abs() == Machine.NewStatus(old(Abs()), c, v)
      ensures receiveBuffer == old(receiveBuffer) && matchRules == old(matchRules)
    {
      if c in subscription && subscription[c].Some? {
        notified := notified + [Notification(subscription[c].value, c, v)];
      }
    }

    /** `WriteStatus(command, value)`. */
    method WriteStatus(c: Command, v: Value)
      modifies this
      ensures Abs() == Machine.WriteStatus(old(Abs()), c, v)
      ensures receiveBuffer == old(receiveBuffer) && matchRules == old(matchRules)
      decreases if connectionFlag then 0 else 1, 1
    {
      ghost var s1 := old(Abs()).(counter := 0);
      counter := 0;
      assert Abs() == s1;
      if !connectionFlag {
        OnConnected();
      }
      assert Abs() == if !s1.connectionFlag then Machine.OnConnected(s1) else s1;
      Store(c, v);
    }

    /** The write-if-changed tail of `WriteStatus`. */
    method Store(c: Command, v: Value)
      modifies this
      ensures Abs() == Machine.Store(old(Abs()), c, v)
      ensures receiveBuffer == old(receiveBuffer) && matchRules == old(matchRules)
    {
      if c !in live || live[c] != v {
        live := live[c := v];
        NewStatus(c, v);
      }
    }

    /** `OnConnected`. */
    method OnConnected()
      modifies this
      ensures Abs() == Machine.OnConnected(old(Abs()))
      ensures receiveBuffer == old(receiveBuffer) && matchRules == old(matchRules)
      decreases 1, 0
    {
      connectionFlag := true;
      WriteStatus(ConnectionStatus, Connected);
      counter := 0;
    }

    /** `OnDisconnected`. */
    method OnDisconnected()
      modifies this
      ensures Abs() == Machine.OnDisconnected(old(Abs()))
      ensures receiveBuffer == old(receiveBuffer) && matchRules == old(matchRules)
    {
      WriteStatus(ConnectionStatus, Disconnected);
      connectionFlag := false;
    }

    /** `__SetHelper`; `reply` is what `SendAndWait` returns (None on timeout). */
    method SetHelper(command: string, frame: string, reply: Option<seq<Byte>>)
      modifies this
      ensures Abs() == Machine.SetHelper(old(Abs()), command, frame, reply)
      ensures receiveBuffer == old(receiveBuffer) && matchRules == old(matchRules)
    {
      debug := true;
      if unidirectional || deviceId == "00" {
        sent := sent + [Send(frame)];
      } else {
        sent := sent + [SendAndWait(frame)];
        AwaitReply(command, reply);
      }
    }

    /** The reply check of `__SetHelper`, on the result of `SendAndWait`. */
    method AwaitReply(command: string, reply: Option<seq<Byte>>)
      modifies this
      ensures Abs() == Machine.AwaitReply(old(Abs()), command, reply)
      ensures receiveBuffer == old(receiveBuffer) && matchRules == old(matchRules)
    {
      if reply.None? || reply.value == [] {
        log := log + [Error(command + ": Invalid/unexpected response")];
      } else {
        var checked := CheckResponse(command, reply.value);
        if checked.error.Some? {
          log := log + [Error(checked.error.value)];
        }
      }
    }

    /** `__UpdateHelper`. */
    method UpdateHelper(command: string, frame: string)
      modifies this
      ensures Abs() == Machine.UpdateHelper(old(Abs()), command, frame)
      ensures receiveBuffer == old(receiveBuffer) && matchRules == old(matchRules)
    {
      if unidirectional || deviceId == "00" {
        log := log + [Discarded("Inappropriate Command " + command)];
      } else {
        Poll(frame);
      }
    }

    /** `__UpdateHelper` when a reply is expected: count the query and send it. */
    method Poll(frame: string)
      modifies this
      ensures Abs() == (var s1 := if old(initializationChk) then Machine.OnConnected(old(Abs())).(initializationChk := false)
                                  else old(Abs());
                        var s2 := s1.(counter := s1.counter + 1);
                        var s3 := if s2.counter > ConnectionCounter && s2.connectionFlag then Machine.OnDisconnected(s2) else s2;
                        s3.(sent := s3.sent + [Send(frame)]))
      ensures receiveBuffer == old(receiveBuffer) && matchRules == old(matchRules)
    {
      FirstPoll();
      CountPoll();
      sent := sent + [Send(frame)];
    }

    /** The first poll of `__UpdateHelper` reports the connection. */
    method FirstPoll()
      modifies this
      ensures Abs() == if old(initializationChk) then Machine.OnConnected(old(Abs())).(initializationChk := false)
                       else old(Abs())
      ensures receiveBuffer == old(receiveBuffer) && matchRules == old(matchRules)
    {
      if initializationChk {
        OnConnected();
        initializationChk := false;
      }
    }

    /** Each poll counts one unanswered query; past the threshold the device is disconnected. */
    method CountPoll()
      modifies this
      ensures Abs() == (var s := old(Abs()).(counter := old(counter) + 1);
                        if s.counter > ConnectionCounter && s.connectionFlag then Machine.OnDisconnected(s) else s)
      ensures receiveBuffer == old(receiveBuffer) && matchRules == old(matchRules)
    {
      counter := counter + 1;
      if counter > ConnectionCounter && connectionFlag {
        OnDisconnected();
      }
    }

    /** `Set(command, value)`: the `Set<Cmd>` method named by the command, or AttributeError. */
    method Set(name: string, v: Value, reply: Option<seq<Byte>>) returns (outcome: Outcome<string>)
      modifies this
      ensures Step(Abs(), outcome) == Machine.Set(old(Abs()), name, v, reply)
      ensures receiveBuffer == old(receiveBuffer) && matchRules == old(matchRules)
    {
      match SetterNamed(name)
      case None =>
        outcome := Fail(name + "does not support Set.");
      case Some(c) =>
        outcome := Pass;
        match EncodeSet(c, v, deviceId)
        case Frame(f) =>
          SetHelper(Name(c), f, reply);
        case Discard(m) =>
          log := log + [Discarded(m)];
        case Fault(m) =>
          outcome := Fail(m);
    }

    /** `Update(command)`: the `Update<Cmd>` method named by the command, or AttributeError. */
    method Update(name: string) returns (outcome: Outcome<string>)
      modifies this
      ensures Step(Abs(), outcome) == Machine.Update(old(Abs()), name)
      ensures receiveBuffer == old(receiveBuffer) && matchRules == old(matchRules)
    {
      match UpdaterNamed(name)
      case None =>
        outcome := Fail(name + "does not support Update.");
      case Some(c) =>
        UpdateHelper(Name(c), QueryFrame(c, deviceId));
        outcome := Pass;
    }

    /** The `DeviceID` setter. */
    method SetDeviceId(arg: IdArgument) returns (outcome: Outcome<string>)
      modifies this
      ensures Step(Abs(), outcome) == Machine.SetDeviceId(old(Abs()), arg)
      ensures receiveBuffer == old(receiveBuffer) && matchRules == old(matchRules)
    {
      outcome := Pass;
      match arg
      case BroadcastWord =>
        deviceId := "00";
      case Integer(n) =>
        if 1 <= n <= 99 {
          deviceId := Hex2(n);
        } else {
          log := log + [Error("Invalid Device ID Parameter.")];
        }
      case NotInteger =>
        outcome := Fail("invalid literal for int()");
    }

    /** `__MatchError`. */
    method MatchError(group: seq<Byte>)
      modifies this
      ensures Abs() == Machine.HandleMatch(old(Abs()), Machine.MatchError, group)
      ensures receiveBuffer == old(receiveBuffer) && matchRules == old(matchRules)
    {
      counter := 0;
      if |group| == 1 && Lower(group[0]) in ErrorNames {
        log := log + [Error("An error occurred: " + ErrorNames[Lower(group[0])] + ".")];
      }
    }

    /** The callback of a rule, given group 1 of its match object. */
    method Dispatch(h: Handler, group: seq<Byte>)
      modifies this
      ensures Abs() == Machine.HandleMatch(old(Abs()), h, group)
      ensures receiveBuffer == old(receiveBuffer) && matchRules == old(matchRules)
    {
      if h == Machine.MatchError {
        MatchError(group);
      } else {
        match DecodeToken(Decodes(h), group)
        case Some(v) =>
          WriteStatus(Decodes(h), v);
        case None =>
      }
    }

    /**
     * The `while True` loop of `__ReceiveData` for one pattern: cut out and
     * handle each leftmost match until none is left; `index` ends at the start
     * of the last match, or stays as it was.
     */
    method DrainRule(rule: Rule<Handler>, index0: nat) returns (index: nat)
      requires index0 <= |receiveBuffer|
      modifies this
      ensures var r := ScanRule(rule, old(receiveBuffer), index0);
              receiveBuffer == r.buffer && index == r.index && Abs() == ApplyHits(old(Abs()), r.hits)
      ensures matchRules == old(matchRules)
    {
      ghost var total := ScanRule(rule, receiveBuffer, index0);
      ghost var hits: seq<Hit<Handler>> := [];
      index := index0;
      while true
        invariant index <= |receiveBuffer| && matchRules == old(matchRules)
        invariant total == Then(hits, ScanRule(rule, receiveBuffer, index))
        invariant Abs() == ApplyHits(old(Abs()), hits)
        decreases |receiveBuffer|
      {
        var result := Search(rule.pattern, receiveBuffer);
        if result.None? {
          break;
        }
        var m := result.value;
        ghost var after := ScanRule(rule, Splice(receiveBuffer, m), m.start);
        ThenThen(hits, [Hit(rule.handler, m)], after);
        index := m.start;
        ApplyHitsAppend(old(Abs()), hits, [Hit(rule.handler, m)]);
        hits := hits + [Hit(rule.handler, m)];
        Dispatch(rule.handler, m.group);
        receiveBuffer := receiveBuffer[..m.start] + receiveBuffer[m.end..];
      }
      assert hits + [] == hits;
    }

    /**
     * `__ReceiveData`: append the chunk, then for each registered pattern in
     * order cut out and handle every match, then drop what precedes the
     * last match handled, or cap the buffer if there was none at offset 0.
     */
    method ReceiveData(data: seq<Byte>)
      modifies this
      ensures var r := Receive(old(matchRules), old(receiveBuffer) + data);
              receiveBuffer == r.buffer && Abs() == ApplyHits(old(Abs()), r.hits)
      ensures matchRules == old(matchRules)
    {
      receiveBuffer := receiveBuffer + data;
      ghost var total := ScanAll(matchRules, receiveBuffer, 0);
      ghost var s0 := Abs();
      ghost var hits: seq<Hit<Handler>> := [];
      var index: nat := 0;
      var k := 0;
      while k < |matchRules|
        invariant 0 <= k <= |matchRules| && matchRules == old(matchRules)
        invariant index <= |receiveBuffer|
        invariant total == Then(hits, ScanAll(matchRules[k..], receiveBuffer, index))
        invariant Abs() == ApplyHits(s0, hits)
      {
        assert matchRules[k..][0] == matchRules[k] && matchRules[k..][1..] == matchRules[k + 1..];
        ghost var first := ScanRule(matchRules[k], receiveBuffer, index);
        ghost var rest := ScanAll(matchRules[k + 1..], first.buffer, first.index);
        ThenThen(hits, first.hits, rest);
        ApplyHitsAppend(s0, hits, first.hits);
        index := DrainRule(matchRules[k], index);
        hits := hits + first.hits;
        k := k + 1;
      }
      assert matchRules[k..] == [];
      assert hits + [] == hits;
      if index != 0 {
        receiveBuffer := receiveBuffer[index..];
      } else if |receiveBuffer| > MaxBufferSize {
        receiveBuffer := receiveBuffer[|receiveBuffer| - MaxBufferSize..];
      }
    }
  }
}
