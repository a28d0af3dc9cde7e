/**
 * Properties of the liveness fields `counter`, `connectionFlag` and
 * `initializationChk`: the first update connects once, every update counts
 * and sends its query, the sixteenth unanswered update disconnects exactly
 * once, any decoded reply reconnects, and an NG reply zeroes the counter
 * without reconnecting.
 */
module Liveness {
  import opened Wrappers
  import opened Wire
  import opened Codec
  import opened Machine
  import opened StatusCache

  /** `OnConnected` sets the flag and records 'Connected' through one level of `WriteStatus`. */
  lemma OnConnectedUnfold(s: State)
    ensures OnConnected(s) == Store(s.(connectionFlag := true, counter := 0), ConnectionStatus, Connected)
  {
    var r := s.(connectionFlag := true);
    WriteUnfold(r, ConnectionStatus, Connected);
    assert r.(counter := 0) == s.(connectionFlag := true, counter := 0);
    StoreFrame(s.(connectionFlag := true, counter := 0), ConnectionStatus, Connected);
  }

  /** `OnDisconnected` on a connected driver records 'Disconnected', zeroes the counter, clears the flag. */
  lemma OnDisconnectedUnfold(s: State)
    requires s.connectionFlag
    ensures OnDisconnected(s) == Store(s.(counter := 0), ConnectionStatus, Disconnected).(connectionFlag := false)
  {
    WriteUnfold(s, ConnectionStatus, Disconnected);
  }

  /** With the broadcast id or in unidirectional mode, an update is discarded: nothing is sent or counted. */
  lemma UpdateWriteOnly(s: State, c: Command, frame: string)
    requires WriteOnly(s)
    ensures var t := UpdateHelper(s, Name(c), frame);
            && t.sent == s.sent && t.counter == s.counter && t.connectionFlag == s.connectionFlag
            && t.initializationChk == s.initializationChk && t.live == s.live && t.notified == s.notified
            && t.log == s.log + [Discarded("Inappropriate Command " + Name(c))]
  {
  }

  /**
   * The first update after construction runs `OnConnected` once and clears
   * `initializationChk`; it then counts 1 and sends the query.
   */
  lemma UpdateFirstCall(s: State, c: Command, frame: string)
    requires !WriteOnly(s) && s.initializationChk
    ensures var t := UpdateHelper(s, Name(c), frame);
            && !t.initializationChk && t.connectionFlag && t.counter == 1
            && t.live == s.live[ConnectionStatus := Connected]
            && t.sent == s.sent + [Send(frame)] && t.log == s.log && t.deviceId == s.deviceId
            && t.subscription == s.subscription && t.debug == s.debug && t.unidirectional == s.unidirectional
            && (if (ConnectionStatus !in s.live || s.live[ConnectionStatus] != Connected)
                   && Subscribed(s, ConnectionStatus)
                then t.notified == s.notified + [Notification(s.subscription[ConnectionStatus].value, ConnectionStatus, Connected)]
                else t.notified == s.notified)
  {
    OnConnectedUnfold(s);
    StoreFrame(s.(connectionFlag := true, counter := 0), ConnectionStatus, Connected);
  }

  /**
   * A later update counts one more unanswered query; past `connectionCounter`
   * while connected it runs `OnDisconnected`: 'Disconnected' is recorded, the
   * counter is zeroed by `WriteStatus`, and the flag is cleared. The query is
   * sent either way.
   */
  lemma UpdateCounts(s: State, c: Command, frame: string)
    requires !WriteOnly(s) && !s.initializationChk
    ensures var t := UpdateHelper(s, Name(c), frame);
            && t.sent == s.sent + [Send(frame)] && t.log == s.log && t.deviceId == s.deviceId
            && !t.initializationChk && t.subscription == s.subscription
            && t.debug == s.debug && t.unidirectional == s.unidirectional
            && (if s.counter + 1 > ConnectionCounter && s.connectionFlag then
                  && t.counter == 0 && !t.connectionFlag
                  && t.live == s.live[ConnectionStatus := Disconnected]
                  && (if (ConnectionStatus !in s.live || s.live[ConnectionStatus] != Disconnected)
                         && Subscribed(s, ConnectionStatus)
                      then t.notified == s.notified + [Notification(s.subscription[ConnectionStatus].value, ConnectionStatus, Disconnected)]
                      else t.notified == s.notified)
                else
                  && t.counter == s.counter + 1 && t.connectionFlag == s.connectionFlag
                  && t.live == s.live && t.notified == s.notified)
  {
    var s2 := s.(counter := s.counter + 1);
    if s2.counter > ConnectionCounter && s2.connectionFlag {
      OnDisconnectedUnfold(s2);
      StoreFrame(s2.(counter := 0), ConnectionStatus, Disconnected);
    }
  }

  /** n successive `Update(c)` calls. */
  function Updates(s: State, c: Command, n: nat): State
    requires Updatable(c)
  {
    if n == 0 then s
    else
      var p := Updates(s, c, n - 1);
      UpdateHelper(p, Name(c), QueryFrame(c, p.deviceId))
  }

  /**
   * Updates that do not cross the threshold while connected, or any number of
   * updates while disconnected, only count and send: no status changes and no
   * notification, so 'Disconnected' is never reported twice in a row.
   */
  lemma {:induction false} QuietUpdates(s: State, c: Command, n: nat)
    requires Updatable(c) && !WriteOnly(s) && !s.initializationChk
    requires s.connectionFlag ==> s.counter + n <= ConnectionCounter
    ensures var t := Updates(s, c, n);
            && t.counter == s.counter + n && t.connectionFlag == s.connectionFlag
            && t.live == s.live && t.notified == s.notified && t.log == s.log
            && t.deviceId == s.deviceId && t.unidirectional == s.unidirectional
            && !t.initializationChk && t.subscription == s.subscription
            && t.sent == s.sent + seq(n, _ => Send(QueryFrame(c, s.deviceId)))
  {
    if n > 0 {
      QuietUpdates(s, c, n - 1);
      var p := Updates(s, c, n - 1);
      QuietStep(p, c);
      Repeated(s.sent, Send(QueryFrame(c, s.deviceId)), n);
    }
  }

  /** An update that does not cross the threshold only counts and sends its query. */
  lemma QuietStep(p: State, c: Command)
    requires Updatable(c) && !WriteOnly(p) && !p.initializationChk
    requires p.connectionFlag ==> p.counter + 1 <= ConnectionCounter
    ensures UpdateHelper(p, Name(c), QueryFrame(c, p.deviceId))
            == p.(counter := p.counter + 1, sent := p.sent + [Send(QueryFrame(c, p.deviceId))])
  {
  }

  lemma Repeated<T>(a: seq<T>, x: T, n: nat)
    requires n > 0
    ensures a + seq(n, _ => x) == a + seq(n - 1, _ => x) + [x]
  {
    assert seq(n, _ => x) == seq(n - 1, _ => x) + [x];
  }

  /**
   * From a fresh count on a connected driver, fifteen unanswered updates keep
   * it connected and the sixteenth disconnects it: 'Disconnected' is recorded
   * once and the counter is back at 0.
   */
  lemma {:induction false} SixteenthUpdateDisconnects(s: State, c: Command)
    requires Updatable(c) && !WriteOnly(s) && !s.initializationChk && s.connectionFlag && s.counter == 0
    ensures Updates(s, c, 15).connectionFlag && Updates(s, c, 15).counter == 15
    ensures var t := Updates(s, c, 16);
            && !t.connectionFlag && t.counter == 0
            && t.live == s.live[ConnectionStatus := Disconnected]
            && |s.notified| <= |t.notified| <= |s.notified| + 1
            && |t.sent| == |s.sent| + 16
  {
    QuietUpdates(s, c, 15);
    var p := Updates(s, c, 15);
    UpdateCounts(p, c, QueryFrame(c, p.deviceId));
  }

  /** An NG reply zeroes the counter and logs an error, but does not reconnect and writes no status. */
  lemma MatchErrorKeepsFlag(s: State, group: seq<Byte>)
    ensures var t := HandleMatch(s, MatchError, group);
            && t.counter == 0 && t.connectionFlag == s.connectionFlag
            && t.live == s.live && t.notified == s.notified && t.sent == s.sent
            && (|group| == 1 && Lower(group[0]) in ErrorNames ==>
                  t.log == s.log + [Error("An error occurred: " + ErrorNames[Lower(group[0])] + ".")])
            && (!(|group| == 1 && Lower(group[0]) in ErrorNames) ==> t.log == s.log)
  {
    var t := HandleMatch(s, MatchError, group);
    var s1 := s.(counter := 0);
    if |group| == 1 && Lower(group[0]) in ErrorNames {
      assert t == s1.(log := s1.log + [Error("An error occurred: " + ErrorNames[Lower(group[0])] + ".")]);
    } else {
      assert t == s1;
    }
  }

  /** A decoded reply zeroes the counter, reconnects if needed, and stores the value. */
  lemma DecodedReplyReconnects(s: State, h: Handler, group: seq<Byte>)
    requires h != MatchError && DecodeToken(Decodes(h), group).Some?
    ensures var t := HandleMatch(s, h, group);
            && t.counter == 0 && t.connectionFlag
            && ReadStatus(t, Name(Decodes(h))) == Success(Some(DecodeToken(Decodes(h), group).value))
  {
    var c := Decodes(h);
    var v := DecodeToken(c, group).value;
    ReadAfterWrite(s, c, v);
    if s.connectionFlag {
      WriteConnected(s, c, v);
    } else {
      WriteReconnects(s, c, v);
    }
  }
}
