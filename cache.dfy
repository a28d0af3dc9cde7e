/**
 * Properties of the status cache: a write is read back, nothing is read
 * before the first write, the subscribed callback fires only on the first
 * write or a change, a repeated write changes nothing, and other commands'
 * slots are left alone.
 */
module StatusCache {
  import opened Wrappers
  import opened Codec
  import opened Machine

  /** Whether the callback bound to c would be called. */
  predicate Subscribed(s: State, c: Command) {
    c in s.subscription && s.subscription[c].Some?
  }

  /** `Store` touches only the slot of c and the notification log, adding at most one call. */
  lemma StoreFrame(s: State, c: Command, v: Value)
    ensures var t := Store(s, c, v);
            && t == s.(live := s.live[c := v], notified := t.notified)
            && (if (c !in s.live || s.live[c] != v) && Subscribed(s, c)
                then t.notified == s.notified + [Notification(s.subscription[c].value, c, v)]
                else t.notified == s.notified)
  {
    if c in s.live && s.live[c] == v {
      assert s.live[c := v] == s.live;
    }
  }

  /** `WriteStatus` unfolded: the `OnConnected` call recurses exactly one level. */
  lemma WriteUnfold(s: State, c: Command, v: Value)
    ensures var r := s.(counter := 0, connectionFlag := true);
            WriteStatus(s, c, v) ==
              if s.connectionFlag then Store(s.(counter := 0), c, v)
              else Store(Store(r, ConnectionStatus, Connected), c, v)
  {
    if !s.connectionFlag {
      var s1 := s.(counter := 0);
      var r := s.(counter := 0, connectionFlag := true);
      assert s1.(connectionFlag := true) == r;
      assert WriteStatus(r, ConnectionStatus, Connected) == Store(r.(counter := 0), ConnectionStatus, Connected);
      assert r.(counter := 0) == r;
      StoreFrame(r, ConnectionStatus, Connected);
      var q := Store(r, ConnectionStatus, Connected);
      assert q.(counter := 0) == q;
      assert OnConnected(s1) == q;
    }
  }

  /** Before any write, every known command reads as None; an unknown name raises. */
  lemma InitialReadsNone(name: string)
    ensures Lookup(name).Some? ==> ReadStatus(Initial, name) == Success(None)
    ensures Lookup(name).None? ==> ReadStatus(Initial, name).Failure?
  {
  }

  /** In every state, `ReadStatus` raises its `KeyError` exactly for a name outside `Commands`. */
  lemma ReadUnknownRaises(s: State, name: string)
    ensures Lookup(name).None? <==> ReadStatus(s, name).Failure?
    ensures Lookup(name).None? ==> ReadStatus(s, name) == Failure("Invalid command for ReadStatus: " + name)
  {
  }

  /** A command's name reads its Live value, or None before the first write. */
  lemma ReadByName(s: State, c: Command)
    ensures ReadStatus(s, Name(c)) == Success(if c in s.live then Some(s.live[c]) else None)
  {
    LookupIsNameInverse(Name(c), c);
  }

  /** After `WriteStatus(c, v)`, `ReadStatus(c)` returns v. */
  lemma ReadAfterWrite(s: State, c: Command, v: Value)
    ensures ReadStatus(WriteStatus(s, c, v), Name(c)) == Success(Some(v))
  {
    LookupIsNameInverse(Name(c), c);
    WriteUnfold(s, c, v);
    var r := s.(counter := 0, connectionFlag := true);
    StoreFrame(s.(counter := 0), c, v);
    StoreFrame(Store(r, ConnectionStatus, Connected), c, v);
  }

  /**
   * On a connected driver, `WriteStatus` resets the counter, stores v in c's
   * slot only, and calls c's callback with `(c, v)` exactly when the slot was
   * empty or held another value.
   */
  lemma WriteConnected(s: State, c: Command, v: Value)
    requires s.connectionFlag
    ensures var t := WriteStatus(s, c, v);
            && t.live == s.live[c := v]
            && t.counter == 0 && t.connectionFlag
            && t.subscription == s.subscription && t.sent == s.sent && t.log == s.log
            && t.deviceId == s.deviceId && t.initializationChk == s.initializationChk
            && ((c !in s.live || s.live[c] != v) && Subscribed(s, c) ==>
                  t.notified == s.notified + [Notification(s.subscription[c].value, c, v)])
            && (!(c !in s.live || s.live[c] != v) || !Subscribed(s, c) ==> t.notified == s.notified)
  {
    WriteUnfold(s, c, v);
    StoreFrame(s.(counter := 0), c, v);
  }

  /**
   * On a disconnected driver, `WriteStatus` first runs `OnConnected` once:
   * the flag comes back, ConnectionStatus becomes 'Connected' (with its own
   * notification if that changed it), and then c is written as usual.
   */
  lemma WriteReconnects(s: State, c: Command, v: Value)
    requires !s.connectionFlag
    ensures var r := s.(counter := 0, connectionFlag := true);
            WriteStatus(s, c, v) == Store(Store(r, ConnectionStatus, Connected), c, v)
    ensures var t := WriteStatus(s, c, v);
            && t.connectionFlag && t.counter == 0
            && t.live == s.live[ConnectionStatus := Connected][c := v]
            && t.subscription == s.subscription && t.sent == s.sent && t.log == s.log
            && |s.notified| <= |t.notified| <= |s.notified| + 2
  {
    WriteUnfold(s, c, v);
    var r := s.(counter := 0, connectionFlag := true);
    StoreFrame(r, ConnectionStatus, Connected);
    StoreFrame(Store(r, ConnectionStatus, Connected), c, v);
  }

  /** Slots of other commands keep their presence and value (ConnectionStatus too, unless reconnecting). */
  lemma WriteLeavesOthers(s: State, c: Command, v: Value, d: Command)
    requires d != c && (s.connectionFlag || d != ConnectionStatus)
    ensures var t := WriteStatus(s, c, v);
            (d in t.live <==> d in s.live) && (d in s.live ==> t.live[d] == s.live[d])
  {
    if s.connectionFlag {
      WriteConnected(s, c, v);
    } else {
      WriteReconnects(s, c, v);
    }
  }

  /** Writing the same value twice is the same as writing it once: the callback fires once. */
  lemma {:induction false} WriteIdempotent(s: State, c: Command, v: Value)
    ensures WriteStatus(WriteStatus(s, c, v), c, v) == WriteStatus(s, c, v)
  {
    var t := WriteStatus(s, c, v);
    if s.connectionFlag {
      WriteConnected(s, c, v);
    } else {
      WriteReconnects(s, c, v);
    }
    WriteConnected(t, c, v);
    assert t.live[c := v] == t.live;
    assert t.(counter := 0) == t;
  }

  /**
   * The second of two writes of one value notifies nobody. On a connected
   * driver the pair adds at most one notification; on a disconnected one the
   * first write may also notify the reconnection, so at most two.
   */
  lemma WriteTwiceNotifiesOnce(s: State, c: Command, v: Value)
    ensures WriteStatus(WriteStatus(s, c, v), c, v).notified == WriteStatus(s, c, v).notified
    ensures s.connectionFlag ==> |WriteStatus(WriteStatus(s, c, v), c, v).notified| <= |s.notified| + 1
    ensures !s.connectionFlag ==> |WriteStatus(WriteStatus(s, c, v), c, v).notified| <= |s.notified| + 2
  {
    WriteIdempotent(s, c, v);
    if s.connectionFlag {
      WriteConnected(s, c, v);
    } else {
      WriteReconnects(s, c, v);
    }
  }

  /** `SubscribeStatus` binds the callback to a known command only, and raises otherwise. */
  lemma SubscribeBinds(s: State, name: string, cb: Option<Callback>)
    ensures Lookup(name).None? <==> SubscribeStatus(s, name, cb).outcome.Fail?
    ensures Lookup(name).None? ==> SubscribeStatus(s, name, cb).state == s
    ensures Lookup(name).Some? ==>
              SubscribeStatus(s, name, cb).state == s.(subscription := s.subscription[Lookup(name).value := cb])
  {
  }

  /** After subscribing cb to c, a write that changes c's value calls cb with `(c, v)`. */
  lemma {:induction false} SubscribedWriteNotifies(s: State, c: Command, cb: Callback, v: Value)
    requires s.connectionFlag && (c !in s.live || s.live[c] != v)
    ensures var s1 := SubscribeStatus(s, Name(c), Some(cb)).state;
            WriteStatus(s1, c, v).notified == s.notified + [Notification(cb, c, v)]
  {
    LookupIsNameInverse(Name(c), c);
    var s1 := SubscribeStatus(s, Name(c), Some(cb)).state;
    assert s1 == s.(subscription := s.subscription[c := Some(cb)]);
    WriteConnected(s1, c, v);
  }
}
