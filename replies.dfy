/**
 * How the reply patterns registered in `__init__` fit the command tables:
 * each `OK` pattern answers the command whose opcode ends in its letter and
 * accepts exactly the tokens its `__Match<Cmd>` table knows, so a matched
 * reply always decodes; the device's acknowledgement of a `Set` writes the
 * value that was set; an `NG` reply only logs. Also the behaviour of the
 * final trim when a match starts past position 0.
 */
module Replies {
  import opened Wrappers
  import opened Wire
  import opened Codec
  import opened Matcher
  import opened Machine
  import opened StatusCache

  /** The position in the rule list of the `OK` pattern that answers command c. */
  function RuleIndex(c: Command): (k: nat)
    requires Updatable(c)
    ensures k < |InitialRules| - 1
    ensures InitialRules[k].pattern.OkReply? && InitialRules[k].handler != MatchError
    ensures Decodes(InitialRules[k].handler) == c
  {
    match c
    case AspectRatio => 0
    case AudioMute => 1
    case ExecutiveMode => 2
    case Input => 3
    case OnScreenDisplay => 4
    case Power => 5
    case VideoMute => 6
    case Volume => 7
  }

  /** The reply letter of each `OK` pattern is the second letter of its command's opcode. */
  lemma RuleLetters(c: Command)
    requires Updatable(c)
    ensures InitialRules[RuleIndex(c)].pattern.letter == Opcode(c)[1]
    ensures forall k :: 0 <= k < |InitialRules| - 1 && k != RuleIndex(c) ==>
              InitialRules[k].pattern.letter != Opcode(c)[1]
  {
  }

  /** A table command's `OK` pattern accepts exactly the tokens of its decode table. */
  lemma GroupsAreTableKeys(c: Command, a: char, b: char)
    requires Decodable(c)
    ensures ShapeAccepts(InitialRules[RuleIndex(c)].pattern.shape, a, b) <==> [a, b] in MatchTable(c)
  {
    var key := [a, b];
    assert key[0] == a && key[1] == b;
  }

  /**
   * Every match of a registered pattern gives its callback a group it can
   * handle: a table key, two hex digits for Volume, or an error letter.
   */
  lemma {:induction false} HitsDecode(k: nat, buf: seq<Byte>, i: nat)
    requires k < |InitialRules| && i <= |buf| && MatchAt(InitialRules[k].pattern, buf, i).Some?
    ensures var h := InitialRules[k].handler;
            var g := MatchAt(InitialRules[k].pattern, buf, i).value.group;
            && (h != MatchError && h != MatchVolume ==>
                  g in MatchTable(Decodes(h))
                  && DecodeToken(Decodes(h), g) == Some(Text(MatchTable(Decodes(h))[g])))
            && (h == MatchVolume ==> IsHex2(g) && (DecodeToken(Volume, g).Some? <==> ParseHex2(g) <= 100))
            && (h == MatchError ==> |g| == 1 && Lower(g[0]) in ErrorNames)
  {
    var rule := InitialRules[k];
    var g := MatchAt(rule.pattern, buf, i).value.group;
    if rule.handler != MatchError {
      assert g == [buf[i + 7], buf[i + 8]];
      if rule.handler != MatchVolume {
        var c := Decodes(rule.handler);
        assert RuleIndex(c) == k;
        GroupsAreTableKeys(c, buf[i + 7], buf[i + 8]);
        assert UpperString(g) == g;
      }
    }
  }

  /** The two bytes of a token of two hex digits. */
  function HexBytes(s: string): (r: seq<Byte>)
    requires IsHex2(s)
    ensures r == s
  {
    [s[0], s[1]]
  }

  /** The acknowledgement `'<letter> <id> OK<token>x'` of a command. */
  function AckFrame(c: Command, id: seq<Byte>, token: seq<Byte>): (r: seq<Byte>)
    requires Updatable(c) && IsHex2(id) && IsHex2(token)
    ensures |r| == 10 && r[0] == Opcode(c)[1] && r[2..4] == id && r[7..9] == token
  {
    [Opcode(c)[1], ' ', id[0], id[1], ' ', 'O', 'K', token[0], token[1], 'x']
  }

  /** The rejection `'<letter> <id> NG<code>x'`. */
  function NakFrame(letter: Byte, id: seq<Byte>, code: seq<Byte>): (r: seq<Byte>)
    requires IsErrorLetter(letter) && IsHex2(id) && IsHex2(code)
    ensures |r| == 10 && r[0] == letter && r[2..4] == id && r[7..9] == code
  {
    [letter, ' ', id[0], id[1], ' ', 'N', 'G', code[0], code[1], 'x']
  }

  /** One hit applied: its callback on its group. */
  lemma ApplyOne(s: State, h: Handler, m: Found)
    ensures ApplyHits(s, [Hit(h, m)]) == HandleMatch(s, h, m.group)
  {
    assert [Hit(h, m)][1..] == [];
  }

  /** In a 10-byte buffer an `OK` pattern can only match at position 0. */
  lemma OkOnlyAtZero(p: Pattern, buf: seq<Byte>)
    requires p.OkReply? && |buf| == 10 && MatchAt(p, buf, 0).None?
    ensures Search(p, buf) == None
  {
    forall j | 0 <= j <= |buf| ensures MatchAt(p, buf, j).None? {
    }
  }

  /** No rule finds anything once the buffer is empty. */
  lemma EmptyQuiet(from: nat)
    ensures forall j :: from <= j < |InitialRules| ==> Search(InitialRules[j].pattern, []).None?
  {
    forall j | from <= j < |InitialRules| ensures Search(InitialRules[j].pattern, []).None? {
      SearchEmpty(InitialRules[j].pattern);
    }
  }

  /** The patterns registered before a command's own do not match its acknowledgement. */
  lemma AckMissesEarlier(c: Command, id: seq<Byte>, token: seq<Byte>)
    requires Updatable(c) && IsHex2(id) && IsHex2(token)
    ensures forall j :: 0 <= j < RuleIndex(c) ==> Search(InitialRules[j].pattern, AckFrame(c, id, token)).None?
  {
    var buf := AckFrame(c, id, token);
    RuleLetters(c);
    forall j | 0 <= j < RuleIndex(c) ensures Search(InitialRules[j].pattern, buf).None? {
      assert !SameUpToCase(buf[0], InitialRules[j].pattern.letter);
      OkOnlyAtZero(InitialRules[j].pattern, buf);
    }
  }

  /** A command's own pattern matches its acknowledgement whole when it accepts the token. */
  lemma AckMatches(c: Command, id: seq<Byte>, token: seq<Byte>)
    requires Updatable(c) && IsHex2(id) && IsHex2(token)
    requires ShapeAccepts(InitialRules[RuleIndex(c)].pattern.shape, token[0], token[1])
    ensures Search(InitialRules[RuleIndex(c)].pattern, AckFrame(c, id, token)) == Some(Found(0, 10, token))
  {
    var buf := AckFrame(c, id, token);
    var p := InitialRules[RuleIndex(c)].pattern;
    RuleLetters(c);
    assert buf[7..9] == token;
    assert MatchAt(p, buf, 0) == Some(Found(0, 10, token));
  }

  /**
   * An acknowledgement whose token the command's pattern accepts is matched
   * by that pattern alone, handed to its callback once, and consumed whole.
   */
  lemma {:induction false} OkReplyScan(c: Command, id: seq<Byte>, token: seq<Byte>)
    requires Updatable(c) && IsHex2(id) && IsHex2(token)
    requires ShapeAccepts(InitialRules[RuleIndex(c)].pattern.shape, token[0], token[1])
    ensures Receive(InitialRules, AckFrame(c, id, token))
            == Scan([Hit(InitialRules[RuleIndex(c)].handler, Found(0, 10, token))], [], 0)
  {
    var buf := AckFrame(c, id, token);
    var m := Found(0, 10, token);
    AckMissesEarlier(c, id, token);
    AckMatches(c, id, token);
    assert Splice(buf, m) == [];
    EmptyQuiet(RuleIndex(c));
    OneHit(InitialRules, buf, RuleIndex(c), m);
  }

  /** A handler that decodes its group writes the decoded value. */
  lemma DecodedHit(s: State, h: Handler, g: seq<Byte>, v: Value)
    requires h != MatchError && DecodeToken(Decodes(h), g) == Some(v)
    ensures HandleMatch(s, h, g) == WriteStatus(s, Decodes(h), v)
  {
  }

  /**
   * The round trip over the wire: a valid `Set<Cmd>` sends the table token,
   * and the device's acknowledgement carrying that token writes exactly the
   * value that was set.
   */
  lemma {:induction false} SetAcknowledged(s: State, c: Command, v: string, id: seq<Byte>)
    requires Decodable(c) && v in SetTable(c) && IsHex2(id)
    ensures IsHex2(SetTable(c)[v])
    ensures EncodeSet(c, Text(v), s.deviceId) == Frame(FrameOf(Opcode(c), s.deviceId, SetTable(c)[v]))
    ensures var r := Receive(InitialRules, AckFrame(c, id, HexBytes(SetTable(c)[v])));
            && r.buffer == []
            && ApplyHits(s, r.hits) == WriteStatus(s, c, Text(v))
            && ReadStatus(ApplyHits(s, r.hits), Name(c)) == Success(Some(Text(v)))
  {
    SetDecodeRoundTrip(c, v, s.deviceId);
    SetTokensAreHex(c, v);
    var token := HexBytes(SetTable(c)[v]);
    GroupsAreTableKeys(c, token[0], token[1]);
    assert [token[0], token[1]] == token;
    OkReplyScan(c, id, token);
    var h := InitialRules[RuleIndex(c)].handler;
    ApplyOne(s, h, Found(0, 10, token));
    DecodedHit(s, h, token, Text(v));
    ReadAfterWrite(s, c, Text(v));
  }

  /** `SetVolume`'s token, as the bytes the device echoes. */
  lemma VolumeToken(n: int)
    requires 0 <= n <= 100
    ensures IsHex2(Hex2(n)) && ShapeAccepts(AnyHexTokens, Hex2(n)[0], Hex2(n)[1])
    ensures DecodeToken(Volume, HexBytes(Hex2(n))) == Some(Number(n))
  {
    ParseHex2OfHex2(n);
    VolumeDecode(Hex2(n), n);
  }

  /** The Volume acknowledgement of a value in range writes that value. */
  lemma VolumeEchoWrites(s: State, n: int, id: seq<Byte>)
    requires 0 <= n <= 100 && IsHex2(id)
    ensures var r := Receive(InitialRules, AckFrame(Volume, id, HexBytes(Hex2(n))));
            r.buffer == [] && ApplyHits(s, r.hits) == WriteStatus(s, Volume, Number(n))
  {
    VolumeToken(n);
    var token := HexBytes(Hex2(n));
    OkReplyScan(Volume, id, token);
    ApplyOne(s, MatchVolume, Found(0, 10, token));
    DecodedHit(s, MatchVolume, token, Number(n));
  }

  /** The same round trip for `SetVolume`: the echoed hex value is read back as the number. */
  lemma {:induction false} VolumeAcknowledged(s: State, n: int, id: seq<Byte>)
    requires 0 <= n <= 100 && IsHex2(id)
    ensures EncodeSet(Volume, Number(n), s.deviceId) == Frame(FrameOf("kf", s.deviceId, Hex2(n)))
    ensures var r := Receive(InitialRules, AckFrame(Volume, id, HexBytes(Hex2(n))));
            && r.buffer == []
            && ApplyHits(s, r.hits) == WriteStatus(s, Volume, Number(n))
            && ReadStatus(ApplyHits(s, r.hits), "Volume") == Success(Some(Number(n)))
  {
    VolumeEchoWrites(s, n, id);
    VolumeFrame(n, s.deviceId);
    VolumeReadsBack(s, n);
  }

  lemma VolumeFrame(n: int, id: string)
    requires 0 <= n <= 100
    ensures EncodeSet(Volume, Number(n), id) == Frame(FrameOf("kf", id, Hex2(n)))
  {
  }

  lemma VolumeReadsBack(s: State, n: int)
    ensures ReadStatus(WriteStatus(s, Volume, Number(n)), "Volume") == Success(Some(Number(n)))
  {
    ReadAfterWrite(s, Volume, Number(n));
    assert Name(Volume) == "Volume";
  }

  /** A volume echo above 100 is matched and consumed, but changes nothing. */
  lemma {:induction false} VolumeEchoOutOfRange(s: State, id: seq<Byte>, token: seq<Byte>)
    requires IsHex2(id) && IsHex2(token) && ParseHex2(token) > 100
    ensures var r := Receive(InitialRules, AckFrame(Volume, id, token));
            r.buffer == [] && |r.hits| == 1 && ApplyHits(s, r.hits) == s
  {
    OkReplyScan(Volume, id, token);
    ApplyOne(s, MatchVolume, Found(0, 10, token));
    VolumeDecode(token, 0);
  }

  /** The `NG` pattern matches a rejection whole. */
  lemma NakMatches(letter: Byte, id: seq<Byte>, code: seq<Byte>)
    requires IsErrorLetter(letter) && IsHex2(id) && IsHex2(code)
    ensures Search(NgReply, NakFrame(letter, id, code)) == Some(Found(0, 10, [letter]))
  {
    var buf := NakFrame(letter, id, code);
    assert LazyToX(buf, 9) == Some(10);
    assert LazyToX(buf, 8) == Some(10);
    assert LazyToX(buf, 7) == Some(10);
    assert buf[0..1] == [letter];
    assert MatchAt(NgReply, buf, 0) == Some(Found(0, 10, [letter]));
  }

  /** No `OK` pattern matches a rejection. */
  lemma NakMissesOk(letter: Byte, id: seq<Byte>, code: seq<Byte>)
    requires IsErrorLetter(letter) && IsHex2(id) && IsHex2(code)
    ensures forall j :: 0 <= j < 8 ==> Search(InitialRules[j].pattern, NakFrame(letter, id, code)).None?
  {
    var buf := NakFrame(letter, id, code);
    forall j | 0 <= j < 8 ensures Search(InitialRules[j].pattern, buf).None? {
      assert !SameUpToCase(buf[5], 'O');
      OkOnlyAtZero(InitialRules[j].pattern, buf);
    }
  }

  /** A rejection is matched by the `NG` pattern alone, once, and consumed. */
  lemma {:induction false} NgReplyScan(letter: Byte, id: seq<Byte>, code: seq<Byte>)
    requires IsErrorLetter(letter) && IsHex2(id) && IsHex2(code)
    ensures Receive(InitialRules, NakFrame(letter, id, code)) == Scan([Hit(MatchError, Found(0, 10, [letter]))], [], 0)
  {
    var buf := NakFrame(letter, id, code);
    var m := Found(0, 10, [letter]);
    NakMissesOk(letter, id, code);
    NakMatches(letter, id, code);
    assert Splice(buf, m) == [];
    EmptyQuiet(8);
    OneHit(InitialRules, buf, 8, m);
  }

  /**
   * The callback of a rejection resets the reply counter and logs which
   * command failed; no status changes.
   */
  lemma {:induction false} NgReplyHandled(s: State, letter: Byte, id: seq<Byte>, code: seq<Byte>)
    requires IsErrorLetter(letter) && IsHex2(id) && IsHex2(code)
    ensures var r := Receive(InitialRules, NakFrame(letter, id, code));
            && r.buffer == []
            && ApplyHits(s, r.hits)
               == s.(counter := 0, log := s.log + [Error("An error occurred: " + ErrorNames[Lower(letter)] + ".")])
  {
    NgReplyScan(letter, id, code);
    ApplyOne(s, MatchError, Found(0, 10, [letter]));
  }

  function Spaces(n: nat): (r: seq<Byte>)
    ensures |r| == n && forall i :: 0 <= i < n ==> r[i] == ' '
  {
    seq(n, _ => ' ')
  }

  /** A pattern finds nothing in a buffer made of bytes that cannot start it. */
  lemma NoStart(p: Pattern, buf: seq<Byte>, alphabet: seq<char>)
    requires forall i :: 0 <= i < |buf| ==> buf[i] in alphabet
    requires forall ch :: ch in alphabet ==> if p.OkReply? then !SameUpToCase(ch, p.letter) else !IsErrorLetter(ch)
    ensures Search(p, buf) == None
  {
    forall j | 0 <= j < |buf| ensures MatchAt(p, buf, j).None? {
      assert buf[j] in alphabet;
    }
  }

  /** The buffer of the counterexample below: one blank, a Power acknowledgement, n blanks. */
  function PaddedAck(n: nat): (buf: seq<Byte>)
    ensures |buf| == 11 + n && buf[1..11] == AckFrame(Power, "01", "01")
    ensures forall i :: 0 <= i < |buf| ==> buf[i] in " a01OKx"
    ensures buf[0] == ' ' && forall i :: 11 <= i < |buf| ==> buf[i] == ' '
  {
    [' '] + AckFrame(Power, "01", "01") + Spaces(n)
  }

  /** Only the Power pattern and the ones after it can match the padded acknowledgement. */
  lemma PaddedAckMisses(n: nat)
    ensures forall j :: 0 <= j < 5 ==> Search(InitialRules[j].pattern, PaddedAck(n)).None?
  {
    forall j | 0 <= j < 5 ensures Search(InitialRules[j].pattern, PaddedAck(n)).None? {
      NoStart(InitialRules[j].pattern, PaddedAck(n), " a01OKx");
    }
  }

  /** The Power pattern finds the acknowledgement at offset 1; cutting it out leaves blanks. */
  lemma PaddedAckPower(n: nat)
    ensures Search(InitialRules[5].pattern, PaddedAck(n)) == Some(Found(1, 11, "01"))
    ensures Splice(PaddedAck(n), Found(1, 11, "01")) == Spaces(n + 1)
  {
    PaddedAckAt(n);
    assert Splice(PaddedAck(n), Found(1, 11, "01")) == [' '] + Spaces(n);
  }

  lemma PaddedAckAt(n: nat)
    ensures MatchAt(InitialRules[5].pattern, PaddedAck(n), 0).None?
    ensures MatchAt(InitialRules[5].pattern, PaddedAck(n), 1) == Some(Found(1, 11, "01"))
  {
    var buf := PaddedAck(n);
    assert buf[8..10] == "01";
  }

  /**
   * The cap is skipped once a match starts past position 0: one blank, a
   * Power acknowledgement, then n blanks leave all n blanks in the buffer,
   * however large n is.
   */
  lemma {:induction false} CapSkippedAfterMatch(n: nat)
    ensures var r := Receive(InitialRules, PaddedAck(n));
            && r.hits == [Hit(MatchPower, Found(1, 11, "01"))]
            && r.buffer == Spaces(n)
            && (n > MaxBufferSize ==> |r.buffer| > MaxBufferSize)
  {
    var m := Found(1, 11, "01");
    PaddedAckMisses(n);
    PaddedAckPower(n);
    SpacesQuiet(n + 1);
    OneHit(InitialRules, PaddedAck(n), 5, m);
    var left := Spaces(n + 1);
    assert Trim(left, 1) == left[1..] == Spaces(n);
  }

  /** Blanks match none of the registered patterns. */
  lemma SpacesQuiet(n: nat)
    ensures forall j :: 0 <= j < |InitialRules| ==> Search(InitialRules[j].pattern, Spaces(n)).None?
  {
    forall j | 0 <= j < |InitialRules| ensures Search(InitialRules[j].pattern, Spaces(n)).None? {
      NoStart(InitialRules[j].pattern, Spaces(n), " ");
    }
  }
}
