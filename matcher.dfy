/**
 * The response matcher of `DeviceSerialClass`: the reply patterns registered
 * in `__init__`, each as a hand-written recogniser that behaves like
 * `re.search` on the pattern with `re.IGNORECASE`; the ordered rule registry
 * of `AddMatchString`; and the search-and-splice scan of `__ReceiveData`
 * with its final trim or cap of the receive buffer.
 */
module Matcher {
  import opened Wrappers
  import opened Wire

  /** `self.__maxBufferSize`. */
  const MaxBufferSize := 2048

  /** The capture group of an `OK` reply pattern. */
  datatype Shape =
    | AspectTokens     // 0[1269]
    | OffOnTokens      // 0[01]
    | InputTokens      // (90|91|92|00|10|01|11)
    | VideoMuteTokens  // (00|01|10)
    | AnyHexTokens     // [0-9a-f]{2}

  predicate ShapeAccepts(g: Shape, a: char, b: char) {
    match g
    case AspectTokens => a == '0' && b in "1269"
    case OffOnTokens => a == '0' && b in "01"
    case InputTokens => (a == '9' && b in "012") || (a in "01" && b in "01")
    case VideoMuteTokens => (a == '0' && b in "01") || (a == '1' && b == '0')
    case AnyHexTokens => IsHexDigit(a) && IsHexDigit(b)
  }

  /** A compiled reply pattern. */
  datatype Pattern =
    | OkReply(letter: char, shape: Shape)  // <letter> [a-f0-9]{2} OK(<shape>)x
    | NgReply                              // ([cembladf]) [a-f0-9]{2} NG.*?x

  /** A match object: the span `[start, end)` and group 1. */
  datatype Found = Found(start: nat, end: nat, group: seq<Byte>)

  predicate IsX(b: char) {
    SameUpToCase(b, 'x')
  }

  /** `<letter> SP <hex> <hex> SP` at position i, the head shared by every reply. */
  predicate HeadAt(buf: seq<Byte>, i: nat, letterOk: char -> bool)
    requires i + 5 <= |buf|
  {
    letterOk(buf[i]) && buf[i + 1] == ' ' && IsHexDigit(buf[i + 2]) && IsHexDigit(buf[i + 3])
    && buf[i + 4] == ' '
  }

  predicate IsErrorLetter(b: char) {
    Lower(b) in "cembladf"
  }

  /**
   * The lazy `.*?x` of the NG pattern, scanning from k: the end of the match
   * just after the first x (either case), or None if a newline or the end of
   * the buffer comes first (`.` does not match a newline).
   */
  function LazyToX(buf: seq<Byte>, k: nat): (r: Option<nat>)
    requires k <= |buf|
    ensures r.Some? ==> k < r.value <= |buf| && IsX(buf[r.value - 1])
                        && forall j :: k <= j < r.value - 1 ==> !IsX(buf[j]) && buf[j] != '\n'
    ensures r.None? ==> forall j :: k <= j < |buf| && IsX(buf[j]) ==> '\n' in buf[k..j]
    decreases |buf| - k
  {
    if k == |buf| then None
    else if IsX(buf[k]) then Some(k + 1)
    else if buf[k] == '\n' then None
    else
      var r := LazyToX(buf, k + 1);
      assert r.None? ==> forall j :: k + 1 <= j < |buf| && IsX(buf[j]) ==>
        buf[k..j] == [buf[k]] + buf[k + 1..j];
      r
  }

  /** Whether pattern p matches starting exactly at position i, and how. */
  function MatchAt(p: Pattern, buf: seq<Byte>, i: nat): (r: Option<Found>)
    requires i <= |buf|
    ensures r.Some? ==> r.value.start == i && i + 8 <= r.value.end <= |buf|
  {
    match p
    case OkReply(letter, shape) =>
      if i + 10 <= |buf| && HeadAt(buf, i, b => SameUpToCase(b, letter))
         && SameUpToCase(buf[i + 5], 'O') && SameUpToCase(buf[i + 6], 'K')
         && ShapeAccepts(shape, buf[i + 7], buf[i + 8]) && IsX(buf[i + 9])
      then Some(Found(i, i + 10, buf[i + 7..i + 9]))
      else None
    case NgReply =>
      if i + 7 <= |buf| && HeadAt(buf, i, IsErrorLetter)
         && SameUpToCase(buf[i + 5], 'N') && SameUpToCase(buf[i + 6], 'G')
      then
        match LazyToX(buf, i + 7)
        case Some(e) => Some(Found(i, e, buf[i..i + 1]))
        case None => None
      else None
  }

  /** `re.search(p, buf[from:])`: the leftmost match starting at or after `from`. */
  function FirstMatch(p: Pattern, buf: seq<Byte>, from: nat): (r: Option<Found>)
    requires from <= |buf|
    ensures r.Some? ==> from <= r.value.start <= |buf| && MatchAt(p, buf, r.value.start) == r
                        && forall j :: from <= j < r.value.start ==> MatchAt(p, buf, j).None?
    ensures r.None? ==> forall j :: from <= j <= |buf| ==> MatchAt(p, buf, j).None?
    decreases |buf| - from
  {
    if MatchAt(p, buf, from).Some? then MatchAt(p, buf, from)
    else if from == |buf| then None
    else FirstMatch(p, buf, from + 1)
  }

  function Search(p: Pattern, buf: seq<Byte>): (r: Option<Found>)
    ensures r.Some? ==> r.value.start + 8 <= r.value.end <= |buf|
  {
    FirstMatch(p, buf, 0)
  }

  /** `buf[:m.start()] + buf[m.end():]`. */
  function Splice(buf: seq<Byte>, m: Found): seq<Byte>
    requires m.start <= m.end <= |buf|
  {
    buf[..m.start] + buf[m.end..]
  }

  /** `buf[-n:]`: the last n bytes, or all of them. */
  function Tail(buf: seq<Byte>, n: nat): (r: seq<Byte>)
    ensures |r| <= n && |r| <= |buf|
    ensures r == buf[|buf| - |r|..]
    ensures |buf| <= n ==> r == buf
    ensures |buf| > n ==> |r| == n
  {
    if |buf| <= n then buf else buf[|buf| - n..]
  }

  /** One entry of `self.__matchStringDict`: a pattern and its callback. */
  datatype Rule<H> = Rule(pattern: Pattern, handler: H)

  /** One callback invocation: the handler and the match object it received. */
  datatype Hit<H> = Hit(handler: H, found: Found)

  /** The hits of a scan, the buffer it leaves, and the variable `index`. */
  datatype Scan<H> = Scan(hits: seq<Hit<H>>, buffer: seq<Byte>, index: nat)

  function Patterns<H>(rules: seq<Rule<H>>): seq<Pattern> {
    seq(|rules|, k requires 0 <= k < |rules| => rules[k].pattern)
  }

  /** `AddMatchString`: a pattern already registered keeps its first callback. */
  function AddRule<H>(rules: seq<Rule<H>>, p: Pattern, h: H): seq<Rule<H>> {
    if p in Patterns(rules) then rules else rules + [Rule(p, h)]
  }

  /** No pattern appears twice, as for the keys of a dict. */
  predicate DistinctPatterns<H>(rules: seq<Rule<H>>) {
    forall k, l :: 0 <= k < l < |rules| ==> rules[k].pattern != rules[l].pattern
  }

  /**
   * Registering keeps the patterns distinct, always leaves p registered, changes
   * nothing when p already is, and otherwise adds p with h at the end.
   */
  lemma AddRuleProperties<H>(rules: seq<Rule<H>>, p: Pattern, h: H)
    requires DistinctPatterns(rules)
    ensures DistinctPatterns(AddRule(rules, p, h))
    ensures p in Patterns(AddRule(rules, p, h))
    ensures p in Patterns(rules) ==> AddRule(rules, p, h) == rules
    ensures p !in Patterns(rules) ==> AddRule(rules, p, h) == rules + [Rule(p, h)]
  {
    var r := AddRule(rules, p, h);
    if p !in Patterns(rules) {
      forall k | 0 <= k < |rules| ensures rules[k].pattern != p {
        assert Patterns(rules)[k] == rules[k].pattern;
      }
      assert Patterns(r)[|rules|] == p;
    } else {
      assert r == rules;
    }
  }

  /** Registering a pattern a second time, with any callback, changes nothing. */
  lemma AddRuleIdempotent<H>(rules: seq<Rule<H>>, p: Pattern, h: H, h': H)
    ensures AddRule(AddRule(rules, p, h), p, h') == AddRule(rules, p, h)
  {
    var r := AddRule(rules, p, h);
    if p !in Patterns(rules) {
      assert Patterns(r)[|rules|] == p;
    }
  }

  /** The `while True` loop of `__ReceiveData` for one rule. */
  function ScanRule<H>(rule: Rule<H>, buf: seq<Byte>, index: nat): (r: Scan<H>)
    requires index <= |buf|
    ensures r.index <= |r.buffer| <= |buf|
    decreases |buf|
  {
    match Search(rule.pattern, buf)
    case None => Scan([], buf, index)
    case Some(m) =>
      var rest := ScanRule(rule, Splice(buf, m), m.start);
      Scan([Hit(rule.handler, m)] + rest.hits, rest.buffer, rest.index)
  }

  /** The `for` loop of `__ReceiveData` over the rules, in registration order. */
  function ScanAll<H>(rules: seq<Rule<H>>, buf: seq<Byte>, index: nat): (r: Scan<H>)
    requires index <= |buf|
    ensures r.index <= |r.buffer| <= |buf|
    decreases |rules|
  {
    if rules == [] then Scan([], buf, index)
    else
      var first := ScanRule(rules[0], buf, index);
      var rest := ScanAll(rules[1..], first.buffer, first.index);
      Scan(first.hits + rest.hits, rest.buffer, rest.index)
  }

  /** The trim at the end of `__ReceiveData`. */
  function Trim(buf: seq<Byte>, index: nat): seq<Byte>
    requires index <= |buf|
  {
    if index != 0 then buf[index..] else Tail(buf, MaxBufferSize)
  }

  /** `__ReceiveData` on the already appended buffer: hits in order and the retained buffer. */
  function Receive<H>(rules: seq<Rule<H>>, buf: seq<Byte>): (r: Scan<H>)
  {
    var s := ScanAll(rules, buf, 0);
    Scan(s.hits, Trim(s.buffer, s.index), s.index)
  }

  /**
   * The retained buffer: when `index` ends at 0 it is at most the last 2048
   * bytes of what the scan left; otherwise it is what the scan left from the
   * start of the last match processed on, with no cap.
   */
  lemma ReceiveRetains<H>(rules: seq<Rule<H>>, buf: seq<Byte>)
    ensures var s := ScanAll(rules, buf, 0);
            var r := Receive(rules, buf);
            (r.index == 0 ==> |r.buffer| <= MaxBufferSize && r.buffer == s.buffer[|s.buffer| - |r.buffer|..])
            && (r.index == 0 ==> r.buffer == Tail(s.buffer, MaxBufferSize)
                                 && |r.buffer| == if |s.buffer| <= MaxBufferSize then |s.buffer| else MaxBufferSize)
            && (r.index != 0 ==> r.buffer == s.buffer[r.index..])
            && |r.buffer| <= |buf|
  {
  }

  /** Total length of the spans the hits cut out. */
  function Consumed<H>(hits: seq<Hit<H>>): int {
    if hits == [] then 0 else (hits[0].found.end - hits[0].found.start) + Consumed(hits[1..])
  }

  lemma {:induction false} ConsumedAppend<H>(a: seq<Hit<H>>, b: seq<Hit<H>>)
    ensures Consumed(a + b) == Consumed(a) + Consumed(b)
  {
    if a == [] {
      assert a + b == b;
    } else {
      assert (a + b)[1..] == a[1..] + b;
      ConsumedAppend(a[1..], b);
    }
  }

  /** Every hit of a scan is cut out of the buffer and nothing else is. */
  lemma {:induction false} ScanRuleConsumes<H>(rule: Rule<H>, buf: seq<Byte>, index: nat)
    requires index <= |buf|
    ensures var r := ScanRule(rule, buf, index); |r.buffer| + Consumed(r.hits) == |buf|
    decreases |buf|
  {
    match Search(rule.pattern, buf)
    case None =>
    case Some(m) =>
      ScanRuleConsumes(rule, Splice(buf, m), m.start);
      var rest := ScanRule(rule, Splice(buf, m), m.start);
      assert ([Hit(rule.handler, m)] + rest.hits)[1..] == rest.hits;
  }

  lemma {:induction false} ScanAllConsumes<H>(rules: seq<Rule<H>>, buf: seq<Byte>, index: nat)
    requires index <= |buf|
    ensures var r := ScanAll(rules, buf, index); |r.buffer| + Consumed(r.hits) == |buf|
    decreases |rules|
  {
    if rules != [] {
      var first := ScanRule(rules[0], buf, index);
      ScanRuleConsumes(rules[0], buf, index);
      ScanAllConsumes(rules[1..], first.buffer, first.index);
      ConsumedAppend(first.hits, ScanAll(rules[1..], first.buffer, first.index).hits);
    }
  }

  /**
   * Each hit is the leftmost match of p in what the hits before it left, and
   * cutting all of them out, in order, leaves `out`.
   */
  predicate Drains<H>(p: Pattern, buf: seq<Byte>, hits: seq<Hit<H>>, out: seq<Byte>)
    decreases |hits|
  {
    if hits == [] then out == buf
    else
      var m := hits[0].found;
      && Search(p, buf) == Some(m) && m.start <= m.end <= |buf|
      && Drains(p, Splice(buf, m), hits[1..], out)
  }

  /** The buffer left by cutting out each hit's span in turn, if every span fits. */
  function CutAll<H>(buf: seq<Byte>, hits: seq<Hit<H>>): Option<seq<Byte>>
    decreases |hits|
  {
    if hits == [] then Some(buf)
    else if hits[0].found.start <= hits[0].found.end <= |buf| then CutAll(Splice(buf, hits[0].found), hits[1..])
    else None
  }

  /**
   * The scan of one rule hands its callback every leftmost match in turn,
   * each cut out before the next search, until the pattern is no longer found.
   */
  lemma {:induction false} ScanRuleDrains<H>(rule: Rule<H>, buf: seq<Byte>, index: nat)
    requires index <= |buf|
    ensures var r := ScanRule(rule, buf, index);
            && Drains(rule.pattern, buf, r.hits, r.buffer)
            && Search(rule.pattern, r.buffer) == None
            && forall i :: 0 <= i < |r.hits| ==> r.hits[i].handler == rule.handler
    decreases |buf|
  {
    match Search(rule.pattern, buf)
    case None =>
    case Some(m) =>
      ScanRuleDrains(rule, Splice(buf, m), m.start);
      var rest := ScanRule(rule, Splice(buf, m), m.start);
      var hits := [Hit(rule.handler, m)] + rest.hits;
      assert hits[1..] == rest.hits;
      forall i | 0 <= i < |hits| ensures hits[i].handler == rule.handler {
        if i > 0 {
          assert hits[i] == rest.hits[i - 1];
        }
      }
  }

  /** Hits that drain a pattern cut exactly their spans out of the buffer. */
  lemma {:induction false} DrainsCuts<H>(p: Pattern, buf: seq<Byte>, hits: seq<Hit<H>>, out: seq<Byte>)
    requires Drains(p, buf, hits, out)
    ensures CutAll(buf, hits) == Some(out)
    decreases |hits|
  {
    if hits != [] {
      DrainsCuts(p, Splice(buf, hits[0].found), hits[1..], out);
    }
  }

  lemma {:induction false} CutAllAppend<H>(buf: seq<Byte>, a: seq<Hit<H>>, b: seq<Hit<H>>, mid: seq<Byte>)
    requires CutAll(buf, a) == Some(mid)
    ensures CutAll(buf, a + b) == CutAll(mid, b)
    decreases |a|
  {
    if a == [] {
      assert a + b == b;
    } else {
      assert (a + b)[0] == a[0] && (a + b)[1..] == a[1..] + b;
      CutAllAppend(Splice(buf, a[0].found), a[1..], b, mid);
    }
  }

  /** The whole scan leaves exactly the buffer with every hit's span cut out, in order. */
  lemma {:induction false} ScanAllCuts<H>(rules: seq<Rule<H>>, buf: seq<Byte>, index: nat)
    requires index <= |buf|
    ensures var r := ScanAll(rules, buf, index); CutAll(buf, r.hits) == Some(r.buffer)
    decreases |rules|
  {
    var r := ScanAll(rules, buf, index);
    if rules == [] {
    } else {
      var first := ScanRule(rules[0], buf, index);
      var rest := ScanAll(rules[1..], first.buffer, first.index);
      ScanRuleDrains(rules[0], buf, index);
      DrainsCuts(rules[0].pattern, buf, first.hits, first.buffer);
      ScanAllCuts(rules[1..], first.buffer, first.index);
      CutAllAppend(buf, first.hits, rest.hits, first.buffer);
    }
  }

  /**
   * A chunk that no pattern matches anywhere invokes no callback and leaves
   * only its last 2048 bytes: garbage cannot grow the buffer past the cap.
   */
  lemma {:induction false} NoMatchKeepsTail<H>(rules: seq<Rule<H>>, buf: seq<Byte>)
    requires forall k :: 0 <= k < |rules| ==> Search(rules[k].pattern, buf).None?
    ensures Receive(rules, buf) == Scan([], Tail(buf, MaxBufferSize), 0)
  {
    QuietRules(rules, buf, 0);
  }

  /** Nothing matches in an empty buffer. */
  lemma SearchEmpty(p: Pattern)
    ensures Search(p, []) == None
  {
    assert MatchAt(p, [], 0).None?;
  }

  /** Rules that find nothing in the buffer leave the scan to the rules after them. */
  lemma {:induction false} SkipUnmatched<H>(rules: seq<Rule<H>>, buf: seq<Byte>, index: nat, k: nat)
    requires index <= |buf| && k <= |rules|
    requires forall j :: 0 <= j < k ==> Search(rules[j].pattern, buf).None?
    ensures ScanAll(rules, buf, index) == ScanAll(rules[k..], buf, index)
    decreases k
  {
    if k > 0 {
      assert Search(rules[0].pattern, buf).None?;
      var rest := ScanAll(rules[1..], buf, index);
      assert ScanAll(rules, buf, index) == Scan([] + rest.hits, rest.buffer, rest.index);
      assert [] + rest.hits == rest.hits;
      forall j | 0 <= j < k - 1 ensures Search(rules[1..][j].pattern, buf).None? {
        assert rules[1..][j] == rules[j + 1];
      }
      SkipUnmatched(rules[1..], buf, index, k - 1);
      assert rules[1..][k - 1..] == rules[k..];
    }
  }

  /** Rules that all find nothing leave the buffer and `index` as they were. */
  lemma {:induction false} QuietRules<H>(rules: seq<Rule<H>>, buf: seq<Byte>, index: nat)
    requires index <= |buf|
    requires forall j :: 0 <= j < |rules| ==> Search(rules[j].pattern, buf).None?
    ensures ScanAll(rules, buf, index) == Scan([], buf, index)
  {
    SkipUnmatched(rules, buf, index, |rules|);
    assert rules[|rules|..] == [];
  }

  /**
   * A buffer that only rule k matches, once, at m: one callback, and the scan
   * leaves the buffer with m cut out and `index` at the start of m.
   */
  lemma {:induction false} OneHit<H>(rules: seq<Rule<H>>, buf: seq<Byte>, k: nat, m: Found)
    requires k < |rules| && forall j :: 0 <= j < k ==> Search(rules[j].pattern, buf).None?
    requires Search(rules[k].pattern, buf) == Some(m)
    requires forall j :: k <= j < |rules| ==> Search(rules[j].pattern, Splice(buf, m)).None?
    ensures ScanAll(rules, buf, 0) == Scan([Hit(rules[k].handler, m)], Splice(buf, m), m.start)
  {
    SkipUnmatched(rules, buf, 0, k);
    var tail := rules[k..];
    var left := Splice(buf, m);
    assert Search(tail[0].pattern, left).None?;
    assert ScanRule(tail[0], left, m.start) == Scan([], left, m.start);
    assert ScanRule(tail[0], buf, 0) == Scan([Hit(rules[k].handler, m)], left, m.start);
    forall j | 0 <= j < |tail[1..]| ensures Search(tail[1..][j].pattern, left).None? {
      assert tail[1..][j] == rules[k + 1 + j];
    }
    QuietRules(tail[1..], left, m.start);
  }
}
