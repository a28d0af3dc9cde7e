/**
 * The value codec of the LG xxUR640S9UD display driver: the command names, the
 * per-command tables that turn a human value into a two-character wire token
 * (the `Set<Cmd>` methods) and back (the `__Match<Cmd>` methods), the frame
 * `'<op> <id> <data>\r'`, the device-id rule and the reply error check.
 */
module Codec {
  import opened Wrappers
  import opened Wire

  /** A status value: the Python strings of the tables, or the integer volume. */
  datatype Value = Text(text: string) | Number(number: int)

  /** The keys of `self.Commands` in `DeviceSerialClass`. */
  datatype Command =
    | ConnectionStatus | AspectRatio | AudioMute | Channel | ClosedCaption | ExecutiveMode
    | Input | Keypad | MenuNavigation | OnScreenDisplay | Power | VideoMute | Volume

  function Name(c: Command): string {
    match c
    case ConnectionStatus => "ConnectionStatus"
    case AspectRatio => "AspectRatio"
    case AudioMute => "AudioMute"
    case Channel => "Channel"
    case ClosedCaption => "ClosedCaption"
    case ExecutiveMode => "ExecutiveMode"
    case Input => "Input"
    case Keypad => "Keypad"
    case MenuNavigation => "MenuNavigation"
    case OnScreenDisplay => "OnScreenDisplay"
    case Power => "Power"
    case VideoMute => "VideoMute"
    case Volume => "Volume"
  }

  /** `self.Commands.get(name)`: the command a name stands for, if any. */
  function Lookup(name: string): Option<Command> {
    if name == "ConnectionStatus" then Some(ConnectionStatus)
    else if name == "AspectRatio" then Some(AspectRatio)
    else if name == "AudioMute" then Some(AudioMute)
    else if name == "Channel" then Some(Channel)
    else if name == "ClosedCaption" then Some(ClosedCaption)
    else if name == "ExecutiveMode" then Some(ExecutiveMode)
    else if name == "Input" then Some(Input)
    else if name == "Keypad" then Some(Keypad)
    else if name == "MenuNavigation" then Some(MenuNavigation)
    else if name == "OnScreenDisplay" then Some(OnScreenDisplay)
    else if name == "Power" then Some(Power)
    else if name == "VideoMute" then Some(VideoMute)
    else if name == "Volume" then Some(Volume)
    else None
  }

  /** Every command's name looks up that command. */
  lemma NameLooksUp(c: Command)
    ensures Lookup(Name(c)) == Some(c)
  {
    match c
    case ConnectionStatus =>
    case AspectRatio =>
    case AudioMute =>
    case Channel =>
    case ClosedCaption =>
    case ExecutiveMode =>
    case Input =>
    case Keypad =>
    case MenuNavigation =>
    case OnScreenDisplay =>
    case Power =>
    case VideoMute =>
    case Volume =>
  }

  /** A name that looks up a command is that command's name. */
  lemma LookupGivesName(name: string)
    ensures Lookup(name).Some? ==> Name(Lookup(name).value) == name
  {
  }

  /** A name resolves to a command exactly when it is that command's name. */
  lemma LookupIsNameInverse(name: string, c: Command)
    ensures Lookup(name) == Some(c) <==> name == Name(c)
  {
    NameLooksUp(c);
    LookupGivesName(name);
  }

  /** Commands with a `Set<Cmd>` method (all but ConnectionStatus). */
  predicate Settable(c: Command) {
    c != ConnectionStatus
  }

  /** Commands with an `Update<Cmd>` method and a `__Match<Cmd>` decoder. */
  predicate Updatable(c: Command) {
    c in {AspectRatio, AudioMute, ExecutiveMode, Input, OnScreenDisplay, Power, VideoMute, Volume}
  }

  /** Settable commands whose value goes through a literal table. */
  predicate Tabled(c: Command) {
    Settable(c) && c != ClosedCaption && c != Volume
  }

  /** Commands whose reply token goes back through a literal table. */
  predicate Decodable(c: Command) {
    Updatable(c) && c != Volume
  }

  function Opcode(c: Command): string
    requires Settable(c)
  {
    match c
    case AspectRatio => "kc"
    case AudioMute => "ke"
    case Channel => "mc"
    case ClosedCaption => "mc"
    case ExecutiveMode => "km"
    case Input => "xb"
    case Keypad => "mc"
    case MenuNavigation => "mc"
    case OnScreenDisplay => "kl"
    case Power => "ka"
    case VideoMute => "kd"
    case Volume => "kf"
  }

  /** The `ValueStateValues` table of `Set<Cmd>`: human value to wire token. */
  function SetTable(c: Command): map<string, string>
    requires Tabled(c)
  {
    match c
    case AspectRatio => map["4:3" := "01", "16:9" := "02", "Original" := "06", "Just Scan" := "09"]
    case AudioMute => map["On" := "00", "Off" := "01"]
    case Channel => map["Up" := "00", "Down" := "01"]
    case ExecutiveMode => map["On" := "01", "Off" := "00"]
    case Input => map["HDMI 1" := "90", "HDMI 2" := "91", "HDMI 3" := "92", "DTV" := "00",
                      "ATV" := "10", "CADTV" := "01", "CATV" := "11"]
    case Keypad => map["1" := "11", "2" := "12", "3" := "13", "4" := "14", "5" := "15", "6" := "16",
                       "7" := "17", "8" := "18", "9" := "19", "0" := "10", "-" := "4C"]
    case MenuNavigation => map["Up" := "40", "Down" := "41", "Left" := "07", "Right" := "06",
                               "Menu" := "43", "OK" := "44", "Exit" := "5B", "Back" := "28"]
    case OnScreenDisplay => map["On" := "01", "Off" := "00"]
    case Power => map["On" := "01", "Off" := "00"]
    case VideoMute => map["On" := "01", "Off" := "00", "On (With OSD)" := "10"]
  }

  /** The `ValueStateValues` table of `__Match<Cmd>`: reply token to human value. */
  function MatchTable(c: Command): map<string, string>
    requires Decodable(c)
  {
    match c
    case AspectRatio => map["01" := "4:3", "02" := "16:9", "06" := "Original", "09" := "Just Scan"]
    case AudioMute => map["00" := "On", "01" := "Off"]
    case ExecutiveMode => map["01" := "On", "00" := "Off"]
    case Input => map["90" := "HDMI 1", "91" := "HDMI 2", "92" := "HDMI 3", "00" := "DTV",
                      "10" := "ATV", "01" := "CADTV", "11" := "CATV"]
    case OnScreenDisplay => map["01" := "On", "00" := "Off"]
    case Power => map["01" := "On", "00" := "Off"]
    case VideoMute => map["01" := "On", "00" := "Off", "10" := "On (With OSD)"]
  }

  /** The command string `'<op> {id} {data}\r'`. */
  function FrameOf(op: string, id: string, data: string): string {
    op + " " + id + " " + data + "\r"
  }

  /** What a `Set<Cmd>` method does with its value before any transport call. */
  datatype Encoded =
    | Frame(frame: string)      // handed to `__SetHelper`
    | Discard(message: string)  // `self.Discard(...)`, nothing sent
    | Fault(message: string)    // a Python exception escapes the call

  const VolumeTypeError := "'<=' not supported between instances of 'int' and 'str'"

  /** `Set<Cmd>(value, None)` up to the call of `__SetHelper`. */
  function EncodeSet(c: Command, v: Value, id: string): Encoded
    requires Settable(c)
  {
    if c == ClosedCaption then Frame(FrameOf(Opcode(c), id, "39"))
    else if c == Volume then
      match v
      case Number(n) =>
        if 0 <= n <= 100 then Frame(FrameOf(Opcode(c), id, Hex2(n)))
        else Discard("Invalid Command for SetVolume")
      case Text(_) => Fault(VolumeTypeError)
    else if v.Text? && v.text in SetTable(c) then Frame(FrameOf(Opcode(c), id, SetTable(c)[v.text]))
    else Discard("Invalid Command for Set" + Name(c))
  }

  /** `Update<Cmd>`: the query frame `'<op> {id} FF\r'`. */
  function QueryFrame(c: Command, id: string): string
    requires Updatable(c)
  {
    FrameOf(Opcode(c), id, "FF")
  }

  /**
   * The value `__Match<Cmd>` writes for a reply token, if any: a table lookup
   * (AspectRatio upper-cases the token first), or for Volume `int(token, 16)`
   * kept only in 0..100.
   */
  function DecodeToken(c: Command, token: string): Option<Value>
    requires Updatable(c)
  {
    if c == Volume then
      if IsHex2(token) && ParseHex2(token) <= 100 then Some(Number(ParseHex2(token))) else None
    else
      var key := if c == AspectRatio then UpperString(token) else token;
      if key in MatchTable(c) then Some(Text(MatchTable(c)[key])) else None
  }

  /** Every token a table sends is two upper-case hex digits. */
  lemma SetTokensAreHex(c: Command, v: string)
    requires Tabled(c) && v in SetTable(c)
    ensures IsHex2(SetTable(c)[v]) && UpperString(SetTable(c)[v]) == SetTable(c)[v]
  {
  }

  /**
   * The decode table is exactly the inverse of the encode table: every value's
   * token decodes to that value, and every decodable token is the token of the
   * value it decodes to.
   */
  lemma TablesAreInverse(c: Command)
    requires Decodable(c)
    ensures forall v :: v in SetTable(c) ==>
              SetTable(c)[v] in MatchTable(c) && MatchTable(c)[SetTable(c)[v]] == v
    ensures forall t :: t in MatchTable(c) ==>
              MatchTable(c)[t] in SetTable(c) && SetTable(c)[MatchTable(c)[t]] == t
  {
    if c == AspectRatio {
    } else if c == AudioMute {
    } else if c == ExecutiveMode {
    } else if c == Input {
    } else if c == OnScreenDisplay {
    } else if c == Power {
    } else {
      assert c == VideoMute;
    }
  }

  /** A tabled `Set<Cmd>` sends exactly when the value is a key of its table. */
  lemma EncodeTabled(c: Command, v: Value, id: string)
    requires Tabled(c)
    ensures EncodeSet(c, v, id).Frame? <==> v.Text? && v.text in SetTable(c)
    ensures EncodeSet(c, v, id).Frame? ==>
              EncodeSet(c, v, id).frame == FrameOf(Opcode(c), id, SetTable(c)[v.text])
    ensures !EncodeSet(c, v, id).Frame? ==> EncodeSet(c, v, id) == Discard("Invalid Command for Set" + Name(c))
  {
  }

  /** `SetVolume` sends exactly for 0..100, with the value as two hex digits. */
  lemma EncodeVolume(n: int, id: string)
    ensures EncodeSet(Volume, Number(n), id).Frame? <==> 0 <= n <= 100
    ensures 0 <= n <= 100 ==>
              EncodeSet(Volume, Number(n), id) == Frame(FrameOf("kf", id, Hex2(n)))
              && IsHex2(Hex2(n)) && ParseHex2(Hex2(n)) == n
    ensures !(0 <= n <= 100) ==> EncodeSet(Volume, Number(n), id) == Discard("Invalid Command for SetVolume")
  {
    if 0 <= n <= 100 {
      ParseHex2OfHex2(n);
    }
  }

  /** The frame a valid `Set<Cmd>` sends carries a token that decodes back to the value. */
  lemma {:induction false} SetDecodeRoundTrip(c: Command, v: string, id: string)
    requires Decodable(c) && v in SetTable(c)
    ensures EncodeSet(c, Text(v), id) == Frame(FrameOf(Opcode(c), id, SetTable(c)[v]))
    ensures DecodeToken(c, SetTable(c)[v]) == Some(Text(v))
  {
    TablesAreInverse(c);
    SetTokensAreHex(c, v);
  }

  /** `__MatchVolume` keeps exactly the tokens that denote 0..100, and reads `SetVolume`'s token back. */
  lemma VolumeDecode(token: string, n: int)
    ensures 0 <= n <= 100 ==> DecodeToken(Volume, Hex2(n)) == Some(Number(n))
    ensures DecodeToken(Volume, token) == Some(Number(n)) ==>
              0 <= n <= 100 && Hex2(n) == UpperString(token)
    ensures IsHex2(token) ==> (DecodeToken(Volume, token).Some? <==> ParseHex2(token) <= 100)
  {
    if 0 <= n <= 100 {
      ParseHex2OfHex2(n);
    }
    if DecodeToken(Volume, token) == Some(Number(n)) {
      Hex2OfParseHex2(token);
    }
  }

  /** The argument given to the `DeviceID` setter, as the setter sees it. */
  datatype IdArgument =
    | BroadcastWord   // the string 'Broadcast'
    | Integer(n: int) // any other value, and `int(value)` reads it as n
    | NotInteger      // any other value that `int(value)` refuses (ValueError)

  datatype IdChange =
    | Assign(id: string)     // `self._DeviceID` is replaced
    | Reject                 // `self.Error(['Invalid Device ID Parameter.'])`, id kept
    | Raise(message: string) // the ValueError of `int(value)` escapes, id kept

  /** The `DeviceID` setter. */
  function DeviceIdChange(arg: IdArgument): IdChange {
    match arg
    case BroadcastWord => Assign("00")
    case Integer(n) => if 1 <= n <= 99 then Assign(Hex2(n)) else Reject
    case NotInteger => Raise("invalid literal for int()")
  }

  /**
   * The id rule: 'Broadcast' and 1..99 are accepted and nothing else; the
   * broadcast id '00' comes from 'Broadcast' only; a numeric id is its value
   * as two upper-case hex digits.
   */
  lemma {:induction false} DeviceIdRule(arg: IdArgument)
    ensures DeviceIdChange(arg).Assign? <==> arg.BroadcastWord? || (arg.Integer? && 1 <= arg.n <= 99)
    ensures DeviceIdChange(arg) == Assign("00") <==> arg.BroadcastWord?
    ensures arg.Integer? && 1 <= arg.n <= 99 ==>
              exists id :: DeviceIdChange(arg) == Assign(id) && IsHex2(id) && ParseHex2(id) == arg.n
                           && UpperString(id) == id
  {
    if arg.Integer? && 1 <= arg.n <= 99 {
      var id := Hex2(arg.n);
      ParseHex2OfHex2(arg.n);
      assert ParseHex2("00") == 0;
      assert id != "00";
      assert UpperString(id) == id;
    }
  }

  /** `'NG' in response`, searched from position `from`. */
  function FindNG(response: string, from: nat): (found: bool)
    requires from <= |response|
    ensures found <==> exists i :: from <= i < |response| - 1 && response[i] == 'N' && response[i + 1] == 'G'
    decreases |response| - from
  {
    if from + 1 >= |response| then false
    else if response[from] == 'N' && response[from + 1] == 'G' then true
    else FindNG(response, from + 1)
  }

  /** What `__CheckResponseForErrors` returns, and the error it reports. */
  datatype Checked = Checked(response: string, error: Option<string>)

  function CheckResponse(command: string, response: string): (r: Checked)
    ensures r.error.Some? <==> exists i :: 0 <= i < |response| - 1 && response[i] == 'N' && response[i + 1] == 'G'
    ensures r.error.Some? ==> r.response == "" && r.error.value == "An error occurred: " + command + "."
    ensures r.error.None? ==> r.response == response
  {
    if FindNG(response, 0) then Checked("", Some("An error occurred: " + command + "."))
    else Checked(response, None)
  }
}
