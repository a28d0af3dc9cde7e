# LG xxUR640S9UD display driver, in Dafny

This project models the Extron control driver for LG xxUR640S9UD displays
(`Digtial_Forensic_Room/src/modules/device/lg_display_xxUR640S9UD_Series_v1_0_0_0.py`) and proves what it promises.
`DeviceSerialClass` speaks the LG RS-232 protocol. A `Set<Cmd>` call turns a
human value into a two-character token through a literal table and sends the
frame `'<op> <id> <token>\r'`. An `Update<Cmd>` call sends the query
`'<op> <id> FF\r'`. The display answers `'<letter> <id> OK<token>x'` or
`'<letter> <id> NG<code>x'`. These replies gather in a receive buffer, where
registered patterns find them and hand them to `__Match<Cmd>` callbacks. The
callbacks write a status cache that notifies subscribers when a value changes.
The fields `counter`, `connectionFlag` and `initializationChk` track whether
the display still answers. `DeviceEthernetClass` is a write-only twin with the
same encoders.

Modules:

- `Wrappers`: Option, Result and Outcome (pass, or the Python exception).
- `Wire`: bytes as characters below 256, ASCII case folding (`re.I`),
  `'{:02X}'` and `int(s, 16)`.
- `Codec`: command names, the `Set<Cmd>` and `__Match<Cmd>` tables, frames,
  the `DeviceID` rule and `__CheckResponseForErrors`.
- `Matcher`: the nine reply patterns as hand-written recognisers, the rule
  registry of `AddMatchString`, and the search-splice-trim scan of
  `__ReceiveData` as functions.
- `Machine`: the object's state as a value, and every state-changing
  operation as a function on it. These are the specification of the class.
- `Driver`: the class `DeviceSerial`, with the driver's fields. Its methods
  update them step by step and are proved to have the effect of `Machine`'s
  functions. `ReceiveData` keeps the driver's `for` and `while True` loops
  and is proved to perform `Matcher.Receive`.
- `StatusCache`, `Liveness`, `Dispatch`, `Replies`, `Scenarios`: lemmas
  about the cache, the liveness fields, `Set`/`Update`, the reply path, and
  whole conversations.
- `Ethernet`: `DeviceEthernetClass` and how it agrees with the serial class.

Some source methods are split into several Dafny methods, so that each proof
stays small:

- `__SetHelper` becomes `SetHelper` and `AwaitReply`.
- `__UpdateHelper` becomes `UpdateHelper`, `Poll`, `FirstPoll` and `CountPoll`.
- `WriteStatus` becomes `WriteStatus` and `Store`.
- The inner loop of `__ReceiveData` becomes `DrainRule`.
- The registrations of `__init__` become `RegisterReplyPatterns`.

The scan follows the code as written, which does less than its comments say
in two ways:

- `index` holds the start of the LAST match handled, so the front is cut
  there, not before the earliest match.
- The 2048-byte cap applies only when `index` ends at 0. After a match past
  offset 0 the buffer is not capped at all (`Replies.CapSkippedAfterMatch`).

## Model

| member | source | states |
|---|---|---|
| Wire.Hex2 | Digtial_Forensic_Room/src/modules/device/lg_display_xxUR640S9UD_Series_v1_0_0_0.py:62 | `'{:02X}'` of a value below 256 is exactly two upper-case hex digits |
| Wire.ParseHex2OfHex2 | Digtial_Forensic_Room/src/modules/device/lg_display_xxUR640S9UD_Series_v1_0_0_0.py:62 | reading back a formatted value with `int(s, 16)` gives the value |
| Wire.Hex2OfParseHex2 | Digtial_Forensic_Room/src/modules/device/lg_display_xxUR640S9UD_Series_v1_0_0_0.py:352 | formatting a parsed two-digit token gives the token back in upper case |
| Wire.Hex2Injective | Digtial_Forensic_Room/src/modules/device/lg_display_xxUR640S9UD_Series_v1_0_0_0.py:62 | two values below 256 format to the same digits only if they are equal |
| Codec.NameLooksUp | Digtial_Forensic_Room/src/modules/device/lg_display_xxUR640S9UD_Series_v1_0_0_0.py:24-38 | every command's name is a key of `Commands` that looks up that command |
| Codec.LookupGivesName | Digtial_Forensic_Room/src/modules/device/lg_display_xxUR640S9UD_Series_v1_0_0_0.py:24-38 | a name that looks up a command is that command's name |
| Codec.LookupIsNameInverse | Digtial_Forensic_Room/src/modules/device/lg_display_xxUR640S9UD_Series_v1_0_0_0.py:24-38 | a name resolves to command c if and only if it is c's name |
| Codec.SetTokensAreHex | Digtial_Forensic_Room/src/modules/device/lg_display_xxUR640S9UD_Series_v1_0_0_0.py:66-319 | every wire token of a `Set<Cmd>` table is two upper-case hex digits |
| Codec.TablesAreInverse | Digtial_Forensic_Room/src/modules/device/lg_display_xxUR640S9UD_Series_v1_0_0_0.py:66-335 | for each of the seven decodable commands the `__Match<Cmd>` table is exactly the inverse of the `Set<Cmd>` table, in both directions |
| Codec.EncodeTabled | Digtial_Forensic_Room/src/modules/device/lg_display_xxUR640S9UD_Series_v1_0_0_0.py:66-319 | a tabled `Set<Cmd>` produces a frame if and only if the value is a key of its table; the frame is `'<op> <id> <token>\r'`; otherwise it is the command's `Discard` message |
| Codec.EncodeVolume | Digtial_Forensic_Room/src/modules/device/lg_display_xxUR640S9UD_Series_v1_0_0_0.py:337-343 | `SetVolume` produces a frame if and only if 0 <= v <= 100; the frame is `'kf <id> HH\r'` with HH = `'{:02X}'` of v, which parses back to v; otherwise the `Discard` message |
| Codec.EncodeSet | Digtial_Forensic_Room/src/modules/device/lg_display_xxUR640S9UD_Series_v1_0_0_0.py:66-344 | the `Set<Cmd>(value, None)` encoders up to `__SetHelper`: a frame, a `Discard` or a fault; its meaning is stated by `Codec.EncodeTabled`, `Codec.EncodeVolume`, `Dispatch.SetClosedCaptionToggles` and `Dispatch.SetVolumeText` |
| Codec.SetDecodeRoundTrip | Digtial_Forensic_Room/src/modules/device/lg_display_xxUR640S9UD_Series_v1_0_0_0.py:66-335 | the token a valid `Set<Cmd>` sends decodes through `__Match<Cmd>` to the value that was set |
| Codec.VolumeDecode | Digtial_Forensic_Room/src/modules/device/lg_display_xxUR640S9UD_Series_v1_0_0_0.py:350-354 | `__MatchVolume` keeps a token if and only if it parses to 0..100, reads `SetVolume`'s token back as the number, and anything it keeps is the upper-case form of that number's token |
| Codec.DecodeToken | Digtial_Forensic_Room/src/modules/device/lg_display_xxUR640S9UD_Series_v1_0_0_0.py:86-354 | the value a `__Match<Cmd>` callback writes for a token; its meaning is stated by `Codec.SetDecodeRoundTrip`, `Codec.VolumeDecode` and `Replies.HitsDecode` |
| Codec.DeviceIdRule | Digtial_Forensic_Room/src/modules/device/lg_display_xxUR640S9UD_Series_v1_0_0_0.py:57-64 | the id setter accepts exactly 'Broadcast' and 1..99; '00' comes from 'Broadcast' alone; a numeric id is its value as two upper-case hex digits |
| Codec.DeviceIdChange | Digtial_Forensic_Room/src/modules/device/lg_display_xxUR640S9UD_Series_v1_0_0_0.py:57-64 | the `DeviceID` setter rule: assign, reject or raise; its meaning is stated by `Codec.DeviceIdRule` |
| Codec.FindNG | Digtial_Forensic_Room/src/modules/device/lg_display_xxUR640S9UD_Series_v1_0_0_0.py:360 | the search returns true if and only if 'N' followed by 'G' occurs at or after the start position |
| Codec.CheckResponse | Digtial_Forensic_Room/src/modules/device/lg_display_xxUR640S9UD_Series_v1_0_0_0.py:356-364 | an error is reported if and only if the reply contains `NG`; then the result is empty and the message names the command; otherwise the reply is returned unchanged |
| Machine.SetterNamed | Digtial_Forensic_Room/src/modules/device/lg_display_xxUR640S9UD_Series_v1_0_0_0.py:424-429 | only a command that has a `Set<Cmd>` method is found |
| Machine.UpdaterNamed | Digtial_Forensic_Room/src/modules/device/lg_display_xxUR640S9UD_Series_v1_0_0_0.py:433-438 | only a command that has an `Update<Cmd>` method is found |
| Machine.Decodes | Digtial_Forensic_Room/src/modules/device/lg_display_xxUR640S9UD_Series_v1_0_0_0.py:41-48 | each decoding callback writes a command that has an `Update<Cmd>` method |
| Machine.HandleMatch | Digtial_Forensic_Room/src/modules/device/lg_display_xxUR640S9UD_Series_v1_0_0_0.py:86-354 | one `__Match<Cmd>` or `__MatchError` callback on its group; its meaning is stated by `Liveness.MatchErrorKeepsFlag`, `Liveness.DecodedReplyReconnects` and `Replies.DecodedHit` |
| Machine.ApplyHits | Digtial_Forensic_Room/src/modules/device/lg_display_xxUR640S9UD_Series_v1_0_0_0.py:538 | the callbacks of a scan in order; `Driver.ApplyHitsAppend` states that two scans compose, and `Driver.DeviceSerial.ReceiveData` ties it to the loop |
| Machine.NewStatus | Digtial_Forensic_Room/src/modules/device/lg_display_xxUR640S9UD_Series_v1_0_0_0.py:470-482 | calling the bound callback; `StatusCache.StoreFrame` and `StatusCache.SubscribedWriteNotifies` state when a notification is appended |
| Machine.Store | Digtial_Forensic_Room/src/modules/device/lg_display_xxUR640S9UD_Series_v1_0_0_0.py:501-507 | the write-if-changed tail of `WriteStatus`; its meaning is stated by `StatusCache.StoreFrame` |
| Machine.WriteStatus | Digtial_Forensic_Room/src/modules/device/lg_display_xxUR640S9UD_Series_v1_0_0_0.py:485-507 | `WriteStatus`; its meaning is stated by `StatusCache.WriteUnfold`, `StatusCache.WriteConnected`, `StatusCache.WriteReconnects`, `StatusCache.WriteLeavesOthers` and `StatusCache.WriteIdempotent` |
| Machine.OnConnected | Digtial_Forensic_Room/src/modules/device/lg_display_xxUR640S9UD_Series_v1_0_0_0.py:409-412 | `OnConnected`; its meaning is stated by `Liveness.OnConnectedUnfold` |
| Machine.OnDisconnected | Digtial_Forensic_Room/src/modules/device/lg_display_xxUR640S9UD_Series_v1_0_0_0.py:415-417 | `OnDisconnected`; its meaning is stated by `Liveness.OnDisconnectedUnfold` |
| Machine.ReadStatus | Digtial_Forensic_Room/src/modules/device/lg_display_xxUR640S9UD_Series_v1_0_0_0.py:510-525 | `ReadStatus`; its meaning is stated by `StatusCache.ReadByName`, `StatusCache.ReadUnknownRaises`, `StatusCache.InitialReadsNone` and `StatusCache.ReadAfterWrite` |
| Machine.SubscribeStatus | Digtial_Forensic_Room/src/modules/device/lg_display_xxUR640S9UD_Series_v1_0_0_0.py:444-467 | `SubscribeStatus` with no qualifier; its meaning is stated by `StatusCache.SubscribeBinds` |
| Machine.SetHelper | Digtial_Forensic_Room/src/modules/device/lg_display_xxUR640S9UD_Series_v1_0_0_0.py:366-376 | `__SetHelper`; its meaning is stated by `Dispatch.SetHelperPolicy` |
| Machine.AwaitReply | Digtial_Forensic_Room/src/modules/device/lg_display_xxUR640S9UD_Series_v1_0_0_0.py:372-376 | the reply check of `__SetHelper`; its meaning is stated by `Dispatch.AwaitReplyLogs` |
| Machine.UpdateHelper | Digtial_Forensic_Room/src/modules/device/lg_display_xxUR640S9UD_Series_v1_0_0_0.py:378-391 | `__UpdateHelper`; its meaning is stated by `Liveness.UpdateWriteOnly`, `Liveness.UpdateFirstCall`, `Liveness.UpdateCounts` and `Liveness.SixteenthUpdateDisconnects` |
| Machine.Set | Digtial_Forensic_Room/src/modules/device/lg_display_xxUR640S9UD_Series_v1_0_0_0.py:424-429 | `Set(command, value)`; its meaning is stated by `Dispatch.SetUnknownRaises`, `Dispatch.SetInvalidDiscards`, `Dispatch.SetValidSendsOne`, `Dispatch.SetClosedCaptionToggles`, `Dispatch.SetVolumeRange` and `Dispatch.SetVolumeText` |
| Machine.Update | Digtial_Forensic_Room/src/modules/device/lg_display_xxUR640S9UD_Series_v1_0_0_0.py:433-438 | `Update(command)`; its meaning is stated by `Dispatch.UpdateUnknownRaises` and `Dispatch.UpdateSendsQuery` |
| Machine.SetDeviceId | Digtial_Forensic_Room/src/modules/device/lg_display_xxUR640S9UD_Series_v1_0_0_0.py:57-64 | the `DeviceID` setter on the driver state; its meaning is stated by `Dispatch.SetDeviceIdOutcome` and `Dispatch.BroadcastIsWriteOnly` |
| Matcher.LazyToX | Digtial_Forensic_Room/src/modules/device/lg_display_xxUR640S9UD_Series_v1_0_0_0.py:49 | the lazy `.*?x` ends just after the first x, with no newline before it; it finds nothing only when every later x is preceded by a newline |
| Matcher.MatchAt | Digtial_Forensic_Room/src/modules/device/lg_display_xxUR640S9UD_Series_v1_0_0_0.py:41-49 | a match at i starts at i, spans at least 8 bytes and lies inside the buffer |
| Matcher.FirstMatch | Digtial_Forensic_Room/src/modules/device/lg_display_xxUR640S9UD_Series_v1_0_0_0.py:535 | `re.search` finds the leftmost start: the match found is the match at its start and nothing matches before it; if there is none, nothing matches anywhere |
| Matcher.Search | Digtial_Forensic_Room/src/modules/device/lg_display_xxUR640S9UD_Series_v1_0_0_0.py:535 | a match found lies inside the buffer and spans at least 8 bytes |
| Matcher.Tail | Digtial_Forensic_Room/src/modules/device/lg_display_xxUR640S9UD_Series_v1_0_0_0.py:549 | `buf[-n:]` is a suffix of exactly min(|buf|, n) bytes: the whole buffer when it is short enough, otherwise its last n bytes |
| Matcher.AddRuleProperties | Digtial_Forensic_Room/src/modules/device/lg_display_xxUR640S9UD_Series_v1_0_0_0.py:552-554 | registration keeps the patterns distinct, always leaves the pattern registered, changes nothing if it already was, and otherwise appends it with its callback |
| Matcher.AddRuleIdempotent | Digtial_Forensic_Room/src/modules/device/lg_display_xxUR640S9UD_Series_v1_0_0_0.py:552-554 | registering a pattern again, with any callback, keeps the first registration |
| Matcher.AddRule | Digtial_Forensic_Room/src/modules/device/lg_display_xxUR640S9UD_Series_v1_0_0_0.py:552-554 | `AddMatchString` on the dict of patterns; its meaning is stated by `Matcher.AddRuleProperties` and `Matcher.AddRuleIdempotent` |
| Matcher.ScanRule | Digtial_Forensic_Room/src/modules/device/lg_display_xxUR640S9UD_Series_v1_0_0_0.py:534-541 | the scan of one pattern leaves `index` within the buffer and never grows the buffer |
| Matcher.ScanAll | Digtial_Forensic_Room/src/modules/device/lg_display_xxUR640S9UD_Series_v1_0_0_0.py:533-541 | the scan over all patterns leaves `index` within the buffer and never grows the buffer |
| Matcher.Trim | Digtial_Forensic_Room/src/modules/device/lg_display_xxUR640S9UD_Series_v1_0_0_0.py:543-549 | the trim at the end of `__ReceiveData`; its meaning is stated by `Matcher.ReceiveRetains` |
| Matcher.Receive | Digtial_Forensic_Room/src/modules/device/lg_display_xxUR640S9UD_Series_v1_0_0_0.py:527-549 | `__ReceiveData` on the appended buffer; its meaning is stated by `Matcher.ReceiveRetains`, `Matcher.ScanAllCuts` and `Matcher.NoMatchKeepsTail` |
| Matcher.ReceiveRetains | Digtial_Forensic_Room/src/modules/device/lg_display_xxUR640S9UD_Series_v1_0_0_0.py:543-549 | when `index` ends at 0 the retained buffer is `Tail` of what the scan left, exactly its last min(length, 2048) bytes; otherwise it is that buffer from `index` on; it is never longer than the input |
| Matcher.ScanRuleConsumes | Digtial_Forensic_Room/src/modules/device/lg_display_xxUR640S9UD_Series_v1_0_0_0.py:534-541 | the bytes removed by the scan of one pattern total the lengths of its matches |
| Matcher.ScanAllConsumes | Digtial_Forensic_Room/src/modules/device/lg_display_xxUR640S9UD_Series_v1_0_0_0.py:533-541 | the bytes removed by the whole scan total the lengths of all matches |
| Matcher.ScanRuleDrains | Digtial_Forensic_Room/src/modules/device/lg_display_xxUR640S9UD_Series_v1_0_0_0.py:534-541 | every hit of one pattern's scan is the leftmost match (`re.search`) of what the hits before it left, handed to that pattern's callback, and cut out before the next search; the scan stops only when the pattern is no longer found |
| Matcher.DrainsCuts | Digtial_Forensic_Room/src/modules/device/lg_display_xxUR640S9UD_Series_v1_0_0_0.py:539 | hits that drain a pattern leave exactly the buffer with their spans cut out in turn (`buf[:start] + buf[end:]`) |
| Matcher.ScanAllCuts | Digtial_Forensic_Room/src/modules/device/lg_display_xxUR640S9UD_Series_v1_0_0_0.py:533-541 | the whole scan over all patterns leaves exactly the buffer with every hit's span cut out, in the order of the callbacks |
| Matcher.NoMatchKeepsTail | Digtial_Forensic_Room/src/modules/device/lg_display_xxUR640S9UD_Series_v1_0_0_0.py:543-549 | a buffer that no pattern matches fires no callback and keeps only its last 2048 bytes |
| Matcher.SearchEmpty | Digtial_Forensic_Room/src/modules/device/lg_display_xxUR640S9UD_Series_v1_0_0_0.py:535 | nothing matches in an empty buffer |
| Matcher.SkipUnmatched | Digtial_Forensic_Room/src/modules/device/lg_display_xxUR640S9UD_Series_v1_0_0_0.py:533-541 | patterns that find nothing leave the scan to the patterns after them |
| Matcher.QuietRules | Digtial_Forensic_Room/src/modules/device/lg_display_xxUR640S9UD_Series_v1_0_0_0.py:533-541 | patterns that all find nothing leave the buffer and `index` unchanged and fire nothing |
| Matcher.OneHit | Digtial_Forensic_Room/src/modules/device/lg_display_xxUR640S9UD_Series_v1_0_0_0.py:533-541 | a buffer that only pattern k matches, once, fires k's callback once, cuts the match out and sets `index` to its start |
| StatusCache.StoreFrame | Digtial_Forensic_Room/src/modules/device/lg_display_xxUR640S9UD_Series_v1_0_0_0.py:501-507 | storing touches only c's Live slot and the notification log, and notifies the subscriber exactly when the slot was empty or held another value |
| StatusCache.WriteUnfold | Digtial_Forensic_Room/src/modules/device/lg_display_xxUR640S9UD_Series_v1_0_0_0.py:485-488 | `WriteStatus` on a disconnected driver runs `OnConnected` and its inner `WriteStatus` exactly one level deep |
| StatusCache.InitialReadsNone | Digtial_Forensic_Room/src/modules/device/lg_display_xxUR640S9UD_Series_v1_0_0_0.py:510-525 | before any write every known command reads as None, and an unknown name raises |
| StatusCache.ReadUnknownRaises | Digtial_Forensic_Room/src/modules/device/lg_display_xxUR640S9UD_Series_v1_0_0_0.py:510-525 | in every state `ReadStatus` raises exactly for a name that is not a `Commands` key, with the message 'Invalid command for ReadStatus: <name>' |
| StatusCache.ReadByName | Digtial_Forensic_Room/src/modules/device/lg_display_xxUR640S9UD_Series_v1_0_0_0.py:510-523 | a command's name reads its Live value, or None before the first write |
| StatusCache.ReadAfterWrite | Digtial_Forensic_Room/src/modules/device/lg_display_xxUR640S9UD_Series_v1_0_0_0.py:485-523 | after `WriteStatus(c, v)`, `ReadStatus(c)` returns v |
| StatusCache.WriteConnected | Digtial_Forensic_Room/src/modules/device/lg_display_xxUR640S9UD_Series_v1_0_0_0.py:485-507 | on a connected driver a write zeroes the counter, stores v in c's slot only, and calls c's callback with (c, v) exactly when the slot was empty or held another value |
| StatusCache.WriteReconnects | Digtial_Forensic_Room/src/modules/device/lg_display_xxUR640S9UD_Series_v1_0_0_0.py:486-488 | on a disconnected driver a write first reconnects, storing 'Connected', then stores v; at most two notifications |
| StatusCache.WriteLeavesOthers | Digtial_Forensic_Room/src/modules/device/lg_display_xxUR640S9UD_Series_v1_0_0_0.py:485-507 | a write leaves the slot of every other command as it was, with one exception: on a disconnected driver the reconnection also writes ConnectionStatus ('Connected', stated by `StatusCache.WriteReconnects`) |
| StatusCache.WriteIdempotent | Digtial_Forensic_Room/src/modules/device/lg_display_xxUR640S9UD_Series_v1_0_0_0.py:501-507 | writing the same value twice is the same as writing it once |
| StatusCache.WriteTwiceNotifiesOnce | Digtial_Forensic_Room/src/modules/device/lg_display_xxUR640S9UD_Series_v1_0_0_0.py:501-507 | the second of two writes of one value notifies nobody; on a connected driver the pair gives at most one notification, on a disconnected one at most two (the reconnection's and c's) |
| StatusCache.SubscribeBinds | Digtial_Forensic_Room/src/modules/device/lg_display_xxUR640S9UD_Series_v1_0_0_0.py:444-467 | `SubscribeStatus` binds the callback to a known command and raises, with no change, for an unknown name |
| StatusCache.SubscribedWriteNotifies | Digtial_Forensic_Room/src/modules/device/lg_display_xxUR640S9UD_Series_v1_0_0_0.py:470-482 | after subscribing cb to c, a write that changes c's value calls cb with (c, v) |
| Liveness.OnConnectedUnfold | Digtial_Forensic_Room/src/modules/device/lg_display_xxUR640S9UD_Series_v1_0_0_0.py:409-412 | `OnConnected` sets the flag, zeroes the counter and stores 'Connected' through one level of `WriteStatus` |
| Liveness.OnDisconnectedUnfold | Digtial_Forensic_Room/src/modules/device/lg_display_xxUR640S9UD_Series_v1_0_0_0.py:415-417 | `OnDisconnected` on a connected driver stores 'Disconnected', zeroes the counter and clears the flag |
| Liveness.UpdateWriteOnly | Digtial_Forensic_Room/src/modules/device/lg_display_xxUR640S9UD_Series_v1_0_0_0.py:380-381 | with id '00' or in unidirectional mode an update is only discarded: nothing sent, counted or stored |
| Liveness.UpdateFirstCall | Digtial_Forensic_Room/src/modules/device/lg_display_xxUR640S9UD_Series_v1_0_0_0.py:383-391 | the first update runs `OnConnected` once and clears `initializationChk`, leaves the counter at 1 and sends the query; subscriptions, id, log and mode are unchanged |
| Liveness.UpdateCounts | Digtial_Forensic_Room/src/modules/device/lg_display_xxUR640S9UD_Series_v1_0_0_0.py:387-391 | a later update counts one more query; past 15 while connected it stores 'Disconnected', zeroes the counter and clears the flag; the query is always sent |
| Liveness.QuietUpdates | Digtial_Forensic_Room/src/modules/device/lg_display_xxUR640S9UD_Series_v1_0_0_0.py:378-391 | n updates below the threshold, or while disconnected, only count and send n queries: no status change and no notification |
| Liveness.QuietStep | Digtial_Forensic_Room/src/modules/device/lg_display_xxUR640S9UD_Series_v1_0_0_0.py:387-391 | an update that does not cross the threshold only adds one to the counter and sends its query; nothing else changes |
| Liveness.SixteenthUpdateDisconnects | Digtial_Forensic_Room/src/modules/device/lg_display_xxUR640S9UD_Series_v1_0_0_0.py:387-389 | from a fresh count, 15 updates stay connected and the 16th disconnects, storing 'Disconnected' once |
| Liveness.MatchErrorKeepsFlag | Digtial_Forensic_Room/src/modules/device/lg_display_xxUR640S9UD_Series_v1_0_0_0.py:393-407 | an NG reply zeroes the counter, logs the error that names the command, and leaves the flag and the status alone |
| Liveness.DecodedReplyReconnects | Digtial_Forensic_Room/src/modules/device/lg_display_xxUR640S9UD_Series_v1_0_0_0.py:485-488 | a decoded reply zeroes the counter, leaves the driver connected, and its value reads back |
| Dispatch.SetUnknownRaises | Digtial_Forensic_Room/src/modules/device/lg_display_xxUR640S9UD_Series_v1_0_0_0.py:424-429 | `Set` finds a method if and only if the name is a settable command's name; otherwise it raises and changes nothing |
| Dispatch.UpdateUnknownRaises | Digtial_Forensic_Room/src/modules/device/lg_display_xxUR640S9UD_Series_v1_0_0_0.py:433-438 | `Update` finds a method if and only if the name is an updatable command's name; otherwise it raises and changes nothing |
| Dispatch.SetHelperPolicy | Digtial_Forensic_Room/src/modules/device/lg_display_xxUR640S9UD_Series_v1_0_0_0.py:366-376 | write-only drivers use plain `Send`; otherwise `SendAndWait`, logging an error exactly when the reply is missing or empty or contains `NG`; status is never touched |
| Dispatch.AwaitReplyLogs | Digtial_Forensic_Room/src/modules/device/lg_display_xxUR640S9UD_Series_v1_0_0_0.py:373-376 | the reply check changes only the log, and only by the one error it reports |
| Dispatch.SetInvalidDiscards | Digtial_Forensic_Room/src/modules/device/lg_display_xxUR640S9UD_Series_v1_0_0_0.py:279-290 | a value that is not a key of the table is discarded and nothing is sent |
| Dispatch.SetValidSendsOne | Digtial_Forensic_Room/src/modules/device/lg_display_xxUR640S9UD_Series_v1_0_0_0.py:279-290 | a table value sends exactly one frame `'<op> <id> <token>\r'`, plain `Send` exactly on a write-only driver, and changes no status |
| Dispatch.SetClosedCaptionToggles | Digtial_Forensic_Room/src/modules/device/lg_display_xxUR640S9UD_Series_v1_0_0_0.py:139-142 | `SetClosedCaption` ignores its value: every call sends exactly one frame `'mc <id> 39\r'`, by `SendAndWait` unless the driver is write-only, and changes no status |
| Dispatch.SetVolumeRange | Digtial_Forensic_Room/src/modules/device/lg_display_xxUR640S9UD_Series_v1_0_0_0.py:337-343 | `Set('Volume', n)` sends one frame if and only if 0 <= n <= 100, namely `'kf <id> HH\r'` with HH = `'{:02X}'` of n; otherwise only the discard is logged |
| Dispatch.SetVolumeText | Digtial_Forensic_Room/src/modules/device/lg_display_xxUR640S9UD_Series_v1_0_0_0.py:339 | a text volume raises the TypeError of the range comparison and changes nothing |
| Dispatch.UpdateSendsQuery | Digtial_Forensic_Room/src/modules/device/lg_display_xxUR640S9UD_Series_v1_0_0_0.py:292-295 | updating an updatable command sends `'<op> <id> FF\r'` on a replying driver, and nothing on a write-only one |
| Dispatch.SetDeviceIdOutcome | Digtial_Forensic_Room/src/modules/device/lg_display_xxUR640S9UD_Series_v1_0_0_0.py:57-64 | an accepted id replaces the id, a rejected one logs the error and keeps it, a non-integer raises and changes nothing |
| Dispatch.BroadcastIsWriteOnly | Digtial_Forensic_Room/src/modules/device/lg_display_xxUR640S9UD_Series_v1_0_0_0.py:366-381 | after setting 'Broadcast' the id is '00', updates send nothing and a valid set goes out with plain `Send` |
| Replies.RuleIndex | Digtial_Forensic_Room/src/modules/device/lg_display_xxUR640S9UD_Series_v1_0_0_0.py:41-48 | each updatable command has an `OK` pattern whose callback decodes that command |
| Replies.RuleLetters | Digtial_Forensic_Room/src/modules/device/lg_display_xxUR640S9UD_Series_v1_0_0_0.py:41-48 | the letter of each `OK` pattern is the second letter of its command's opcode, and no other `OK` pattern has it |
| Replies.GroupsAreTableKeys | Digtial_Forensic_Room/src/modules/device/lg_display_xxUR640S9UD_Series_v1_0_0_0.py:41-48 | each tabled `OK` pattern accepts exactly the tokens of its `__Match<Cmd>` table |
| Replies.HitsDecode | Digtial_Forensic_Room/src/modules/device/lg_display_xxUR640S9UD_Series_v1_0_0_0.py:41-49 | every match of a registered pattern gives its callback a group it can handle: a table key, two hex digits for Volume, or an error letter, so no `KeyError` is raised |
| Replies.OkOnlyAtZero | Digtial_Forensic_Room/src/modules/device/lg_display_xxUR640S9UD_Series_v1_0_0_0.py:41-48 | in a 10-byte buffer an `OK` pattern can only match at position 0 |
| Replies.EmptyQuiet | Digtial_Forensic_Room/src/modules/device/lg_display_xxUR640S9UD_Series_v1_0_0_0.py:535 | no registered pattern matches an empty buffer |
| Replies.AckMissesEarlier | Digtial_Forensic_Room/src/modules/device/lg_display_xxUR640S9UD_Series_v1_0_0_0.py:533-541 | the patterns registered before a command's own do not match its acknowledgement |
| Replies.AckMatches | Digtial_Forensic_Room/src/modules/device/lg_display_xxUR640S9UD_Series_v1_0_0_0.py:41-48 | a command's own pattern matches its acknowledgement whole when it accepts the token |
| Replies.OkReplyScan | Digtial_Forensic_Room/src/modules/device/lg_display_xxUR640S9UD_Series_v1_0_0_0.py:527-549 | an acknowledgement is matched by its command's pattern alone, one callback, and consumed whole |
| Replies.DecodedHit | Digtial_Forensic_Room/src/modules/device/lg_display_xxUR640S9UD_Series_v1_0_0_0.py:297-305 | a decoding callback writes the decoded value of its command |
| Replies.SetAcknowledged | Digtial_Forensic_Room/src/modules/device/lg_display_xxUR640S9UD_Series_v1_0_0_0.py:279-305 | over the wire: a valid set sends the table token, and the device's acknowledgement carrying it writes and reads back exactly the value set |
| Replies.VolumeToken | Digtial_Forensic_Room/src/modules/device/lg_display_xxUR640S9UD_Series_v1_0_0_0.py:340 | `SetVolume`'s token is accepted by the Volume pattern and decodes back to the number |
| Replies.VolumeEchoWrites | Digtial_Forensic_Room/src/modules/device/lg_display_xxUR640S9UD_Series_v1_0_0_0.py:350-354 | the Volume acknowledgement of a value in range is consumed and writes that value |
| Replies.VolumeAcknowledged | Digtial_Forensic_Room/src/modules/device/lg_display_xxUR640S9UD_Series_v1_0_0_0.py:337-354 | `SetVolume(n)` sends `'kf <id> HH\r'` and the echo of HH makes Volume read n |
| Replies.VolumeReadsBack | Digtial_Forensic_Room/src/modules/device/lg_display_xxUR640S9UD_Series_v1_0_0_0.py:354 | after the Volume write, `ReadStatus('Volume')` returns the number |
| Replies.VolumeEchoOutOfRange | Digtial_Forensic_Room/src/modules/device/lg_display_xxUR640S9UD_Series_v1_0_0_0.py:352-354 | a Volume echo above 100 is matched and consumed but changes nothing |
| Replies.NakMatches | Digtial_Forensic_Room/src/modules/device/lg_display_xxUR640S9UD_Series_v1_0_0_0.py:49 | the `NG` pattern matches a rejection whole, with the letter as group |
| Replies.NakMissesOk | Digtial_Forensic_Room/src/modules/device/lg_display_xxUR640S9UD_Series_v1_0_0_0.py:41-48 | no `OK` pattern matches a rejection |
| Replies.NgReplyScan | Digtial_Forensic_Room/src/modules/device/lg_display_xxUR640S9UD_Series_v1_0_0_0.py:527-549 | a rejection is matched by the `NG` pattern alone, once, and consumed |
| Replies.NgReplyHandled | Digtial_Forensic_Room/src/modules/device/lg_display_xxUR640S9UD_Series_v1_0_0_0.py:393-407 | a rejection zeroes the counter and logs the error naming the command; nothing else changes |
| Replies.NoStart | Digtial_Forensic_Room/src/modules/device/lg_display_xxUR640S9UD_Series_v1_0_0_0.py:535 | a pattern finds nothing in a buffer whose bytes cannot start it |
| Replies.PaddedAckMisses | Digtial_Forensic_Room/src/modules/device/lg_display_xxUR640S9UD_Series_v1_0_0_0.py:533-541 | the patterns before Power do not match the padded acknowledgement |
| Replies.PaddedAckPower | Digtial_Forensic_Room/src/modules/device/lg_display_xxUR640S9UD_Series_v1_0_0_0.py:535-539 | the Power pattern finds the padded acknowledgement at offset 1, and cutting it out leaves only blanks |
| Replies.CapSkippedAfterMatch | Digtial_Forensic_Room/src/modules/device/lg_display_xxUR640S9UD_Series_v1_0_0_0.py:543-545 | when the last match starts past offset 0 the buffer is cut there and not capped: n trailing blanks all stay, however many |
| Replies.SpacesQuiet | Digtial_Forensic_Room/src/modules/device/lg_display_xxUR640S9UD_Series_v1_0_0_0.py:533-541 | blanks match none of the registered patterns |
| Scenarios.PowerOnConversation | Digtial_Forensic_Room/src/modules/device/lg_display_xxUR640S9UD_Series_v1_0_0_0.py:279-305 | subscribe, Power On sends `'ka 01 01\r'` with no error, the acknowledgement is consumed, Power reads 'On' and the callback is called once |
| Scenarios.PowerOnSent | Digtial_Forensic_Room/src/modules/device/lg_display_xxUR640S9UD_Series_v1_0_0_0.py:279-290 | Power On from a fresh driver sends exactly `'ka 01 01\r'` and stores and notifies nothing |
| Scenarios.PowerOnAcknowledged | Digtial_Forensic_Room/src/modules/device/lg_display_xxUR640S9UD_Series_v1_0_0_0.py:297-305 | the acknowledgement `'a <id> OK01x'` makes Power read 'On' and notifies the subscriber once |
| Scenarios.PowerOnSetSends | Digtial_Forensic_Room/src/modules/device/lg_display_xxUR640S9UD_Series_v1_0_0_0.py:366-376 | with id '01' Power On is one `SendAndWait` of `'ka 01 01\r'` and a clean reply logs nothing |
| Scenarios.AckIsClean | Digtial_Forensic_Room/src/modules/device/lg_display_xxUR640S9UD_Series_v1_0_0_0.py:360 | an `OK` acknowledgement contains no `NG` |
| Scenarios.VolumeConversation | Digtial_Forensic_Room/src/modules/device/lg_display_xxUR640S9UD_Series_v1_0_0_0.py:337-354 | Volume 55 sends `'kf 01 37\r'` and the echo `'f <id> OK37x'` makes Volume read 55 |
| Scenarios.VolumeSent | Digtial_Forensic_Room/src/modules/device/lg_display_xxUR640S9UD_Series_v1_0_0_0.py:337-343 | Volume 55 from a fresh driver sends exactly `'kf 01 37\r'` |
| Scenarios.VolumeOutOfRangeConversation | Digtial_Forensic_Room/src/modules/device/lg_display_xxUR640S9UD_Series_v1_0_0_0.py:337-343 | Volume 150 is discarded, nothing is sent and Volume still reads None |
| Scenarios.RejectedConversation | Digtial_Forensic_Room/src/modules/device/lg_display_xxUR640S9UD_Series_v1_0_0_0.py:393-407 | a Power rejection logs 'An error occurred: Power.' and Power still reads None |
| Scenarios.PowerUnset | Digtial_Forensic_Room/src/modules/device/lg_display_xxUR640S9UD_Series_v1_0_0_0.py:510-523 | with no Live values, Power reads None |
| Ethernet.EthernetSetterNamed | Digtial_Forensic_Room/src/modules/device/lg_display_xxUR640S9UD_Series_v1_0_0_0.py:761-766 | the Ethernet class finds `SetPowerOff` for 'PowerOff' only, and otherwise only the serial setters other than Power |
| Ethernet.EthernetSet | Digtial_Forensic_Room/src/modules/device/lg_display_xxUR640S9UD_Series_v1_0_0_0.py:594-766 | `Set(command, value)` on the Ethernet class; its meaning is stated by `Ethernet.EthernetAgreesWithSerial`, `Ethernet.PowerOffFrame` and `Ethernet.NoPowerOnEthernet` |
| Ethernet.EthernetSetDeviceId | Digtial_Forensic_Room/src/modules/device/lg_display_xxUR640S9UD_Series_v1_0_0_0.py:585-592 | the Ethernet `DeviceID` setter; its meaning is stated by `Ethernet.EthernetIdAgreesWithSerial` |
| Ethernet.EthernetIdAgreesWithSerial | Digtial_Forensic_Room/src/modules/device/lg_display_xxUR640S9UD_Series_v1_0_0_0.py:585-592 | with the same id and log, the Ethernet `DeviceID` setter gives the same outcome, id and log as the serial one (57-64), and keeps `Debug` and the sent log |
| Ethernet.EthernetAgreesWithSerial | Digtial_Forensic_Room/src/modules/device/lg_display_xxUR640S9UD_Series_v1_0_0_0.py:594-750 | for every shared command the Ethernet `Set` raises, discards or sends exactly as the serial one with the same id: same outcome, the same frame, and on a discard the same log entry |
| Ethernet.SerialSendsFrame | Digtial_Forensic_Room/src/modules/device/lg_display_xxUR640S9UD_Series_v1_0_0_0.py:366-376 | the serial helper appends exactly one transport call carrying the frame |
| Ethernet.PowerOffFrame | Digtial_Forensic_Room/src/modules/device/lg_display_xxUR640S9UD_Series_v1_0_0_0.py:725-728 | `SetPowerOff` ignores its value and sends `'ka <id> 00\r'` |
| Ethernet.NoPowerOnEthernet | Digtial_Forensic_Room/src/modules/device/lg_display_xxUR640S9UD_Series_v1_0_0_0.py:761-766 | the Ethernet class has no `SetPower`: `Set('Power')` raises and changes nothing |
| Driver.ApplyHitsAppend | Digtial_Forensic_Room/src/modules/device/lg_display_xxUR640S9UD_Series_v1_0_0_0.py:533-541 | the callbacks of two scans in a row are those of the first, then those of the second |
| Driver.RegisterNext | Digtial_Forensic_Room/src/modules/device/lg_display_xxUR640S9UD_Series_v1_0_0_0.py:40-49 | the nine patterns are pairwise distinct, so each registration adds one rule |
| Driver.DeviceSerial.constructor | Digtial_Forensic_Room/src/modules/device/lg_display_xxUR640S9UD_Series_v1_0_0_0.py:7-49 | the initial state: id '01', counter 0, connected, `initializationChk` set, empty cache, empty buffer, and the nine reply patterns in order |
| Driver.DeviceSerial.RegisterReplyPatterns | Digtial_Forensic_Room/src/modules/device/lg_display_xxUR640S9UD_Series_v1_0_0_0.py:40-49 | the nine `AddMatchString` calls leave exactly the rule list of the initial patterns |
| Driver.DeviceSerial.AddMatchString | Digtial_Forensic_Room/src/modules/device/lg_display_xxUR640S9UD_Series_v1_0_0_0.py:552-554 | the rule list becomes the registration of the pattern; nothing else changes |
| Driver.DeviceSerial.ReadStatus | Digtial_Forensic_Room/src/modules/device/lg_display_xxUR640S9UD_Series_v1_0_0_0.py:510-525 | returns the Live value of the command, None, or the `KeyError`, as the status function |
| Driver.DeviceSerial.SubscribeStatus | Digtial_Forensic_Room/src/modules/device/lg_display_xxUR640S9UD_Series_v1_0_0_0.py:444-467 | the new state and the outcome are those of the subscription function |
| Driver.DeviceSerial.NewStatus | Digtial_Forensic_Room/src/modules/device/lg_display_xxUR640S9UD_Series_v1_0_0_0.py:470-482 | the notification log grows by the subscriber's call, if there is a subscriber |
| Driver.DeviceSerial.WriteStatus | Digtial_Forensic_Room/src/modules/device/lg_display_xxUR640S9UD_Series_v1_0_0_0.py:485-507 | the new state is that of the write-if-changed function, reconnection included |
| Driver.DeviceSerial.Store | Digtial_Forensic_Room/src/modules/device/lg_display_xxUR640S9UD_Series_v1_0_0_0.py:501-507 | the new state is that of the write-if-changed tail |
| Driver.DeviceSerial.OnConnected | Digtial_Forensic_Room/src/modules/device/lg_display_xxUR640S9UD_Series_v1_0_0_0.py:409-412 | the new state is that of `OnConnected` |
| Driver.DeviceSerial.OnDisconnected | Digtial_Forensic_Room/src/modules/device/lg_display_xxUR640S9UD_Series_v1_0_0_0.py:415-417 | the new state is that of `OnDisconnected` |
| Driver.DeviceSerial.SetHelper | Digtial_Forensic_Room/src/modules/device/lg_display_xxUR640S9UD_Series_v1_0_0_0.py:366-376 | the new state is that of the send policy of `__SetHelper` |
| Driver.DeviceSerial.AwaitReply | Digtial_Forensic_Room/src/modules/device/lg_display_xxUR640S9UD_Series_v1_0_0_0.py:372-376 | the new state is that of the reply check |
| Driver.DeviceSerial.UpdateHelper | Digtial_Forensic_Room/src/modules/device/lg_display_xxUR640S9UD_Series_v1_0_0_0.py:378-391 | the new state is that of the update accounting |
| Driver.DeviceSerial.Poll | Digtial_Forensic_Room/src/modules/device/lg_display_xxUR640S9UD_Series_v1_0_0_0.py:383-391 | first-call connection, count, possible disconnection, and the query sent, in that order |
| Driver.DeviceSerial.FirstPoll | Digtial_Forensic_Room/src/modules/device/lg_display_xxUR640S9UD_Series_v1_0_0_0.py:383-385 | the first poll runs `OnConnected` and clears `initializationChk`; later ones change nothing |
| Driver.DeviceSerial.CountPoll | Digtial_Forensic_Room/src/modules/device/lg_display_xxUR640S9UD_Series_v1_0_0_0.py:387-389 | the counter grows by one, and past 15 while connected `OnDisconnected` runs |
| Driver.DeviceSerial.Set | Digtial_Forensic_Room/src/modules/device/lg_display_xxUR640S9UD_Series_v1_0_0_0.py:424-429 | the new state and the outcome are those of `Set` by name |
| Driver.DeviceSerial.Update | Digtial_Forensic_Room/src/modules/device/lg_display_xxUR640S9UD_Series_v1_0_0_0.py:433-438 | the new state and the outcome are those of `Update` by name |
| Driver.DeviceSerial.SetDeviceId | Digtial_Forensic_Room/src/modules/device/lg_display_xxUR640S9UD_Series_v1_0_0_0.py:57-64 | the new state and the outcome are those of the id rule |
| Driver.DeviceSerial.MatchError | Digtial_Forensic_Room/src/modules/device/lg_display_xxUR640S9UD_Series_v1_0_0_0.py:393-407 | the counter is zeroed and the error naming the command is logged |
| Driver.DeviceSerial.Dispatch | Digtial_Forensic_Room/src/modules/device/lg_display_xxUR640S9UD_Series_v1_0_0_0.py:538 | the new state is that of the callback of the rule on its group |
| Driver.DeviceSerial.DrainRule | Digtial_Forensic_Room/src/modules/device/lg_display_xxUR640S9UD_Series_v1_0_0_0.py:534-541 | the buffer, `index` and state are those of the scan of one pattern: each match cut out and its callback run once, in order |
| Driver.DeviceSerial.ReceiveData | Digtial_Forensic_Room/src/modules/device/lg_display_xxUR640S9UD_Series_v1_0_0_0.py:527-549 | the buffer is that of the whole scan and trim of the appended chunk, and the state is that of running every callback of the scan in order |

## Left out

- Qualifiers: no command declares `Parameters` and every caller passes None, so each command has one `Live` slot. A non-None qualifier would raise on the missing key; that path is not modelled.
- `Set`/`Update` name synthesis by `getattr` is a lookup table from names to commands; every other name raises AttributeError, as in the source. The one exception is the empty name: `getattr(self, 'Set')` is `Set` itself, so `Set('', v)` re-dispatches as `Set(v, None)` (for example `Set('', 'Power')` runs `SetPower(None, None)`, which discards), and `Update('')` calls `Update(None, None)`, which raises TypeError on `None + 'does not support Update.'`. The model raises AttributeError for the empty name instead. The Ethernet class's `Set` (lines 761-766) re-dispatches `Set('', v)` in the same way, and `Ethernet.EthernetSet` raises AttributeError there too.
- Dispatch.SetUnknownRaises and Dispatch.UpdateUnknownRaises: for the empty name they state the AttributeError of the model, not the source's re-dispatch described above, because the model's values have no Python None to pass on.
- `Send`/`SendAndWait` are an outbound log, and the `SendAndWait` reply is an input. The 0.3 s timeout, the `deliRex=setRegex` delimiter and all wall-clock behaviour are left out.
- `bytes.decode()` of a reply is the identity on bytes below 128. Non-ASCII replies and UTF-8 decoding errors are not modelled.
- Callbacks are opaque identities. Calling one appends to a notification log. A callback that raises, or that calls back into the driver, is not modelled.
- `WriteStatus` with a name outside `Commands` (a `KeyError`) cannot happen here, because the model writes only by `Command`.
- `SetVolume` with a non-number value raises TypeError. Floats, booleans and other Python numerics are not modelled. `DeviceID` arguments are an abstract `IdArgument`: 'Broadcast', an integer `int(value)` accepts, or one it refuses.
- `AddMatchString`'s third argument (`tag`, always None) is not stored, and callbacks are given group 1 of the match only.
- `Error`/`Discard` of the subclasses print or log. Here they append to a log of entries, and the logger itself is left out.
- `__MatchError`'s `KeyError` for a letter outside its map is modelled as logging nothing. `Replies.HitsDecode` shows the pattern admits only mapped letters, so that branch is never taken.
- `__Match<Cmd>`'s `KeyError` for a token outside its table is modelled as writing nothing. `Replies.HitsDecode` shows the patterns admit only table keys, so that branch is never taken either.
- `DeviceEthernetClass` is modelled on values (`EthernetState`), not as a class, so updates in place and aliasing of its fields are not captured. Its `Set<Cmd>` methods set `Debug` and append to the sent log, or log a `Discard` (for example line 748). Its `DeviceID` setter replaces `_DeviceID` or logs an `Error` (lines 585-592). `Ethernet.EthernetSet` and `Ethernet.EthernetSetDeviceId` model both. Its `Commands` dict is never read.
- The `SerialClass`, `SerialOverEthernetClass` and `EthernetClass` constructors, `Disconnect`, and the extronlib transports are left out.
- `Models` is never read by the core; only the left-out subclass constructors read it (lines 776-780). `DefaultResponseTimeout` and `setRegex` are read only as `SendAndWait` arguments in `__SetHelper` (line 372). They are left out with the transport (see above). None of the three is in the state.
- `Unidirectional` is the string 'True' or 'False' in the source and a boolean here. An assignment to it after construction is allowed by the model's state but not by any of its methods, since nothing in the core assigns it after `__init__`.
