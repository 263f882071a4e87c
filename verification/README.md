# Models of the remote desktop client

Dafny models of the stateful parts of the client, with proofs of what they keep over whole runs.
Each object of the program that updates its fields is a class whose methods are proved to take
exactly the step a specification function gives; the theorems are about those steps and about
runs of them in any order.

| file | what it models |
|---|---|
| `SampleRing.dfy`, `AudioSpec.dfy`, `JitterBuffer.dfy` | the audio jitter buffer: a ring of samples, the water-mark histogram that decides what to drop, the device callback |
| `AudioLaws.dfy`, `AudioDrops.dfy`, `AudioPromise.dfy`, `AudioFrames.dfy` | what each step of it comes to in plain numbers, how much is dropped and when, a run that drops with little buffered, and which audio formats can have a frame split |
| `LoginSpec.dfy`, `LoginHandler.dfy`, `LoginRuns.dfy` | where the password of a session comes from, what is remembered of it, and runs of several sessions with one peer |
| `LoginLaws.dfy` | what is proved to the peer, stored and offered, in terms of the hash function alone |
| `SessionOptions.dfy` | the on/off options: stored, sent at login and at each toggle, held by the peer |
| `ClipboardProto.dfy`, `ClipboardSync.dfy` | the wire form of clipboard contents, and two machines synchronising |
| `ClipboardContents.dfy` | what of a clipboard is shared, item by item |
| `ClipboardAgreement.dfy` | when the two clipboards agree, with one or both sides copying and messages in any order |
| `VideoDecode.dfy` | decode failures per display and the shared list of unsupported formats |
| `RelayRequest.dfy` | asking for a relay with retries |
| `TlsFallback.dfy` | falling back between TLS configurations, with the cache |
| `Throttle.dfy` | the throttled interval |
| `LanPeers.dfy` | merging discovery answers into the saved peers |
| `CustomServer.dfy` | server settings in the file name |
| `OnlineStates.dfy`, `StrColor.dfy`, `Fingerprint.dfy` | the online bitmap, string colours, key fingerprints |
| `Wrappers.dfy` | option and result types |

`dafny verify dfyconfig.toml` checks everything.

## What the proofs found

- A shared password can be stored like one's own when the peer accepts, and offered to the
  personal address book. `LoginRuns.StepKeepsInvIffSafe` says when, and for each of the three
  ways there is a run from a clean start. Switching sides clears only the source tag
  (src/client.rs:3543-3549, `LoginRuns.SwitchSidesLeaks`). A second hash message with another
  salt makes the tag miss the password (`LoginRuns.ChangedSaltLeaks`, exactly if the digests
  differ). So does accepting without a hash message (`LoginRuns.UnsaltedAcceptanceLeaks`).
  Callers who keep to the three rules of `LoginRuns.CarefulOp` leak nothing
  (`LoginRuns.CarefulCallersLeakNothing`).
- The comment at src/client.rs:1410 says nothing is dropped when less than 600 ms are buffered.
  The code tests the fullest bucket of the past water marks, not what is buffered now. When a
  mark is recorded, a buffer left with less than 0.6 s of it can lose samples exactly if the
  fullest bucket is at 0.6 s or later, the two lowest are empty, either only those two are or the
  fullest is at 0.6 or 0.7 s, and the mark is more than three times what these figures drop
  (`AudioDrops.PromiseBrokenIff`). Up to 0.3 s nothing is ever dropped, and that is the best such
  bound. `AudioPromise.NewBufferDropsUnder600Ms` is a run of frames of 0.1 s at 48 kHz stereo
  that drops 9600 of 33600 samples.
- The statistical drop is an even number of samples. That is whole frames for one or two
  channels at any rate, for an even number of channels at a multiple of 40 Hz, and for any
  number at a multiple of 80 Hz. A format can have a frame split exactly if the drop of some
  level is not whole frames (`AudioFrames.NeverSplitIffSafeFormat`), as with six channels at
  44.1 kHz (`AudioFrames.SurroundFrameSplit`).
- A special clipboard format that compression does not shrink is sent as the bytes of its name
  (src/clipboard.rs:612). `ClipboardProto.RoundTrip` is therefore an equivalence.
- A width or height of 2^31 up to, but not including, 2^64 - 2^31 does not survive the cast to 32 bits.
- Received clipboards are applied by a thread each (src/clipboard.rs:235-239), so in any order.
  With one copying side, the two agree at rest exactly if what was applied last is what was sent
  last (`ClipboardAgreement.AgreeIffNewestAppliedLast`); a delivery keeps them in sync exactly
  if it leaves the newest message, or one with the same contents, for last. With two copying
  sides, copies that cross can swap the contents (`ClipboardAgreement.CrossedCopiesSwap`). A
  change of copier keeps the two in sync exactly if the new one has nothing left to apply and
  the old one no event left to look at (`ClipboardAgreement.TakeOverKeepsInSyncIff`); sides that
  take turns so agree at rest (`ClipboardAgreement.TurnsAgree`). Without that, what still holds
  is that a copy that stands at rest is shared (`ClipboardAgreement.StandingCopyIsShared`).
- Toggling an option that view-only overrides can put the peer out of step, and so can another
  session that changed the stored options; `SessionOptions.StaysInStep` is exactly when a
  toggle does not.
- The LAN merge decides by id whether a peer has answered in this run but looks it up by the
  whole key, so old addresses stay when another peer with the same id answered first
  (`LanPeers.KeepsSaved`).
- The place of `host=` in a file name is a byte offset of the lower-cased name, used in the name
  itself (src/custom_server.rs:60). In a name with one `host=`, whatever follows it, the host is
  read back exactly if the prefix keeps its number of bytes in lower case, or the offset falls on
  a character of a prefix that ends in a comma (`CustomServer.HostReadBackIff`). After a capital I with a dot it is lost.
- Once a TLS configuration is cached for a site no other is ever tried (`TlsFallback.CachedIsFinal`).
- A bitmap shorter than the list of ids is indexed out of range (`OnlineStates.SplitOnline`
  returns `None` exactly then).

## Assumptions

- The ring buffer library is an array with the index of its oldest element and a length; skipping
  stops at what is there, and overwriting makes room from the front.
- SHA-256 is any function whose digests are not empty. Compression and UTF-8 coding are any
  functions undone by their decoders.
- Two LAN entries are the same peer if their keys are equal; a key is the id and something more.
- Sample rates and channel counts are positive: dividing by their product is what the program
  does with it. The exact condition on the 600 ms comment is for 70 samples per second and more,
  that on formats for 40 Hz and more.
- Lower-casing is known by the bytes each character's lower case takes. Only the ASCII capitals
  and the Kelvin sign become characters of the names compared with; the i that a capital I with
  a dot becomes is followed by a combining dot, which none of the names has.
- Clocks, random numbers, sockets and the operating system's clipboard are inputs.

## Model

| member | source | states |
|---|---|---|
| SampleRing.Ring.Skip | src/client.rs:1425 | the oldest samples go, at most all |
| SampleRing.Ring.PushSliceOverwrite | src/client.rs:1436-1445 | old and new samples together, cut to the newest that fit |
| SampleRing.Ring.PopSlice | src/client.rs:1641-1644 | as many of the oldest samples as there are and fit, in order, and no others touched |
| JitterBuffer.AudioBuffer.constructor | src/client.rs:1344-1354 | empty, three seconds of 48 kHz stereo, sharing the time of the last evaluation |
| JitterBuffer.AudioBuffer.Resize | src/client.rs:1358-1366 | another capacity empties the buffer, the same one changes nothing |
| JitterBuffer.AudioBuffer.AppendPcm2 | src/client.rs:1433-1447 | in every branch exactly the last samples of old and new that fit are kept, and their number returned |
| JitterBuffer.AudioBuffer.ScanHistogram | src/client.rs:1391-1406 | the one in-place pass yields both figures of the histogram as it was and clears all but one bucket |
| JitterBuffer.AudioBuffer.Evaluate | src/client.rs:1391-1427 | drops what the two figures say and leaves the histogram empty on every path |
| JitterBuffer.AudioBuffer.TryShrink | src/client.rs:1368-1428 | records the mark, and evaluates only 12 s after any buffer's last evaluation |
| JitterBuffer.AudioBuffer.AppendPcm | src/client.rs:1452-1455 | the append, then the mark of what is then buffered |
| JitterBuffer.AudioBuffer.FillDevice | src/client.rs:1628-1653 | the device gets the oldest samples in order and silence after them |
| AudioSpec.ZeroPrefixMeaning | src/client.rs:1391-1398 | the zero figure is the length of the all-zero prefix |
| AudioSpec.PeakMeaning | src/client.rs:1393-1406 | the max figure is the first fullest bucket among 1 to 29, or 0 when those are empty |
| AudioSpec.StepWellFormed | src/client.rs:1344-1366 | capacity is always three seconds and never exceeded |
| AudioSpec.RunKeepsInv | src/client.rs:1358-1455 | over any interleaving: contents are the rest of the stream, appended is played plus dropped plus buffered, samples are heard in order and never twice, the histogram counts the marks |
| AudioSpec.NewBuffer | src/client.rs:1344-1366 | a new buffer is empty, and still is after its first format is set |
| AudioSpec.ReachableInv | src/client.rs:1344-1455 | so every state reached from an empty buffer satisfies that invariant |
| AudioLaws.NewBufferIs | src/client.rs:1344-1354 | a new buffer in numbers |
| AudioLaws.AppendKeepsNewest | src/client.rs:1433-1447 | an append keeps old and new samples in order, all that fit and else the newest |
| AudioLaws.PlayTakesOldest | src/client.rs:1628-1653 | playing takes as many of the oldest as are asked for and there |
| AudioLaws.ResizeKeepsOrEmpties | src/client.rs:1358-1366 | a resize to the same capacity changes nothing, another empties the buffer and keeps the statistics |
| AudioLaws.MarkIsCounted | src/client.rs:1372-1389 | the first mark ever and marks within 12 s of the last evaluation are only counted, in their tenth of a second |
| AudioLaws.EvaluationDrops | src/client.rs:1391-1427 | any other mark: the exact drop, from the first and the fullest bucket and the rate, and when nothing is dropped |
| AudioLaws.DropExists | src/client.rs:1423 | that drop exists for every level and is unique |
| AudioLaws.DropAt48kHz | src/client.rs:1408-1426 | lowest mark 0.5 s, most at 2 s, two seconds at 48 kHz stereo: 28800 samples |
| AudioLaws.ElsewhereMovesTime | src/client.rs:1377-1389 | another buffer's evaluation moves the common time and nothing else |
| AudioDrops.EvaluationIsSafe | src/client.rs:1391-1427 | a drop is even, less than a third of what is buffered, and (plus one) at most two thirds of every mark since the last evaluation; none if a mark was under 0.2 s or all were under 0.6 s |
| AudioDrops.DropsUnderIff | src/client.rs:1409-1426 | from 70 samples per second: exactly which figures drop samples of some buffer under 0.6 s |
| AudioDrops.UsualRatesDropUnderIff | src/client.rs:1409-1426 | at multiples of five: the fullest bucket at 0.6 s or later, the two lowest empty, and only those two or the fullest at most at 0.7 s |
| AudioDrops.PromiseBrokenIff | src/client.rs:1407-1455 | an evaluation of what the append left buffered, of which the device can only have taken some: exactly which marks let it drop samples of less than 0.6 s |
| AudioDrops.NothingDroppedUpTo300Ms | src/client.rs:1407-1426 | with at most 0.3 s buffered nothing is dropped, whatever the marks |
| AudioDrops.Just300MsCanDrop | src/client.rs:1407-1426 | with one sample more something can be |
| AudioPromise.RunDropsUnder600Ms | src/client.rs:1368-1455 | at every multiple of twenty: frames of 0.1 s, appended and played, lead to a buffer of 0.35 s that loses 0.1 s when that very mark is evaluated |
| AudioPromise.NewBufferDropsUnder600Ms | src/client.rs:1344-1455 | that run from a new buffer at 48 kHz stereo, with 123 frames in all |
| AudioFrames.StepAligned | src/client.rs:1420-1447 | appending, overwriting and playing whole frames never leave a frame boundary, for any channel count; only an evaluation can |
| AudioFrames.SafeFormatAligned | src/client.rs:1420-1447 | in a format whose every possible drop is whole frames no run splits a frame |
| AudioFrames.NeverSplitIffSafeFormat | src/client.rs:1391-1447 | and those are exactly the formats in which no run from an empty buffer does |
| AudioFrames.MonoStereoSafe | src/client.rs:1423 | mono and stereo are such formats at any rate |
| AudioFrames.EvenChannelsSafe | src/client.rs:1423 | so is an even number of channels at a multiple of 40 Hz |
| AudioFrames.EvenRateSafe | src/client.rs:1423 | so is any number of channels at a multiple of 80 Hz |
| AudioFrames.SurroundUnsafe | src/client.rs:1423 | six channels at 44.1 kHz are not: one possible drop is 72766 |
| AudioFrames.SurroundFrameSplit | src/client.rs:1391-1447 | a run at 44.1 kHz with six channels that ends inside a frame |
| LoginHandler.LoginConfigHandler.Initialize | src/client.rs:1950-2020 | remember follows the stored password; a token's password and source are taken over |
| LoginHandler.LoginConfigHandler.ChoosePassword | src/client.rs:3550-3600 | the password used, with its source, is the first there is in the order shared, last, preset, stored, personal, built-in |
| LoginHandler.LoginConfigHandler.HandleHash | src/client.rs:3531-3637 | a switch-sides answer, a prompt, or the proof of the chosen password under the challenge |
| LoginHandler.LoginConfigHandler.HandleLoginFromUi | src/client.rs:3697-3730 | a typed password replaces the old one and its source; an empty one falls back to the last, then the stored |
| LoginHandler.LoginConfigHandler.HandleLoginError | src/client.rs:3477-3520 | a wrong or missing password is forgotten, a failed second factor withdraws trust; whether to try again |
| LoginHandler.LoginConfigHandler.SetOption | src/client.rs:2058-2065 | one option of the stored configuration changes, unless it has that value already |
| LoginHandler.LoginConfigHandler.HandlePeerInfo | src/client.rs:2672-2726 | the stored password is kept, replaced or removed, and offered to the personal address book only if neither shared nor from there |
| LoginHandler.LoginConfigHandler.GetConnToken | src/client.rs:2895-2905 | a token with password, source and session id, if there is a password |
| LoginHandler.ChosenIsFirst | src/client.rs:3550-3598 | the order of preference, case by case |
| LoginLaws.OpenTakesOver | src/client.rs:1950-2020 | a session opened: remember, stored configuration, token, session id, flags |
| LoginLaws.TokenRoundTrip | src/client.rs:2895-2905 | a session opened with a token has the password, source and id of the one that handed it over |
| LoginLaws.NoPasswordNoToken | src/client.rs:2895-2905 | there is a token exactly if there is a password |
| LoginLaws.PasswordUsed | src/client.rs:3550-3600 | the password, source and provenance held after a hash message, case by case, with the hash applied |
| LoginLaws.SwitchAnswered | src/client.rs:3541-3549 | a switch is answered exactly if a uuid is there and parses |
| LoginLaws.ProofSent | src/client.rs:3601-3636 | an administrator's terminal asks, a session without password prompts, any other sends the hash of password and challenge |
| LoginLaws.KnownPasswordLetsIn | src/client.rs:3531-3637 | a session that knows the peer's password, from whichever source, sends what the peer accepts |
| LoginLaws.TypedPassword | src/client.rs:3697-3730 | a typed password is hashed with the salt, an empty one falls back to the last, then the stored |
| LoginLaws.RefusalKeepsRest | src/client.rs:3477-3520 | what each refusal changes, and that it changes nothing else |
| LoginLaws.AcceptanceStores | src/client.rs:2672-2726 | what is stored, erased and offered when the peer accepts, in every case |
| LoginLaws.AcceptanceProvenance | src/client.rs:2672-2726 | whose password that is |
| LoginLaws.NotRememberedIsErased | src/client.rs:2693-2695 | typed without remember and accepted: the stored password is gone and nothing is offered |
| LoginLaws.RememberedIsStored | src/client.rs:2678-2720 | typed with remember and accepted: its hash is stored and offered |
| LoginLaws.PersonalIsKept | src/client.rs:2688-2692 | one of the personal address book is stored without remember and not offered |
| LoginLaws.OthersUntouched | src/client.rs:1950-2905 | a step changes its own session only, and the store only when the peer accepts or refuses |
| LoginLaws.HandedOver | src/client.rs:2895-2905 | the token handed over |
| LoginLaws.OpenedAgain | src/client.rs:1950-2020 | a session opened again keeps its last password and hash, unless a token brings another |
| LoginLaws.OwnSession | src/client.rs:3477-3730 | a session's step is that of its handler |
| LoginRuns.StepKeepsInvIffSafe | src/client.rs:3531-3637 | a password of shared provenance stays tagged, recognised once salted, and out of the store, exactly if the step does not, with one remembered, switch sides, bring a salt that makes another digest, or accept what the tag does not recognise |
| LoginRuns.SharedPasswordNeverStored | src/client.rs:2672-2726 | over every safe run of any sessions, across tokens, a shared or built-in password is never stored nor offered |
| LoginRuns.SafeOnceSalted | src/client.rs:2678-2687 | accepting is safe after a hash message of the session |
| LoginRuns.CarefulCallersLeakNothing | src/client.rs:2672-2726 | from a clean start, in any run with one salt, a hash message before each acceptance, and side switches only in new sessions without a shared token, nothing shared is stored or offered |
| LoginLaws.OnlyThreeRules | src/client.rs:2672-2726 | those three rules, spelled out, and that they ask nothing else |
| LoginRuns.SwitchSidesLeaks | src/client.rs:3543-3549 | a run that switches sides stores and offers the shared password |
| LoginRuns.SwitchSidesStores | src/client.rs:3543-3549 | it does so in a new session with a token for a shared password, whenever another password is stored |
| LoginRuns.SharedTokenIssued | src/client.rs:2895-2905 | a session opened with a shared password issues such a token |
| LoginRuns.ChangedSaltLeaks | src/client.rs:2672-2726 | from a clean start, two hash messages and an acceptance store the shared password exactly if the salts give different digests |
| LoginRuns.UnsaltedAcceptanceLeaks | src/client.rs:2672-2726 | an acceptance without a hash message stores it exactly if the empty salt gives another digest |
| SessionOptions.OptionHandler.ToggleOption | src/client.rs:2191-2336 | what is stored and what is sent, for every option, from the stored or the session's own copy as the program takes it |
| SessionOptions.OptionHandler.GetOptionMessage | src/client.rs:2351-2432 | the options of the login request: what shows, after view-only has overridden what it overrides |
| SessionOptions.ToggleChangesOwnFlag | src/client.rs:2191-2317 | a toggle changes its own flag only, and leaving view-only also ends the own cursor |
| SessionOptions.FlagIsSent | src/client.rs:2194-2308 | a flag's new value is sent in its own field and no other |
| SessionOptions.ViewOnlyIsSent | src/client.rs:2274-2300 | the five values of view-only, on and off |
| SessionOptions.AskedNotStored | src/client.rs:2251-2269 | privacy mode and blocking input are asked for and not stored |
| SessionOptions.OtherIsStored | src/client.rs:2309-2322 | any other option is stored by name or removed, and not sent |
| SessionOptions.OthersSayNothing | src/client.rs:2351-2432 | which sessions say anything at login, and what a terminal says |
| SessionOptions.ToggleAgreesIffInStep | src/client.rs:2191-2336 | after a toggle the peer still has what a login would give it exactly if the toggle is in step with the stored flags and the session's own copy has the same of what the toggle leaves or restores |
| SessionOptions.OneCopyStaysInStepIff | src/client.rs:2191-2336 | while the two copies are one, the toggle alone decides |
| SessionOptions.PeerFollowsConfig | src/client.rs:2402-2429 | login, any toggles in step and any changes by other sessions: the peer's options are those derived from the session's configuration, and the own cursor needs view-only throughout |
| SessionOptions.OneMoreEvent | src/client.rs:2191-2336 | a run of toggles goes event by event |
| SessionOptions.ViewOnlyRoundTrip | src/client.rs:2283-2299 | view-only on and off restores both sides |
| ClipboardProto.ItemRoundTrip | src/clipboard.rs:624-674 | an item that is sent comes back, and the same exactly if its size fits and a special one shrinks |
| ClipboardProto.RoundTrip | src/clipboard.rs:637-682 | a list comes back item by item in order, equal exactly if each item is faithful |
| ClipboardProto.NeverLonger | src/clipboard.rs:544-604 | text and images are never sent longer than they are |
| ClipboardProto.SpecialArrivesAsName | src/clipboard.rs:606-622 | a special format that does not shrink arrives with its name as data |
| ClipboardProto.SizeRoundTrip | src/clipboard.rs:575-576 | which image sizes survive the cast |
| ClipboardProto.CompressedIffShorter | src/clipboard.rs:544-604 | content is compressed exactly if that is shorter, and PNG never |
| ClipboardProto.Undecodable | src/clipboard.rs:648-674 | what of a message cannot be decoded and is left out |
| ClipboardProto.DecodedIs | src/clipboard.rs:648-674 | what any item received is decoded to |
| ClipboardProto.DecodedItemwise | src/clipboard.rs:676-682 | a message is decoded item by item, in order |
| ClipboardProto.SizeAndName | src/clipboard.rs:544-622 | only raw pixels have a size, only special formats a name |
| ClipboardProto.WireIs | src/clipboard.rs:575-576 | the low 32 bits are sent, and the sign is extended on the way back |
| ClipboardSync.Machine.GetFormats | src/clipboard.rs:280-313 | a read succeeds exactly if one of three attempts does and all before it found the clipboard occupied |
| ClipboardSync.Machine.GetFormatsFilter | src/clipboard.rs:328-357 | a tagged clipboard reads as nothing unless forced; the tag and empty text are left out |
| ClipboardSync.Machine.Get | src/clipboard.rs:315-326 | contents with file urls read as nothing |
| ClipboardSync.Machine.CheckClipboard | src/clipboard.rs:52-76 | the message made of what is to be shared, remembered as the last one, if the clipboard opens and can be read |
| ClipboardSync.Machine.UpdateClipboard | src/clipboard.rs:199-232 | decoded contents are written with the owner tag, nothing if there are none |
| ClipboardContents.SharedIs | src/clipboard.rs:315-357 | what is shared: nothing of a marked clipboard unless forced, nothing beside copied files, else the plain items in order |
| ClipboardContents.PlainIsShared | src/clipboard.rs:345-356 | a clipboard of text, rich text, markup, images and spreadsheets is shared as it is |
| ClipboardContents.IgnoredChangesNothing | src/clipboard.rs:345-356 | empty text, other special formats, a forced mark and file urls elsewhere change nothing of what is shared |
| ClipboardContents.FilesHideRest | src/clipboard.rs:315-326 | copied files hide whatever they come with |
| ClipboardContents.ReadAllowedIs | src/clipboard.rs:290-312 | when one of three attempts yields a read |
| ClipboardContents.WrittenIs | src/clipboard.rs:199-232 | a write replaces the clipboard by the decoded contents and the mark, a failed one changes nothing |
| ClipboardContents.MarksDiffer | src/clipboard.rs:511-516 | the marks of host and client |
| ClipboardContents.CopyIs | src/clipboard.rs:52-76 | a copy on one machine of two |
| ClipboardContents.CheckIs | src/clipboard.rs:52-76 | a check, read or not, wanted or not |
| ClipboardContents.DeliverIs | src/clipboard.rs:199-232 | a delivery, of any message waiting, written or not |
| ClipboardSync.StepDecreases | src/clipboard.rs:199-357 | every check and delivery, successful or not, in any order, lowers the measure |
| ClipboardSync.RunsQuiesce | src/clipboard.rs:199-357 | once nobody copies, a run is no longer than the measure |
| ClipboardSync.StuckIsQuiescent | src/clipboard.rs:52-76 | nothing can happen exactly if nothing is pending |
| ClipboardAgreement.StepKeepsInSyncIff | src/clipboard.rs:199-239 | with one copying side a step keeps the two in sync, a delivery exactly if it leaves the newest message, or one with the same contents, for last |
| ClipboardAgreement.QuietMeansEqual | src/clipboard.rs:208-232 | over runs of such steps: at rest the other side holds exactly what was shared |
| ClipboardAgreement.AgreeIffNewestAppliedLast | src/clipboard.rs:208-239 | with deliveries in any order: at rest the two agree exactly if what was applied last is what was sent last |
| ClipboardAgreement.TakeOverKeepsInSyncIff | src/clipboard.rs:52-76 | a copy by the other side keeps the two in sync exactly if that side has nothing left to apply and the last copier nothing left to look at |
| ClipboardAgreement.StepKeepsInSyncIffTurn | src/clipboard.rs:199-357 | any step of either side does exactly if it is by the last copier or such a change, and deliveries are in order |
| ClipboardAgreement.TurnsAgree | src/clipboard.rs:199-357 | over runs of such steps: at rest the other side holds what the last copier had to share |
| ClipboardAgreement.StandingCopyIsShared | src/clipboard.rs:199-357 | without turns: at rest, the other side holds any copy that was not overwritten |
| ClipboardAgreement.FirstCopyInSync | src/clipboard.rs:52-76 | any quiet pair starts such a run with a copy |
| ClipboardAgreement.TransmittedIsShared | src/clipboard.rs:637-682 | what arrives is what was shared, exactly if every item is faithful |
| ClipboardAgreement.OutOfOrderKeepsOldText | src/clipboard.rs:235-239 | from any quiet pair, two copies applied the other way round leave the older text, in agreement only if it is the same |
| ClipboardAgreement.CrossedCopiesSwap | src/clipboard.rs:235-239 | out of turn, from any quiet pair: two copies that cross end swapped, every message applied in order |
| VideoDecode.VideoHandler.HandleFrame | src/client.rs:1711-1761 | the counter is the function of the outcomes since the last reset, also at saturation |
| VideoDecode.VideoHandler.Reset | src/client.rs:1764-1776 | counting starts over, in the given format if any |
| VideoDecode.FailCountStep | src/client.rs:1730-1746 | one more frame: zero, three for a failed first frame, or one more |
| VideoDecode.NoFailureYet | src/client.rs:1764-1776 | counting starts at zero |
| VideoDecode.GiveUpMeaning | src/client.rs:3046-3049 | three is reached exactly if all frames since the reset failed or the last three did |
| VideoDecode.SharedMarks.CheckDecoder | src/client.rs:3044-3064 | a format is marked, and to be announced, if unusable and not yet marked |
| VideoDecode.StepKeepsInv | src/client.rs:3044-3064 | marks only grow, without duplicates, each announced or about to be |
| VideoDecode.NothingMarkedYet | src/client.rs:1878 | the start satisfies the invariant |
| VideoDecode.MarksAnnouncedOnce | src/client.rs:3044-3064 | over any interleaving of the displays: one update per mark, and the last one carries all |
| VideoDecode.OneMoreStep | src/client.rs:3044-3064 | a run of the displays' threads goes step by step |
| VideoDecode.MarkedMeaning | src/client.rs:3046-3056 | after a frame, exactly which formats are marked |
| VideoDecode.FormatChangeForgets | src/client.rs:1711-1761 | a frame of another format forgets what failed before, one without data adds nothing |
| VideoDecode.OwnThread | src/client.rs:3044-3064 | a step changes its own thread only, and what |
| RelayRequest.RequestGrant | src/client.rs:889-1025 | at most three attempts, up to the first accepted or refused; the uuid and address family are that attempt's, else the third's error; the pauses between |
| RelayRequest.AcceptedIff | src/client.rs:917-1005 | which attempts are accepted, and with what grant |
| RelayRequest.RefusedIff | src/client.rs:990-993 | which are refused |
| RelayRequest.RetryError | src/client.rs:917-1019 | with what error any other is tried again |
| RelayRequest.PauseIs | src/client.rs:889-899 | the pause after each attempt |
| RelayRequest.RequestRelay | src/client.rs:901-1066 | the relay is opened with the uuid and address family of the accepted attempt; every failure and its error |
| TlsFallback.PostRequest_ | src/common.rs:1155-1237 | works through the remaining plan, and caches the configuration that answered |
| TlsFallback.GetHttpResponse | src/common.rs:1245-1351 | the same attempts and cache as the other function, none for a bad method or header |
| TlsFallback.PostRequest | src/common.rs:1136-1152 | the plan the cache leaves open; other sites' entries stay |
| TlsFallback.FullPlan | src/common.rs:1164-1237 | rustls strict, rustls lenient, native strict, native lenient |
| TlsFallback.PartialPlans | src/common.rs:1155-1237 | what is tried with only the library or only the leniency cached |
| TlsFallback.PlanHasNoRepeats | src/common.rs:1155-1237 | one to four configurations, none twice |
| TlsFallback.PlanIsRemaining | src/common.rs:1136-1152 | every open library with every open leniency |
| TlsFallback.CachedIsFinal | src/common.rs:1177-1190 | a cached configuration is the only one tried |
| TlsFallback.WalkMeaning | src/common.rs:1191-1235 | the attempts are a prefix of the plan, all request errors but the last, all of it if the last is one too |
| TlsFallback.OnlyResponsesCached | src/common.rs:1177-1235 | only a response is cached, with its configuration and for its site |
| Throttle.ThrottledInterval.PollTick | src/common.rs:1779-1794 | passes a tick that is due and sets the next due time |
| Throttle.ReadyIsSpaced | src/common.rs:1764-1794 | passed ticks are at least the minimal interval apart |
| Throttle.WindowBound | src/common.rs:1764-1794 | a window holds at most its length over the interval, plus one |
| Throttle.SlowTicksPass | src/common.rs:1764-1794 | ticks far enough apart all pass |
| Throttle.TickPassesIff | src/common.rs:1779-1794 | a tick passes exactly if it comes the interval or more after the last that passed, or at the first due time |
| LanPeers.HandleReceivedPeers | src/lan.rs:305-344 | the loop computes the merge of all answers in turn, and writes it at the times given and at the end |
| LanPeers.WriteIsAfter | src/lan.rs:325-331 | each write is the merge of the answers so far |
| LanPeers.WritesSpaced | src/lan.rs:326-331 | the first answer is written at once, later ones more than 300 ms after the last write |
| LanPeers.WrittenOnceDue | src/lan.rs:326-331 | an answer is written exactly if it is the first or more than 300 ms after the last write |
| LanPeers.OrderAfter | src/lan.rs:316-325 | no peer twice; those who answered, then the others in the old order; none lost |
| LanPeers.RespondersByLastAnswer | src/lan.rs:316-325 | exactly those who answered, by falling index of their last answer |
| LanPeers.PeerAfter | src/lan.rs:305-325 | a peer is online exactly if it answered, with the data of its last answer and this run's addresses, plus the saved ones exactly if its id had answered before it |
| LanPeers.AddressReported | src/lan.rs:320-323 | an address is there exactly if some answer had it |
| LanPeers.EarliestAddressWins | src/lan.rs:320-323 | with the value of the earliest such answer |
| LanPeers.OneIdOnePeer | src/lan.rs:316-323 | when an id names one peer, the saved addresses are gone |
| CustomServer.GetCustomServerFromString | src/custom_server.rs:39-87 | each setting is what the last part starting with its name says, from where the offset falls; a crash off a character |
| CustomServer.StartsWithMeaning | src/custom_server.rs:69-82 | a text starts with a name exactly if its first characters spell it, each as it is, as its capital, or a k as the Kelvin sign |
| CustomServer.StemMeaning | src/custom_server.rs:40-46 | which extension is taken off, in any letter case |
| CustomServer.FindHostMeaning | src/custom_server.rs:59-60 | the place found is the first that spells `host=` |
| CustomServer.NoHostNoSettings | src/custom_server.rs:59-88 | without one the name is a licence string |
| CustomServer.OffsetDecides | src/custom_server.rs:60-87 | the settings are those of the slice from where the lower-cased offset falls, and without such a character there is a crash |
| CustomServer.WidthMeaning | src/custom_server.rs:60 | the bytes of a character |
| CustomServer.ParsePrinted | src/custom_server.rs:39-87 | after a prefix that keeps its number of bytes, any comma-free parts from the first `host=` on are read as they are |
| CustomServer.FileNameRoundTrip | src/custom_server.rs:39-87 | after such a prefix a printed name is read back exactly, in any field order and letter case, with or without further comma-separated text that starts no field |
| CustomServer.CapitalsAreRead | src/custom_server.rs:39-87 | all four settings and the extension in capitals |
| CustomServer.AsciiSameOffset | src/custom_server.rs:60 | an ASCII prefix is one |
| CustomServer.HostReadBackIff | src/custom_server.rs:59-68 | for any prefix and any text after it, the host of a name with one `host=` is read back exactly if the offset hits |
| CustomServer.DottedCapitalLosesHost | src/custom_server.rs:60 | after a capital I with a dot it is lost |
| OnlineStates.SplitOnline | src/client.rs:4168-4181 | the two lists follow the bitmap; out of range exactly if it is too short |
| OnlineStates.NeededMeaning | src/client.rs:4170-4174 | how many bytes the bits need |
| OnlineStates.BitIsShift | src/client.rs:4174 | the mask of an id is one shifted left by what is left of its byte |
| OnlineStates.FlagsRoundTrip | src/client.rs:4172-4175 | a bitmap of n bits, left to right, is read back bit by bit |
| OnlineStates.SplitIsPartition | src/client.rs:4172-4180 | the two lists are in order and together are the ids |
| StrColor.Str2Color | src/common.rs:2336-2349 | alpha above the sum of bytes times powers of 31, modulo 2^24, without bit 15 |
| StrColor.WrapStep | src/common.rs:2339-2343 | one wrapping round is one step of the unbounded recurrence |
| StrColor.PolyIsPowerSum | src/common.rs:2339-2343 | the recurrence is the sum of powers |
| Fingerprint.FingerprintRoundTrip | src/common.rs:1548-1560 | reading the digits back gives the key; the length |
| Fingerprint.GroupedAt | src/common.rs:1548-1560 | which digit is where, and a space before every fourth |
| Fingerprint.DigitsPrinted | src/common.rs:1548-1560 | the high half of each byte first |
| Fingerprint.HexCharIs | src/common.rs:1548-1560 | the digits are those of lower-case hexadecimal |

## Left out

- Sockets, encryption of streams, encoding of messages, and everything that only passes values on.
- LoginHandler.LoginConfigHandler.Initialize: does not parse the peer id and the server after `@`, choose a relay, or reset image quality, frame rate and performance mode; none of these touches a password.
- LoginHandler.LoginConfigHandler.HandlePeerInfo: leaves out keyboard mode, peer version and the two server options it copies.
- SessionOptions.OptionHandler.GetOptionMessage: leaves out image quality, frame rate and supported codecs.
- SessionOptions.OptionHandler.ToggleOption: flags are a set of names rather than a field each, and the peer's view is the set of fields that are on.
- CustomServer.GetCustomServerFromString: returns a licence string undecoded (src/custom_server.rs:88-107: base64, JSON, signatures).
- Throttle.ThrottledInterval.PollTick: takes any interval; the program's is nine tenths of the period, in floating point.
- `get_current_clipboard_msg`, sending only the text to old versions, Android's clipboard, and copying files.
- Resampling, decoding and recording of audio and video.
