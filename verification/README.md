# Verification of the remote-control platform's core

A model, in Dafny 4.11, of the parts of the platform where a mistake is hard to see, with proofs about all inputs, all
runs or all interleavings. `dafny verify dfyconfig.toml` checks everything.

Each component has a specification (functions on values) and, where the original changes state step by step, a class
or a method with loops in the original's shape whose contract is the specification. What the component is for is then
proved about the specification.

**Front end.**
`JsNumbers`, `TypedArrays` and `Octets` give JavaScript's 32-bit operators, typed arrays and big-endian octets.
`Fips180` states SHA-256 as FIPS 180-4 does, down to the roots of `Primes` its constants come from; `Sha256` is the
streaming hasher.
`AnnexB`, `BitStrings`, `Sps` and `H264Crop` cover the byte stream splitter and the parameter set parser against a
writer made from ITU-T H.264; `FrameFeed` the repacking into length-prefixed units; `YuvCanvas` the drawing loop.
`ModularArithmetic` and `RsaSigner` are the signer. `KeymapModel`, `KeymapEngine` and `KeymapSafety` are the keymap
engine, its timers and its animation callbacks; `KeymapProfiles` says which profiles are safe, `KeymapReleases` which
runs a release leaves nothing behind of, and `KeymapPlaces` where the touches land; `TouchTrace` says which touch
streams a device can follow. `KeymapHistory` (over `KeymapEffects`) and `KeymapTurns` say just which touches a key or a
turn makes, in numbers and without the engine's own functions.

**Control plane.**
`StoreModel` and `MemoryStore` are the store of enrollments, deployment credentials, tasks and revoked tokens, and the
server's handling of task messages; `EnrollmentSafety`, `TaskSafety` and `CleanSafety` are what holds over its runs,
and `EnrollmentHistory` and `TaskHistory` say from the calls' arguments alone when each of them succeeds.
`Durability` and `PostgresStore` are the durable store with its lock, snapshot and write as separate steps of many
requests, and with restarts; `Restarts` says what these do to claimed tasks. `HubModel`, `RealtimeHub`, `HubSafety` and
`HubHistory` are the realtime hub under its browsers' sessions; `AudioQueue` is the bounded queue of one listener.

**Agent.**
`CaptureModel` and `ScrcpyBridge` are the capture bridge with the goroutines of earlier launches still running;
`CaptureEffects` says what each call and packet does to it. `UploadModel`, `DeviceFiles` and `UploadSafety` are uploads
to a device, and `UploadHistory` says from the events alone which of them are committed and what is reported.
`ControlText` is the text part of the control wire format and `ShellCommand` the quoting of commands, read back by a
shell lexer.

Where a promise does not hold in general, its exact condition or a concrete input is proved instead:
`AnnexB.SplitInvertsJoin`, `FrameFeed.RecordRoundTrip`, `KeymapSafety.AccountedExactly`,
`KeymapProfiles.SafeProfilesExactly`, `KeymapReleases.NothingHeldExactly`, `KeymapPlaces.StickStaysInFrame`,
`KeymapPlaces.ZoomStaysInFrame`, `CleanSafety.StatusShowsCleaning`, `Durability.StrictExactly`,
`Restarts.ClaimedAgainExactly`, `CaptureModel.StaleSizeExactly` and `AudioQueue.LossExactly` are equivalences;
`TaskSafety.TerminalStays` with `TaskSafety.LastReportDecides` says when a terminal status is kept;
`RsaSigner.SignAdbToken` says what happens to tokens above 253 bytes; and
`KeymapProfiles.RepeatedGesturesMayBeSafe`, `TaskSafety.LateResultOverwrites`, `TaskSafety.LateFailureOverwrites`,
`TaskSafety.DispatchMayBeLate`, `Durability.LaxTokenMayBeLost`, `Restarts.ClaimIsGrantedTwice`,
`CaptureModel.StaleSizeIsReached` and `AudioQueue.LossIsReached` are inputs at which something one might expect fails.

The code decides where it and its documents differ. A comment in the store says that no secret is disclosed before its
change is acknowledged as durable; that is true of deployment credentials and of exchanges, and not of the
administrator's enrollment tokens, which ignore a failed write.

Clock readings, random values, the order in which maps are walked, the answers of the database, of the device and of
the capture process, and the interleaving of goroutines and callbacks are inputs of the model.

## Model

| member | source | states |
|---|---|---|
| `Sha256.RotrAgrees` | frontend/web-app/src/utils/sha256.js:17-19 | the signed JavaScript rotation of a word is ROTR of FIPS 180-4, section 3.2, modulo 2^32 |
| `Sha256.RoundAgrees` | frontend/web-app/src/utils/sha256.js:39-47 | one round in signed 32-bit arithmetic, with its three different truncations, is one round of section 6.2.2 step 3 on words modulo 2^32 |
| `Sha256.ScheduleAgrees` | frontend/web-app/src/utils/sha256.js:33-37 | the message schedule entry computed from signed shifts and xors is W_t of section 6.2.2 step 1 |
| `Sha256.Hasher.LoadSchedule` | frontend/web-app/src/utils/sha256.js:29-37 | the 64 schedule words of a block are exactly those of the standard, for every block |
| `Sha256.Hasher.CompressBlock` | frontend/web-app/src/utils/sha256.js:28-51 | one block turns H into the next hash value of the standard, whatever H and the block are |
| `Sha256.Hasher.constructor` | frontend/web-app/src/utils/sha256.js:21-27 | a new hasher has hashed the empty message |
| `Sha256.Hasher.Update` | frontend/web-app/src/utils/sha256.js:53-74 | after an update the hasher has hashed its old message followed by the data, so any way of splitting a message into updates gives the same state |
| `Sha256.Hasher.TopUp` | frontend/web-app/src/utils/sha256.js:56-65 | filling the partial block takes the data in order and compresses exactly when the block is full |
| `Sha256.Hasher.WholeBlocks` | frontend/web-app/src/utils/sha256.js:66-69 | blocks taken straight from the data leave fewer than 64 bytes for the buffer |
| `Sha256.Hasher.Digest` | frontend/web-app/src/utils/sha256.js:77-101 | for every message below 2^53 bytes the digest is the SHA-256 hash of all data passed to update, in hexadecimal |
| `Sha256.LengthWords` | frontend/web-app/src/utils/sha256.js:78-94 | the two length words are the 64-bit big-endian bit length of section 5.1.1, although they come from one double and two divisions |
| `Sha256.LastBlocks` | frontend/web-app/src/utils/sha256.js:80-95 | the one or two blocks the digest compresses are the padded end of the message of section 5.1.1 |
| `Sha256.HexAgrees` | frontend/web-app/src/utils/sha256.js:96-100 | a printed and padded word is two lower-case digits for each of its four big-endian octets |
| `Sha256.PaddedDigits` | frontend/web-app/src/utils/sha256.js:96-100 | a number below 16^n, printed in base 16 without leading zeros and padded to n digits, is exactly its n lowest hexadecimal digits |
| `Sha256.HashFileIncremental` | frontend/web-app/src/utils/sha256.js:107-120 | for every file and every positive chunk size the result is the hash of the whole file |
| `Fips180.ConstantsAreCubeRoots` | frontend/web-app/src/utils/sha256.js:6-15 | every constant K_t is the first 32 bits of the fractional part of the cube root of the t-th prime, as in section 4.2.2: the numbers used are prime and rise, and no smaller prime is missing |
| `Primes.FirstSixtyFour` | frontend/web-app/src/utils/sha256.js:6-15 | the numbers the constants are made from are exactly the first sixty-four primes, in order |
| `Fips180.InitialValueIsSquareRoots` | frontend/web-app/src/utils/sha256.js:22 | the initial value is the first 32 bits of the fractional parts of square roots, as in section 5.3.3 |
| `Fips180.PadZerosLeast` | frontend/web-app/src/utils/sha256.js:80-86 | the padding is the least that brings the message to a whole number of blocks |
| `AnnexB.ParseAnnexB` | frontend/web-app/src/utils/h264.js:2-15 | the splitting loop computes the scan specification for every buffer, with its jumps over start codes |
| `AnnexB.SplitInvertsJoin` | frontend/web-app/src/utils/h264.js:2-15 | for nonempty units joined by any mix of three- and four-byte start codes, the splitter returns exactly the units if and only if no unit holds 00 00 01 and none ending in 00 is followed by a three-byte code |
| `AnnexB.DeliveredAreClean` | frontend/web-app/src/utils/h264.js:2-15 | whatever the input, no delivered unit is empty or contains a start code |
| `Sps.UnescapeEscape` | frontend/web-app/src/utils/h264.js:28-33 | removing emulation prevention from the escaping of section 7.3.1 gives back every byte string |
| `BitStrings.ReadUeExact` | frontend/web-app/src/utils/h264.js:36-46 | an Exp-Golomb read returns k exactly when the bits at the cursor are the code of k, for every code number below 2^31 - 1 |
| `BitStrings.ReadUExact` | frontend/web-app/src/utils/h264.js:34-39 | an n-bit read returns a value exactly when its n bits stand at the cursor |
| `Sps.ReadSpsExact` | frontend/web-app/src/utils/h264.js:47-65 | the reader accepts exactly the bit strings that begin with a parameter set written by section 7.3.2.1.1, and returns that one |
| `H264Crop.Unescape` | frontend/web-app/src/utils/h264.js:28-33 | the byte loop computes the unescaping of the unit |
| `H264Crop.SpsReader.Read` | frontend/web-app/src/utils/h264.js:34-39 | the moving bit cursor reads an unsigned value most significant bit first, or fails past the end |
| `H264Crop.SpsReader.Ue` | frontend/web-app/src/utils/h264.js:40-46 | the Exp-Golomb loop with its 31-zero limit computes the specification reader |
| `H264Crop.ReadH264Crop` | frontend/web-app/src/utils/h264.js:23-67 | the whole parser, with all its early returns, computes the picture of the parameter set in the unit, or null |
| `H264Crop.ReadsWhatIsWritten` | frontend/web-app/src/utils/h264.js:23-67 | for every written, escaped Baseline, Main or Extended parameter set with code numbers below 2^31 - 1 and any bits after it, the parser returns exactly its coded size, cropped size and offsets, and null exactly when the picture is empty or above 8192 |
| `H264Crop.AcceptsOnlyWritten` | frontend/web-app/src/utils/h264.js:23-67 | whatever the parser accepts begins with a written parameter set whose picture is the one returned |
| `H264Crop.CropInside` | frontend/web-app/src/utils/h264.js:55-65 | a returned rectangle is nonempty and lies inside a coded picture of at most 8192 by 8192 whose sides are multiples of 16 |
| `H264Crop.WrittenUnitIsClean` | frontend/web-app/src/utils/h264.js:23-33 | an escaped unit contains no start code, and with a stop bit does not end in 00, so the splitter delivers it whole |
| `YuvCanvas.DrawYuv420` | frontend/web-app/src/utils/h264.js:69-91 | every read is in range, the 4 x width x height output bytes are exactly the converted pixels of the window, and every position is written once, in order |
| `YuvCanvas.ReadCropFits` | frontend/web-app/src/utils/h264.js:55-71 | a crop the parser returned fits the picture it is used for, and without a crop the whole picture does |
| `YuvCanvas.ReadsInside` | frontend/web-app/src/utils/h264.js:75-85 | the luma and both chroma positions of every pixel lie inside a buffer of width x height x 3/2 |
| `YuvCanvas.PixelIsRead` | frontend/web-app/src/utils/h264.js:75-85 | the flat indices the loop uses are inside the buffer and are the samples of the Y, U and V planes at the pixel and its 2 x 2 block |
| `YuvCanvas.SlotOrder` | frontend/web-app/src/utils/h264.js:72-90 | the output slots of different pixels do not overlap |
| `YuvCanvas.GreyIsGrey` | frontend/web-app/src/utils/h264.js:81-86 | without chroma a pixel is as grey as its luma, and opaque |
| `YuvCanvas.ColoursTell` | frontend/web-app/src/utils/h264.js:81-86 | more V makes a pixel no less red and no more green, and leaves its blue; more U makes it no less blue and no more green, and leaves its red; more Y darkens nothing; the ends of the ranges show that each of these tells |
| `YuvCanvas.ClampIsNearest` | frontend/web-app/src/utils/h264.js:81-86 | a stored channel is the byte nearest to its value |
| `FrameFeed.SortUnits` | frontend/web-app/src/composables/useWebSocketStream.js:294-308 | the loop keeps the last parameter sets and all type 1 and 5 units in order |
| `FrameFeed.SlicesExactly` | frontend/web-app/src/composables/useWebSocketStream.js:299-308 | a unit is taken as often as it is there if its first byte says type 1 or 5, and no other is |
| `FrameFeed.SlicesInOrder` | frontend/web-app/src/composables/useWebSocketStream.js:299-308 | and they are taken in order |
| `FrameFeed.LastOfExactly` | frontend/web-app/src/composables/useWebSocketStream.js:299-308 | the parameter set used is one after which no unit has its type, and there is none only if no unit has it |
| `FrameFeed.FirstOfExactly` | frontend/web-app/src/composables/useWebSocketStream.js:279-282 | the parameter set whose picture is used is one before which no unit has its type |
| `FrameFeed.StoreLength` | frontend/web-app/src/composables/useWebSocketStream.js:359-362 | four signed shifts and masks store a length as four big-endian octets modulo 2^32 |
| `FrameFeed.Repack` | frontend/web-app/src/composables/useWebSocketStream.js:349-366 | the buffer is filled without a gap by each unit behind its four-byte length |
| `FrameFeed.UnitsOfAvcc` | frontend/web-app/src/composables/useWebSocketStream.js:349-366 | dividing a filled buffer by its length prefixes (section 5.2.3 of ISO/IEC 14496-15) gives back exactly the units |
| `FrameFeed.FrameRoundTrip` | frontend/web-app/src/composables/useWebSocketStream.js:293-366 | for every unambiguous stream the repacked frame divides into exactly its type 1 and 5 units, in order |
| `FrameFeed.BuildRecord` | frontend/web-app/src/composables/useWebSocketStream.js:315-331 | the configuration record is filled without a gap, with JavaScript reading 0 past the end of a short parameter set |
| `FrameFeed.RecordTells` | frontend/web-app/src/composables/useWebSocketStream.js:315-331 | the record has version 1, its set's profile, compatibility and level, lengths of four bytes and one set |
| `FrameFeed.RecordRoundTrip` | frontend/web-app/src/composables/useWebSocketStream.js:315-331 | a decoder gets both parameter sets back from the record if and only if both lengths fit 16 bits |
| `FrameFeed.CropOfStream` | frontend/web-app/src/composables/useWebSocketStream.js:279-282 | a parameter set written into a stream, however its neighbours are delimited, is the one whose picture a key frame uses |
| `RsaSigner.PowerMod` | frontend/web-app/src/utils/cryptoPolyfill.js:27-36 | square-and-multiply returns b^e mod m for all b, e and m > 1; for m = 1 and e = 0 it returns 1 |
| `RsaSigner.HalvingStep` | frontend/web-app/src/utils/cryptoPolyfill.js:30-34 | one halving of the exponent keeps result times base to the exponent, modulo m |
| `RsaSigner.BigintToBytes` | frontend/web-app/src/utils/cryptoPolyfill.js:39-47 | the 256 bytes filled from the end are the big-endian octets of the number |
| `RsaSigner.Frame` | frontend/web-app/src/utils/cryptoPolyfill.js:50-60 | the padded buffer is 00 01 FF.. 00 token; a token above 256 bytes is refused |
| `RsaSigner.ToInteger` | frontend/web-app/src/utils/cryptoPolyfill.js:62-66 | the shift-and-add loop is OS2IP of RFC 8017, section 4.2 |
| `RsaSigner.FramedBelowModulus` | frontend/web-app/src/utils/cryptoPolyfill.js:50-66 | the padded integer is below the modulus for every token of at most 255 bytes |
| `RsaSigner.SignAdbToken` | frontend/web-app/src/utils/cryptoPolyfill.js:50-70 | for tokens of at most 253 bytes the signature is I2OSP(RSASP1(OS2IP(00 01 FF.. 00 token)), 256) of RFC 8017, and for every length it is the power of what was framed |
| `ControlText.TruncateUtf8` | agent/internal/agent/control.go:263-272 | the shrinking loop returns the specified prefix of every byte string |
| `ControlText.TruncationIsTight` | agent/internal/agent/control.go:263-272 | the result is the longest valid UTF-8 prefix within the limit, the whole value exactly when that is valid and fits, and at most three bytes short when a valid value is cut |
| `ControlText.CutIsClose` | agent/internal/agent/control.go:263-272 | cutting a valid string anywhere leaves a valid prefix at most three bytes shorter |
| `ControlText.EncodeClipboard` | agent/internal/agent/control.go:295-310 | a message has at most 2^18 bytes and reads back as its sequence, paste flag and truncated text; only a bad sequence is an error |
| `ControlText.EncodeText` | agent/internal/agent/control.go:107-118 | a text message reads back as the text cut to 300 bytes; only empty text is an error |
| `ControlText.ClipboardRoundTrip` | agent/internal/agent/control.go:295-310 | the length field announces exactly the bytes that follow, for every sequence number, flag and valid text |
| `ShellCommand.Command` | internal/adb/client.go:180-189 | the loop quotes every word and joins them, and fails exactly when a word holds a NUL |
| `ShellCommand.LexCommand` | internal/adb/client.go:178-189 | a POSIX shell lexer reads back exactly the words, for every list of words, including empty ones and ones made of quotes |
| `TouchTrace.SafeIsGestures` | frontend/web-app/src/utils/keymapEngine.js:107-235 | a touch stream is safe if and only if every touch has a pointer and every pointer makes one gesture DOWN MOVE* with at most one final UP |
| `KeymapEngine.Engine.constructor` | frontend/web-app/src/utils/keymapEngine.js:2-16 | a new engine holds nothing and numbers pointers from 10 |
| `KeymapEngine.Engine.HandleTap` | frontend/web-app/src/utils/keymapEngine.js:107-128 | a tap presses, or lifts, its own pointer once, as the specification says; `KeymapHistory.FingersExactly` says what that sends |
| `KeymapEngine.Engine.HandleJoystick` | frontend/web-app/src/utils/keymapEngine.js:130-181 | the stick tracks its four keys and its pointer goes down, moves and comes up as the specification says |
| `KeymapEngine.Engine.MoveStick` | frontend/web-app/src/utils/keymapEngine.js:147-180 | neutral lifts, leaving neutral presses at the centre and moves to the edge, and a turn moves |
| `KeymapEngine.Engine.HandleSwipe` | frontend/web-app/src/utils/keymapEngine.js:183-235 | a swipe presses once and leaves an animation callback that remembers its pointer; release lifts |
| `KeymapEngine.Engine.RunFrame` | frontend/web-app/src/utils/keymapEngine.js:204-222 | an animation callback moves its pointer only if it still is the one held, and asks for another frame until done |
| `KeymapEngine.Engine.HandleKeyEvent` | frontend/web-app/src/utils/keymapEngine.js:61-105 | the mappings answer in order, and the event is consumed if and only if one of them answers its key |
| `KeymapEngine.Engine.HandleWheelEvent` | frontend/web-app/src/utils/keymapEngine.js:240-251 | every wheel mapping handles a turn, in order, and the event is consumed if and only if there is one |
| `KeymapEngine.Engine.HandleWheel` | frontend/web-app/src/utils/keymapEngine.js:253-362 | a turn of a scroll or zoom wheel changes pointers, distance and timer as specified |
| `KeymapEngine.Engine.PrepareWheel` | frontend/web-app/src/utils/keymapEngine.js:254-264 | a wheel is created when missing and its pending timer is cleared |
| `KeymapEngine.Engine.BeginScroll` | frontend/web-app/src/utils/keymapEngine.js:267-275 | a scroll starts with one clamped press |
| `KeymapEngine.Engine.ContinueScroll` | frontend/web-app/src/utils/keymapEngine.js:277-296 | a scroll moves on, and ends at an edge or after a third of the height, else leaves a timer |
| `KeymapEngine.Engine.BeginZoom` | frontend/web-app/src/utils/keymapEngine.js:304-322 | a zoom starts with two presses on a diagonal |
| `KeymapEngine.Engine.ContinueZoom` | frontend/web-app/src/utils/keymapEngine.js:324-361 | a zoom moves both pointers, and lifts both at a limit, else leaves a timer |
| `KeymapEngine.Engine.RunTimeout` | frontend/web-app/src/utils/keymapEngine.js:290-295 | a timer that runs out lifts what its captured wheel state still holds |
| `KeymapEngine.Engine.ReleaseTaps` | frontend/web-app/src/utils/keymapEngine.js:24-29 | every tap and swipe pointer is lifted once and forgotten, in any order of the map |
| `KeymapEngine.Engine.ReleaseJoysticks` | frontend/web-app/src/utils/keymapEngine.js:31-38 | every stick is lifted if it is down, and centred |
| `KeymapEngine.Engine.ReleaseWheelPointers` | frontend/web-app/src/utils/keymapEngine.js:40-51 | every wheel loses its timer and its pointers are lifted, then the wheels are forgotten |
| `KeymapEngine.Engine.ReleaseAll` | frontend/web-app/src/utils/keymapEngine.js:24-51 | a release is the three walks one after the other |
| `KeymapEngine.Engine.UpdateProfile` | frontend/web-app/src/utils/keymapEngine.js:18-22 | a profile change is the change followed by a release |
| `KeymapSafety.AccountedExactly` | frontend/web-app/src/utils/keymapEngine.js:18-362 | over every run of keys, turns, timers, frames, profile changes and releases, under any profiles: the pointers that are down are always exactly those the engine stores, each in one place, if and only if no zoom ever meets a wheel that holds one pointer of a pinch without the other |
| `KeymapSafety.StepExactly` | frontend/web-app/src/utils/keymapEngine.js:61-362 | from a state that keeps the invariant a step keeps it, or, exactly when a zoom met half a pinch, leaves pointers unaccounted for |
| `KeymapProfiles.TouchesAreSafe` | frontend/web-app/src/utils/keymapEngine.js:18-362 | in every run in which no profile shares an id between a scroll and a zoom, each pointer makes one gesture under a fresh id of at least 10, even with stale swipe frames, and the pointers that are down are those the engine knows |
| `KeymapReleases.NothingHeldExactly` | frontend/web-app/src/utils/keymapEngine.js:18-51 | for every run under any profiles and a profile change or release at its end: no pointer is left down if and only if no zoom met a wheel that held its second pointer alone; no timer is pending in any case |
| `KeymapSafety.ReleaseEmpties` | frontend/web-app/src/utils/keymapEngine.js:24-51 | a release lifts everything that is held, in any order of walking the maps |
| `KeymapReleases.StepCarries` | frontend/web-app/src/utils/keymapEngine.js:61-362 | whatever was lost stays lost, and a step loses a pointer exactly when a zoom overwrites it |
| `KeymapSafety.PaintKeeps` | frontend/web-app/src/utils/keymapEngine.js:204-222 | an animation callback keeps the invariant even when its pointer was lifted or replaced |
| `KeymapSafety.ExpireKeeps` | frontend/web-app/src/utils/keymapEngine.js:290-295 | a timer that runs out keeps the invariant |
| `KeymapSafety.ZoomMovesNothing` | frontend/web-app/src/utils/keymapEngine.js:324-361 | a zoom on a wheel that holds the first pointer alone, as a scroll leaves it, moves a pointer that does not exist |
| `KeymapSafety.ZoomForgets` | frontend/web-app/src/utils/keymapEngine.js:304-322 | a zoom on a wheel that holds the second pointer alone forgets that pointer while it is down |
| `KeymapProfiles.SharedBreaks` | frontend/web-app/src/utils/keymapEngine.js:253-362 | one scroll and one zoom under one id, wherever they are placed and in either order, break every such profile within two turns in any frame of some height |
| `KeymapProfiles.SafeProfilesExactly` | frontend/web-app/src/utils/keymapEngine.js:253-362 | for every profile that gives no wheel the same gesture twice and every frame of some height: all its runs are accounted for, in this frame and in all, if and only if no id is shared by a scroll and a zoom |
| `KeymapProfiles.RepeatedGesturesMayBeSafe` | frontend/web-app/src/utils/keymapEngine.js:253-362 | with repeated gestures sharing is not always fatal: a profile whose one wheel zooms, scrolls twice and zooms again, at places inside the frame, and that is accounted for in every run |
| `KeymapPlaces.RunsStayInFrame` | frontend/web-app/src/utils/keymapEngine.js:107-361 | in every run over a frame of fixed size and a clock that does not go back, taps, swipes and scrolls placed in proportions of the frame, sticks whose edges lie in it wherever their keys take them, and zooms in a frame that is wide enough, never touch outside it, not from pending frames or timers either, nor do releases |
| `KeymapPlaces.BetweenWithin` | frontend/web-app/src/utils/keymapEngine.js:204-216 | a swipe in progress stays between its two ends |
| `KeymapPlaces.ScrollOnFramed` | frontend/web-app/src/utils/keymapEngine.js:277-296 | a scroll that goes on, its end and its pending lift are inside the frame |
| `KeymapPlaces.PinchInside` | frontend/web-app/src/utils/keymapEngine.js:315-335 | a pinch lies in the frame if and only if its diagonal fits both sides |
| `KeymapPlaces.ZoomStaysInFrame` | frontend/web-app/src/utils/keymapEngine.js:299-361 | over all runs of a zoom wheel in a frame: no touch falls outside it if and only if the width is at least 0.8 x cos 45 degrees of the height |
| `KeymapPlaces.ZoomRadius` | frontend/web-app/src/utils/keymapEngine.js:324-337 | whatever is wanted, the radius of a zoom that goes on is between 0.05 and 0.40 of the height |
| `KeymapPlaces.StickStaysInFrame` | frontend/web-app/src/utils/keymapEngine.js:130-181 | over all runs of a stick with any keys, centre and radius in a frame: no touch falls outside if and only if its middle lies inside and so does its edge in every direction that has a key of its own |
| `KeymapPlaces.OnTheEdge` | frontend/web-app/src/utils/keymapEngine.js:147-180 | a tilted stick puts its pointer on its edge, straight for one direction and on the diagonal for two |
| `KeymapHistory.FingersExactly` | frontend/web-app/src/utils/keymapEngine.js:107-235 | since a profile was taken over, after any run at all: a key that one tap or swipe alone obeys sends, when pressed and not held, exactly one DOWN of a finger never used before at (pos.x x width, pos.y x height), and when let go exactly one UP of that same finger, at the same place for a tap and at the end for a swipe, after which it is not down; every other press, release or repeat of it sends nothing |
| `KeymapHistory.SticksExactly` | frontend/web-app/src/utils/keymapEngine.js:130-181 | since a profile was taken over, the keys of a stick that one mapping alone obeys send exactly: DOWN of a fresh finger in the middle and MOVE to the rim when they first tilt it, MOVE of that finger to the rim in the new direction while it stays tilted, UP of it in the middle when they balance, and nothing while they leave it in the middle; directions are those of the keys last pressed and not let go |
| `KeymapHistory.FrameTells` | frontend/web-app/src/utils/keymapEngine.js:204-222 | a frame of a swipe moves its finger to the part of the way that is the part of the time, and waits for another exactly until it is there; without its finger it sends nothing |
| `KeymapHistory.SwipeQueues` | frontend/web-app/src/utils/keymapEngine.js:183-226 | a pressed swipe waits for a first frame, with its ends and 150 ms unless it has a duration |
| `KeymapHistory.CommandsExactly` | frontend/web-app/src/utils/keymapEngine.js:73-79 | a key gives the commands of all mappings it names, in order, exactly when it is pressed and not repeated |
| `KeymapHistory.NothingHappens` | frontend/web-app/src/utils/keymapEngine.js:61-105 | repeats, keys that nothing obeys, and anything without a profile change nothing |
| `KeymapEffects.LowerExactly` | frontend/web-app/src/utils/keymapEngine.js:64-98 | two keys are the same in lower case exactly if they differ only in the case of letters |
| `KeymapEffects.ReleaseTells` | frontend/web-app/src/utils/keymapEngine.js:24-51 | a release sends nothing but fingers going up in the corner, and leaves nothing pressed, pushed or turned |
| `KeymapTurns.ScrollsExactly` | frontend/web-app/src/utils/keymapEngine.js:253-297 | in numbers, the touches, finger, distance and timer that a turn makes of a scroll: 15% of the height to begin, 6% a turn, up at the edge or at 30% |
| `KeymapTurns.ZoomsExactly` | frontend/web-app/src/utils/keymapEngine.js:299-361 | in numbers, the touches, fingers, radius and timer that a turn makes of a zoom: from 7% or 38% of the height by 5% a turn, up at 5% or 40% |
| `KeymapTurns.TimeoutTells` | frontend/web-app/src/utils/keymapEngine.js:290-295 | a timer lifts the finger it was left for, or both, at the places they were left, if the first is still down |
| `KeymapTurns.TurnCancels` | frontend/web-app/src/utils/keymapEngine.js:261-264 | a turn takes away the timer that was pending |
| `MemoryStore.MemoryStore.CreateDeploymentCredential` | backend/internal/controlplane/deployment_credentials_store.go:55-80 | a credential is stored with its digest and deadline, or the request is refused |
| `MemoryStore.MemoryStore.RevokeDeploymentCredential` | backend/internal/controlplane/deployment_credentials_store.go:82-96 | a revocation marks the credential once and is idempotent |
| `MemoryStore.MemoryStore.IssueDeploymentEnrollment` | backend/internal/controlplane/deployment_credentials_store.go:98-132 | an enrollment is issued only on a matching active credential, until the earlier of its lifetime and the deadline |
| `MemoryStore.MemoryStore.CreateEnrollment` | backend/internal/controlplane/store.go:503-511 | an administrator's enrollment is stored under the digest of a fresh token; `EnrollmentHistory.ExchangeExactly` says whom it lets in, and until when |
| `MemoryStore.MemoryStore.ExchangeEnrollment` | backend/internal/controlplane/store.go:513-533 | the exchange checks expiry, binding and issuer, removes the enrollment and mints a credential |
| `MemoryStore.MemoryStore.ValidateAgentToken` | backend/internal/controlplane/store.go:535-540 | a token is valid for exactly the device it was minted for |
| `MemoryStore.MemoryStore.UserTokenRevoked` | backend/internal/controlplane/user_sessions.go:14-19 | a token is revoked until the revocation expires |
| `MemoryStore.MemoryStore.CreateTask` | backend/internal/controlplane/store.go:614-634 | a new task is queued for each of its devices |
| `MemoryStore.MemoryStore.PendingTasks` | backend/internal/controlplane/store.go:659-674 | the list is sorted, without repetition, and holds exactly the queued tasks that have not expired |
| `MemoryStore.MemoryStore.ClaimTask` | backend/internal/controlplane/store.go:676-695 | a claim leases a queued, unexpired task and changes nothing else |
| `MemoryStore.MemoryStore.SetTaskStatus` | backend/internal/controlplane/store.go:697-712 | a status is set whatever the old one was |
| `MemoryStore.MemoryStore.MarkLeasedUnknown` | backend/internal/controlplane/store.go:714-724 | every leased or running task of a device becomes unknown, and no other changes |
| `MemoryStore.MemoryStore.Clean` | backend/internal/controlplane/store.go:764-788 | exactly the expired revocations and enrollments go, the queued devices of expired tasks are marked, and old audits are dropped |
| `EnrollmentHistory.ExchangeExactly` | backend/internal/controlplane/store.go:503-533 | over every run with a monotone clock an exchange succeeds if and only if its token was handed out by an earlier call whose device argument is the exchanging device, or "" for an administrator's, and whose time and lifetime arguments are not over, the token was never exchanged, and the deployment token it was issued on, if any, still stands; the credential is for the exchanging device |
| `EnrollmentHistory.IssuedExactly` | backend/internal/controlplane/deployment_credentials_store.go:98-132 | an enrollment is issued if and only if the device name is not blank, has at most 128 bytes and no NUL, CR or LF, the lifetime is positive and at most 15 minutes, and the deployment token stands: handed out by an earlier creation whose lifetime argument, if positive, is not over, and not revoked since |
| `EnrollmentHistory.StandsExactly` | backend/internal/controlplane/deployment_credentials_store.go:98-132 | a deployment token stands by the history of calls if and only if the stored credential of its number has its hash and is active |
| `EnrollmentHistory.CredentialsExactly` | backend/internal/controlplane/deployment_credentials_store.go:55-96 | every stored credential was made by one earlier call and has its hash, its scope, the deadline of its call's time and lifetime, and is revoked exactly if a call revoked it since |
| `EnrollmentHistory.MadeExactly` | backend/internal/controlplane/deployment_credentials_store.go:55-80 | a credential is made if and only if its trimmed name has 1 to 80 characters and its lifetime is not negative |
| `EnrollmentHistory.RevokesExactly` | backend/internal/controlplane/deployment_credentials_store.go:82-96 | a revocation succeeds if and only if the credential was made, however often it was revoked |
| `EnrollmentHistory.TrimTells` | backend/internal/controlplane/deployment_credentials_store.go:55-60 | trimming takes off the spaces at both ends and nothing more |
| `EnrollmentHistory.ValidExactly` | backend/internal/controlplane/store.go:535-540 | a token is told to be a device's credential if and only if an earlier exchange minted it for that device |
| `EnrollmentHistory.RevokedExactly` | backend/internal/controlplane/user_sessions.go:7-19 | a user's token is told to be revoked if and only if its last revocation has not expired, whatever was cleaned in between |
| `EnrollmentHistory.SecretsAreFresh` | backend/internal/controlplane/store.go:503-533 | no secret is handed out twice, be it of a deployment credential, an enrollment or an agent |
| `EnrollmentHistory.AuditedExactly` | backend/internal/controlplane/deployment_credentials_store.go:55-132 | over every run each deployment credential made, revoked for the first time or issued on leaves exactly one event, with who, what, on whom and when, and no call but a cleaning changes the trail otherwise |
| `EnrollmentSafety.SpentOnce` | backend/internal/controlplane/store.go:513-533 | no token is exchanged twice |
| `EnrollmentSafety.ExchangedInTime` | backend/internal/controlplane/deployment_credentials_store.go:98-132 | an exchange of an issued enrollment happens less than 15 minutes after the issue, before the issuer's deadline, and while the issuer is active |
| `EnrollmentSafety.IssuedInTime` | backend/internal/controlplane/deployment_credentials_store.go:98-132 | an issued enrollment comes from an active credential whose digest matches, and outlives neither its deadline nor 15 minutes |
| `EnrollmentSafety.RevokedIssuerAdmitsNone` | backend/internal/controlplane/deployment_credentials_store.go:82-132 | after a revocation nothing is issued by the credential and no enrollment it issued is exchanged |
| `EnrollmentSafety.MintedStaysValid` | backend/internal/controlplane/store.go:513-540 | an agent credential once minted stays valid in every later state, whatever is revoked or cleaned |
| `EnrollmentSafety.AgentsWereAdmitted` | backend/internal/controlplane/store.go:513-540 | a valid agent credential was minted by an earlier exchange for that device |
| `EnrollmentSafety.OpenedStays` | backend/internal/controlplane/store.go:503-533 | an opened enrollment is in the store as it was opened until it is spent or expires |
| `TaskSafety.PendingIsClaimable` | backend/internal/controlplane/store.go:659-695 | a task is listed as pending if and only if a claim would be granted at that instant and it has an expiry |
| `TaskHistory.ClaimsExactly` | backend/internal/controlplane/store.go:614-695 | over every run with a monotone clock a claim is granted if and only if an earlier call made the task for the device, its expiry is not over, and since it was made or put back the device has neither claimed it nor reported on it |
| `TaskHistory.ListsExactly` | backend/internal/controlplane/store.go:659-674 | a task is listed for a device under just these conditions, if it has an expiry |
| `TaskHistory.RepliesExactly` | backend/internal/controlplane/store.go:614-712 | a task is made for a kind and at least one device, and a status is set, to just what was asked, of a task that was made for the device; otherwise both fail |
| `TaskSafety.NeverRequeued` | backend/internal/controlplane/server.go:713-742 | under any order of claims, messages, disconnects and cleaning a device that has left a task's queue never comes back |
| `TaskSafety.DispatchedOnceInTime` | backend/internal/controlplane/server.go:713-730 | with a claim and its dispatch as separate steps of many connections, a task is dispatched to a device at most once, and only if its claim was granted before its expiry |
| `TaskSafety.DispatchMayBeLate` | backend/internal/controlplane/server.go:713-730 | the dispatch itself may come after the expiry: a run in which it does |
| `TaskSafety.TerminalStays` | backend/internal/controlplane/server.go:713-742 | over every order of claims, messages and disconnects of any connections a terminal record keeps its status, result and time for as long as its device sends no start and no result for that task and no claim of it finds its asset missing |
| `TaskSafety.LastReportDecides` | backend/internal/controlplane/server.go:717-742 | otherwise the last such write decides: after a result, or a claim whose asset is missing, the record says so, whatever was there before; after a start it is running until the device is given up, and then unknown |
| `TaskSafety.LateResultOverwrites` | backend/internal/controlplane/server.go:735-742 | so a terminal status is not final: a run in which a first result is there and a second one replaces it |
| `TaskSafety.LateFailureOverwrites` | backend/internal/controlplane/server.go:715-726 | nor is it final without any message: a claim waits for its asset, a newer connection of the device ends, and the status it left is overwritten when the asset is missing |
| `MemoryStore.Server.HandleTaskClaim` | backend/internal/controlplane/server.go:713-718 | a granted claim leases the task, and its goroutine goes on with it |
| `MemoryStore.Server.AnswerTaskClaim` | backend/internal/controlplane/server.go:719-730 | later the task is dispatched, or marked failed when its asset is missing |
| `MemoryStore.Server.HandleTaskResult` | backend/internal/controlplane/server.go:735-742 | a result sets success or failure |
| `MemoryStore.Server.HandleTaskStarted` | backend/internal/controlplane/server.go:731-734 | a start message sets the running status |
| `CleanSafety.CleanUnobservable` | backend/internal/controlplane/store.go:764-788 | inserting a cleaning anywhere in a run changes no later answer of any call, but for the task that a status change returns, where devices of a task past its expiry may be shown as expired instead of queued |
| `CleanSafety.CallAgrees` | backend/internal/controlplane/user_sessions.go:7-19 | stores that agree on everything that has not expired, and on expired tasks up to queued or expired, answer alike and stay in agreement |
| `CleanSafety.StatusShowsCleaning` | backend/internal/controlplane/store.go:697-712 | the task that a status change returns differs after a cleaning if and only if the task is past its expiry and another of its devices was still queued |
| `CleanSafety.CleanAgrees` | backend/internal/controlplane/store.go:764-788 | cleaning keeps everything that has not expired |
| `CleanSafety.ExpiredGo` | backend/internal/controlplane/store.go:764-788 | exactly the enrollments and revocations whose time is over go, and the others stay as they are |
| `CleanSafety.ExpiredMarked` | backend/internal/controlplane/store.go:764-788 | exactly the devices that still wait for a task whose time is over are marked expired, and nothing else of any task changes |
| `CleanSafety.AuditsKept` | backend/internal/controlplane/store.go:764-788 | an audit event is kept as often as it was there if it is newer than the given time, and no other is |
| `CleanSafety.AuditsInOrder` | backend/internal/controlplane/store.go:764-788 | and they are kept in order |
| `PostgresStore.PostgresStore.Load` | backend/internal/controlplane/postgres_store.go:57-157 | a new process has in memory what the row holds, and no request |
| `PostgresStore.PostgresStore.BeginRequest` | backend/internal/controlplane/deployment_credentials_store.go:140-143 | operations that disclose secrets refuse to start while the last write has failed; when that is, `Durability.RefusedExactly` says |
| `PostgresStore.PostgresStore.CallInner` | backend/internal/controlplane/postgres_store.go:206-358 | each call changes the store in memory as the memory store does |
| `PostgresStore.PostgresStore.MutateInner` | backend/internal/controlplane/postgres_store.go:303-309 | the change is made in memory; an error or a read ends the request without a write |
| `PostgresStore.PostgresStore.SnapshotJSON` | backend/internal/controlplane/postgres_store.go:166-183 | the document is everything in memory at one instant |
| `PostgresStore.PostgresStore.WriteRow` | backend/internal/controlplane/postgres_store.go:185-196 | the row becomes the document unless the write is refused, and the health mark is the outcome |
| `PostgresStore.PostgresStore.UnlockAndAnswer` | backend/internal/controlplane/postgres_store.go:303-315 | a strict operation passes a failed write on, the others drop it |
| `Durability.RowIsAlwaysPast` | backend/internal/controlplane/postgres_store.go:105-196 | in every interleaving of any number of requests, and over any number of restarts, the row is a past state of the memory |
| `Durability.VersionNeverGoesBack` | backend/internal/controlplane/postgres_store.go:185-196 | the version of the row never goes backwards, and the calls in it are never taken back, over any number of restarts |
| `Durability.AcknowledgedIsDurable` | backend/internal/controlplane/postgres_store.go:303-315 | once one of the five operations that promise it has answered with success, every later row and every later memory contains its change, over any number of restarts |
| `Durability.DisclosedSecretIsDurable` | backend/internal/controlplane/deployment_credentials_store.go:138-177 | a deployment secret, an agent credential or an issued enrollment that was disclosed is valid, or was opened, in every later row |
| `Durability.RevocationIsDurable` | backend/internal/controlplane/deployment_credentials_store.go:82-96 | an acknowledged revocation of a deployment credential is in every later row |
| `Durability.TokenRevocationIsDurable` | backend/internal/controlplane/user_sessions.go:7-19 | an acknowledged revocation of a user token is in force in every later row until it expires, unless a later call shortened it |
| `Durability.StrictExactly` | backend/internal/controlplane/postgres_store.go:298-315 | from every state that is reached, for every operation that writes: a success it answers is in the row whatever becomes of its write, if and only if it is one of the five that promise it: creating, revoking and issuing on a deployment credential, exchanging, and revoking a user token |
| `Durability.LaxTokenMayBeLost` | backend/internal/controlplane/postgres_store.go:298-302 | such as an administrator's enrollment token, which is returned although its write was refused |
| `Durability.RequestEffect` | backend/internal/controlplane/postgres_store.go:298-315 | an undisturbed request that writes changes memory and, unless the write is refused, the row, and is answered with what the memory store said, or with an error exactly if it promised to be remembered and the write did not work |
| `Durability.HealthExactly` | backend/internal/controlplane/postgres_store.go:185-196 | in every interleaving the store is healthy if and only if every write that failed was followed by one that worked, or by a new process |
| `Durability.RefusedExactly` | backend/internal/controlplane/deployment_credentials_store.go:138-177 | creating a deployment credential, issuing on it and exchanging are refused at once, without any change, if and only if a write failed and none has worked since; every other operation may begin |
| `Restarts.ClaimedAgainExactly` | backend/internal/controlplane/postgres_store.go:342-348 | from every state that is reached, for every granted claim: after a restart its device waits for the task again if and only if the row has the task and is from before the claim |
| `Restarts.ClaimIsGrantedTwice` | backend/internal/controlplane/postgres_store.go:342-348 | and it happens: a run in which two processes grant the same claim |
| `ScrcpyBridge.ScrcpyBridge.Start` | agent/internal/agent/scrcpy.go:47-63 | a start keeps, updates, replaces or launches, with each early return; `CaptureEffects.ReplacedExactly` says which |
| `ScrcpyBridge.ScrcpyBridge.StartLocked` | agent/internal/agent/scrcpy.go:65-101 | a launch gets its own context and ready channel and clears codec and error |
| `ScrcpyBridge.ScrcpyBridge.StopLocked` | agent/internal/agent/scrcpy.go:109-155 | a stop forgets the process, closes the open channel and control socket and cancels the context, also when the process does not stop |
| `ScrcpyBridge.ScrcpyBridge.CaptureFailed` | agent/internal/agent/scrcpy.go:178-197 | a failure is recorded and published only for the running process |
| `ScrcpyBridge.ScrcpyBridge.SetControlConn` | agent/internal/agent/scrcpy.go:324-332 | a control socket is kept only while its context is live |
| `ScrcpyBridge.ScrcpyBridge.ClearControlConn` | agent/internal/agent/scrcpy.go:334-340 | a socket clears only itself |
| `ScrcpyBridge.ScrcpyBridge.OnConfigPacket` | agent/internal/agent/scrcpy.go:261-273 | a config packet sets the codec and closes the ready channel only for the running process |
| `CaptureModel.ReportedOnce` | agent/internal/agent/scrcpy.go:83-99 | over all interleavings a launch is reported failed at most once |
| `CaptureModel.NeverReportedAfterStop` | agent/internal/agent/scrcpy.go:83-99 | and never if it was stopped or replaced before its failure was recorded |
| `CaptureModel.FieldsStemFromTheLatest` | agent/internal/agent/scrcpy.go:47-155 | codec and error stem from the latest launch, and a control socket from the running one |
| `CaptureModel.ReadyClosedOnce` | agent/internal/agent/scrcpy.go:109-116 | the ready channel of a launch is closed at most once, and has been closed when the launch has ended |
| `CaptureModel.RunsAreSafe` | agent/internal/agent/scrcpy.go:47-340 | the invariant behind these holds after every step of every goroutine |
| `CaptureModel.StaleSizeExactly` | agent/internal/agent/scrcpy.go:274-279 | the frame size is not guarded: from every state that is reached, no continuation lets a launch before a given one set it if and only if no goroutine of such a launch is still streaming |
| `CaptureModel.StaleSizeIsReached` | agent/internal/agent/scrcpy.go:274-279 | and a replaced launch that is still streaming is reached by three steps |
| `CaptureEffects.ReplacedExactly` | agent/internal/agent/scrcpy.go:47-63 | in every run a start ends the running launch as replaced if and only if it is not for a plain preview and differs from the options that launch was started with in powerOff, debug or arguments; then a new launch follows exactly if the old process stops and the new one starts, and otherwise the launch goes on and all but a plain preview's options are taken over |
| `CaptureEffects.OptionsAreTheLaunchs` | agent/internal/agent/scrcpy.go:47-101 | while a launch runs, the bridge's options agree in powerOff, debug and arguments with those of the start that launched it |
| `CaptureEffects.StartsWhenIdle` | agent/internal/agent/scrcpy.go:47-101 | a start while nothing runs launches with its options, and changes nothing if the launch fails |
| `CaptureEffects.StopEnds` | agent/internal/agent/scrcpy.go:109-155 | a stop ends the running launch as stopped, cancels it and lets nobody wait for its video |
| `CaptureEffects.ConfigTells` | agent/internal/agent/scrcpy.go:261-273 | the running launch's config packet gives its codec and lets those go on who wait for video |
| `CaptureEffects.AttachTells` | agent/internal/agent/scrcpy.go:324-332 | the running launch's socket becomes the control socket unless its context is done |
| `CaptureEffects.FailureTells` | agent/internal/agent/scrcpy.go:178-197 | a reported failure of the running launch ends it as failed, is recorded with its text and is on its way to be published |
| `CaptureEffects.StreamFailureIsReported` | agent/internal/agent/scrcpy.go:199-322 | a stream that fails gives its socket back and is reported unless its context is done |
| `CaptureEffects.ConnectFailureIsReported` | agent/internal/agent/scrcpy.go:199-240 | so is a connection that fails |
| `CaptureEffects.ExitIsReported` | agent/internal/agent/scrcpy.go:83-99 | and a process that exits |
| `CaptureEffects.PublishTells` | agent/internal/agent/scrcpy.go:178-197 | what is on its way is published, once and with nothing else |
| `AudioQueue.NeverReordered` | backend/internal/controlplane/audio_stream.go:82-122 | for any number of producers and every interleaving of their attempts with the consumer the queue holds at most five frames, and delivered followed by queued frames are an order-preserving subsequence of those that entered it |
| `AudioQueue.NothingLost` | backend/internal/controlplane/audio_stream.go:82-104 | in every run in which no producer acts between another one's attempts no frame in hand is given up, and delivered followed by queued frames are a subsequence of the published ones |
| `AudioQueue.PublishedIsEnqueued` | backend/internal/controlplane/audio_stream.go:82-104 | there a last attempt always puts its frame at the end of the queue |
| `AudioQueue.LossNeedsRival` | backend/internal/controlplane/audio_stream.go:88-103 | in every run a frame in hand is given up only if another producer's frame entered after its own producer had made room |
| `AudioQueue.OnlyOldestDropped` | backend/internal/controlplane/audio_stream.go:90-103 | a queued frame is dropped only when room is made, and then it is the oldest; every other step keeps all, or adds one at the end |
| `AudioQueue.LastFive` | backend/internal/controlplane/server.go:451 | after every such run without a receive, between frames, the queue is the last min(n, 5) published frames |
| `AudioQueue.OfferIsQuietSteps` | backend/internal/controlplane/audio_stream.go:88-103 | the three attempts with no receive between them are one offer |
| `AudioQueue.BrowserPeer.PublishAudio` | backend/internal/controlplane/audio_stream.go:88-103 | the three attempts together put the frame in the queue |
| `AudioQueue.LossIsReached` | backend/internal/controlplane/audio_stream.go:88-103 | and it is reached, for any two producers: a run over a full queue in which one frame is given up |
| `AudioQueue.LossExactly` | backend/internal/controlplane/audio_stream.go:82-104 | for every set of producers: in all their runs every published frame enters the queue, if and only if there is one producer at most |
| `HubSafety.HubIsAlwaysSound` | backend/internal/controlplane/realtime.go:64-173 | over all interleavings of sessions no empty subscriber set is kept, subscribers are registered, those with a request are subscribers and no two requests are equally new |
| `HubSafety.GoneIsGone` | backend/internal/controlplane/server.go:457-467 | a browser whose session has ended appears nowhere in the hub |
| `HubSafety.LastListenerLeft` | backend/internal/controlplane/audio_stream.go:53-66 | unsubscribing reports a device exactly when its only listener left |
| `HubSafety.RemovalReportsLastListeners` | backend/internal/controlplane/audio_stream.go:68-80 | removal reports exactly the devices the browser alone listened to |
| `HubSafety.ArbitrationIsUnique` | backend/internal/controlplane/realtime.go:175-195 | in every run, for every device with requests exactly one request is foremost, and it is a registered browser's: with preview false if any request has that, and the newest of those that agree with it in this |
| `HubHistory.PreviewsExactly` | backend/internal/controlplane/realtime.go:130-158 | in every run a browser is sent a device's previews if and only if it asked for them and has not stopped them since |
| `HubHistory.ListensExactly` | backend/internal/controlplane/audio_stream.go:40-80 | in every run a browser is sent a device's sound if and only if it asked for it and has not stopped it since |
| `HubHistory.RequestsExactly` | backend/internal/controlplane/realtime.go:165-173 | a browser has a request for a device if and only if it filed one and has not ended its previews since |
| `HubHistory.FiledIsLast` | backend/internal/controlplane/realtime.go:165-173 | and it is the one it filed last, with its own id |
| `HubHistory.LaterIsNewer` | backend/internal/controlplane/realtime.go:165-173 | of two requests for a device the one that was filed later is the newer one |
| `HubModel.OneWins` | backend/internal/controlplane/realtime.go:180-188 | among requests of different age exactly one beats all others, and it is the foremost: if any message has preview false so has its own, and it is the newest of those that agree with it in this |
| `RealtimeHub.RealtimeHub.RemoveBrowser` | backend/internal/controlplane/realtime.go:70-88 | removal reports each previewed device once and leaves no empty set, in any order of the map |
| `RealtimeHub.RealtimeHub.SubscribePreview` | backend/internal/controlplane/realtime.go:130-141 | only a registered browser becomes a subscriber |
| `RealtimeHub.RealtimeHub.UnsubscribePreview` | backend/internal/controlplane/realtime.go:143-158 | the subscriber and its request go, and the device's entries with the last one |
| `RealtimeHub.RealtimeHub.SetPreviewRequest` | backend/internal/controlplane/realtime.go:165-173 | a request is newer than all before it |
| `RealtimeHub.RealtimeHub.SelectedPreviewRequest` | backend/internal/controlplane/realtime.go:175-195 | in any order of the walk the message is that of the foremost request, with stay_awake true if and only if some request has it true; none without requests |
| `RealtimeHub.RealtimeHub.SubscribeAudio` | backend/internal/controlplane/audio_stream.go:40-51 | only a registered browser becomes a listener |
| `RealtimeHub.RealtimeHub.UnsubscribeAudio` | backend/internal/controlplane/audio_stream.go:53-66 | the listener goes, and the device's entry with the last one |
| `RealtimeHub.RealtimeHub.RemoveAudioBrowser` | backend/internal/controlplane/audio_stream.go:68-80 | the browser goes everywhere, and each device left without listeners is reported once |
| `DeviceFiles.DeviceFileManager.OpenSession` | agent/internal/agent/files.go:55-67 | a client gets one session unless the manager is closed |
| `DeviceFiles.DeviceFileManager.CloseClientSession` | agent/internal/agent/files.go:69-77 | the session is cancelled and forgotten |
| `DeviceFiles.DeviceFileManager.CloseManager` | agent/internal/agent/files.go:79-88 | every session is cancelled and forgotten |
| `DeviceFiles.DeviceFileManager.StartUpload` | agent/internal/agent/files.go:186-215 | an upload starts only in the session its command came from, while that is open and idle, with an acceptable size and checksum |
| `DeviceFiles.DeviceFileManager.ReceiveChunk` | agent/internal/agent/files.go:217-254 | a chunk is written, refused or finishes the upload, with short writes, checksum and sync failures; what comes of it `UploadHistory.CommittedExactly` says |
| `DeviceFiles.DeviceFileManager.CommitUpload` | agent/internal/agent/files.go:255-260 | a finished upload is committed if it was good |
| `DeviceFiles.DeviceFileManager.FinishUpload` | agent/internal/agent/files.go:261-276 | the upload leaves its session, is reported, and is installed if that was asked for and it was committed |
| `UploadSafety.CommitsAreExactAndSingle` | agent/internal/agent/files.go:217-276 | in every interleaving an upload is committed at most once, and only with exactly the declared number of bytes and the declared digest |
| `UploadSafety.ReportsAreHonest` | agent/internal/agent/files.go:217-276 | progress never exceeds the declared size, and a reported success or an install follows a commit |
| `UploadSafety.ClosingPreventsCommit` | agent/internal/agent/files.go:69-95 | closing a session prevents the commit of any upload not already finishing, in every continuation |
| `UploadSafety.ClosingStrands` | agent/internal/agent/files.go:69-88 | closing a client or the manager puts its unfinished upload in that situation |
| `UploadHistory.CommittedExactly` | agent/internal/agent/files.go:186-276 | in every interleaving an upload that was begun is committed if and only if one chunk completes it, after chunks that were all taken on a session that stayed open, written in full and synced, with all bytes sent making up the declared size and digest, and the first commit after it succeeds; the commit is of just these bytes |
| `UploadHistory.ReportedExactly` | agent/internal/agent/files.go:255-276 | its success is reported if and only if it is cleared after that, its failure if and only if it is cleared after any other last chunk or a failed commit; it is installed if and only if its success is reported and that was asked for |
| `UploadHistory.LastReport` | agent/internal/agent/files.go:261-276 | there is one last report, with the number of bytes written |
| `UploadHistory.ProgressExactly` | agent/internal/agent/files.go:217-276 | progress is reported exactly for the chunks after which more is waited for, with the number of all bytes so far |
| `UploadHistory.StartTells` | agent/internal/agent/files.go:186-215 | a command begins an upload, with nothing received, exactly in its client's open session, without an upload, with a size of at most 2^31 and a checksum of 32 bytes |
| `UploadHistory.BusyExactly` | agent/internal/agent/files.go:201-276 | an upload occupies its session until it is cleared |
| `UploadHistory.SessionsExactly` | agent/internal/agent/files.go:55-88 | a client has a session exactly from an opening to its closing, as long as the manager was never closed |
| `UploadHistory.OpenTells` | agent/internal/agent/files.go:55-67 | an opened session is a new one, open and without an upload |

## Left out

- Users, shares, tags, assets, settings, shortcuts and devices of the store: maps with one-step updates that the
  theorems do not need; whether an asset exists is an input of a task claim.
- JSON encoding, the PostgreSQL driver, HTTP, WebSocket, WebRTC and Redis: libraries; a database write is one step that
  succeeds, is refused, or is made although an error is seen.
- Random tokens and ids are numbers in the order they are drawn, digests are injective, and the order of task ids in a
  list is the order of those numbers instead of the order of strings.
- One clock reading serves a whole call of the store, which reads it several times under one lock.
- A task's devices are a value in the model; the original keeps the caller's map.
- A restart in `Durability` loads the row as it is: a write of a process that has ended does not arrive afterwards, and
  loading does not fail. `TaskSafety` is about one process; what a restart adds to it is in `Restarts`.
- Which of a device's connections is the current one: in `TaskSafety` the end of any of them may give up the device's
  tasks, as it may between the two locks that the original takes there.
- KeymapProfiles.SafeProfilesExactly: requires that no wheel has the same gesture twice; with repeated gestures sharing
  an id is not always fatal (`KeymapProfiles.RepeatedGesturesMayBeSafe`), and `KeymapSafety.AccountedExactly` is the
  condition for every run of any profile.
- KeymapHistory.FingersExactly: requires that one mapping alone obeys the key and no other tap or swipe has its id; a
  key that several mappings obey makes the touches of each in the profile's order (`KeymapEngine.Engine.HandleKeyEvent`).
- KeymapHistory.SticksExactly: requires the same of the stick's four keys and its id.
- KeymapTurns.ScrollsExactly: requires that the profile has one wheel; several are turned one after the other.
- KeymapTurns.ZoomsExactly: requires that the profile has one wheel.
- Keymap coordinates are real numbers with the usual decimal values for the square root of two and the cosine and sine
  of 45 degrees; NaN, missing fields and rounding are not modelled, and keys are lower-cased in ASCII only.
- One clock reading serves all swipes that one key event starts.
- JavaScript's bit cursor is advanced by `>> 3` and `& 7`; the model divides by 8, which is the same for the positions
  of any buffer below 2^31 bits.
- FrameFeed.FrameRoundTrip: requires units below 2^32 bytes, the range of the length prefix.
- Sha256.Hasher.Digest: requires fewer than 2^53 bytes, beyond which the byte count of the original is not exact.
- RsaSigner.SignAdbToken: RFC 8017 asks for at least eight FF octets, which neither the code nor the model enforces.
- Decoders, canvases, audio playback, video configuration calls and the codec string: foreign calls and one-line texts.
- The 64-bit sequence number of a clipboard message arrives parsed; its parsing from JSON numbers is not modelled.
- The capture bridge's waiting for the process to exit, its wake-up and power-off bytes, its dialling, and the packets
  it passes on: outcomes of these are inputs, contents are not modelled.
- Whether a publisher is set for capture errors: the model publishes every recorded failure.
- Downloads, installs, directory listings and staging of the file manager: only what an upload needs is modelled; a
  staged file is its contents, and the hash is any function of the absorbed bytes.
- Access checks before hub operations, and the messages sent to agents and browsers: a session's steps start after the
  checks have passed.
