# Relay push client and image sniffers, in Dafny

This project models two parts of the xchat app.

The first is the Android push service `PushNotificationService`. It keeps one WebSocket to a Nostr relay, subscribes to the group-event kinds 20285 and 20284 addressed to the device's public key, and answers the relay's NIP-42 `AUTH` challenge with a signed kind-22242 event. The model covers:

- the hex codec and the random subscription id;
- the canonical event serialisation and its SHA-256 id;
- the length checks around the BIP-340 Schnorr signature;
- the authentication event;
- the flag-driven connection state machine, with its two delayed runnables (reconnect after 5000 ms, auth retry after 2000 ms);
- configuration defaulting.

The second is `OXCImageUtils`, in its Java and Swift versions. It sniffs an image format from the leading bytes and maps format names to file extensions, Android compress formats and clipboard support.

Modules:

- `Wrappers`: `Option`, usable with `:-`.
- `Bytes`: Java's signed `byte` (`JByte`) and Swift's `UInt8`, with the `(byte)` narrowing and `0xff & b` widening written out.
- `Ascii`: lowercasing, ASCII letters only.
- `Hex`:
  - `byteArrayToHexString` / `hexStringToByteArray`, including `Character.digit` and `Integer.toHexString`;
  - `generateRandomHex`, with `java.util.Random` supplied as a draw sequence.
- `JsonText`: the compact JSON text Jackson writes for the id computation, and a reader for it. The reader exists only to prove that the serialisation is injective.
- `EventSigner`: `calculateEventId`, `signEventId` and `createAuthEvent`. SHA-256 and secp256k1 signing are parameters (`Crypto`).
- `RelayService`: the service's fields as one `Service` record.
  - Each callback is a pure function from a state to a `Transition` (next state plus effects).
  - Each `Handler` is modelled as a queue of pending runnables plus the field that references the last one posted. "At most one pending reconnect / auth retry" is therefore an invariant (`Inv`) proved from cancel-then-post, not built into the representation.
- `RelayProperties`: properties of event traces.
- `ImageFormats`: the six signatures as (offset, byte) tables, and their mutual exclusion.
- `AndroidImageUtils` and `IosImageUtils`: the two sniffers as written, each proved equal to the table. Each is also proved equal to the other across the signed/unsigned byte views.

Environment inputs become parameters of a step (`Env`):

- the key store (`privateKey`);
- `isAppProcessRunning` (`appInForeground`);
- the clock (`nowMillis`);
- `java.util.Random` (`idDraws`);
- `SecureRandom` (`aux`);
- whether building the request or opening the socket throws (`connectThrows`).

The stored configuration and the outcome of `Secp256k1.get()` arrive with the creation and start events. The socket listener's callbacks carry no socket identity, exactly as in the source, where every listener writes the same service fields.

Behaviours of the source as written that the lemmas record:

- `RelayProperties.ClosedAfterDestroyReconnects`: `onDestroy` does not detach the listener. An `onClosed` arriving after it schedules a reconnect, and the destroyed service then opens a new socket.
- `RelayProperties.AuthIdSurvivesReconnect`: `authEventId` is not tied to a connection. An OK for the event sent on an earlier connection still takes the post-AUTH path on a later one. A connection-generation tag would prevent that, but the code has none, and the model follows the code.
- The id drawn after a successful AUTH is a fresh draw of `generateRandomHex(16)`. Nothing makes it differ from the previous id, so the model promises only that it is that fresh draw (`RelayService.AuthConfirmed`).

## Model

| member | source | states |
|---|---|---|
| Bytes.Cast | android/app/src/main/java/com/oxchat/lite/PushNotificationService.java:734-735 | `(byte)` narrowing: a value in -128..127 congruent to the input modulo 256 |
| Bytes.UnsignedOfCast | android/app/src/main/java/com/oxchat/lite/PushNotificationService.java:746 | `0xff & (byte) v` gives back every v in 0..255 |
| Bytes.EqualsCast | packages/base_framework/ox_common/android/src/main/java/com/ox/ox_common/utils/OXCImageUtils.java:13 | `b == (byte) v` holds exactly when the unsigned value of b is v |
| Ascii.LowerIdempotent | android/app/src/main/java/com/oxchat/lite/PushNotificationService.java:597 | lowercasing twice is lowercasing once |
| Ascii.LowerOfLowerCase | android/app/src/main/java/com/oxchat/lite/PushNotificationService.java:548 | an already-lowercase key is left unchanged |
| Hex.DigitValue | android/app/src/main/java/com/oxchat/lite/PushNotificationService.java:734-735 | `Character.digit(c, 16)`: the digit's value for 0-9, a-f and A-F, and -1 exactly for every other character |
| Hex.ToHexString | android/app/src/main/java/com/oxchat/lite/PushNotificationService.java:746 | `Integer.toHexString` has one digit exactly for values below 16 |
| Hex.ByteToHex | android/app/src/main/java/com/oxchat/lite/PushNotificationService.java:746-750 | one byte becomes exactly two digits, high nibble first, zero padded |
| Hex.ToHex | android/app/src/main/java/com/oxchat/lite/PushNotificationService.java:743-753 | `byteArrayToHexString` output has two characters per byte, all from 0-9a-f |
| Hex.ToHexAppend | android/app/src/main/java/com/oxchat/lite/PushNotificationService.java:743-753 | rendering a concatenation of byte arrays is concatenating their renderings |
| Hex.ToHexAt | android/app/src/main/java/com/oxchat/lite/PushNotificationService.java:743-753 | byte i's two digits sit right after the 2i digits of the bytes before it |
| Hex.FromHex | android/app/src/main/java/com/oxchat/lite/PushNotificationService.java:730-738 | an odd length fails (the loop reads past the end); an even length gives len/2 bytes |
| Hex.FromHexToHex | android/app/src/main/java/com/oxchat/lite/PushNotificationService.java:730-753 | decoding the encoding of any byte array gives it back |
| Hex.ToHexFromHex | android/app/src/main/java/com/oxchat/lite/PushNotificationService.java:730-753 | encoding the decoding of an even-length lowercase hex string gives it back |
| Hex.RandomHex | android/app/src/main/java/com/oxchat/lite/PushNotificationService.java:823-831 | `generateRandomHex(n)` has n characters over 0-9a-f, the i-th being the i-th draw |
| Hex.RandomHexCoversAll | android/app/src/main/java/com/oxchat/lite/PushNotificationService.java:823-831 | every lowercase hex string of length n is a possible result |
| EventSigner.SerializeRoundTrip | android/app/src/main/java/com/oxchat/lite/PushNotificationService.java:599-630 | the text `[0,pubkey,created_at,kind,tags,content]` reads back as its fields |
| EventSigner.SerializeInjective | android/app/src/main/java/com/oxchat/lite/PushNotificationService.java:599-630 | distinct field tuples never share a serialisation |
| EventSigner.CanonicalFields | android/app/src/main/java/com/oxchat/lite/PushNotificationService.java:596-597 | the serialised public key is lowercase |
| EventSigner.CalculateEventId | android/app/src/main/java/com/oxchat/lite/PushNotificationService.java:594-652 | the id is 64 lowercase hex characters decoding to the SHA-256 of the serialised fields |
| EventSigner.EventIdIgnoresPubkeyCase | android/app/src/main/java/com/oxchat/lite/PushNotificationService.java:596-597 | the id does not depend on the case of the public key |
| EventSigner.SameHashInputIffSameFields | android/app/src/main/java/com/oxchat/lite/PushNotificationService.java:594-630 | two ids hash the same text iff the lowercased key and all other fields agree |
| EventSigner.SignEventId | android/app/src/main/java/com/oxchat/lite/PushNotificationService.java:674-725 | a signature exists iff secp256k1 is ready, id and key decode to 32 bytes and the signer returns 64 bytes; it is those bytes as 128 lowercase hex characters |
| EventSigner.CreateAuthEvent | android/app/src/main/java/com/oxchat/lite/PushNotificationService.java:513-579 | an event exists iff signing succeeds; it has kind 22242, tags relay then challenge, empty content, the lowercased key, created_at in seconds, its own id, and as signature what `signEventId` yields for that id and the private key |
| EventSigner.AuthSerializationBindsRelayAndChallenge | android/app/src/main/java/com/oxchat/lite/PushNotificationService.java:518-532 | equal id inputs imply equal relay and challenge |
| RelayService.LoadConfigFromPrefs | android/app/src/main/java/com/oxchat/lite/PushNotificationService.java:917-930 | a field ends up missing iff it was missing both in memory and in storage; a present field is never overwritten; a missing one takes the stored value, so a second load changes nothing |
| RelayService.DefaultDeviceId | android/app/src/main/java/com/oxchat/lite/PushNotificationService.java:125-127 | a null or empty device id becomes the public key; other fields are kept |
| RelayService.ScheduleReconnect | android/app/src/main/java/com/oxchat/lite/PushNotificationService.java:782-804 | no-op while connecting or reconnecting; otherwise it sets `isReconnecting`, posts one 5000 ms runnable, leaves exactly that one pending and changes nothing else |
| RelayService.Connect | android/app/src/main/java/com/oxchat/lite/PushNotificationService.java:274-349 | no-op while connecting; otherwise it closes any old socket with 1000 first; on a throw the socket is dropped and exactly one reconnect is posted; otherwise it opens one new socket at the relay address; the effects are exactly these and no other field changes |
| RelayService.SendSubscriptionRequest | android/app/src/main/java/com/oxchat/lite/PushNotificationService.java:356-397 | no-op without a public key; otherwise it keeps the id unless it is null or marked for regeneration, in which case it draws 16 new hex digits; it clears the mark, sends REQ with kinds 20285, 20284 and `#h` the key only when a socket exists, and changes nothing else |
| RelayService.HandleAuthChallenge | android/app/src/main/java/com/oxchat/lite/PushNotificationService.java:455-505 | without a key: records the challenge, replaces the retry with exactly one 2000 ms runnable and sends nothing; with a key: clears challenge and retry, then records the event id and sends AUTH exactly when the event is built |
| RelayService.GetString | android/app/src/main/java/com/oxchat/lite/PushNotificationService.java:405 | reading an array item fails exactly out of range or on an elided (Java `null`) slot; a string reads as itself, a boolean as "true"/"false", any other value as its text |
| RelayService.GetBoolean | android/app/src/main/java/com/oxchat/lite/PushNotificationService.java:433 | a JSON boolean reads as itself; a string reads as true or false exactly when it is "true" or "false" in any case; any other value, an elided slot and any index out of range fail |
| RelayService.AuthConfirmed | android/app/src/main/java/com/oxchat/lite/PushNotificationService.java:437-443 | the post-AUTH path clears the event id and challenge and resubscribes under a freshly drawn id; socket, flags, timers and config are kept |
| RelayService.HandleMessage | android/app/src/main/java/com/oxchat/lite/PushNotificationService.java:402-449 | an OK with three or more items, status true, the recorded event id and a readable fourth item when there is one takes the post-AUTH path; AUTH with a readable challenge goes to the challenge handler; EVENT notifies only when the app is not running; every other frame, including malformed ones and those whose read throws, leaves the state unchanged and has no effect |
| RelayService.OnClosed | android/app/src/main/java/com/oxchat/lite/PushNotificationService.java:324-333 | schedules a reconnect only when not already reconnecting; otherwise it just clears the flags |
| RelayService.OnOpened | android/app/src/main/java/com/oxchat/lite/PushNotificationService.java:298-303 | both flags cleared, auth state kept, then REQ is sent on the socket under the kept or fresh subscription id; without a public key nothing is sent |
| RelayService.OnFailed | android/app/src/main/java/com/oxchat/lite/PushNotificationService.java:336-341 | both flags cleared, then exactly one reconnect is pending; the failed socket stays referenced and config and auth state are kept |
| RelayService.OnReconnectFires | android/app/src/main/java/com/oxchat/lite/PushNotificationService.java:794-800 | a removed runnable does nothing; a pending one clears `isReconnecting` and connects |
| RelayService.OnAuthRetryFires | android/app/src/main/java/com/oxchat/lite/PushNotificationService.java:473-482 | a removed runnable does nothing; a pending one retries the recorded challenge, or, with none recorded, only leaves the queue |
| RelayService.StartCommandStep | android/app/src/main/java/com/oxchat/lite/PushNotificationService.java:138-185 | an intent lacking relay or key stops the service; a complete one defaults the device id and connects exactly when not connecting and no socket exists; a null intent loads stored config only when needed and never connects |
| RelayService.CreateStep | android/app/src/main/java/com/oxchat/lite/PushNotificationService.java:96-135 | records whether secp256k1 initialised; loads stored config; when it is complete, defaults the device id and connects exactly when not connecting and no socket exists |
| RelayService.DestroyStep | android/app/src/main/java/com/oxchat/lite/PushNotificationService.java:193-208 | closes the socket with 1000, clears socket and flags, removes both pending runnables and clears the stored key; those are its only effects, and config and auth state are kept |
| RelayService.Step | android/app/src/main/java/com/oxchat/lite/PushNotificationService.java:96-349 | every callback preserves the timer and subscription-id invariant |
| RelayProperties.RunPreservesInv | android/app/src/main/java/com/oxchat/lite/PushNotificationService.java:274-505 | the invariant holds after any sequence of callbacks |
| RelayProperties.AtMostOneTimerOfEachKind | android/app/src/main/java/com/oxchat/lite/PushNotificationService.java:467-491 | from a fresh service, at most one reconnect and at most one auth retry are ever pending |
| RelayProperties.CloseThenConnectKeepsOneReconnect | android/app/src/main/java/com/oxchat/lite/PushNotificationService.java:782-804 | after an unexpected close exactly one reconnect is pending, and connecting again before it runs adds none |
| RelayProperties.KeylessRetriesThenOneSignature | android/app/src/main/java/com/oxchat/lite/PushNotificationService.java:455-505 | keyless attempts each leave one retry and send nothing; the keyed attempt sends at most one AUTH; the earlier retries never run |
| RelayProperties.CreateOpensSocket | android/app/src/main/java/com/oxchat/lite/PushNotificationService.java:96-135 | creating with a stored relay and key defaults the device id to the key and opens the first socket to the relay |
| RelayProperties.OpenSubscribes | android/app/src/main/java/com/oxchat/lite/PushNotificationService.java:298-303 | the first open clears the connecting flag and sends REQ under a freshly drawn id |
| RelayProperties.ElidedOkMessageDropsFrame | android/app/src/main/java/com/oxchat/lite/PushNotificationService.java:430-444 | an OK frame with the matching id and status true but an elided fourth slot throws at `getString(3)` and confirms nothing |
| RelayProperties.ElidedChallengeDropsFrame | android/app/src/main/java/com/oxchat/lite/PushNotificationService.java:424-428 | an AUTH frame whose challenge slot is elided throws at `getString(1)` and is dropped without effect |
| RelayProperties.ChallengeAnswered | android/app/src/main/java/com/oxchat/lite/PushNotificationService.java:455-505 | with a key and a signer that accepts, an AUTH frame clears the challenge, records the event id and sends exactly that event |
| RelayProperties.EndToEnd | android/app/src/main/java/com/oxchat/lite/PushNotificationService.java:96-505 | create, open, AUTH, OK: REQ with a 16-digit id, an AUTH event with the relay and challenge tags, kind 22242 and empty content, then a new REQ under a fresh id |
| RelayProperties.AuthIdSurvivesReconnect | android/app/src/main/java/com/oxchat/lite/PushNotificationService.java:324-341 | close, reconnect and reopen keep `authEventId`, so an OK for the old event still confirms |
| RelayProperties.ClosedAfterDestroyReconnects | android/app/src/main/java/com/oxchat/lite/PushNotificationService.java:193-208 | an `onClosed` after `onDestroy` reposts a reconnect, which opens a new socket |
| RelayProperties.LoadConfigIdempotent | android/app/src/main/java/com/oxchat/lite/PushNotificationService.java:917-930 | loading the stored config twice is loading it once |
| RelayProperties.IncompleteStartNeverConnects | android/app/src/main/java/com/oxchat/lite/PushNotificationService.java:141-179 | a start whose config lacks relay or key opens no socket; its only possible effect is stopping |
| ImageFormats.FormatNamedName | packages/base_framework/ox_common/android/src/main/java/com/ox/ox_common/utils/OXCImageUtils.java:51-65 | each format's name maps back to it |
| ImageFormats.SignaturesExclusive | packages/base_framework/ox_common/android/src/main/java/com/ox/ox_common/utils/OXCImageUtils.java:12-43 | no byte sequence carries two different signatures, so check order does not matter |
| AndroidImageUtils.DetectImageFormat | packages/base_framework/ox_common/android/src/main/java/com/ox/ox_common/utils/OXCImageUtils.java:7-46 | null below 8 bytes; otherwise one of png, jpeg, webp, bmp, gif, tiff, or null |
| AndroidImageUtils.PngCheck | packages/base_framework/ox_common/android/src/main/java/com/ox/ox_common/utils/OXCImageUtils.java:13-14 | the Java PNG check is the PNG signature table |
| AndroidImageUtils.JpegCheck | packages/base_framework/ox_common/android/src/main/java/com/ox/ox_common/utils/OXCImageUtils.java:19 | the Java JPEG check is FF D8 FF |
| AndroidImageUtils.WebpCheck | packages/base_framework/ox_common/android/src/main/java/com/ox/ox_common/utils/OXCImageUtils.java:24-25 | the WebP check needs 12 bytes, RIFF at 0 and WEBP at 8, and ignores bytes 4-7 |
| AndroidImageUtils.BmpCheck | packages/base_framework/ox_common/android/src/main/java/com/ox/ox_common/utils/OXCImageUtils.java:30 | the BMP check is 42 4D |
| AndroidImageUtils.GifCheck | packages/base_framework/ox_common/android/src/main/java/com/ox/ox_common/utils/OXCImageUtils.java:35 | the GIF check is GIF8 |
| AndroidImageUtils.TiffCheck | packages/base_framework/ox_common/android/src/main/java/com/ox/ox_common/utils/OXCImageUtils.java:40-41 | the TIFF check accepts both byte orders |
| AndroidImageUtils.AllChecks | packages/base_framework/ox_common/android/src/main/java/com/ox/ox_common/utils/OXCImageUtils.java:7-46 | detection is the cascade of the table's signatures |
| AndroidImageUtils.DetectMeansSignature | packages/base_framework/ox_common/android/src/main/java/com/ox/ox_common/utils/OXCImageUtils.java:7-46 | the result is a format's name iff there are 8 bytes and that format's signature |
| AndroidImageUtils.DetectNullMeansNoSignature | packages/base_framework/ox_common/android/src/main/java/com/ox/ox_common/utils/OXCImageUtils.java:45 | null iff fewer than 8 bytes or no signature at all |
| AndroidImageUtils.GetFileExtension | packages/base_framework/ox_common/android/src/main/java/com/ox/ox_common/utils/OXCImageUtils.java:48-69 | the extension always starts with a dot; null gives .png |
| AndroidImageUtils.FileExtensionIgnoresCase | packages/base_framework/ox_common/android/src/main/java/com/ox/ox_common/utils/OXCImageUtils.java:51 | names equal up to case get the same extension |
| AndroidImageUtils.FileExtensionMeansFormat | packages/base_framework/ox_common/android/src/main/java/com/ox/ox_common/utils/OXCImageUtils.java:51-68 | jpeg/jpg give .jpg, tiff/tif give .tiff, the others ".name", anything else .png |
| AndroidImageUtils.DetectedFormatExtension | packages/base_framework/ox_common/android/src/main/java/com/ox/ox_common/utils/OXCImageUtils.java:7-69 | a detected jpeg gets .jpg; any other detected format f gets "." + f |
| AndroidImageUtils.GetCompressFormat | packages/base_framework/ox_common/android/src/main/java/com/ox/ox_common/utils/OXCImageUtils.java:71-92 | null gives null |
| AndroidImageUtils.CompressFormatMeansFormat | packages/base_framework/ox_common/android/src/main/java/com/ox/ox_common/utils/OXCImageUtils.java:74-90 | JPEG for jpeg/jpg, WEBP for webp, PNG for png, null for everything else |
| AndroidImageUtils.CompressFormatAgreesWithExtension | packages/base_framework/ox_common/android/src/main/java/com/ox/ox_common/utils/OXCImageUtils.java:48-92 | a name with a compress format gets the extension of that format |
| IosImageUtils.DetectImageFormat | packages/base_framework/ox_common/ios/Classes/OXCImageUtils.swift:16-55 | nil below 8 bytes |
| IosImageUtils.AllChecks | packages/base_framework/ox_common/ios/Classes/OXCImageUtils.swift:16-55 | detection is the cascade of the table's signatures |
| IosImageUtils.SameAsAndroid | packages/base_framework/ox_common/ios/Classes/OXCImageUtils.swift:16-55 | the Swift sniffer agrees with the Java one on the same bytes |
| IosImageUtils.AndroidSameAsIos | packages/base_framework/ox_common/android/src/main/java/com/ox/ox_common/utils/OXCImageUtils.java:7-46 | the Java sniffer agrees with the Swift one on the unsigned view |
| IosImageUtils.DetectMeansSignature | packages/base_framework/ox_common/ios/Classes/OXCImageUtils.swift:16-55 | the result is a format's name iff there are 8 bytes and that format's signature |
| IosImageUtils.TiffBothByteOrders | packages/base_framework/ox_common/ios/Classes/OXCImageUtils.swift:48-51 | 49 49 2A 00 and 4D 4D 00 2A both give tiff |
| IosImageUtils.JpegFromPrefix | packages/base_framework/ox_common/ios/Classes/OXCImageUtils.swift:27-30 | an FF D8 FF prefix gives jpeg |
| IosImageUtils.GetFileExtension | packages/base_framework/ox_common/ios/Classes/OXCImageUtils.swift:60-77 | the extension always starts with a dot |
| IosImageUtils.FileExtensionSameAsAndroid | packages/base_framework/ox_common/ios/Classes/OXCImageUtils.swift:60-77 | same mapping as the Java version |
| IosImageUtils.ClipboardMeansFormatNamed | packages/base_framework/ox_common/ios/Classes/OXCImageUtils.swift:82-85 | supported iff the lowercased name is one of the six formats or jpg/tif |
| IosImageUtils.DetectedIsSupportedForClipboard | packages/base_framework/ox_common/ios/Classes/OXCImageUtils.swift:82-85 | every detected format is supported for the clipboard |

## Left out

- Transport: OkHttp, its threads and the main-looper `Handler` are not modelled. Callbacks are events of a sequential trace, and a delayed runnable runs when the trace says so. `onClosing`'s echo close is not modelled either.
- The text of outbound frames is not modelled. The REQ filter and the AUTH message are structured values (`Frame`), because the org.json and Jackson rendering of them cannot be seen in the source.
- Inbound text parsing is replaced by a pre-parsed JSON array (`Inbound`). Its items are the top-level values, with an elided slot (`[a,,b]`) as Java `null`, read through `getString` / `getBoolean` with Android's org.json coercions; nested values are only their text.
- The id computation's text assumes Jackson's default escaping, which is not part of this model's sources. That escaping is: quote, backslash, the short control escapes, and `\u00XX` for other control characters. SHA-256 is taken over that text; UTF-8 encoding is folded into the `sha256` parameter.
- SHA-256 and secp256k1 are parameters. BIP-340 verification, and hence the sign-then-verify round trip, is not modelled.
- EventSigner.SignEventId: string lengths count Unicode characters, while Java's `length()` counts UTF-16 code units, so a key or id holding a character outside the Basic Multilingual Plane is measured differently; such inputs are not hex, and the model does not reproduce what Java's decoder makes of them.
- EventSigner.CreateAuthEvent: its `|privkey| == 64` condition has the same UTF-16 length difference as `SignEventId`.
- EventSigner.CalculateEventId: SHA-256 is taken as total, so the catch-all `null` return of `calculateEventId` never happens. Tags holding `null` are covered instead by `BuildAuthEvent` failing when the relay or key is null.
- `Character.digit` is modelled for ASCII only. Non-ASCII Unicode digits count as -1.
- `toLowerCase` / `lowercased()` and org.json's `equalsIgnoreCase` in `getBoolean` are ASCII-only. Locale-dependent case mapping and Unicode case folding (`"falſe"` reads as false in Java, as nothing in the model) are not modelled.
- Persistence is not modelled: `persistConfig`, SharedPreferences and the private-key file (`KeystoreHelper`). The stored triple is an input of the create and start events, and clearing the key is the `ClearPrivateKey` effect.
- Notifications and `activateApp` are not modelled, apart from `ShowNotification`. The same goes for `startForeground` / `stopForeground` and the notification channel.
- The remaining app code is not part of this model: `AppPreferences`, `AppDelegate`, the share extension, `ClipboardHelper` and the plugin.
- `Data` versus `[UInt8]` in Swift is not distinguished: both are a byte sequence.
