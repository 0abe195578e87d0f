# disrecord adapter logic, modelled in Dafny

disrecord is a chat-platform voice bot. It records the users who opted in
and lets them download their recent audio. It also keeps a per-guild
soundboard of short clips that play as buttons. `src/main.rs` is the adapter
between the platform SDK and the bot's recorder and soundboard. This project
models the pieces of that adapter that are pure logic:

- **Downmix** (`downmix.dfy`): each voice packet arrives as interleaved
  stereo `i16`. It is turned into mono by averaging each left/right pair in
  32-bit arithmetic with Rust's truncating `/`. The Rust casts and operators
  are written out in `rust_ints.dfy`.
- **Download** (`download.dfy`): a recorded snapshot is cut into pieces of
  `(MAX_FILE_SIZE - HEADER_SIZE) / 2` samples, with `MAX_FILE_SIZE` = 24 MiB.
  Each piece becomes one attachment. A single file is named `{name}.wav`;
  several files are named `{name}-1.wav`, `{name}-2.wav`, and so on.
  `slices.dfy` models Rust's `slice::chunks`, and `decimal.dfy` models the
  decimal formatting of the file number.
- **Sound list** (`sound_list.dfy`): each soundboard group is laid out as
  messages of at most 20 buttons, in rows of 5. Only a group's first message
  also carries a group-selector row.
- **Command options** (`command_options.dfy`): `find_option`, the decoding
  of the `download`, `upload` and `delete` arguments, the colour-to-style
  mapping and the 1-based to 0-based `index` conversion.
- **Auto-leave** (`auto_leave.dfy`): after a voice-state update, the bot
  leaves a voice channel when it is the only member left in it.

The loops of `download` and `sounds` (`for … in ….chunks(…).enumerate()`)
are methods with loop invariants. Each method is proved equal to a
specification function: `Packaged`, `MessageOf`, `GroupMessages` or
`Layout`. The properties are proved as lemmas about those functions.

Two behaviours of `main.rs` are worth stating:

- A snapshot with no samples is deferred and gets no file: `Download` gives
  `Files([])`.
- `index` is never range-checked: a typed 0 or a negative value wraps to a
  huge `usize` (`ZeroBasedIndexWraps`).

The unseen `wav` module's `HEADER_SIZE` is the parameter `headerSize`. It is
required to leave room for one sample (`headerSize + 2 <= MAX_FILE_SIZE`),
because `chunks(0)` panics.

## Model

| member | source | states |
|---|---|---|
| `RustInts.AddI32` | src/main.rs:116 | `i32` addition wraps: the result equals the sum modulo 2^32, and is the exact sum whenever that sum fits in `i32` |
| `RustInts.HalveI32` | src/main.rs:116 | `/ 2` rounds toward zero: for a non-negative dividend, twice the result is the dividend or one less; for a negative one, the dividend or one more |
| `RustInts.CastI32ToI16` | src/main.rs:116 | `as i16` keeps the value modulo 2^16, and is the identity on values in `i16` range |
| `RustInts.WidenI16` | src/main.rs:116 | `as i32` on an `i16` keeps the value |
| `RustInts.SubI64` | src/main.rs:509 | `i64` subtraction wraps: the result equals the difference modulo 2^64, and is exact when the difference fits |
| `RustInts.CastI64ToUsize` | src/main.rs:509 | `as usize` keeps non-negative values and adds 2^64 to negative ones |
| `Downmix.Mean` | src/main.rs:116 | reference mean of a pair, rounded toward zero: within one half of the exact mean, never beyond it in magnitude |
| `Downmix.MixPairExact` | src/main.rs:116 | no overflow in the pair expression: the `i32` sum is exact, the halved value lies in `i16` range and the `as i16` cast is lossless; the result equals `Mean` and lies between the two inputs |
| `Downmix.Downmix` | src/main.rs:114-117 | output length is half the input, rounded down; output sample k comes from the pair at 2k and 2k+1 |
| `Downmix.DownmixIsMean` | src/main.rs:114-117 | every output sample is the mean of its input pair, rounded toward zero |
| `Downmix.DownmixDropsUnpaired` | src/main.rs:115 | `chunks_exact(2)` drops a trailing sample that has no partner |
| `Downmix.DownmixConcat` | src/main.rs:114-117 | packets made of whole pairs downmix independently: the downmix of a concatenation is the concatenation of the downmixes |
| `Downmix.Interleave` | src/main.rs:114-115 | the interleaved stereo layout: left sample k at 2k, right sample k at 2k+1 |
| `Downmix.DownmixInterleaved` | src/main.rs:114-117 | downmixing two interleaved channels gives one sample per pair, the mean of the two channels |
| `Downmix.DownmixDuplicated` | src/main.rs:114-117 | a mono signal copied to both channels comes back exactly |
| `Slices.FirstChunk` | src/main.rs:347-349 | the piece `chunks(n)` takes next is a non-empty prefix of at most n elements, and all of what is left when it is short |
| `Slices.ChunksShape` | src/main.rs:347-349 | `chunks(n)` pieces concatenate back to the slice in order; each is non-empty with at most n elements; all but the last have exactly n; there is more than one piece exactly when the slice is longer than n |
| `Slices.ChunksCount` | src/main.rs:414-415 | the number of pieces is the length divided by n, rounded up |
| `Slices.ChunksAdvance` | src/main.rs:347-350 | one iterator step: the next piece is the current piece, and what is left yields the following ones |
| `Slices.ChunksOfShort` | src/main.rs:351-352 | a non-empty slice of at most n elements is one piece, the whole slice |
| `Decimal.Render` | src/main.rs:354 | the decimal text of `i + 1` is a non-empty string of digits without a leading zero |
| `Decimal.ParseRender` | src/main.rs:354 | parsing the decimal text gives the number back |
| `Decimal.RenderInjective` | src/main.rs:354 | different numbers have different decimal texts |
| `Download.SamplesPerFile` | src/main.rs:56-58 | the piece size is positive, and it is the largest sample count whose 2-byte samples plus the header fit in `MAX_FILE_SIZE` |
| `Download.NumberedNamesDistinct` | src/main.rs:353-355 | two different file numbers give two different `{name}-{i+1}.wav` names |
| `Download.PackagedCovers` | src/main.rs:347-349 | the attached pieces are exactly the `chunks` of the snapshot, and their concatenation is the snapshot in order |
| `Download.PackagedSizes` | src/main.rs:56-58 | every attached piece is non-empty and, with its header, within the 24 MiB cut; all but the last are full |
| `Download.PackagedNames` | src/main.rs:351-355 | an empty snapshot gives no file; a snapshot that fits gives exactly one file named `{name}.wav` holding all of it; a longer one gives at least two files named `{name}-1.wav`, `{name}-2.wav`, …; no two files share a name |
| `Download.AttachAll` | src/main.rs:347-366 | the download loop attaches exactly the files of `Packaged`, in order |
| `Download.Download` | src/main.rs:343-381 | no snapshot gives the "no voice data" reply for that user; a snapshot gives the files of `Packaged` |
| `SoundList.ButtonsOf` | src/main.rs:438-448 | one button per sound, in order, carrying the sound's id, colour, name and emoji |
| `SoundList.ButtonsOfAppend` | src/main.rs:438-448 | the buttons of two runs of sounds, one after the other, are the buttons of both runs, in order |
| `SoundList.MessageShape` | src/main.rs:418-455 | a message of 1 to 20 sounds has between 1 and 4 rows of 1 to 5 buttons; with the selector it has at most `ROWS_PER_MESSAGE` components; the selector is on message 0 only and names the group; its buttons, row after row, are its sounds in order |
| `SoundList.GroupShape` | src/main.rs:414-452 | every message of a group fits those limits, and only message 0 carries the selector |
| `SoundList.GroupButtons` | src/main.rs:414-452 | the buttons of all of a group's messages are the group's sounds, in their original order |
| `SoundList.GroupSelectors` | src/main.rs:414-435 | a non-empty group gives exactly one selector row, naming it; an empty group gives none |
| `SoundList.LayoutButtons` | src/main.rs:412-452 | the buttons of the whole listing are the sounds of all groups, in the listing's order |
| `SoundList.LayoutSelectors` | src/main.rs:412-435 | the selector rows of the whole listing name the non-empty groups, once each, in order |
| `SoundList.LayoutShape` | src/main.rs:412-452 | no message of the listing has more than `ROWS_PER_MESSAGE` components or more than 20 buttons, and no row is empty or has more than 5 buttons |
| `SoundList.BuildMessage` | src/main.rs:418-455 | the component-building loop produces `MessageOf` for that message |
| `SoundList.GroupLoop` | src/main.rs:414-458 | the per-group loop sends `GroupMessages` for that group, in order |
| `SoundList.ListSounds` | src/main.rs:389-459 | an empty listing gives the "no sounds" reply; otherwise the messages sent are `Layout` of the listing |
| `CommandOptions.FindOption` | src/main.rs:782-792 | with no option of that name the result is `None`; otherwise it is the resolved value of the first option of that name, which is `None` when that option is unresolved |
| `CommandOptions.FindOptionSkips` | src/main.rs:786-791 | options with other names before the ones searched do not change the lookup |
| `CommandOptions.DownloadUser` | src/main.rs:327-336 | the `download` argument is present exactly when the first option resolved to a user, and it is that user |
| `CommandOptions.ColorOfStyle` | src/main.rs:713-716 | every style has a colour name among the four registered choices |
| `CommandOptions.ColorRoundTrip` | src/main.rs:484-490 | each style comes back from its colour name; each of the four choices comes back from its style; any other string gives Primary |
| `CommandOptions.ZeroBasedIndex` | src/main.rs:509 | for a typed position n ≥ 1 the index is n − 1; for n ≤ 0 the conversion wraps to n − 1 + 2^64 |
| `CommandOptions.ZeroBasedIndexInjective` | src/main.rs:509 | different typed positions never give the same index |
| `CommandOptions.ZeroBasedIndexWraps` | src/main.rs:509 | a typed position of 0 or below gives an index of at least `i64::MAX` |
| `CommandOptions.EmojiOf` | src/main.rs:504-507 | the emoji is the first character of a non-empty string value, and absent otherwise |
| `CommandOptions.IndexOf` | src/main.rs:508-511 | the index is present exactly for an integer value, and is that value converted by `ZeroBasedIndex` |
| `CommandOptions.DecodeUpload` | src/main.rs:462-511 | the request is decoded exactly when there is a guild, `sound` is an attachment, and `name`, `color` and `group` are strings; its fields are the decoded values, with the colour mapped to a style |
| `CommandOptions.DecodeDelete` | src/main.rs:564-575 | the request is decoded exactly when there is a guild and `sound` is a string, and it holds both |
| `CommandOptions.RequiredFound` | src/main.rs:466-503 | the lookup finds each of the four required options the platform sends |
| `CommandOptions.OptionalFound` | src/main.rs:504-511 | the lookup finds `emoji` and `index` when they are sent, and nothing when they are not |
| `CommandOptions.DecodeUploadFound` | src/main.rs:466-511 | decoding depends only on the values found for the six option names |
| `CommandOptions.DecodeUploadRoundTrip` | src/main.rs:466-511 | every request a user can type (a registered colour, a one-character emoji, a representable 1-based index) is decoded back to itself |
| `AutoLeave.IsAlone` | src/main.rs:603 | the bot is alone exactly when the member list is the bot alone |
| `AutoLeave.OtherMemberKeepsBot` | src/main.rs:603 | any other member present means the bot is not alone |
| `AutoLeave.LeaveTarget` | src/main.rs:591-611 | a guild is left exactly when the channel is cached, is a voice channel and its only member is the bot; it is that channel's guild |
| `AutoLeave.VoiceStateUpdate` | src/main.rs:78-85 | at most two guilds are left; each comes from the previous or the new channel where the bot is alone; every such channel's guild is left |

## Left out

- The recorder (ring buffers, SSRC map, whitelist), the soundboard (catalog,
  cache, persistence) and the WAV codec. `src/recorder.rs`,
  `src/soundboard.rs` and `src/wav.rs` are not part of this model.
  `wav::package` is represented by the samples it packages, and
  `wav::HEADER_SIZE` by the parameter `headerSize`.
- Every call into the platform SDK or the voice library: interaction
  responses, defers, follow-ups, `send_message`, joining and leaving voice,
  `play_source`. These are network I/O. The replies are modelled as
  datatypes; their texts are not.
- The async runtime, `tokio::join!`, the queue to the recorder and the
  one-shot reply channels. Their point is concurrency. The bot id, held in
  an `AtomicU64` (0 until `ready`), is a parameter.
- `list` intersects the whitelist with the guild's cached member ids and
  replies `*Nobody.*` when that is empty, mentions joined by ", " otherwise;
  `listen` finds the caller's voice channel, replies that the caller is not
  in one when there is none, and joins it. Both depend on recorder answers
  and the SDK cache and are left out. `version`, `help`, `join`, `leave` and
  `dispatch_command` only send fixed replies, recorder messages or SDK calls.
- `register_global_commands` is static data handed to the SDK; only its four
  colour choices are used, as `COLOR_CHOICES`. `main`, `Options` and logging
  set-up are left out too.
- `find_voice_channel` is an HTTP lookup. The channel cache and member
  fetches used by auto-leave are a map parameter.
- `AutoLeave.VoiceStateUpdate`: both channel checks read one snapshot of the
  channel cache; the source awaits a `leave` after the first check and reads
  the cache again for the second, which the model does not capture. The
  panics on a failed member fetch or a failed `leave` (`.expect`) are not
  modelled either.
- `dispatch_component` parses a ULID and plays `wav[HEADER_SIZE..]`.
  ULID parsing and text form are not modelled: a button carries the sound id
  itself.
- The per-sound loop that adds buttons to a row is the function `ButtonsOf`,
  not a loop.
- `RustInts.AddI32`: models release-mode wrapping, not the debug-build panic.
  In the downmix `MixPairExact` shows no overflow occurs, so both builds
  agree.
- `RustInts.CastI64ToUsize`: assumes a 64-bit target, where `usize` has 64
  bits; on a 32-bit target the cast would keep only the low 32 bits.
- `RustInts.SubI64`: models release-mode wrapping. A debug build would panic
  on `index = i64::MIN`, where the model wraps.
- `Download.Download`: requires `headerSize + 2 <= MAX_FILE_SIZE`, so that a
  piece holds at least one sample; otherwise `chunks(0)` panics.
- `SoundList.Sound`: holds only the fields the rendering reads. The group
  and index fields of a soundboard record are left out.
