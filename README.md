# Audio Recognizer — a Dafny model of its recognition core

Audio Recognizer is a Home Assistant integration. It runs speech-to-text (STT) on audio in two ways:

- a `recognize_file` service call names a WAV file on disk;
- a Telegram bot receives voice, audio and audio-document messages. It transcodes each one to 16 kHz mono 16-bit PCM with ffmpeg, recognises it, fires an `audio_recognizer_transcription` event with the text and can reply in the chat.

This project models the decision and byte-handling core of the integration and proves its properties:

- **Transcoding** (`Helpers.TranscodeFromBytes`, `Helpers.TranscodeFromPath`): what ffmpeg's exit status and output mean. A non-zero exit is a transcode failure, whatever the output holds. On success the 44-byte WAV header is cut off. An output no longer than the header means the media had no audio stream (`NoAudioStream`); it is never an empty success.
- **Chunked streaming** (`Chunking`, `Helpers.StreamFromBytes`, `Integration.StreamAudioFromFile`): the loop `while chunk := f.read(size): yield chunk`. It runs over an in-memory buffer in 4096-byte chunks, and over a file in 1024-byte chunks after seeking past its first 44 bytes. Both loops are methods proved equal to the `Chunks` function. Lemmas show that joining the chunks rebuilds the data in order, that every chunk is non-empty and at most the chunk size, that all chunks but the last are full, and that there are `ceil(L / size)` chunks. `read(0)` and negative sizes are covered too.
- **Language resolution** (`Language.Resolve`): the language sent to the provider.
  - The request is used when it is truthy; otherwise the host default is used.
  - That language is kept unchanged when the provider's list matches it.
  - When it does not match, `supported[0]` replaces it, but only if no language was requested at all (`None`) and the list is non-empty.
  - Every other case is an unsupported-language error.
  - The host's `language_util.matches` is a parameter, so every property holds for any matching relation.
- **Recognition** (`Helpers.ProcessAudioData` for the in-memory path, `Integration.RecognizeAndGetResponse` for the file service). The steps run in this order: provider lookup, language resolution, fixed WAV/PCM/16-bit/16 kHz/mono metadata, stream, classification of the reply. Each attempt records the call made to the provider (if any), so the lemmas can say when no call happens and what metadata and stream it carries. The two copies handle a failed result differently:
  - the in-memory path's blanket `except Exception` turns everything into one generic failure;
  - the file service re-raises validation errors unchanged, including its own "Recognition failed".
- **Service-call validation** (`Integration.Validate`): `entity_id` is checked before `file_path`, and an empty value counts as missing.
- **Telegram message handling** (`Telegram.HandleAudioMessage`): a pure function from the options, the message and the outside world's answers (download, ffmpeg, the STT host) to the ordered list of what the bot does: download, transcode, recognise, fire the event, reply. It covers:
  - parsing the allow-list (split on `,`, strip, drop empty entries);
  - silent drops;
  - the duration gate;
  - event-versus-reply gating;
  - mapping exceptions to replies.
- **Bot manager** (`Telegram.TelegramBotManager`): a class holding the optional application. `StopBot` always leaves it empty, even when a shutdown step raises. Stopping a manager that holds no application does nothing. Sending a message without an application sends nothing.

Failures form one closed datatype, `Types.Failure`. `Types.IsValidationError` says which failures an `except ServiceValidationError` clause catches.

Three behaviours of the code worth knowing:

- A base code that matches a region-qualified entry (`"en"` against `["en-US", "fr"]`) is sent as the base code `"en"`, not as the entry `"en-US"` (`Language.VariantMatchKeepsCandidate`).
- On the in-memory path, a non-success result state does not surface as "recognition failed". The raise at `helpers.py:96` is caught by the `except Exception` at line 98, so it becomes the generic failure (`Helpers.ProcessAudioData`, `Integration.FailedStateReportedDifferently`).
- A Telegram message without media is dropped silently.

## Model

| member | source | states |
|---|---|---|
| `Helpers.TranscodeFromBytes` | audio_recognizer/helpers.py:18-35 | a non-zero exit is `TranscodeFailed(stderr)` whatever stdout holds; with exit 0 it succeeds exactly when stdout is longer than 44 bytes, and the payload is then non-empty, `len(stdout) - 44` long, and rebuilds stdout after the header; otherwise `NoAudioStream` |
| `Helpers.TranscodeFromPath` | audio_recognizer/helpers.py:45-63 | the same rules for the process that reads the file at the path |
| `Helpers.StreamFromBytes` | audio_recognizer/helpers.py:38-42 | the read loop yields exactly `Chunks(data, size)`: joined they rebuild the buffer, there are `ceil(L / size)` of them, each non-empty and at most `size` bytes |
| `Chunking.ReadLength` | audio_recognizer/helpers.py:40 | one `read(size)` returns at most what is left, something whenever bytes remain and the size is not 0, all of it for a negative size, nothing for size 0, and a short read only at the end |
| `Chunking.ChunksReconstruct` | audio_recognizer/helpers.py:38-42 | concatenating the chunks reproduces the buffer exactly, in order, for every non-zero size |
| `Chunking.ChunksBounded` | audio_recognizer/helpers.py:40-41 | every chunk is non-empty and at most `size` bytes |
| `Chunking.ChunksFull` | audio_recognizer/helpers.py:40-41 | every chunk except the last is exactly `size` bytes |
| `Chunking.ChunksCount` | audio_recognizer/helpers.py:40-41 | there are `ceil(L / size)` chunks, so an empty buffer gives none |
| `Chunking.LastChunk` | audio_recognizer/helpers.py:40-41 | the last chunk holds `L mod size` bytes, or `size` when the size divides `L` |
| `Chunking.ZeroSizeYieldsNothing` | audio_recognizer/helpers.py:40 | `read(0)` ends the loop before any chunk |
| `Chunking.NegativeSizeYieldsWhole` | audio_recognizer/helpers.py:40 | a negative size yields the whole buffer as one chunk, or nothing when it is empty |
| `Language.Resolve` | audio_recognizer/helpers.py:73-79 | succeeds exactly when the candidate (request if truthy, else host default) matches or the request is `None` and the list is non-empty; a match keeps the candidate unchanged, otherwise `supported[0]` is used; every failure is `UnsupportedLanguage(candidate, supported)` |
| `Language.FallbackAlwaysSucceeds` | audio_recognizer/__init__.py:82-86 | with no language given and a non-empty list, resolution never fails, and it yields either the accepted default or an element of the list |
| `Language.EmptyRequestNeverFallsBack` | audio_recognizer/__init__.py:66-90 | an empty-string request uses the host default but cannot fall back: an unaccepted default is an error |
| `Language.ExplicitRequestKeptOrRefused` | audio_recognizer/__init__.py:88-90 | an explicitly requested language is sent unchanged or refused with an unsupported-language error, never replaced |
| `Language.EmptyListRefuses` | audio_recognizer/helpers.py:75-79 | against an empty supported list (which the matcher rejects) every request fails, the implicit default included |
| `Language.VariantMatchKeepsCandidate` | audio_recognizer/__init__.py:74-76 | a base code matching a region-qualified entry is sent as the base code, not as the entry |
| `Helpers.ProcessAudioData` | audio_recognizer/helpers.py:66-100 | an unknown entity is `EntityNotFound` with no resolution and no provider call; a resolution failure makes no call; a call carries the resolved language with WAV/PCM/16-bit/16 kHz/mono metadata and a stream that is exactly the 4096-byte chunking of the payload (`Chunks(audio, 4096)`), which rebuilds it in chunks of at most 4096 bytes; success exactly on a SUCCESS state, with its text; every other outcome is the single generic failure |
| `Integration.StreamAudioFromFile` | audio_recognizer/__init__.py:20-35 | the seek-44-then-read-1024 loop yields the file bytes after the header exactly, in non-empty chunks of at most 1024 bytes; a file of 44 bytes or fewer yields nothing; a missing file breaks the stream with the "not found" validation error |
| `Integration.ShortFileStreamsNothing` | audio_recognizer/__init__.py:26-27 | a file of at most 44 bytes gives an empty stream |
| `Integration.FileStreamCarriesPayload` | audio_recognizer/__init__.py:26-28 | the file stream joins back to `content[44:]`, with `ceil((L - 44) / 1024)` chunks, each non-empty, at most 1024 bytes and full except the last |
| `Integration.Validate` | audio_recognizer/__init__.py:48-53 | succeeds exactly when both `entity_id` and `file_path` are present and non-empty; a missing `entity_id` is reported before `file_path` is looked at |
| `Integration.RecognizeAndGetResponse` | audio_recognizer/__init__.py:56-122 | an unknown entity is `EntityNotFound` before any language logic or file reading; language as in `Resolve`; a call carries canonical metadata with the resolved language and the file's stream; SUCCESS gives the text, another state gives `RecognitionFailed(state)`, a validation error from the provider is re-raised unchanged, any other exception becomes the generic failure; every failure is a validation error |
| `Integration.HandleRecognizeFile` | audio_recognizer/__init__.py:128-134 | invalid call data fails with its missing-argument error and no provider call; a call happens only with both arguments present; every failure is a validation error; valid call data gets exactly the result of `RecognizeAndGetResponse` |
| `Integration.MissingFileSurfacesAsNotFound` | audio_recognizer/__init__.py:31-33 | with a provider that passes on its input stream's failure, a missing file surfaces as the "not found" validation error |
| `Integration.FailedStateReportedDifferently` | audio_recognizer/__init__.py:113-118 | for a provider answering with a failed state, the in-memory path gives the generic failure while the file service gives "Recognition failed" |
| `Telegram.StripTrims` | audio_recognizer/telegram.py:90 | `str.strip()` takes its characters from the input and neither starts nor ends with whitespace |
| `Telegram.StripEmpty` | audio_recognizer/telegram.py:90 | a stripped entry is empty exactly when the entry is all whitespace |
| `Telegram.StripUnpadded` | audio_recognizer/telegram.py:90 | an entry without surrounding whitespace is kept as it is |
| `Telegram.Split` | audio_recognizer/telegram.py:90 | `str.split(',')` gives at least one piece, no piece holds a comma, and joining the pieces with commas gives the input back |
| `Telegram.SplitJoin` | audio_recognizer/telegram.py:90 | splitting a comma-join of comma-free pieces gives the pieces back |
| `Telegram.NonEmptyStripped` | audio_recognizer/telegram.py:90 | an id is in the allow-list exactly when it is the non-empty stripped form of an entry, and the list is empty exactly when every entry is blank |
| `Telegram.BlankOptionAdmitsAll` | audio_recognizer/telegram.py:89-91 | an option made only of whitespace and commas gives an empty allow-list, which authorises every chat |
| `Telegram.ListedChatIsAuthorised` | audio_recognizer/telegram.py:88-91 | a chat whose `str(chat_id)` is one of the comma-separated entries, whitespace aside, is authorised |
| `Telegram.DecimalString` | audio_recognizer/telegram.py:88 | `str(chat_id)` is non-empty and holds neither commas nor whitespace |
| `Telegram.HandleAudioMessage` | audio_recognizer/telegram.py:86-146 | the handler acts only on a message that passes the allow-list, entity and media gates, and its first action is the download or a lone "too long" reply; the lemmas below state the gates, the duration limit, the event, and the reply that ends each path |
| `Telegram.SilentUnlessGatesPass` | audio_recognizer/telegram.py:88-105 | an unlisted chat under a non-empty allow-list, a missing STT entity, or a message without media produces no actions at all |
| `Telegram.DurationGate` | audio_recognizer/telegram.py:107-119 | when `max_duration > 0 and duration > 0 and duration > max_duration` (default limit 180) nothing is downloaded and exactly one "too long" reply is sent if replies are on, none otherwise; within the limit the media is always downloaded |
| `Telegram.ReplyOnlyLast` | audio_recognizer/telegram.py:100-146 | every path sends at most one reply, as its last action |
| `Telegram.NoReplyWhenDisabled` | audio_recognizer/telegram.py:100-146 | with the reply toggle off, nothing is sent to the chat |
| `Telegram.RecognizedWithoutLanguage` | audio_recognizer/telegram.py:124 | recognition always runs on the configured entity with language `None` |
| `Telegram.EventForRecognizedText` | audio_recognizer/telegram.py:125-137 | non-empty recognised text for a message with a sender gives download, transcode, recognise, exactly one event `{text, chat_id, username}`, then the echoed text if replies are on; any event carries exactly that text, so empty or missing text fires none |
| `Telegram.EventIgnoresReplyToggle` | audio_recognizer/telegram.py:127-134 | whether an event is fired does not depend on the reply toggle |
| `Telegram.NoAudioTrackReply` | audio_recognizer/telegram.py:139-142 | a transcoding that finds no audio stream ends with the specific no-audio-track reply (if replies are on), not the generic error reply |
| `Telegram.NothingRecognisedReply` | audio_recognizer/telegram.py:135-137 | recognised text that is empty or missing gives download, transcode, recognise, then the "could not recognise" reply when replies are on |
| `Telegram.FailureReplied` | audio_recognizer/telegram.py:121-146 | a download, transcode or recognition failure other than a missing audio track, and recognised text for a message without a sender (reading its username raises), end with the generic error reply carrying that failure, when replies are on; it also fixes the "no audio track" reply for a download failing with `NoAudioStream`, a case the download itself cannot produce |
| `Telegram.UpTo` | audio_recognizer/telegram.py:63-71 | the shutdown steps attempted when one raises: a prefix of the plan that ends at the raising step, or the whole plan |
| `Telegram.TelegramBotManager.constructor` | audio_recognizer/telegram.py:27-31 | a new manager holds no application |
| `Telegram.Started` | audio_recognizer/telegram.py:53-55 | after `start()` the application is running, and its updater is polling exactly when it has one |
| `Telegram.StartedStopsFully` | audio_recognizer/telegram.py:58-73 | stopping a started application stops the updater (when there is one), then the application, then shuts it down |
| `Telegram.TelegramBotManager.StartBotIfEnabled` | audio_recognizer/telegram.py:33-56 | with the bot enabled and a non-empty token the built application is initialised and started, polling starts when it has an updater, and the stored application is the started one (`Started(built)`: running, updater polling); otherwise nothing changes |
| `Telegram.TelegramBotManager.StopBot` | audio_recognizer/telegram.py:58-73 | afterwards no application is held, even if a step raised; the updater is stopped if running, the application if running, then shut down, and the steps after a raising one are skipped; with no application nothing is attempted |
| `Telegram.TelegramBotManager.SendMessage` | audio_recognizer/telegram.py:75-83 | a message goes out exactly when an application with a bot is held, and it carries the given chat id and text |

## Left out

- The ffmpeg subprocess and its arguments: the model starts from what the process yields (exit status, stdout bytes, stderr text). Decoding stderr is part of that input.
- `language_util.matches`: a parameter of every resolution, with no assumed rules.
- The STT provider: its lookup, its declared languages and its recognition call are inputs. What it does with a broken input stream is up to the provider, so `Integration.MissingFileSurfacesAsNotFound` assumes it passes the failure on.
- `asyncio.sleep(0)` after each chunk: a scheduling hint that changes no data.
- File I/O: a file is its bytes or a failure to open it (not found, unreadable). A read error part-way through a file is not modelled.
- Telegram networking: building the application, polling, `get_file`/`download_as_bytearray`, and delivering `reply_text` or `send_message`. These appear only as actions or as inputs. A delivery that raises would, in the source, fall through to the generic-error reply; that path is not modelled.
- Exceptions from `initialize`, `start` or `start_polling` in `StartBotIfEnabled`: the model stores the application and lists the steps, and does not follow an exception out of them.
- A Telegram update without a message, and durations that are not integers: not modelled.
- Service registration and removal, and event-bus delivery: host glue.
- The options form, the single-instance abort, and the constants and exception class modules: host plumbing or plain data.
- Logging and the wording of every message. The chat replies are reply kinds.
- The two option keys for the reply toggle and the duration limit are imported by `telegram.py` but not defined in `const.py`. They are treated as opaque option keys with the defaults of `telegram.py` (true, 180); the failing import is not modelled.
- `Helpers.StreamFromBytes`: the chunk size is an explicit argument; the in-memory path always passes the source's default, 4096.
- `Telegram.StripTrims`: the lemmas do not say which infix is kept; the definition of `Strip` does.
