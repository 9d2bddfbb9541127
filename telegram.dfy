/** The Telegram side: the chat allow-list, the decision an incoming
    voice/audio message leads to (as the ordered list of what the bot does),
    and the manager holding the bot application. */
module Telegram {
  import opened Types
  import opened Stt
  import Helpers

  // ---------------------------------------------------------------------------
  // Text handling used by the allow-list

  /** Python's `str.isspace` for one character. */
  predicate IsSpace(c: char) {
    c == ' ' || ('\t' <= c <= '\r') || ('\U{1c}' <= c <= '\U{1f}')
    || c == '\U{85}' || c == '\U{a0}' || c == '\U{1680}' || ('\U{2000}' <= c <= '\U{200a}')
    || c == '\U{2028}' || c == '\U{2029}' || c == '\U{202f}' || c == '\U{205f}' || c == '\U{3000}'
  }

  /** `s` without its leading whitespace. */
  function TrimStart(s: string): (t: string)
    ensures |t| <= |s| && t == s[|s| - |t|..]
    ensures forall k :: 0 <= k < |s| - |t| ==> IsSpace(s[k])
    ensures t != [] ==> !IsSpace(t[0])
    decreases |s|
  {
    if s != [] && IsSpace(s[0]) then TrimStart(s[1..]) else s
  }

  /** `s` without its trailing whitespace. */
  function TrimEnd(s: string): (t: string)
    ensures |t| <= |s| && t == s[..|t|]
    ensures forall k :: |t| <= k < |s| ==> IsSpace(s[k])
    ensures t != [] ==> !IsSpace(t[|t| - 1])
    decreases |s|
  {
    if s != [] && IsSpace(s[|s| - 1]) then TrimEnd(s[..|s| - 1]) else s
  }

  /** `str.strip()`: `s` without surrounding whitespace. */
  function Strip(s: string): string
  {
    TrimEnd(TrimStart(s))
  }

  /** The stripped string takes its characters from `s` and neither starts
      nor ends with whitespace. */
  lemma StripTrims(s: string)
    ensures forall c :: c in Strip(s) ==> c in s
    ensures var t := Strip(s); t != [] ==> !IsSpace(t[0]) && !IsSpace(t[|t| - 1])
  {
  }

  /** Stripping leaves nothing exactly when `s` is all whitespace. */
  lemma StripEmpty(s: string)
    ensures Strip(s) == [] <==> forall k :: 0 <= k < |s| ==> IsSpace(s[k])
  {
  }

  /** A string without surrounding whitespace is left as it is. */
  lemma StripUnpadded(s: string)
    requires s == [] || (!IsSpace(s[0]) && !IsSpace(s[|s| - 1]))
    ensures Strip(s) == s
  {
  }

  /** `s.split(sep)`: the pieces between separators, at least one. */
  function Split(s: string, sep: char): (parts: seq<string>)
    ensures |parts| >= 1
    ensures forall p :: p in parts ==> sep !in p
    ensures forall p, c :: p in parts && c in p ==> c in s
    ensures Join(parts, sep) == s
    decreases |s|
  {
    if |s| == 0 then [""]
    else
      var rest := Split(s[1..], sep);
      if s[0] == sep then
        assert s == [sep] + s[1..];
        [""] + rest
      else
        assert s == [s[0]] + s[1..];
        [[s[0]] + rest[0]] + rest[1..]
  }

  /** `sep.join(parts)`, the inverse of `Split`. */
  function Join(parts: seq<string>, sep: char): string
  {
    if |parts| == 0 then ""
    else if |parts| == 1 then parts[0]
    else parts[0] + [sep] + Join(parts[1..], sep)
  }

  /** Splitting a join of separator-free pieces gives the pieces back. */
  lemma {:induction false} SplitJoin(parts: seq<string>, sep: char)
    requires |parts| >= 1
    requires forall p :: p in parts ==> sep !in p
    ensures Split(Join(parts, sep), sep) == parts
  {
    if |parts| == 1 {
      SplitPiece(parts[0], sep);
    } else {
      SplitJoin(parts[1..], sep);
      SplitPieceThen(parts[0], sep, Join(parts[1..], sep));
      assert Split(Join(parts[1..], sep), sep) == parts[1..];
      assert [parts[0]] + parts[1..] == parts;
    }
  }

  lemma {:induction false} SplitPiece(p: string, sep: char)
    requires sep !in p
    ensures Split(p, sep) == [p]
    decreases |p|
  {
    if |p| > 0 {
      SplitPiece(p[1..], sep);
      assert [p[0]] + p[1..] == p;
    }
  }

  /** A separator-free piece followed by a separator and a tail. */
  lemma {:induction false} SplitPieceThen(p: string, sep: char, tail: string)
    requires sep !in p
    ensures Split(p + [sep] + tail, sep) == [p] + Split(tail, sep)
    decreases |p|
  {
    var s := p + [sep] + tail;
    if |p| == 0 {
      assert s[1..] == tail;
    } else {
      assert s[1..] == p[1..] + [sep] + tail;
      SplitPieceThen(p[1..], sep, tail);
      assert [p[0]] + p[1..] == p;
    }
  }

  // ---------------------------------------------------------------------------
  // The allow-list

  /** The stripped, non-empty pieces, in order. */
  function NonEmptyStripped(parts: seq<string>): (ids: seq<string>)
    ensures forall id :: id in ids <==> id != "" && exists p :: p in parts && Strip(p) == id
    ensures ids == [] <==> forall p :: p in parts ==> Strip(p) == ""
  {
    if parts == [] then []
    else
      var t := Strip(parts[0]);
      var rest := NonEmptyStripped(parts[1..]);
      assert parts == [parts[0]] + parts[1..];
      (if t != "" then [t] else []) + rest
  }

  /** The allowed chat ids: the comma-separated entries of the option, each
      stripped, empty ones dropped. */
  function AllowList(option: string): seq<string>
  {
    NonEmptyStripped(Split(option, ','))
  }

  /** Whether a chat may use the bot: an empty allow-list admits every chat. */
  predicate Authorised(chatId: string, option: string) {
    var ids := AllowList(option);
    ids == [] || chatId in ids
  }

  /** An option holding only whitespace and commas admits every chat. */
  lemma BlankOptionAdmitsAll(option: string, chatId: string)
    requires forall k :: 0 <= k < |option| ==> option[k] == ',' || IsSpace(option[k])
    ensures AllowList(option) == []
    ensures Authorised(chatId, option)
  {
    var parts := Split(option, ',');
    forall p | p in parts ensures Strip(p) == [] {
      StripEmpty(p);
      forall k | 0 <= k < |p| ensures IsSpace(p[k]) {
        var c := p[k];
        assert c in p;
        var j :| 0 <= j < |option| && option[j] == c;
      }
    }
  }

  function DigitChar(d: nat): (c: char)
    requires d < 10
    ensures '0' <= c <= '9'
  {
    "0123456789"[d]
  }

  function Digits(n: nat): (s: string)
    ensures s != [] && forall k :: 0 <= k < |s| ==> '0' <= s[k] <= '9'
    decreases n
  {
    if n < 10 then [DigitChar(n)] else Digits(n / 10) + [DigitChar(n % 10)]
  }

  /** `str(n)` for an integer chat id. */
  function DecimalString(n: int): (s: string)
    ensures s != [] && ',' !in s
    ensures forall k :: 0 <= k < |s| ==> !IsSpace(s[k])
  {
    var digits := Digits(if n < 0 then -n else n);
    if n < 0 then "-" + digits else digits
  }

  /** A chat whose id is one of the comma-separated entries, surrounding
      whitespace aside, is admitted. */
  lemma ListedChatIsAuthorised(chatId: int, entries: seq<string>, i: nat)
    requires i < |entries|
    requires forall e :: e in entries ==> ',' !in e
    requires Strip(entries[i]) == DecimalString(chatId)
    ensures Authorised(DecimalString(chatId), Join(entries, ','))
  {
    SplitJoin(entries, ',');
    assert entries[i] in Split(Join(entries, ','), ',');
  }

  // ---------------------------------------------------------------------------
  // Handling one message

  /** The options the handler reads; `None` is an option that is not set. */
  datatype Options = Options(
    chatIds: Option<string>, sttEntityId: Option<string>,
    sendReply: Option<bool>, maxDuration: Option<int>)

  /** Longest accepted media, in seconds, when the option is not set. */
  const DefaultMaxDuration: int := 180

  datatype Media = Voice(seconds: int) | Audio(seconds: int) | Document

  /** `getattr(media, 'duration', 0)`: documents carry no duration. */
  function Duration(m: Media): int {
    if m.Document? then 0 else m.seconds
  }

  datatype User = User(username: Option<string>)

  /** An incoming message: the chat, the sender, and the durations of the
      voice and audio attachments or whether a document is attached. */
  datatype Message = Message(
    chatId: int, sender: Option<User>,
    voice: Option<int>, audio: Option<int>, document: bool)

  /** `voice or audio or document`. */
  function SelectMedia(m: Message): Option<Media> {
    if m.voice.Some? then Some(Voice(m.voice.value))
    else if m.audio.Some? then Some(Audio(m.audio.value))
    else if m.document then Some(Document)
    else None
  }

  /** What the outside world gives the handler once it goes past the gates:
      the host services, the downloaded media (or the exception the download
      raised) and the ffmpeg process fed with those bytes. */
  datatype Pipeline = Pipeline(
    host: Host, download: Result<seq<byte>, Failure>, ffmpeg: seq<byte> -> Helpers.FfmpegRun)

  datatype ReplyKind =
    | TooLong(duration: int, limit: int)
    | Transcript(text: string)
    | NotRecognized
    | NoAudioTrack
    | Failed(failure: Failure)

  /** What the handler does, in order. */
  datatype Action =
    | Download
    | Transcode
    | Recognize(entityId: string, language: Option<string>)
    | FireEvent(text: string, chatId: string, username: Option<string>)
    | SendReply(kind: ReplyKind)

  /** A reply, sent only when replies are enabled. */
  function ReplyIf(sendReply: bool, kind: ReplyKind): seq<Action> {
    if sendReply then [SendReply(kind)] else []
  }

  /** `NoAudioStreamError` gets its own reply; every other exception the generic one. */
  function FailureReply(f: Failure): ReplyKind {
    if f.NoAudioStream? then NoAudioTrack else Failed(f)
  }

  /** The steps after the gates: download, transcode, recognise with no
      language, then report. */
  function Process(entityId: string, chatId: string, sender: Option<User>, sendReply: bool, pipeline: Pipeline)
    : seq<Action>
  {
    [Download] +
    match pipeline.download
    case Err(f) => ReplyIf(sendReply, FailureReply(f))
    case Ok(bytes) =>
      [Transcode] +
      match Helpers.TranscodeFromBytes(bytes, pipeline.ffmpeg)
      case Err(f) => ReplyIf(sendReply, FailureReply(f))
      case Ok(audio) =>
        [Recognize(entityId, None)] +
        match Helpers.ProcessAudioData(pipeline.host, entityId, None, audio).response
        case Err(f) => ReplyIf(sendReply, FailureReply(f))
        case Ok(text) =>
          if !Present(text) then ReplyIf(sendReply, NotRecognized)
          else match sender
            // reading the username of a message without a sender raises
            case None => ReplyIf(sendReply, FailureReply(Foreign(false)))
            case Some(user) => [FireEvent(text.value, chatId, user.username)] + ReplyIf(sendReply, Transcript(text.value))
  }

  /** Whether the duration gate turns the media away. */
  predicate TooLongFor(duration: int, limit: int) {
    limit > 0 && duration > 0 && duration > limit
  }

  /** The handler: it acts only on a message that passes the gates, and
      then either downloads the media or only answers that it is too long. */
  function HandleAudioMessage(options: Options, message: Message, pipeline: Pipeline): (actions: seq<Action>)
    ensures actions != [] ==> PassesGates(options, message)
    ensures actions != [] ==> actions[0] == Download || (|actions| == 1 && actions[0].SendReply? && actions[0].kind.TooLong?)
  {
    var chatId := DecimalString(message.chatId);
    if !Authorised(chatId, options.chatIds.GetOr("")) then []
    else if !Present(options.sttEntityId) then []
    else
      var sendReply := options.sendReply.GetOr(true);
      match SelectMedia(message)
      case None => []
      case Some(media) =>
        var duration := Duration(media);
        var limit := options.maxDuration.GetOr(DefaultMaxDuration);
        if TooLongFor(duration, limit) then ReplyIf(sendReply, TooLong(duration, limit))
        else Process(options.sttEntityId.value, chatId, message.sender, sendReply, pipeline)
  }

  /** Whether the message gets past the allow-list, the entity check and the
      media check. */
  predicate PassesGates(options: Options, message: Message) {
    && Authorised(DecimalString(message.chatId), options.chatIds.GetOr(""))
    && Present(options.sttEntityId)
    && SelectMedia(message).Some?
  }

  /** A message that fails a gate leads to nothing at all: no reply, no
      event, no download. */
  lemma SilentUnlessGatesPass(options: Options, message: Message, pipeline: Pipeline)
    requires !PassesGates(options, message)
    ensures HandleAudioMessage(options, message, pipeline) == []
  {
  }

  /** Media over the limit is never downloaded; it draws one "too long"
      reply when replies are on, and nothing otherwise. Media within the
      limit is always downloaded. */
  lemma DurationGate(options: Options, message: Message, pipeline: Pipeline)
    requires PassesGates(options, message)
    ensures var duration := Duration(SelectMedia(message).value);
      var limit := options.maxDuration.GetOr(DefaultMaxDuration);
      var actions := HandleAudioMessage(options, message, pipeline);
      && (TooLongFor(duration, limit) ==>
            actions == ReplyIf(options.sendReply.GetOr(true), TooLong(duration, limit)))
      && (!TooLongFor(duration, limit) ==> actions != [] && actions[0] == Download)
  {
  }

  /** Every path sends at most one reply, and only as its last action. */
  lemma {:induction false} ReplyOnlyLast(options: Options, message: Message, pipeline: Pipeline)
    ensures var actions := HandleAudioMessage(options, message, pipeline);
      forall i :: 0 <= i < |actions| && actions[i].SendReply? ==> i == |actions| - 1
  {
    var actions := HandleAudioMessage(options, message, pipeline);
    if PassesGates(options, message) {
      var media := SelectMedia(message).value;
      var limit := options.maxDuration.GetOr(DefaultMaxDuration);
      if !TooLongFor(Duration(media), limit) {
        ProcessReplyOnlyLast(options.sttEntityId.value, DecimalString(message.chatId), message.sender,
                             options.sendReply.GetOr(true), pipeline);
      }
    }
  }

  lemma ProcessReplyOnlyLast(entityId: string, chatId: string, sender: Option<User>, sendReply: bool, pipeline: Pipeline)
    ensures var actions := Process(entityId, chatId, sender, sendReply, pipeline);
      forall i :: 0 <= i < |actions| && actions[i].SendReply? ==> i == |actions| - 1
  {
  }

  /** With replies off, nothing is ever sent to the chat. */
  lemma NoReplyWhenDisabled(options: Options, message: Message, pipeline: Pipeline)
    requires options.sendReply == Some(false)
    ensures forall a :: a in HandleAudioMessage(options, message, pipeline) ==> !a.SendReply?
  {
    if PassesGates(options, message) {
      var media := SelectMedia(message).value;
      var limit := options.maxDuration.GetOr(DefaultMaxDuration);
      if !TooLongFor(Duration(media), limit) {
        ProcessNoReply(options.sttEntityId.value, DecimalString(message.chatId), message.sender, pipeline);
      } else {
        assert HandleAudioMessage(options, message, pipeline)
            == ReplyIf(options.sendReply.GetOr(true), TooLong(Duration(media), limit));
      }
    } else {
      SilentUnlessGatesPass(options, message, pipeline);
    }
  }

  lemma ProcessNoReply(entityId: string, chatId: string, sender: Option<User>, pipeline: Pipeline)
    ensures forall a :: a in Process(entityId, chatId, sender, false, pipeline) ==> !a.SendReply?
  {
  }

  /** Recognition always runs on the configured entity with no explicit
      language, so the host default and the fallback decide it. */
  lemma RecognizedWithoutLanguage(options: Options, message: Message, pipeline: Pipeline)
    ensures forall a :: a in HandleAudioMessage(options, message, pipeline) && a.Recognize? ==>
      Present(options.sttEntityId) && a == Recognize(options.sttEntityId.value, None)
  {
    if PassesGates(options, message) {
      var media := SelectMedia(message).value;
      var limit := options.maxDuration.GetOr(DefaultMaxDuration);
      if !TooLongFor(Duration(media), limit) {
        ProcessRecognizes(options.sttEntityId.value, DecimalString(message.chatId), message.sender,
                          options.sendReply.GetOr(true), pipeline);
      } else {
        assert HandleAudioMessage(options, message, pipeline)
            == ReplyIf(options.sendReply.GetOr(true), TooLong(Duration(media), limit));
      }
    } else {
      SilentUnlessGatesPass(options, message, pipeline);
    }
  }

  lemma ProcessRecognizes(entityId: string, chatId: string, sender: Option<User>, sendReply: bool, pipeline: Pipeline)
    ensures forall a :: a in Process(entityId, chatId, sender, sendReply, pipeline) && a.Recognize? ==>
      a == Recognize(entityId, None)
  {
  }

  /** The text recognition gives for the downloaded media, if any. */
  function RecognizedText(entityId: string, pipeline: Pipeline): Option<string>
  {
    match pipeline.download
    case Err(_) => None
    case Ok(bytes) =>
      match Helpers.TranscodeFromBytes(bytes, pipeline.ffmpeg)
      case Err(_) => None
      case Ok(audio) =>
        match Helpers.ProcessAudioData(pipeline.host, entityId, None, audio).response
        case Err(_) => None
        case Ok(text) => text
  }

  /** An event is fired exactly when recognition gives non-empty text for a
      message with a sender, once, carrying that text, the chat id and the
      sender's username; the transcript is echoed only when replies are on. */
  lemma EventForRecognizedText(options: Options, message: Message, pipeline: Pipeline)
    requires PassesGates(options, message)
    requires !TooLongFor(Duration(SelectMedia(message).value), options.maxDuration.GetOr(DefaultMaxDuration))
    ensures var entityId := options.sttEntityId.value;
      var text := RecognizedText(entityId, pipeline);
      var actions := HandleAudioMessage(options, message, pipeline);
      && (Present(text) && message.sender.Some? ==>
            actions == [Download, Transcode, Recognize(entityId, None),
                        FireEvent(text.value, DecimalString(message.chatId), message.sender.value.username)]
                       + ReplyIf(options.sendReply.GetOr(true), Transcript(text.value)))
      && (forall a :: a in actions && a.FireEvent? ==>
            Present(text) && message.sender.Some?
            && a == FireEvent(text.value, DecimalString(message.chatId), message.sender.value.username))
  {
    ProcessEvents(options.sttEntityId.value, DecimalString(message.chatId), message.sender,
                  options.sendReply.GetOr(true), pipeline);
  }

  lemma ProcessEvents(entityId: string, chatId: string, sender: Option<User>, sendReply: bool, pipeline: Pipeline)
    ensures var text := RecognizedText(entityId, pipeline);
      var actions := Process(entityId, chatId, sender, sendReply, pipeline);
      && (Present(text) && sender.Some? ==>
            actions == [Download, Transcode, Recognize(entityId, None),
                        FireEvent(text.value, chatId, sender.value.username)]
                       + ReplyIf(sendReply, Transcript(text.value)))
      && (forall a :: a in actions && a.FireEvent? ==>
            Present(text) && sender.Some? && a == FireEvent(text.value, chatId, sender.value.username))
  {
    var actions := Process(entityId, chatId, sender, sendReply, pipeline);
    match pipeline.download
    case Err(f) =>
      assert actions == [Download] + ReplyIf(sendReply, FailureReply(f));
    case Ok(bytes) =>
      match Helpers.TranscodeFromBytes(bytes, pipeline.ffmpeg)
      case Err(f) =>
        assert actions == [Download, Transcode] + ReplyIf(sendReply, FailureReply(f));
      case Ok(audio) =>
        match Helpers.ProcessAudioData(pipeline.host, entityId, None, audio).response
        case Err(f) =>
          assert actions == [Download, Transcode, Recognize(entityId, None)] + ReplyIf(sendReply, FailureReply(f));
        case Ok(text) =>
          if !Present(text) {
            assert actions == [Download, Transcode, Recognize(entityId, None)] + ReplyIf(sendReply, NotRecognized);
          } else if sender.None? {
            assert actions == [Download, Transcode, Recognize(entityId, None)] + ReplyIf(sendReply, FailureReply(Foreign(false)));
          }
  }

  /** The event does not depend on the reply toggle. */
  lemma EventIgnoresReplyToggle(options: Options, message: Message, pipeline: Pipeline, e: Action)
    requires e.FireEvent?
    ensures e in HandleAudioMessage(options.(sendReply := Some(true)), message, pipeline)
        <==> e in HandleAudioMessage(options.(sendReply := Some(false)), message, pipeline)
  {
    var on, off := options.(sendReply := Some(true)), options.(sendReply := Some(false));
    assert PassesGates(on, message) == PassesGates(options, message) == PassesGates(off, message);
    if PassesGates(options, message) {
      var media := SelectMedia(message).value;
      var limit := options.maxDuration.GetOr(DefaultMaxDuration);
      if !TooLongFor(Duration(media), limit) {
        ProcessEventIgnoresReplyToggle(options.sttEntityId.value, DecimalString(message.chatId),
                                       message.sender, pipeline, e);
      }
    }
  }

  lemma ProcessEventIgnoresReplyToggle(entityId: string, chatId: string, sender: Option<User>, pipeline: Pipeline, e: Action)
    requires e.FireEvent?
    ensures e in Process(entityId, chatId, sender, true, pipeline) <==> e in Process(entityId, chatId, sender, false, pipeline)
  {
    var on := Process(entityId, chatId, sender, true, pipeline);
    var off := Process(entityId, chatId, sender, false, pipeline);
    assert forall k :: e != SendReply(k);
    if pipeline.download.Ok? {
      var transcoded := Helpers.TranscodeFromBytes(pipeline.download.value, pipeline.ffmpeg);
      if transcoded.Ok? {
        var response := Helpers.ProcessAudioData(pipeline.host, entityId, None, transcoded.value).response;
        if response.Ok? && Present(response.value) && sender.Some? {
          var event := FireEvent(response.value.value, chatId, sender.value.username);
          assert on == [Download, Transcode, Recognize(entityId, None), event, SendReply(Transcript(response.value.value))];
          assert off == [Download, Transcode, Recognize(entityId, None), event];
        }
      }
    }
  }

  /** A source without an audio track draws the specific reply, not the
      generic error one. */
  lemma NoAudioTrackReply(options: Options, message: Message, pipeline: Pipeline)
    requires PassesGates(options, message)
    requires !TooLongFor(Duration(SelectMedia(message).value), options.maxDuration.GetOr(DefaultMaxDuration))
    requires pipeline.download.Ok?
    requires Helpers.TranscodeFromBytes(pipeline.download.value, pipeline.ffmpeg) == Err(NoAudioStream)
    ensures HandleAudioMessage(options, message, pipeline)
         == [Download, Transcode] + ReplyIf(options.sendReply.GetOr(true), NoAudioTrack)
  {
  }

  /** Recognised text that is empty or missing draws the "could not
      recognise" reply when replies are on, and nothing else follows. */
  lemma NothingRecognisedReply(options: Options, message: Message, pipeline: Pipeline)
    requires PassesGates(options, message)
    requires !TooLongFor(Duration(SelectMedia(message).value), options.maxDuration.GetOr(DefaultMaxDuration))
    requires pipeline.download.Ok?
    requires Helpers.TranscodeFromBytes(pipeline.download.value, pipeline.ffmpeg).Ok?
    requires var audio := Helpers.TranscodeFromBytes(pipeline.download.value, pipeline.ffmpeg).value;
      var r := Helpers.ProcessAudioData(pipeline.host, options.sttEntityId.value, None, audio).response;
      r.Ok? && !Present(r.value)
    ensures HandleAudioMessage(options, message, pipeline)
         == [Download, Transcode, Recognize(options.sttEntityId.value, None)]
            + ReplyIf(options.sendReply.GetOr(true), NotRecognized)
  {
    HandleRunsProcess(options, message, pipeline);
  }

  /** Every exception after the gates ends the handling with one reply, when
      replies are on: a missing audio track gets its own reply, any other
      failure the generic error reply carrying it. That includes reading the
      username of a message without a sender once text is recognised. */
  lemma FailureReplied(options: Options, message: Message, pipeline: Pipeline)
    requires PassesGates(options, message)
    requires !TooLongFor(Duration(SelectMedia(message).value), options.maxDuration.GetOr(DefaultMaxDuration))
    ensures var actions := HandleAudioMessage(options, message, pipeline);
      var send := options.sendReply.GetOr(true);
      var entityId := options.sttEntityId.value;
      && (pipeline.download == Err(NoAudioStream) ==>
            actions == [Download] + ReplyIf(send, NoAudioTrack))
      && (pipeline.download.Err? && !pipeline.download.error.NoAudioStream? ==>
            actions == [Download] + ReplyIf(send, Failed(pipeline.download.error)))
      && (pipeline.download.Ok? ==>
            var t := Helpers.TranscodeFromBytes(pipeline.download.value, pipeline.ffmpeg);
            && (t.Err? && !t.error.NoAudioStream? ==>
                  actions == [Download, Transcode] + ReplyIf(send, Failed(t.error)))
            && (t.Ok? ==>
                  var r := Helpers.ProcessAudioData(pipeline.host, entityId, None, t.value).response;
                  && (r.Err? && !r.error.NoAudioStream? ==>
                        actions == [Download, Transcode, Recognize(entityId, None)] + ReplyIf(send, Failed(r.error)))
                  && (r.Ok? && Present(r.value) && message.sender.None? ==>
                        actions == [Download, Transcode, Recognize(entityId, None)] + ReplyIf(send, Failed(Foreign(false))))))
  {
    HandleRunsProcess(options, message, pipeline);
  }

  /** Past both gates, the handler's actions are `Process`'s, and `Process`
      ends each path as `ProcessOutcomes` says. */
  lemma HandleRunsProcess(options: Options, message: Message, pipeline: Pipeline)
    requires PassesGates(options, message)
    requires !TooLongFor(Duration(SelectMedia(message).value), options.maxDuration.GetOr(DefaultMaxDuration))
    ensures HandleAudioMessage(options, message, pipeline)
         == Process(options.sttEntityId.value, DecimalString(message.chatId), message.sender,
                    options.sendReply.GetOr(true), pipeline)
    ensures ProcessOutcomes(options.sttEntityId.value, DecimalString(message.chatId), message.sender,
                            options.sendReply.GetOr(true), pipeline)
  {
    ProcessEndings(options.sttEntityId.value, DecimalString(message.chatId), message.sender,
                   options.sendReply.GetOr(true), pipeline);
  }

  /** How each path of `Process` ends, stage by stage. */
  predicate ProcessOutcomes(entityId: string, chatId: string, sender: Option<User>, sendReply: bool, pipeline: Pipeline) {
    var actions := Process(entityId, chatId, sender, sendReply, pipeline);
    var prefix := [Download, Transcode, Recognize(entityId, None)];
    match pipeline.download
    case Err(f) => actions == [Download] + ReplyIf(sendReply, FailureReply(f))
    case Ok(bytes) =>
      match Helpers.TranscodeFromBytes(bytes, pipeline.ffmpeg)
      case Err(f) => actions == [Download, Transcode] + ReplyIf(sendReply, FailureReply(f))
      case Ok(audio) =>
        match Helpers.ProcessAudioData(pipeline.host, entityId, None, audio).response
        case Err(f) => actions == prefix + ReplyIf(sendReply, FailureReply(f))
        case Ok(text) =>
          if !Present(text) then actions == prefix + ReplyIf(sendReply, NotRecognized)
          else if sender.None? then actions == prefix + ReplyIf(sendReply, Failed(Foreign(false)))
          else actions == prefix + [FireEvent(text.value, chatId, sender.value.username)] + ReplyIf(sendReply, Transcript(text.value))
  }

  lemma ProcessEndings(entityId: string, chatId: string, sender: Option<User>, sendReply: bool, pipeline: Pipeline)
    ensures ProcessOutcomes(entityId, chatId, sender, sendReply, pipeline)
  {
    var actions := Process(entityId, chatId, sender, sendReply, pipeline);
    var prefix := [Download, Transcode, Recognize(entityId, None)];
    match pipeline.download
    case Err(f) =>
    case Ok(bytes) =>
      match Helpers.TranscodeFromBytes(bytes, pipeline.ffmpeg)
      case Err(f) =>
        assert actions == [Download, Transcode] + ReplyIf(sendReply, FailureReply(f));
      case Ok(audio) =>
        match Helpers.ProcessAudioData(pipeline.host, entityId, None, audio).response
        case Err(f) =>
          assert actions == prefix + ReplyIf(sendReply, FailureReply(f));
        case Ok(text) =>
          if !Present(text) {
            assert actions == prefix + ReplyIf(sendReply, NotRecognized);
          } else if sender.None? {
            assert actions == prefix + ReplyIf(sendReply, Failed(Foreign(false)));
          } else {
            assert actions == prefix + [FireEvent(text.value, chatId, sender.value.username)] + ReplyIf(sendReply, Transcript(text.value));
          }
  }

  // ---------------------------------------------------------------------------
  // The bot manager

  /** The parts of a bot application whose state the manager looks at. */
  datatype App = App(hasUpdater: bool, updaterRunning: bool, running: bool, hasBot: bool)

  datatype LifecycleStep = Initialize | Start | StartPolling | StopUpdater | StopApp | Shutdown

  datatype Outgoing = Outgoing(chatId: string, text: string)

  /** The shutdown steps stopping `app` calls for, in order. */
  function ShutdownPlan(app: App): seq<LifecycleStep> {
    (if app.hasUpdater && app.updaterRunning then [StopUpdater] else [])
    + (if app.running then [StopApp] else [])
    + [Shutdown]
  }

  /** The application once `start()` and, when it has an updater,
      `start_polling()` have run: both are then running. */
  function Started(built: App): (a: App)
    ensures a.running && a.updaterRunning == built.hasUpdater
    ensures a.hasUpdater == built.hasUpdater && a.hasBot == built.hasBot
  {
    built.(running := true, updaterRunning := built.hasUpdater)
  }

  /** Stopping a started application stops the updater (if any), then the
      application, then shuts it down. */
  lemma StartedStopsFully(built: App)
    ensures ShutdownPlan(Started(built)) == (if built.hasUpdater then [StopUpdater] else []) + [StopApp, Shutdown]
  {
  }

  /** The steps of `plan` attempted when `failing` raises: up to and
      including it, or all of them. */
  function UpTo(plan: seq<LifecycleStep>, failing: Option<LifecycleStep>): (done: seq<LifecycleStep>)
    ensures done <= plan
    ensures failing.None? || failing.value !in plan ==> done == plan
    ensures failing.Some? && failing.value in plan ==>
      done != [] && done[|done| - 1] == failing.value && failing.value !in done[..|done| - 1]
  {
    if plan == [] then []
    else if failing == Some(plan[0]) then [plan[0]]
    else [plan[0]] + UpTo(plan[1..], failing)
  }

  class TelegramBotManager {
    var app: Option<App>

    constructor ()
      ensures app == None
    {
      app := None;
    }

    /** Builds and starts the application when the bot is enabled and has a
        token; otherwise leaves the manager as it was. */
    method StartBotIfEnabled(enabled: bool, token: Option<string>, built: App) returns (steps: seq<LifecycleStep>)
      modifies this
      ensures enabled && Present(token) ==>
        app == Some(Started(built)) && steps == [Initialize, Start] + (if built.hasUpdater then [StartPolling] else [])
      ensures !(enabled && Present(token)) ==> app == old(app) && steps == []
    {
      steps := [];
      if !enabled || !Present(token) {
        return;
      }
      app := Some(Started(built));
      steps := [Initialize, Start];
      if built.hasUpdater {
        steps := steps + [StartPolling];
      }
    }

    /** Stops the application, `failing` naming the step that raises if any:
        the steps after it are skipped, and the application is dropped
        whatever happens. */
    method StopBot(failing: Option<LifecycleStep>) returns (attempted: seq<LifecycleStep>)
      modifies this
      ensures app == None
      ensures old(app).None? ==> attempted == []
      ensures old(app).Some? ==> attempted == UpTo(ShutdownPlan(old(app).value), failing)
    {
      attempted := [];
      if app.None? {
        return;
      }
      var current := app.value;
      var failed := false;
      if current.hasUpdater && current.updaterRunning {
        attempted := attempted + [StopUpdater];
        failed := failing == Some(StopUpdater);
      }
      if !failed && current.running {
        attempted := attempted + [StopApp];
        failed := failing == Some(StopApp);
      }
      if !failed {
        attempted := attempted + [Shutdown];
      }
      app := None;
    }

    /** Sends a message through the application's bot, or nothing when there
        is no application or it has no bot. */
    method SendMessage(chatId: string, text: string) returns (sent: Option<Outgoing>)
      ensures sent.Some? <==> app.Some? && app.value.hasBot
      ensures sent.Some? ==> sent.value == Outgoing(chatId, text)
    {
      if app.None? || !app.value.hasBot {
        return None;
      }
      sent := Some(Outgoing(chatId, text));
    }
  }
}
