/** The `recognize_file` service: validating the call, streaming a WAV file
    from disk past its header, and running it through a speech-to-text
    provider so that validation errors reach the caller unchanged. */
module Integration {
  import opened Types
  import opened Chunking
  import opened Language
  import opened Stt
  import Helpers

  /** Bytes skipped at the start of the file (the WAV header). */
  const FileHeaderSkip: nat := 44

  /** Chunk size of the file stream. */
  const FileChunkSize: int := 1024

  /** What opening a path yields: the file's bytes, or a failure to open it. */
  datatype AudioFile = Contents(bytes: seq<byte>) | NotFound | Unreadable

  /** The stream the provider consumes for the file at `path`. */
  function FileStream(path: string, file: AudioFile): Stream
  {
    match file
    case Contents(bytes) => Complete(Chunks(Tail(bytes, FileHeaderSkip), FileChunkSize))
    case NotFound => Broken(AudioFileNotFound(path))
    case Unreadable => Broken(AudioFileUnreadable(path))
  }

  /** Opens the file, seeks past the header and reads it in 1024-byte chunks
      until a read comes back empty; a file that cannot be opened breaks the
      stream with a validation error naming the path. */
  method StreamAudioFromFile(path: string, file: AudioFile) returns (s: Stream)
    ensures s == FileStream(path, file)
    ensures file.Contents? ==> s.Complete? && Concat(s.chunks) == Tail(file.bytes, FileHeaderSkip)
    ensures file.Contents? ==> forall i :: 0 <= i < |s.chunks| ==> 0 < |s.chunks[i]| <= FileChunkSize
    ensures file.Contents? && |file.bytes| <= FileHeaderSkip ==> s == Complete([])
    ensures file.NotFound? ==> s == Broken(AudioFileNotFound(path))
  {
    match file {
      case NotFound =>
        s := Broken(AudioFileNotFound(path));
      case Unreadable =>
        s := Broken(AudioFileUnreadable(path));
      case Contents(content) =>
        var cursor: nat := FileHeaderSkip;
        var chunks: seq<seq<byte>> := [];
        var chunk := Read(content, cursor, FileChunkSize);
        while chunk != []
          invariant chunk == Read(content, cursor, FileChunkSize)
          invariant chunks + Chunks(Tail(content, cursor), FileChunkSize)
                 == Chunks(Tail(content, FileHeaderSkip), FileChunkSize)
          decreases |Tail(content, cursor)|
        {
          ReadStep(content, cursor, FileChunkSize);
          chunks := chunks + [chunk];
          cursor := cursor + |chunk|;
          chunk := Read(content, cursor, FileChunkSize);
        }
        ReadEnd(content, cursor, FileChunkSize);
        ChunksReconstruct(Tail(content, FileHeaderSkip), FileChunkSize);
        ChunksBounded(Tail(content, FileHeaderSkip), FileChunkSize);
        s := Complete(chunks);
    }
  }

  /** The data of a `recognize_file` call; each field may be missing. */
  datatype ServiceCallData = ServiceCallData(entityId: Option<string>, filePath: Option<string>, language: Option<string>)

  /** The validation done when the call data is built: `entity_id` is checked
      first, then `file_path`; a missing or empty value is refused. */
  function Validate(data: ServiceCallData): (r: Option<Failure>)
    ensures r.None? <==> Present(data.entityId) && Present(data.filePath)
    ensures !Present(data.entityId) ==> r == Some(MissingArgument("entity_id"))
    ensures Present(data.entityId) && !Present(data.filePath) ==> r == Some(MissingArgument("file_path"))
  {
    if !Present(data.entityId) then Some(MissingArgument("entity_id"))
    else if !Present(data.filePath) then Some(MissingArgument("file_path"))
    else None
  }

  /** The service's handling of the provider's reply: a successful state gives
      the text, a failed state raises "Recognition failed", a validation error
      is re-raised as it is, and any other exception becomes the generic one. */
  function ClassifyReply(reply: SttReply): Result<Option<string>, Failure>
  {
    match reply
    case Reply(Success, text) => Ok(text)
    case Reply(state, _) => Err(RecognitionFailed(state))
    case Raised(failure) => if IsValidationError(failure) then Err(failure) else Err(Unexpected)
  }

  /** Recognises the file named by validated call data, reading files through
      `files`. */
  function RecognizeAndGetResponse(host: Host, data: ServiceCallData, files: string -> AudioFile): (a: Attempt)
    requires Validate(data).None?
    ensures var id := data.entityId.value;
      host.providers(id).None? ==> a == Attempt(Err(EntityNotFound(id)), None)
    ensures var id := data.entityId.value;
      host.providers(id).Some? ==>
      var p := host.providers(id).value;
      var lang := Resolve(data.language, host.language, p.supportedLanguages, host.matches);
      && (lang.Err? ==> a == Attempt(Err(lang.error), None))
      && (lang.Ok? ==> a.call.Some? && a.call.value.metadata.language == lang.value)
    ensures a.call.Some? ==>
      && DescribesTranscodedPcm(a.call.value.metadata)
      && a.call.value.stream == FileStream(data.filePath.value, files(data.filePath.value))
    ensures a.call.Some? ==>
      var reply := host.providers(data.entityId.value).value.process(a.call.value.metadata, a.call.value.stream);
      && (a.response.Ok? <==> reply.Reply? && reply.state == Success)
      && (a.response.Ok? ==> a.response.value == reply.text)
      && (reply.Reply? && reply.state != Success ==> a.response == Err(RecognitionFailed(reply.state)))
      && (reply.Raised? && IsValidationError(reply.failure) ==> a.response == Err(reply.failure))
      && (reply.Raised? && !IsValidationError(reply.failure) ==> a.response == Err(Unexpected))
    ensures a.response.Err? ==> IsValidationError(a.response.error)
  {
    var id := data.entityId.value;
    match host.providers(id)
    case None => Attempt(Err(EntityNotFound(id)), None)
    case Some(provider) =>
      match Resolve(data.language, host.language, provider.supportedLanguages, host.matches)
      case Err(failure) => Attempt(Err(failure), None)
      case Ok(target) =>
        var metadata := SpeechMetadata(target);
        var stream := FileStream(data.filePath.value, files(data.filePath.value));
        Attempt(ClassifyReply(provider.process(metadata, stream)), Some(SttCall(metadata, stream)))
  }

  /** The registered service handler: validate, then recognise. */
  function HandleRecognizeFile(host: Host, data: ServiceCallData, files: string -> AudioFile): (a: Attempt)
    ensures Validate(data).Some? ==> a == Attempt(Err(Validate(data).value), None)
    ensures a.response.Err? ==> IsValidationError(a.response.error)
    ensures a.call.Some? ==> Present(data.entityId) && Present(data.filePath)
    ensures Validate(data).None? ==> a == RecognizeAndGetResponse(host, data, files)
  {
    match Validate(data)
    case Some(failure) => Attempt(Err(failure), None)
    case None => RecognizeAndGetResponse(host, data, files)
  }

  /** A file of at most 44 bytes gives the provider an empty stream. */
  lemma ShortFileStreamsNothing(path: string, bytes: seq<byte>)
    requires |bytes| <= FileHeaderSkip
    ensures FileStream(path, Contents(bytes)) == Complete([])
  {
  }

  /** The file stream carries exactly the bytes after the header, in chunks of
      at most 1024 bytes, all of them full but the last. */
  lemma FileStreamCarriesPayload(path: string, bytes: seq<byte>)
    requires |bytes| > FileHeaderSkip
    ensures var s := FileStream(path, Contents(bytes));
      && s.Complete? && Concat(s.chunks) == bytes[FileHeaderSkip..]
      && |s.chunks| == (|bytes| - FileHeaderSkip + FileChunkSize - 1) / FileChunkSize
      && (forall i :: 0 <= i < |s.chunks| ==> 0 < |s.chunks[i]| <= FileChunkSize)
      && (forall i :: 0 <= i < |s.chunks| - 1 ==> |s.chunks[i]| == FileChunkSize)
  {
    var payload := bytes[FileHeaderSkip..];
    ChunksReconstruct(payload, FileChunkSize);
    ChunksCount(payload, FileChunkSize);
    ChunksBounded(payload, FileChunkSize);
    ChunksFull(payload, FileChunkSize);
  }

  /** With a provider that passes on a failure raised by its input stream, a
      missing file surfaces as the "not found" validation error. */
  lemma MissingFileSurfacesAsNotFound(host: Host, data: ServiceCallData, files: string -> AudioFile)
    requires Validate(data).None?
    requires host.providers(data.entityId.value).Some?
    requires var p := host.providers(data.entityId.value).value;
      Resolve(data.language, host.language, p.supportedLanguages, host.matches).Ok?
    requires files(data.filePath.value) == NotFound
    requires forall m: Metadata, f: Failure ::
      host.providers(data.entityId.value).value.process(m, Broken(f)) == Raised(f)
    ensures RecognizeAndGetResponse(host, data, files).response == Err(AudioFileNotFound(data.filePath.value))
  {
  }

  /** The two orchestrators report a failed result state differently: the
      in-memory path's blanket handler turns it into the generic failure,
      while the file service raises "Recognition failed" and lets it through. */
  lemma FailedStateReportedDifferently(host: Host, data: ServiceCallData, files: string -> AudioFile, audio: seq<byte>)
    requires Validate(data).None?
    requires host.providers(data.entityId.value).Some?
    requires var p := host.providers(data.entityId.value).value;
      Resolve(data.language, host.language, p.supportedLanguages, host.matches).Ok?
    requires forall m: Metadata, s: Stream :: host.providers(data.entityId.value).value.process(m, s) == Reply(Error, None)
    ensures Helpers.ProcessAudioData(host, data.entityId.value, data.language, audio).response == Err(Unexpected)
    ensures RecognizeAndGetResponse(host, data, files).response == Err(RecognitionFailed(Error))
  {
  }
}
