/** The shared pipeline: turning ffmpeg's output into a raw PCM payload,
    streaming a payload in fixed-size chunks, and running a payload through a
    speech-to-text provider with every failure collapsed into one. */
module Helpers {
  import opened Types
  import opened Chunking
  import opened Language
  import opened Stt

  /** Length of the canonical WAV header ffmpeg writes before the samples. */
  const WavHeaderSize: nat := 44

  /** Chunk size of the in-memory stream. */
  const StreamChunkSize: int := 4096

  /** What one ffmpeg process gives back once it exits: its exit status, its
      standard output and its standard error decoded as text. */
  datatype FfmpegRun = FfmpegRun(returnCode: int, stdout: seq<byte>, stderr: string)

  /** The payload after the header, or the failure the run signals. */
  function PcmPayload(run: FfmpegRun): Result<seq<byte>, Failure>
  {
    if run.returnCode != 0 then Err(TranscodeFailed(run.stderr))
    else if |run.stdout| > WavHeaderSize then Ok(run.stdout[WavHeaderSize..])
    else Err(NoAudioStream)
  }

  /** Transcodes an in-memory buffer: `ffmpeg` is the process fed `source` on
      its standard input. A failed exit is a transcode failure whatever the
      output holds; otherwise the header is cut off, and an output no longer
      than the header means the source had no audio stream. */
  function TranscodeFromBytes(source: seq<byte>, ffmpeg: seq<byte> -> FfmpegRun): (r: Result<seq<byte>, Failure>)
    ensures var run := ffmpeg(source);
      && (run.returnCode != 0 ==> r == Err(TranscodeFailed(run.stderr)))
      && (run.returnCode == 0 && |run.stdout| <= WavHeaderSize ==> r == Err(NoAudioStream))
      && (r.Ok? <==> run.returnCode == 0 && |run.stdout| > WavHeaderSize)
      && (r.Ok? ==> |r.value| == |run.stdout| - WavHeaderSize > 0
                    && run.stdout == run.stdout[..WavHeaderSize] + r.value)
  {
    var run := ffmpeg(source);
    PcmPayload(run)
  }

  /** Transcodes the file at `path`: `ffmpeg` is the process reading it. */
  function TranscodeFromPath(path: string, ffmpeg: string -> FfmpegRun): (r: Result<seq<byte>, Failure>)
    ensures var run := ffmpeg(path);
      && (run.returnCode != 0 ==> r == Err(TranscodeFailed(run.stderr)))
      && (run.returnCode == 0 && |run.stdout| <= WavHeaderSize ==> r == Err(NoAudioStream))
      && (r.Ok? <==> run.returnCode == 0 && |run.stdout| > WavHeaderSize)
      && (r.Ok? ==> |r.value| == |run.stdout| - WavHeaderSize > 0
                    && run.stdout == run.stdout[..WavHeaderSize] + r.value)
  {
    var run := ffmpeg(path);
    PcmPayload(run)
  }

  /** The in-memory stream: reads `chunkSize` bytes at a time from a cursor
      over `data` and emits each non-empty read, stopping at the first empty
      one. */
  method StreamFromBytes(data: seq<byte>, chunkSize: int) returns (chunks: seq<seq<byte>>)
    ensures chunks == Chunks(data, chunkSize)
    ensures chunkSize != 0 ==> Concat(chunks) == data
    ensures chunkSize > 0 ==> |chunks| == (|data| + chunkSize - 1) / chunkSize
    ensures chunkSize > 0 ==> forall i :: 0 <= i < |chunks| ==> 0 < |chunks[i]| <= chunkSize
  {
    var cursor: nat := 0;
    chunks := [];
    var chunk := Read(data, cursor, chunkSize);
    while chunk != []
      invariant chunk == Read(data, cursor, chunkSize)
      invariant chunks + Chunks(Tail(data, cursor), chunkSize) == Chunks(data, chunkSize)
      decreases |Tail(data, cursor)|
    {
      ReadStep(data, cursor, chunkSize);
      chunks := chunks + [chunk];
      cursor := cursor + |chunk|;
      chunk := Read(data, cursor, chunkSize);
    }
    ReadEnd(data, cursor, chunkSize);
    if chunkSize != 0 {
      ChunksReconstruct(data, chunkSize);
    }
    if chunkSize > 0 {
      ChunksCount(data, chunkSize);
      ChunksBounded(data, chunkSize);
    }
  }

  /** Maps the provider's reply the way the blanket handler does: only a
      successful state yields text; a failed state and every exception end as
      the same generic failure. */
  function ClassifyReply(reply: SttReply): Result<Option<string>, Failure>
  {
    if reply.Reply? && reply.state == Success then Ok(reply.text) else Err(Unexpected)
  }

  /** Recognises a PCM payload with the provider `entityId` names. */
  function ProcessAudioData(host: Host, entityId: string, language: Option<string>, audio: seq<byte>): (a: Attempt)
    ensures host.providers(entityId).None? ==> a == Attempt(Err(EntityNotFound(entityId)), None)
    ensures host.providers(entityId).Some? ==>
      var p := host.providers(entityId).value;
      var lang := Resolve(language, host.language, p.supportedLanguages, host.matches);
      && (lang.Err? ==> a == Attempt(Err(lang.error), None))
      && (lang.Ok? ==> a.call.Some? && a.call.value.metadata.language == lang.value)
    ensures a.call.Some? ==>
      var c := a.call.value;
      && DescribesTranscodedPcm(c.metadata)
      && c.stream.Complete? && Concat(c.stream.chunks) == audio
      && (forall i :: 0 <= i < |c.stream.chunks| ==> 0 < |c.stream.chunks[i]| <= StreamChunkSize)
    ensures a.call.Some? ==> a.call.value.stream == Complete(Chunks(audio, StreamChunkSize))
    ensures a.call.Some? ==>
      var reply := host.providers(entityId).value.process(a.call.value.metadata, a.call.value.stream);
      && (a.response.Ok? <==> reply.Reply? && reply.state == Success)
      && (a.response.Ok? ==> a.response.value == reply.text)
      && (a.response.Err? ==> a.response.error == Unexpected)
  {
    match host.providers(entityId)
    case None => Attempt(Err(EntityNotFound(entityId)), None)
    case Some(provider) =>
      match Resolve(language, host.language, provider.supportedLanguages, host.matches)
      case Err(failure) => Attempt(Err(failure), None)
      case Ok(target) =>
        var stream := Complete(Chunks(audio, StreamChunkSize));
        ChunksReconstruct(audio, StreamChunkSize);
        ChunksBounded(audio, StreamChunkSize);
        var metadata := SpeechMetadata(target);
        Attempt(ClassifyReply(provider.process(metadata, stream)), Some(SttCall(metadata, stream)))
  }
}
