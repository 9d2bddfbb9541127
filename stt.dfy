/** The host's speech-to-text interface as the integration sees it: the
    metadata describing an audio stream, the stream handed to a provider, the
    provider's reply, and the host services the orchestrators consult. */
module Stt {
  import opened Types
  import opened Language

  datatype AudioFormat = Wav | Ogg
  datatype AudioCodec = Pcm | Opus

  /** `stt.SpeechMetadata`: bit rate in bits per sample, sample rate in Hz. */
  datatype Metadata = Metadata(
    language: string, format: AudioFormat, codec: AudioCodec,
    bitRate: nat, sampleRate: nat, channels: nat)

  /** Whether the metadata describes what the ffmpeg command produces
      (`-f wav -acodec pcm_s16le -ar 16000 -ac 1`). */
  predicate DescribesTranscodedPcm(m: Metadata) {
    m.format == Wav && m.codec == Pcm && m.bitRate == 16 && m.sampleRate == 16000 && m.channels == 1
  }

  /** The metadata both orchestrators build for a resolved language. */
  function SpeechMetadata(language: string): Metadata {
    Metadata(language, Wav, Pcm, 16, 16000, 1)
  }

  /** An audio stream as its consumer sees it: all of its chunks, or a failure
      raised while the consumer iterates it. */
  datatype Stream = Complete(chunks: seq<seq<byte>>) | Broken(failure: Failure)

  /** What `internal_async_process_audio_stream` gives back: a result state
      with an optional text, or an exception. */
  datatype SttReply = Reply(state: ResultState, text: Option<string>) | Raised(failure: Failure)

  /** A speech-to-text entity: its declared languages and its recognition call. */
  datatype Provider = Provider(supportedLanguages: seq<string>, process: (Metadata, Stream) -> SttReply)

  /** The host services used: the configured language, the entity lookup
      `stt.async_get_speech_to_text_entity` and `language_util.matches`. */
  datatype Host = Host(language: string, providers: string -> Option<Provider>, matches: Matcher)

  /** The recognition call an orchestrator made. */
  datatype SttCall = SttCall(metadata: Metadata, stream: Stream)

  /** One recognition attempt: the response (the `text` of `{"text": ...}`, or
      the failure raised) and the call made to the provider, if any. */
  datatype Attempt = Attempt(response: Result<Option<string>, Failure>, call: Option<SttCall>)
}
