/** Values shared by every part of the integration: optional values, results,
    bytes, and the closed set of failures the integration raises or passes on. */
module Types {

  datatype Option<+T> = None | Some(value: T) {
    /** The value, or `default` when absent (`dict.get(key, default)`). */
    function GetOr(default: T): T {
      match this
      case Some(v) => v
      case None => default
    }
  }

  datatype Result<+R, +E> = Ok(value: R) | Err(error: E)

  newtype byte = x: int | 0 <= x < 256

  /** An optional string that Python's `not` treats as present: neither `None` nor `""`. */
  predicate Present(s: Option<string>) {
    s.Some? && s.value != ""
  }

  /** The two states of the host's `stt.SpeechResultState`. */
  datatype ResultState = Success | Error

  /** Every failure that reaches a caller of the integration. All of them are
      `ServiceValidationError`s in the source except `NoAudioStream`
      (`NoAudioStreamError`, a plain `HomeAssistantError`) and a `Foreign`
      exception whose `validation` flag is false. */
  datatype Failure =
    | MissingArgument(argument: string)
    | EntityNotFound(entityId: string)
    | UnsupportedLanguage(language: string, supported: seq<string>)
    | TranscodeFailed(diagnostic: string)
    | NoAudioStream
    | AudioFileNotFound(path: string)
    | AudioFileUnreadable(path: string)
    | RecognitionFailed(state: ResultState)
    | Unexpected
      /** An exception raised by code outside the integration (the STT provider,
          the bot library); `validation` says whether it is a `ServiceValidationError`. */
    | Foreign(validation: bool)

  /** Whether an `except ServiceValidationError` clause catches the failure. */
  predicate IsValidationError(f: Failure) {
    match f
    case NoAudioStream => false
    case Foreign(validation) => validation
    case _ => true
  }
}
