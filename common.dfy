/**
 * Values shared by the whole model: an optional value, the handle of a
 * loaded translation pipeline, and the outcome of invoking that pipeline
 * on one text.  The pipeline itself (tokenisation, inference, decoding) is
 * an external collaborator; only the shape of its answer is modelled.
 */
module Common {

  /** `null`/`undefined` versus a present value. */
  datatype Option<+T> = None | Some(value: T) {
    function GetOr(default: T): T {
      match this
      case Some(v) => v
      case None => default
    }
  }

  /** An opaque handle to one loaded translation pipeline instance. */
  datatype Pipeline = Pipeline(id: nat)

  /**
   * The result of one call `model(text, {src_lang, tgt_lang})`: the text at
   * `result[0].translation_text`, or the message of the exception it threw.
   */
  datatype CallResult = Success(text: string) | Failure(message: string)

  /**
   * The pipeline call as a function of the pipeline, the input text, the
   * source model code and the target model code.
   */
  type TranslateCall = (Pipeline, string, string, string) -> CallResult
}
