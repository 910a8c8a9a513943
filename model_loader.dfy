/**
 * utils/model-loader.js: `loadTranslationModel`, a memoised loader for the
 * NLLB translation pipeline, with its module-level `translator`,
 * `isModelLoading` and `modelLoadError` and the three getters it exports.
 *
 * The call `pipeline('translation', ...)` is external: each attempt is
 * given its outcome as a `PipelineOutcome`.  The busy-wait of a caller that
 * arrives while an attempt is in flight is collapsed into a single step
 * that starts nothing.
 */
module ModelLoader {
  import opened Common

  /** What `await pipeline(...)` yields: the pipeline, or a thrown error's message. */
  datatype PipelineOutcome = Loaded(pipeline: Pipeline) | LoadFailed(message: string)

  /** The model id both loaders name. */
  const ModelId: string := "Xenova/nllb-200-distilled-600M"

  /** The three module-level variables, as one value. */
  datatype LoaderState = LoaderState(
    translator: Option<Pipeline>,
    isModelLoading: bool,
    modelLoadError: Option<string>)

  const Initial: LoaderState := LoaderState(None, false, None)

  /** A loaded translator never coexists with an attempt in flight or an error. */
  predicate Coherent(s: LoaderState) {
    s.translator.Some? ==> !s.isModelLoading && s.modelLoadError.None?
  }

  /** The effect of one `loadTranslationModel()` call: the new variables,
      what it returns, and whether it called `pipeline`. */
  datatype Step = Step(next: LoaderState, result: Option<Pipeline>, calledPipeline: bool)

  /**
   * `loadTranslationModel()` given the outcome its `pipeline` call would
   * have: the memoised translator when there is one (line 12), nothing
   * started while an attempt is in flight (lines 13-18), otherwise a new
   * attempt (lines 20-33) whose error is caught and turned into a null
   * result.
   */
  function LoadTranslation(s: LoaderState, o: PipelineOutcome): (st: Step)
    ensures s.translator.Some? ==> !st.calledPipeline && st.next == s && st.result == s.translator
    ensures s.translator.None? && s.isModelLoading ==> !st.calledPipeline && st.next == s && st.result.None?
    ensures s.translator.None? && !s.isModelLoading ==>
      && st.calledPipeline
      && !st.next.isModelLoading
      && (o.Loaded? ==> st.result == Some(o.pipeline) && st.next.modelLoadError.None?)
      && (o.LoadFailed? ==> st.result.None? && st.next.modelLoadError == Some(o.message))
    ensures st.result == st.next.translator
    ensures Coherent(s) ==> Coherent(st.next)
  {
    if s.translator.Some? then Step(s, s.translator, false)
    else if s.isModelLoading then Step(s, s.translator, false)
    else
      match o
      case Loaded(p) => Step(LoaderState(Some(p), false, None), Some(p), true)
      case LoadFailed(m) => Step(LoaderState(None, false, Some(m)), None, true)
  }

  /**
   * Failure is not memoised: after a failed attempt the next call calls
   * `pipeline` again, and a success then clears the recorded error.
   */
  lemma FailureIsRetried(s: LoaderState, message: string, o: PipelineOutcome)
    requires s.translator.None? && !s.isModelLoading
    ensures var failed := LoadTranslation(s, LoadFailed(message)).next;
      && failed.translator.None? && !failed.isModelLoading
      && LoadTranslation(failed, o).calledPipeline
      && (o.Loaded? ==> LoadTranslation(failed, o).next == LoaderState(Some(o.pipeline), false, None))
  {
  }

  /** Success is memoised: every later call returns the loaded pipeline and
      calls `pipeline` no more, whatever its outcome would have been. */
  lemma SuccessIsMemoised(s: LoaderState, p: Pipeline, later: PipelineOutcome)
    requires s.translator.None? && !s.isModelLoading
    ensures var ready := LoadTranslation(s, Loaded(p)).next;
      && LoadTranslation(ready, later) == Step(ready, Some(p), false)
  {
  }

  /** The module-level variables of utils/model-loader.js as one object. */
  class TranslationModelLoader {
    var translator: Option<Pipeline>
    var isModelLoading: bool
    var modelLoadError: Option<string>

    function State(): LoaderState
      reads this
    {
      LoaderState(translator, isModelLoading, modelLoadError)
    }

    predicate Valid()
      reads this
    {
      Coherent(State())
    }

    /** Lines 7-9. */
    constructor ()
      ensures State() == Initial && Valid()
    {
      translator := None;
      isModelLoading := false;
      modelLoadError := None;
    }

    /** Entering an attempt (line 20). */
    method BeginAttempt()
      requires Valid() && translator.None? && !isModelLoading
      modifies this
      ensures Valid()
      ensures State() == old(State()).(isModelLoading := true)
    {
      isModelLoading := true;
    }

    /** The `try`/`catch`/`finally` of an attempt once `pipeline` has answered (lines 21-32). */
    method FinishAttempt(o: PipelineOutcome)
      requires Valid() && translator.None? && isModelLoading
      modifies this
      ensures Valid()
      ensures o.Loaded? ==> State() == LoaderState(Some(o.pipeline), false, None)
      ensures o.LoadFailed? ==> State() == LoaderState(None, false, Some(o.message))
    {
      match o {
        case Loaded(p) =>
          translator := Some(p);
          modelLoadError := None;
        case LoadFailed(message) =>
          modelLoadError := Some(message);
          translator := None;
      }
      isModelLoading := false;
    }

    /** `loadTranslationModel()` (lines 11-34); `o` is not consulted when no attempt starts. */
    method LoadTranslationModel(o: PipelineOutcome) returns (t: Option<Pipeline>)
      requires Valid()
      modifies this
      ensures Valid()
      ensures State() == LoadTranslation(old(State()), o).next
      ensures t == LoadTranslation(old(State()), o).result
    {
      if translator.Some? {
        return translator;
      }
      if isModelLoading {
        // The source polls until the attempt in flight lowers the flag; the
        // model takes this call as a single step that starts nothing.
        return translator;
      }
      BeginAttempt();
      FinishAttempt(o);
      return translator;
    }

    /** `getModel()` (line 41): a translator is reported exactly when one is loaded. */
    function GetModel(): (t: Option<Pipeline>)
      reads this
      requires Valid()
      ensures t.Some? ==> !IsModelLoading() && GetModelLoadError().None?
      ensures t == State().translator
    {
      translator
    }

    /** `isModelLoading()` (line 42). */
    function IsModelLoading(): (b: bool)
      reads this
      ensures b == State().isModelLoading
    {
      isModelLoading
    }

    /** `getModelLoadError()` (line 43). */
    function GetModelLoadError(): (e: Option<string>)
      reads this
      ensures e == State().modelLoadError
    {
      modelLoadError
    }
  }
}
