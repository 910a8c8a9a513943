/**
 * The model lifecycle of server.js (`loadModel` and the module-level
 * variables `translator`, `isModelLoading`, `modelLoadError`,
 * `modelSource`, `modelLoadFailures`).
 *
 * The acquisition itself (the call to `loadTranslationModel`, which walks
 * the download origins) is external: each attempt is given its outcome as
 * an `Acquisition` value.  The busy-wait of a caller that arrives while an
 * attempt is in flight is collapsed into a single step that starts nothing.
 */
module ServerLoader {
  import opened Common

  /** `modelSource`, `{ name, host }`: the origin the loaded model came from.
      A field the result object lacks is `undefined`, here `None`. */
  datatype ModelSource = ModelSource(name: Option<string>, host: Option<string>)

  /** One element of `error.failures`: an origin that was tried and why it failed. */
  datatype HostFailure = HostFailure(name: string, host: string, message: string)

  /**
   * The outcome of one awaited `loadTranslationModel(...)`: the object
   * `{translator, name, host}`, or a thrown error with its `message` and its
   * optional `failures` list.
   */
  datatype Acquisition =
    | Acquired(translator: Pipeline, name: string, host: string)
    | AcquireFailed(message: string, failures: Option<seq<HostFailure>>)

  /** The five module-level variables, as one value. */
  datatype LoaderState = LoaderState(
    translator: Option<Pipeline>,
    isModelLoading: bool,
    modelLoadError: Option<string>,
    modelSource: Option<ModelSource>,
    modelLoadFailures: seq<HostFailure>)

  /** The values the variables are declared with. */
  const Initial: LoaderState := LoaderState(None, false, None, None, [])

  /** The lifecycle phase the variables encode. */
  datatype Phase = Idle | Loading | Ready | Failed

  function PhaseOf(s: LoaderState): Phase {
    if s.translator.Some? then Ready
    else if s.isModelLoading then Loading
    else if s.modelLoadError.Some? then Failed
    else Idle
  }

  /**
   * How the variables relate once any sequence of calls has run: a source
   * is published exactly when a translator is, and a loaded translator
   * excludes an attempt in flight, an error and a failure list.
   */
  predicate Coherent(s: LoaderState) {
    && (s.translator.Some? <==> s.modelSource.Some?)
    && (s.translator.Some? ==> !s.isModelLoading && s.modelLoadError.None? && s.modelLoadFailures == [])
    && (s.isModelLoading ==> s.modelLoadFailures == [])
  }

  lemma InitialIsIdle()
    ensures Coherent(Initial) && PhaseOf(Initial) == Idle
  {
  }

  /** Lines 51-52: an attempt raises the flag and empties the failure list. */
  function Begin(s: LoaderState): (r: LoaderState)
    requires s.translator.None? && !s.isModelLoading
    ensures PhaseOf(r) == Loading && r.modelLoadFailures == []
    ensures r.modelLoadError == s.modelLoadError && r.modelSource == s.modelSource
  {
    s.(isModelLoading := true, modelLoadFailures := [])
  }

  /** Lines 65-84: the attempt's outcome is published and the flag is lowered. */
  function Finish(s: LoaderState, a: Acquisition): (r: LoaderState)
    requires s.translator.None? && s.isModelLoading
    ensures !r.isModelLoading
    ensures a.Acquired? ==>
      && PhaseOf(r) == Ready && r.translator == Some(a.translator)
      && r.modelSource == Some(ModelSource(Some(a.name), Some(a.host))) && r.modelLoadError.None?
      && r.modelLoadFailures == s.modelLoadFailures
    ensures a.AcquireFailed? ==>
      && PhaseOf(r) == Failed && r.translator.None? && r.modelSource.None?
      && r.modelLoadError == Some(a.message) && r.modelLoadFailures == a.failures.GetOr([])
  {
    match a
    case Acquired(t, name, host) =>
      s.(translator := Some(t), modelSource := Some(ModelSource(Some(name), Some(host))),
         modelLoadError := None, isModelLoading := false)
    case AcquireFailed(message, failures) =>
      s.(translator := None, modelSource := None, modelLoadError := Some(message),
         modelLoadFailures := failures.GetOr([]), isModelLoading := false)
  }

  /** The effect of one `loadModel()` call: the new variables, what it returns,
      and whether it started an acquisition. */
  datatype Step = Step(next: LoaderState, result: Option<Pipeline>, acquired: bool)

  /**
   * `loadModel()`, given the outcome its acquisition would have.  Ready:
   * the memoised translator, nothing started.  Loading: nothing started, the
   * variables untouched.  Idle or Failed: a new attempt whose outcome decides
   * the next phase, and the function returns the translator it leaves.
   */
  function Load(s: LoaderState, a: Acquisition): (st: Step)
    ensures PhaseOf(s) == Ready ==> !st.acquired && st.next == s && st.result == s.translator
    ensures PhaseOf(s) == Loading ==> !st.acquired && st.next == s && st.result.None?
    ensures PhaseOf(s) in {Idle, Failed} ==>
      && st.acquired
      && PhaseOf(st.next) == (if a.Acquired? then Ready else Failed)
      && st.next == Finish(Begin(s), a)
    ensures st.result == st.next.translator
    ensures !s.isModelLoading ==> !st.next.isModelLoading
    ensures Coherent(s) ==> Coherent(st.next)
  {
    if s.translator.Some? then Step(s, s.translator, false)
    else if s.isModelLoading then Step(s, s.translator, false)
    else
      var n := Finish(Begin(s), a);
      Step(n, n.translator, true)
  }

  /** After a failed attempt the next call starts a new one, and its effect
      is the same as if the failed attempt had never happened. */
  lemma RetryAfterFailure(s: LoaderState, failed: Acquisition, next: Acquisition)
    requires PhaseOf(s) in {Idle, Failed}
    requires failed.AcquireFailed?
    ensures PhaseOf(Load(s, failed).next) == Failed
    ensures Load(Load(s, failed).next, next) == Load(s, next)
  {
  }

  /** What a sequence of `loadModel()` calls returns, and how many of them
      started an acquisition. */
  datatype Trace = Trace(final: LoaderState, results: seq<Option<Pipeline>>, attempts: nat)

  function Run(s: LoaderState, outcomes: seq<Acquisition>): (t: Trace)
    ensures |t.results| == |outcomes|
    decreases |outcomes|
  {
    if outcomes == [] then Trace(s, [], 0)
    else
      var st := Load(s, outcomes[0]);
      var rest := Run(st.next, outcomes[1..]);
      Trace(rest.final, [st.result] + rest.results, (if st.acquired then 1 else 0) + rest.attempts)
  }

  /** The position of the first successful outcome, if any. */
  function FirstSuccess(outcomes: seq<Acquisition>): (r: Option<nat>)
    ensures r.Some? ==> r.value < |outcomes| && outcomes[r.value].Acquired?
    ensures r.Some? ==> forall i :: 0 <= i < r.value ==> outcomes[i].AcquireFailed?
    ensures r.None? ==> forall i :: 0 <= i < |outcomes| ==> outcomes[i].AcquireFailed?
  {
    if outcomes == [] then None
    else if outcomes[0].Acquired? then Some(0)
    else match FirstSuccess(outcomes[1..])
      case None => None
      case Some(k) => Some(k + 1)
  }

  /** Once a translator is loaded, no call acquires again and every call
      returns that same translator. */
  lemma {:induction false} ReadyStaysReady(s: LoaderState, outcomes: seq<Acquisition>)
    requires s.translator.Some?
    ensures Run(s, outcomes).attempts == 0
    ensures Run(s, outcomes).final == s
    ensures forall i :: 0 <= i < |outcomes| ==> Run(s, outcomes).results[i] == s.translator
    decreases |outcomes|
  {
    if outcomes != [] {
      ReadyStaysReady(s, outcomes[1..]);
    }
  }

  /**
   * Calls made one after another, starting with no translator and no
   * attempt in flight: every call up to and including the first successful
   * acquisition starts one, each failure is retried by the next call, and
   * from the first success on every call returns the translator it loaded.
   */
  lemma {:induction false} AcquiresUntilFirstSuccess(s: LoaderState, outcomes: seq<Acquisition>)
    requires s.translator.None? && !s.isModelLoading
    ensures var t := Run(s, outcomes);
      match FirstSuccess(outcomes)
      case None =>
        && t.attempts == |outcomes|
        && (forall i :: 0 <= i < |outcomes| ==> t.results[i].None?)
      case Some(k) =>
        && t.attempts == k + 1
        && (forall i :: 0 <= i < k ==> t.results[i].None?)
        && (forall i :: k <= i < |outcomes| ==> t.results[i] == Some(outcomes[k].translator))
        && t.final.modelSource == Some(ModelSource(Some(outcomes[k].name), Some(outcomes[k].host)))
    decreases |outcomes|
  {
    if outcomes != [] {
      var st := Load(s, outcomes[0]);
      var t := Run(s, outcomes);
      var rest := Run(st.next, outcomes[1..]);
      assert t.results == [st.result] + rest.results;
      if outcomes[0].Acquired? {
        ReadyStaysReady(st.next, outcomes[1..]);
        assert FirstSuccess(outcomes) == Some(0);
      } else {
        AcquiresUntilFirstSuccess(st.next, outcomes[1..]);
        match FirstSuccess(outcomes[1..])
        case None =>
        case Some(k) =>
          assert FirstSuccess(outcomes) == Some(k + 1);
          assert outcomes[1..][k] == outcomes[k + 1];
      }
    }
  }

  /**
   * Lines 54-84 as they run against utils/model-loader.js, whose
   * `loadTranslationModel` resolves to the pipeline itself or, having
   * caught its own error, to null (`loaded`).  A pipeline has no
   * `translator` property, so a success publishes no translator; its
   * `name` and `host` properties, whatever the pipeline object carries
   * under those names, are `props`, and they become the published
   * source.  Reading `.translator` of null throws a TypeError
   * (`typeError` is its message), which the `catch` records in place of
   * the loader's error.
   */
  function FinishWired(s: LoaderState, loaded: Option<Pipeline>, props: ModelSource, typeError: string): (r: LoaderState)
    requires s.translator.None? && s.isModelLoading
    ensures r.translator.None? && !r.isModelLoading
    ensures loaded.Some? ==> r.modelSource == Some(props) && r.modelLoadError.None?
                             && r.modelLoadFailures == s.modelLoadFailures
    ensures loaded.None? ==> r.modelSource.None? && r.modelLoadError == Some(typeError) && r.modelLoadFailures == []
  {
    match loaded
    case Some(_) =>
      s.(translator := None, modelSource := Some(props),
         modelLoadError := None, isModelLoading := false)
    case None =>
      s.(translator := None, modelSource := None, modelLoadError := Some(typeError),
         modelLoadFailures := [], isModelLoading := false)
  }

  /** `loadModel()` as wired to utils/model-loader.js. */
  function LoadWired(s: LoaderState, loaded: Option<Pipeline>, props: ModelSource, typeError: string): (st: Step)
    ensures PhaseOf(s) in {Idle, Failed} ==> st.acquired && st.next == FinishWired(Begin(s), loaded, props, typeError)
    ensures st.result == st.next.translator
  {
    if s.translator.Some? then Step(s, s.translator, false)
    else if s.isModelLoading then Step(s, s.translator, false)
    else
      var n := FinishWired(Begin(s), loaded, props, typeError);
      Step(n, n.translator, true)
  }

  /**
   * Wired to utils/model-loader.js, `loadModel()` never reaches Ready: even
   * a successful load returns null and leaves an incoherent state (a source
   * without a translator), and the next call starts another attempt, which
   * utils/model-loader.js answers from its own cache once it has loaded;
   * every request is answered 503.
   */
  lemma WiredNeverReady(s: LoaderState, loaded: Option<Pipeline>, props: ModelSource, typeError: string,
                        later: Option<Pipeline>, laterProps: ModelSource, laterError: string)
    requires PhaseOf(s) in {Idle, Failed}
    ensures var st := LoadWired(s, loaded, props, typeError);
      && st.acquired && st.result.None? && PhaseOf(st.next) != Ready
      && (loaded.Some? ==> !Coherent(st.next))
      && LoadWired(st.next, later, laterProps, laterError).acquired
      && LoadWired(st.next, later, laterProps, laterError).result.None?
  {
    var st := LoadWired(s, loaded, props, typeError);
    assert PhaseOf(st.next) in {Idle, Failed};
  }

  /** The module-level variables of server.js as one object. */
  class ServerModel {
    var translator: Option<Pipeline>
    var isModelLoading: bool
    var modelLoadError: Option<string>
    var modelSource: Option<ModelSource>
    var modelLoadFailures: seq<HostFailure>

    function State(): LoaderState
      reads this
    {
      LoaderState(translator, isModelLoading, modelLoadError, modelSource, modelLoadFailures)
    }

    predicate Valid()
      reads this
    {
      Coherent(State())
    }

    function Phase(): Phase
      reads this
    {
      PhaseOf(State())
    }

    /** Lines 31-35. */
    constructor ()
      ensures State() == Initial && Valid()
    {
      translator := None;
      isModelLoading := false;
      modelLoadError := None;
      modelSource := None;
      modelLoadFailures := [];
    }

    /** Entering the `try` of an attempt (lines 51-52). */
    method BeginAttempt()
      requires Valid() && translator.None? && !isModelLoading
      modifies this
      ensures Valid()
      ensures State() == Begin(old(State()))
    {
      isModelLoading := true;
      modelLoadFailures := [];
    }

    /** The `try`/`catch`/`finally` of an attempt once its outcome is known (lines 65-84). */
    method FinishAttempt(a: Acquisition)
      requires Valid() && translator.None? && isModelLoading
      modifies this
      ensures Valid()
      ensures State() == Finish(old(State()), a)
    {
      match a {
        case Acquired(t, name, host) =>
          translator := Some(t);
          modelSource := Some(ModelSource(Some(name), Some(host)));
          modelLoadError := None;
        case AcquireFailed(message, failures) =>
          translator := None;
          modelSource := None;
          modelLoadError := Some(message);
          modelLoadFailures := failures.GetOr([]);
      }
      isModelLoading := false;
    }

    /**
     * `loadModel()` (lines 42-86); `a` is what this call's acquisition would
     * yield and is not consulted when no attempt is started.
     */
    method LoadModel(a: Acquisition) returns (t: Option<Pipeline>)
      requires Valid()
      modifies this
      ensures Valid()
      ensures State() == Load(old(State()), a).next
      ensures t == Load(old(State()), a).result
    {
      if translator.Some? {
        return translator;
      }
      if isModelLoading {
        // The source polls until the attempt in flight lowers the flag; the
        // model takes this call as a single step that starts nothing.
        return translator;
      }
      BeginAttempt();
      FinishAttempt(a);
      return translator;
    }
  }
}
