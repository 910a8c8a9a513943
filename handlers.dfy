/**
 * The request handlers of server.js that carry logic: `/api/translate`
 * (validation, logging, model loading, one translation),
 * `/api/translate-all` (model loading and the fan-out) and `/api/status`
 * (a read-only view of the loader and the log).  Responses are values:
 * the HTTP status is the constructor, the JSON body its fields.
 */
module Handlers {
  import opened Common
  import opened Catalog
  import opened ServerLoader
  import opened RequestLog
  import opened FanOut
  import Uptime
  import ModelLoader

  const MissingParams: string := "缺少必要参数"
  const UnsupportedTarget: string := "不支持的目标语言"
  const ModelNotLoaded: string := "模型未加载"
  const TranslationFailed: string := "翻译失败"
  const MissingText: string := "缺少文本参数"

  /** JavaScript truthiness of an optional string field: present and not empty. */
  function Truthy(o: Option<string>): (b: bool)
    ensures o.None? ==> !b
    ensures o.Some? ==> (b <==> |o.value| > 0)
  {
    o.Some? && o.value != ""
  }

  /** The fields of a `/api/translate` request body; `None` is an absent field. */
  datatype TranslateBody = TranslateBody(text: Option<string>, targetLang: Option<string>, sourceLang: Option<string>)

  /** What lines 129-148 decide before any model work. */
  datatype Validation =
    | Throws                                   // `text.substring` on a missing text
    | Rejected(error: string)                  // 400
    | Accepted(text: string, targetLang: string, sourceLang: string)

  /**
   * Lines 129-148: a missing text throws before anything else; an empty
   * text or a missing or empty target is a missing parameter; a target
   * that is not a catalog key is unsupported; the source defaults to 'en'.
   */
  function Validate(body: TranslateBody): (v: Validation)
    ensures v.Throws? <==> body.text.None?
    ensures v.Rejected? <==>
      body.text.Some? && (!Truthy(body.text) || !Truthy(body.targetLang) || !HasKey(Languages, body.targetLang.value))
    ensures v.Rejected? && (!Truthy(body.text) || !Truthy(body.targetLang)) ==> v.error == MissingParams
    ensures v.Rejected? && Truthy(body.text) && Truthy(body.targetLang) ==> v.error == UnsupportedTarget
    ensures v.Accepted? ==>
      && Some(v.text) == body.text && v.text != ""
      && Some(v.targetLang) == body.targetLang && HasKey(Languages, v.targetLang)
      && v.sourceLang == body.sourceLang.GetOr(DefaultSourceLang)
  {
    match body.text
    case None => Throws
    case Some(text) =>
      if text == "" || !Truthy(body.targetLang) then Rejected(MissingParams)
      else if Lookup(body.targetLang.value).None? then Rejected(UnsupportedTarget)
      else Accepted(text, body.targetLang.value, body.sourceLang.GetOr(DefaultSourceLang))
  }

  /** Property names every plain object inherits from `Object.prototype`. */
  const ObjectPrototypeNames: set<string> := {
    "constructor", "__proto__", "hasOwnProperty", "isPrototypeOf", "propertyIsEnumerable",
    "toString", "toLocaleString", "valueOf",
    "__defineGetter__", "__defineSetter__", "__lookupGetter__", "__lookupSetter__"
  }

  /**
   * The target check of line 145 as written, `!languageMap[targetLang]`:
   * the lookup also finds the inherited properties of the object literal,
   * so it passes for them as well as for catalog keys.
   */
  function TargetCheckPassesAsWritten(targetLang: string): (b: bool)
    ensures HasKey(Languages, targetLang) ==> b
    ensures targetLang in ObjectPrototypeNames ==> b
  {
    HasKey(Languages, targetLang) || targetLang in ObjectPrototypeNames
  }

  /**
   * 'constructor' is not a language, yet it passes the check as written;
   * `Validate`, which checks catalog membership, rejects it as unsupported.
   */
  lemma PrototypeNamePassesTargetCheck()
    ensures TargetCheckPassesAsWritten("constructor")
    ensures !HasKey(Languages, "constructor")
    ensures Validate(TranslateBody(Some("Hello"), Some("constructor"), None)) == Rejected(UnsupportedTarget)
  {
    assert "constructor" in ObjectPrototypeNames;
  }

  /** No inherited property name is a catalog key: every key has at most
      five characters, every inherited name at least seven. */
  lemma PrototypeNamesAreNotKeys()
    ensures forall t :: t in ObjectPrototypeNames ==> !HasKey(Languages, t)
  {
    assert forall i :: 0 <= i < |Languages| ==> |Languages[i].key| <= 5;
    assert forall t :: t in ObjectPrototypeNames ==> |t| >= 7;
  }

  /** The check as written and the catalog check differ on exactly the
      names every object inherits from `Object.prototype`. */
  lemma AsWrittenCheckDiffersOnPrototypeNames(t: string)
    ensures TargetCheckPassesAsWritten(t) && !HasKey(Languages, t) <==> t in ObjectPrototypeNames
  {
    PrototypeNamesAreNotKeys();
  }

  /** The answers of `/api/translate`. */
  datatype TranslateResponse =
    | Threw                                                            // TypeError, no response written
    | BadRequest(error: string)                                        // 400
    | ModelUnavailable(error: string, details: Option<string>)         // 503
    | Translated(translation: string, targetLang: string, sourceLang: string)  // 200
    | TranslateFailed(error: string, message: string)                  // 500, `details`

  /** The status the log entry is left with. */
  function LogStatusFor(r: TranslateResponse): (st: LogStatus)
    ensures st != Pending
    ensures st == Succeeded <==> r.Translated?
  {
    if r.Translated? then Succeeded else Errored
  }

  /**
   * `/api/translate` given the loader variables `s` before the call, the
   * outcome `a` an acquisition would have and the pipeline call.  Only an
   * accepted request reaches `loadModel`; it is answered 503 with the
   * loader's error when no translator results, and otherwise with the
   * call's translation (200) or its error (500).
   */
  function TranslateOutcome(body: TranslateBody, s: LoaderState, a: Acquisition, call: TranslateCall): (r: TranslateResponse)
    ensures r.Threw? <==> body.text.None?
    ensures r.BadRequest? <==> Validate(body).Rejected?
    ensures r.BadRequest? ==> r.error == Validate(body).error
    ensures r.ModelUnavailable? <==> Validate(body).Accepted? && Load(s, a).result.None?
    ensures r.ModelUnavailable? ==> r == ModelUnavailable(ModelNotLoaded, Load(s, a).next.modelLoadError)
    ensures r.Translated? || r.TranslateFailed? ==> Validate(body).Accepted? && PhaseOf(Load(s, a).next) == Ready
    ensures Validate(body).Accepted? ==>
      r == AcceptedOutcome(Validate(body).text, Validate(body).targetLang, Validate(body).sourceLang, s, a, call)
    ensures r.Translated? ==>
      && Validate(body).Accepted?
      && Some(r.targetLang) == body.targetLang
      && r.sourceLang == body.sourceLang.GetOr(DefaultSourceLang)
      && Load(s, a).result.Some?
      && call(Load(s, a).result.value, body.text.value, SourceCode(r.sourceLang), TargetCode(r.targetLang))
         == Success(r.translation)
  {
    match Validate(body)
    case Throws => Threw
    case Rejected(error) => BadRequest(error)
    case Accepted(text, targetLang, sourceLang) => AcceptedOutcome(text, targetLang, sourceLang, s, a, call)
  }

  /**
   * Lines 150-181, for a request that passed validation: the model is
   * loaded (or awaited) first; without a translator the answer is 503 with
   * the loader's error, otherwise the call's translation or its error.
   */
  function AcceptedOutcome(text: string, targetLang: string, sourceLang: string,
                           s: LoaderState, a: Acquisition, call: TranslateCall): (r: TranslateResponse)
    requires HasKey(Languages, targetLang)
    ensures r.ModelUnavailable? <==> Load(s, a).result.None?
    ensures r.ModelUnavailable? ==> r == ModelUnavailable(ModelNotLoaded, Load(s, a).next.modelLoadError)
    ensures r.Translated? ==> r.targetLang == targetLang && r.sourceLang == sourceLang
    ensures Load(s, a).result.Some? ==>
      match call(Load(s, a).result.value, text, SourceCode(sourceLang), TargetCode(targetLang))
      case Success(translation) => r == Translated(translation, targetLang, sourceLang)
      case Failure(message) => r == TranslateFailed(TranslationFailed, message)
  {
    var st := Load(s, a);
    match st.result
    case None => ModelUnavailable(ModelNotLoaded, st.next.modelLoadError)
    case Some(p) =>
      match call(p, text, SourceCode(sourceLang), TargetCode(targetLang))
      case Success(translation) => Translated(translation, targetLang, sourceLang)
      case Failure(message) => TranslateFailed(TranslationFailed, message)
  }

  /** The part of the handler after validation: `loadModel`, then the pipeline call. */
  method Respond(model: ServerModel, a: Acquisition, call: TranslateCall,
                 text: string, targetLang: string, sourceLang: string) returns (r: TranslateResponse)
    requires model.Valid() && HasKey(Languages, targetLang)
    modifies model
    ensures model.Valid() && model.State() == Load(old(model.State()), a).next
    ensures r == AcceptedOutcome(text, targetLang, sourceLang, old(model.State()), a, call)
  {
    var t := model.LoadModel(a);
    if t.None? {
      return ModelUnavailable(ModelNotLoaded, model.modelLoadError);
    }
    var sourceCode := SourceCode(sourceLang);
    var targetCode := TargetCode(targetLang);
    match call(t.value, text, sourceCode, targetCode) {
      case Success(translation) =>
        r := Translated(translation, targetLang, sourceLang);
      case Failure(message) =>
        r := TranslateFailed(TranslationFailed, message);
    }
  }

  /**
   * `POST /api/translate` (lines 128-182).  `entry` is the log entry the
   * call pushes, if it gets that far.
   */
  method HandleTranslate(body: TranslateBody, log: RequestLog, model: ServerModel, a: Acquisition, call: TranslateCall)
    returns (r: TranslateResponse, ghost entry: Option<LogEntry>)
    requires log.Valid() && model.Valid()
    modifies log, model
    ensures log.Valid() && model.Valid()
    ensures r == TranslateOutcome(body, old(model.State()), a, call)
    ensures model.State() == if Validate(body).Accepted? then Load(old(model.State()), a).next else old(model.State())
    ensures body.text.None? ==> entry.None? && log.entries == old(log.entries)
    ensures body.text.Some? ==>
      && entry.Some? && fresh(entry.value)
      && log.entries == Appended(old(log.entries), entry.value)
      && entry.value.text == Preview(body.text.value)
      && entry.value.targetLang == body.targetLang
      && entry.value.status == LogStatusFor(r)
  {
    if body.text.None? {
      // `text.substring(0, 50)` throws before the entry is built.
      return Threw, None;
    }
    var e := new LogEntry(body.text.value, body.targetLang);
    log.Append(e);
    entry := Some(e);

    var v := Validate(body);
    if v.Rejected? {
      r := BadRequest(v.error);
    } else {
      assert v.Accepted?;
      r := Respond(model, a, call, v.text, v.targetLang, v.sourceLang);
    }
    e.status := LogStatusFor(r);
  }

  /** The fields of a `/api/translate-all` request body. */
  datatype TranslateAllBody = TranslateAllBody(text: Option<string>, sourceLang: Option<string>)

  /** The answers of `/api/translate-all`. */
  datatype TranslateAllResponse =
    | AllBadRequest(error: string)                                 // 400
    | AllUnavailable(error: string, details: Option<string>)       // 503
    | AllTranslated(translations: seq<Translation>)                // 200

  /**
   * `/api/translate-all` given the loader variables before the call: a
   * missing or empty text is rejected without loading; a loaded model
   * yields the whole fan-out, whose size does not depend on how many
   * languages failed.
   */
  function TranslateAllOutcome(body: TranslateAllBody, s: LoaderState, a: Acquisition, call: TranslateCall)
    : (r: TranslateAllResponse)
    ensures r.AllBadRequest? <==> !Truthy(body.text)
    ensures r.AllBadRequest? ==> r.error == MissingText
    ensures r.AllUnavailable? <==> Truthy(body.text) && Load(s, a).result.None?
    ensures r.AllUnavailable? ==> r == AllUnavailable(ModelNotLoaded, Load(s, a).next.modelLoadError)
    ensures r.AllTranslated? ==>
      && Truthy(body.text) && PhaseOf(Load(s, a).next) == Ready
      && r.translations == FanOutOver(Languages, body.sourceLang.GetOr(DefaultSourceLang),
                                      SourceCode(body.sourceLang.GetOr(DefaultSourceLang)),
                                      body.text.value, Load(s, a).result.value, call)
      && |r.translations| == if HasKey(Languages, body.sourceLang.GetOr(DefaultSourceLang)) then 28 else 29
  {
    if !Truthy(body.text) then AllBadRequest(MissingText)
    else
      var st := Load(s, a);
      match st.result
      case None => AllUnavailable(ModelNotLoaded, st.next.modelLoadError)
      case Some(p) =>
        var sourceLang := body.sourceLang.GetOr(DefaultSourceLang);
        CatalogFanOut(sourceLang, SourceCode(sourceLang), body.text.value, p, call);
        AllTranslated(FanOutOver(Languages, sourceLang, SourceCode(sourceLang), body.text.value, p, call))
  }

  /** `POST /api/translate-all` (lines 184-231). */
  method HandleTranslateAll(body: TranslateAllBody, model: ServerModel, a: Acquisition, call: TranslateCall)
    returns (r: TranslateAllResponse)
    requires model.Valid()
    modifies model
    ensures model.Valid()
    ensures r == TranslateAllOutcome(body, old(model.State()), a, call)
    ensures model.State() == if Truthy(body.text) then Load(old(model.State()), a).next else old(model.State())
  {
    if !Truthy(body.text) {
      return AllBadRequest(MissingText);
    }
    var t := model.LoadModel(a);
    if t.None? {
      return AllUnavailable(ModelNotLoaded, model.modelLoadError);
    }
    var sourceLang := body.sourceLang.GetOr(DefaultSourceLang);
    var translations := TranslateAll(t.value, body.text.value, sourceLang, call);
    r := AllTranslated(translations);
  }

  /** The JSON object `/api/status` answers with. */
  datatype StatusReport = StatusReport(
    status: string,
    modelLoaded: bool,
    modelLoading: bool,
    modelError: Option<string>,
    modelSource: Option<ModelSource>,
    modelFailures: seq<HostFailure>,
    modelId: string,
    uptime: nat,
    totalRequests: nat,
    recentLogs: seq<LogRecord>)

  /**
   * `GET /api/status` (lines 233-247) after `elapsedMs` milliseconds of
   * uptime: the loader's phase, the number of logged requests (never more
   * than the log's capacity) and the newest ten entries, oldest first.
   */
  function Status(model: ServerModel, log: RequestLog, elapsedMs: nat): (r: StatusReport)
    reads model, log, log.entries
    requires model.Valid() && log.Valid()
    ensures r.modelLoaded <==> model.Phase() == Ready
    ensures r.modelLoading <==> model.Phase() == Loading
    ensures r.modelLoaded ==> r.modelError.None? && r.modelSource.Some? && r.modelFailures == []
    ensures r.status == "running" && r.modelId == ModelLoader.ModelId
    ensures r.modelError == model.modelLoadError && r.modelSource == model.modelSource
    ensures r.modelFailures == model.modelLoadFailures
    ensures r.totalRequests == |log.entries| <= Capacity
    ensures r.recentLogs == RecentRecords(log)
    ensures r.uptime * 1000 <= elapsedMs < r.uptime * 1000 + 1000
  {
    StatusReport(
      "running",
      model.translator.Some?,
      model.isModelLoading,
      model.modelLoadError,
      model.modelSource,
      model.modelLoadFailures,
      ModelLoader.ModelId,
      Uptime.UptimeSeconds(elapsedMs),
      |log.entries|,
      RecentRecords(log))
  }
}
