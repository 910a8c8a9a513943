/**
 * The loop of `/api/translate-all` in server.js: every catalog language
 * except the source is translated in catalog order, and a language whose
 * translation throws gets a failure message in its slot while the loop
 * goes on with the next one.
 */
module FanOut {
  import opened Common
  import opened Catalog

  /** The text put before the error message of a failed translation. */
  const FailurePrefix: string := "翻译失败: "

  /** `translations[langCode] = { name, translation }`, with its key. */
  datatype Translation = Translation(key: string, name: string, translation: string)

  /** The slot one language's call fills (lines 211-219). */
  function Slot(l: Language, result: CallResult): (t: Translation)
    ensures t.key == l.key && t.name == l.name
  {
    match result
    case Success(text) => Translation(l.key, l.name, text)
    case Failure(message) => Translation(l.key, l.name, FailurePrefix + message)
  }

  /**
   * The `translations` object the loop builds over `cat`, in insertion
   * order, when the source key is `sourceLang` and its model code is
   * `sourceCode`.
   */
  function FanOutOver(cat: seq<Language>, sourceLang: string, sourceCode: string,
                      text: string, p: Pipeline, call: TranslateCall): (r: seq<Translation>)
    ensures |r| == |Kept(cat, sourceLang)|
    decreases |cat|
  {
    if cat == [] then []
    else
      var done := FanOutOver(cat[..|cat| - 1], sourceLang, sourceCode, text, p, call);
      var l := cat[|cat| - 1];
      if l.key == sourceLang then done
      else done + [Slot(l, call(p, text, sourceCode, l.code))]
  }

  /** The positions of the entries of `cat` whose key is not `sourceLang`, ascending. */
  function Kept(cat: seq<Language>, sourceLang: string): (k: seq<nat>)
    ensures |k| <= |cat|
    ensures forall j :: 0 <= j < |k| ==> k[j] < |cat|
    decreases |cat|
  {
    if cat == [] then []
    else
      var done := Kept(cat[..|cat| - 1], sourceLang);
      if cat[|cat| - 1].key == sourceLang then done else done + [|cat| - 1]
  }

  /** `Kept` lists, in increasing order, exactly the positions whose key is
      not the source. */
  lemma {:induction false} KeptIsExact(cat: seq<Language>, sourceLang: string)
    ensures var k := Kept(cat, sourceLang);
      && (forall j :: 0 <= j < |k| ==> k[j] < |cat| && cat[k[j]].key != sourceLang)
      && (forall j, j' :: 0 <= j < j' < |k| ==> k[j] < k[j'])
      && (forall i :: 0 <= i < |cat| && cat[i].key != sourceLang ==> i in k)
    decreases |cat|
  {
    if cat != [] {
      var init := cat[..|cat| - 1];
      KeptIsExact(init, sourceLang);
      assert forall i :: 0 <= i < |init| ==> init[i] == cat[i];
    }
  }

  /**
   * The output has one slot per kept position, in order: slot `j` holds
   * the name of the `j`-th non-source language and the result of that
   * language's own call.
   */
  lemma {:induction false} FanOutFollowsCatalog(cat: seq<Language>, sourceLang: string, sourceCode: string,
                                                text: string, p: Pipeline, call: TranslateCall)
    ensures var r := FanOutOver(cat, sourceLang, sourceCode, text, p, call);
      var k := Kept(cat, sourceLang);
      && |r| == |k|
      && (forall j :: 0 <= j < |r| ==> k[j] < |cat| && r[j] == Slot(cat[k[j]], call(p, text, sourceCode, cat[k[j]].code)))
    decreases |cat|
  {
    KeptIsExact(cat, sourceLang);
    if cat != [] {
      var init := cat[..|cat| - 1];
      FanOutFollowsCatalog(init, sourceLang, sourceCode, text, p, call);
      KeptIsExact(init, sourceLang);
      assert forall i :: 0 <= i < |init| ==> init[i] == cat[i];
    }
  }

  /** How many entries of `cat` carry key `k`. */
  function Occurrences(cat: seq<Language>, k: string): nat
    decreases |cat|
  {
    if cat == [] then 0
    else Occurrences(cat[..|cat| - 1], k) + (if cat[|cat| - 1].key == k then 1 else 0)
  }

  /** Every entry but those carrying the source key gets a slot. */
  lemma {:induction false} KeptCount(cat: seq<Language>, sourceLang: string)
    ensures |Kept(cat, sourceLang)| + Occurrences(cat, sourceLang) == |cat|
    decreases |cat|
  {
    if cat != [] {
      KeptCount(cat[..|cat| - 1], sourceLang);
    }
  }

  /** With distinct keys a key occurs once when present and never otherwise. */
  lemma {:induction false} OccurrencesOfUniqueKey(cat: seq<Language>, k: string)
    requires UniqueKeys(cat)
    ensures Occurrences(cat, k) == if HasKey(cat, k) then 1 else 0
    decreases |cat|
  {
    if cat != [] {
      var init := cat[..|cat| - 1];
      assert forall i :: 0 <= i < |init| ==> init[i] == cat[i];
      OccurrencesOfUniqueKey(init, k);
      if cat[|cat| - 1].key == k {
        assert !HasKey(init, k);
      } else if HasKey(cat, k) {
        var i :| 0 <= i < |cat| && cat[i].key == k;
        assert init[i].key == k;
      }
    }
  }

  /**
   * Over a catalog with distinct keys, the fan-out has one slot fewer than
   * the catalog when the source is one of its keys and as many otherwise;
   * its keys are exactly the other catalog keys, each once.
   */
  lemma {:induction false} FanOutShape(cat: seq<Language>, sourceLang: string, sourceCode: string,
                                       text: string, p: Pipeline, call: TranslateCall)
    requires UniqueKeys(cat)
    ensures var r := FanOutOver(cat, sourceLang, sourceCode, text, p, call);
      && |r| == |cat| - (if HasKey(cat, sourceLang) then 1 else 0)
      && (forall j :: 0 <= j < |r| ==> r[j].key != sourceLang && HasKey(cat, r[j].key))
      && (forall i :: 0 <= i < |cat| && cat[i].key != sourceLang ==>
            exists j :: 0 <= j < |r| && r[j].key == cat[i].key)
      && (forall j, j' :: 0 <= j < j' < |r| ==> r[j].key != r[j'].key)
  {
    var r := FanOutOver(cat, sourceLang, sourceCode, text, p, call);
    var k := Kept(cat, sourceLang);
    KeptIsExact(cat, sourceLang);
    FanOutFollowsCatalog(cat, sourceLang, sourceCode, text, p, call);
    KeptCount(cat, sourceLang);
    OccurrencesOfUniqueKey(cat, sourceLang);
    forall i | 0 <= i < |cat| && cat[i].key != sourceLang
      ensures exists j :: 0 <= j < |r| && r[j].key == cat[i].key
    {
      var j :| 0 <= j < |k| && k[j] == i;
      assert r[j].key == cat[i].key;
    }
  }

  /** On the catalog: 28 slots when the source is a catalog key, 29 otherwise. */
  lemma CatalogFanOut(sourceLang: string, sourceCode: string, text: string, p: Pipeline, call: TranslateCall)
    ensures var r := FanOutOver(Languages, sourceLang, sourceCode, text, p, call);
      && |r| == (if HasKey(Languages, sourceLang) then 28 else 29)
      && (forall j :: 0 <= j < |r| ==> r[j].key != sourceLang && HasKey(Languages, r[j].key))
      && (forall j, j' :: 0 <= j < j' < |r| ==> r[j].key != r[j'].key)
  {
    CatalogWellFormed();
    FanOutShape(Languages, sourceLang, sourceCode, text, p, call);
  }

  /**
   * Failure isolation: a slot depends only on its own language's call.  Two
   * runs whose calls agree on one language produce the same slot for it,
   * whatever the other calls did, and a failing call yields the failure
   * message in that slot without removing any other slot.
   */
  lemma FailureIsolated(cat: seq<Language>, sourceLang: string, sourceCode: string, text: string,
                        p: Pipeline, call: TranslateCall, other: TranslateCall, j: nat)
    requires j < |Kept(cat, sourceLang)|
    ensures var r := FanOutOver(cat, sourceLang, sourceCode, text, p, call);
      var r' := FanOutOver(cat, sourceLang, sourceCode, text, p, other);
      var l := cat[Kept(cat, sourceLang)[j]];
      && |r'| == |r|
      && (call(p, text, sourceCode, l.code) == other(p, text, sourceCode, l.code) ==> r'[j] == r[j])
      && (call(p, text, sourceCode, l.code).Failure? ==>
            r[j] == Translation(l.key, l.name, FailurePrefix + call(p, text, sourceCode, l.code).message))
      && (call(p, text, sourceCode, l.code).Success? ==>
            r[j] == Translation(l.key, l.name, call(p, text, sourceCode, l.code).text))
  {
    FanOutFollowsCatalog(cat, sourceLang, sourceCode, text, p, call);
    FanOutFollowsCatalog(cat, sourceLang, sourceCode, text, p, other);
  }

  /**
   * The loop of lines 203-221 over the catalog entries `cat`, once the
   * pipeline `p` is loaded: one call per language whose key is not the
   * source, in order, each call's failure caught into its slot.
   */
  method TranslateEach(cat: seq<Language>, p: Pipeline, text: string, sourceLang: string, sourceCode: string,
                       call: TranslateCall)
    returns (translations: seq<Translation>)
    ensures translations == FanOutOver(cat, sourceLang, sourceCode, text, p, call)
  {
    translations := [];
    for i := 0 to |cat|
      invariant translations == FanOutOver(cat[..i], sourceLang, sourceCode, text, p, call)
    {
      var lang := cat[i];
      assert cat[..i + 1][..i] == cat[..i];
      if lang.key == sourceLang {
        continue;
      }
      var result := call(p, text, sourceCode, lang.code);
      match result {
        case Success(t) =>
          translations := translations + [Translation(lang.key, lang.name, t)];
        case Failure(message) =>
          translations := translations + [Translation(lang.key, lang.name, FailurePrefix + message)];
      }
    }
    assert cat[..|cat|] == cat;
  }

  /** Lines 200-221: the source key's model code, then the loop over the catalog. */
  method TranslateAll(p: Pipeline, text: string, sourceLang: string, call: TranslateCall)
    returns (translations: seq<Translation>)
    ensures translations == FanOutOver(Languages, sourceLang, SourceCode(sourceLang), text, p, call)
  {
    var sourceCode := SourceCode(sourceLang);
    translations := TranslateEach(Languages, p, text, sourceLang, sourceCode, call);
  }
}
