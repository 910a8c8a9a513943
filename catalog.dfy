/**
 * The fixed language catalog `languageMap` of server.js: an ordered map
 * from the external language key ('zh-CN', 'en', ...) to the internal NLLB
 * model code and a display name, and the lookups the handlers make in it.
 */
module Catalog {
  import opened Common

  datatype Language = Language(key: string, code: string, name: string)

  /** The key used when a request names no source language. */
  const DefaultSourceLang: string := "en"

  /** The model code used when the source language is not a catalog key. */
  const FallbackSourceCode: string := "eng_Latn"

  /** `languageMap`, in its declaration order. */
  const Languages: seq<Language> := [
    Language("zh-CN", "zho_Hans", "🇨🇳 中文简体"),
    Language("zh-TW", "zho_Hant", "🇹🇼 中文繁体"),
    Language("en", "eng_Latn", "🇺🇸 英语"),
    Language("ja", "jpn_Jpan", "🇯🇵 日语"),
    Language("ko", "kor_Hang", "🇰🇷 韩语"),
    Language("es", "spa_Latn", "🇪🇸 西班牙语"),
    Language("fr", "fra_Latn", "🇫🇷 法语"),
    Language("de", "deu_Latn", "🇩🇪 德语"),
    Language("it", "ita_Latn", "🇮🇹 意大利语"),
    Language("pt", "por_Latn", "🇵🇹 葡萄牙语"),
    Language("ru", "rus_Cyrl", "🇷🇺 俄语"),
    Language("ar", "arb_Arab", "🇸🇦 阿拉伯语"),
    Language("hi", "hin_Deva", "🇮🇳 印地语"),
    Language("id", "ind_Latn", "🇮🇩 印尼语"),
    Language("th", "tha_Thai", "🇹🇭 泰语"),
    Language("vi", "vie_Latn", "🇻🇳 越南语"),
    Language("tr", "tur_Latn", "🇹🇷 土耳其语"),
    Language("nl", "nld_Latn", "🇳🇱 荷兰语"),
    Language("sv", "swe_Latn", "🇸🇪 瑞典语"),
    Language("pl", "pol_Latn", "🇵🇱 波兰语"),
    Language("no", "nob_Latn", "🇳🇴 挪威语"),
    Language("fi", "fin_Latn", "🇫🇮 芬兰语"),
    Language("da", "dan_Latn", "🇩🇰 丹麦语"),
    Language("cs", "ces_Latn", "🇨🇿 捷克语"),
    Language("ro", "ron_Latn", "🇷🇴 罗马尼亚语"),
    Language("hu", "hun_Latn", "🇭🇺 匈牙利语"),
    Language("el", "ell_Grek", "🇬🇷 希腊语"),
    Language("he", "heb_Hebr", "🇮🇱 希伯来语"),
    Language("uk", "ukr_Cyrl", "🇺🇦 乌克兰语")
  ]

  /** No two entries of `cat` share a key (an object literal cannot hold a key twice). */
  predicate UniqueKeys(cat: seq<Language>) {
    forall i, j :: 0 <= i < j < |cat| ==> cat[i].key != cat[j].key
  }

  predicate HasKey(cat: seq<Language>, k: string) {
    exists i :: 0 <= i < |cat| && cat[i].key == k
  }

  /** Keys of the entries at positions `lo` to `hi - 1` differ from every later key. */
  predicate DistinctFrom(cat: seq<Language>, lo: nat, hi: nat) {
    forall i, j :: lo <= i < hi && i < j < |cat| ==> cat[i].key != cat[j].key
  }

  // The distinctness of the 29 literal keys is checked a few rows at a time,
  // which keeps each proof obligation small.
  lemma KeysDistinctRows0() ensures DistinctFrom(Languages, 0, 2) {}
  lemma KeysDistinctRows2() ensures DistinctFrom(Languages, 2, 4) {}
  lemma KeysDistinctRows4() ensures DistinctFrom(Languages, 4, 6) {}
  lemma KeysDistinctRows6() ensures DistinctFrom(Languages, 6, 8) {}
  lemma KeysDistinctRows8() ensures DistinctFrom(Languages, 8, 10) {}
  lemma KeysDistinctRows10() ensures DistinctFrom(Languages, 10, 12) {}
  lemma KeysDistinctRows12() ensures DistinctFrom(Languages, 12, 14) {}
  lemma KeysDistinctRows14() ensures DistinctFrom(Languages, 14, 29) {}

  /** No key is the empty string, which JavaScript treats as absent. */
  lemma KeysNotEmpty()
    ensures forall i :: 0 <= i < |Languages| ==> Languages[i].key != ""
  {
  }

  /** The catalog has 29 entries and its keys are pairwise distinct. */
  lemma CatalogWellFormed()
    ensures |Languages| == 29
    ensures UniqueKeys(Languages)
  {
    KeysDistinctRows0();
    KeysDistinctRows2();
    KeysDistinctRows4();
    KeysDistinctRows6();
    KeysDistinctRows8();
    KeysDistinctRows10();
    KeysDistinctRows12();
    KeysDistinctRows14();
  }

  /**
   * The position of key `k` in `cat`: the first entry carrying it, or None
   * when no entry does.
   */
  function Find(cat: seq<Language>, k: string): (r: Option<nat>)
    ensures r.Some? ==> r.value < |cat| && cat[r.value].key == k
    ensures r.Some? ==> forall i :: 0 <= i < r.value ==> cat[i].key != k
    ensures r.None? <==> !HasKey(cat, k)
  {
    if cat == [] then None
    else if cat[0].key == k then Some(0)
    else match Find(cat[1..], k)
      case None => None
      case Some(i) => Some(i + 1)
  }

  /** `languageMap[k]`, restricted to the catalog's own keys. */
  function Lookup(k: string): (r: Option<Language>)
    ensures r.Some? <==> HasKey(Languages, k)
    ensures r.Some? ==> r.value.key == k && r.value in Languages
  {
    match Find(Languages, k)
    case None => None
    case Some(i) => Some(Languages[i])
  }

  /** With distinct keys, the entry found for a key is the only one carrying it. */
  lemma LookupIsUnique(i: nat)
    requires i < |Languages|
    ensures Lookup(Languages[i].key) == Some(Languages[i])
  {
    CatalogWellFormed();
    var j := Find(Languages, Languages[i].key).value;
    assert !(j < i) && !(i < j);
  }

  /**
   * `languageMap[sourceLang]?.code || 'eng_Latn'`: the model code of a source
   * key, falling back to English when the key is unknown.
   */
  function SourceCode(sourceLang: string): (r: string)
    ensures forall i :: 0 <= i < |Languages| && Languages[i].key == sourceLang ==> r == Languages[i].code
    ensures !HasKey(Languages, sourceLang) ==> r == FallbackSourceCode
  {
    match Lookup(sourceLang)
    case Some(l) =>
      CatalogWellFormed();
      l.code
    case None => FallbackSourceCode
  }

  /** The default source key resolves to the fallback code, so a request that
      names no source and one that names an unknown source translate from the
      same language. */
  lemma DefaultSourceIsFallback()
    ensures HasKey(Languages, DefaultSourceLang)
    ensures SourceCode(DefaultSourceLang) == FallbackSourceCode
  {
    assert Languages[2].key == DefaultSourceLang;
  }

  /** `languageMap[targetLang].code` for a key known to be in the catalog. */
  function TargetCode(k: string): (r: string)
    requires HasKey(Languages, k)
    ensures forall i :: 0 <= i < |Languages| && Languages[i].key == k ==> r == Languages[i].code
  {
    CatalogWellFormed();
    Lookup(k).value.code
  }

  /** One element of the `/api/languages` answer. */
  datatype LanguageOption = LanguageOption(code: string, name: string)

  /** `/api/languages`: every catalog key with its display name, in catalog order. */
  function LanguageList(): (r: seq<LanguageOption>)
    ensures |r| == |Languages|
    ensures forall i :: 0 <= i < |r| ==> r[i] == LanguageOption(Languages[i].key, Languages[i].name)
  {
    seq(|Languages|, i requires 0 <= i < |Languages| => LanguageOption(Languages[i].key, Languages[i].name))
  }

  /** Every code offered by `/api/languages` looks up to the entry with the
      name shown beside it, so a client choosing from the list names a
      catalog key. */
  lemma ListedCodesResolve(o: LanguageOption)
    requires o in LanguageList()
    ensures o.code != "" && HasKey(Languages, o.code)
    ensures Lookup(o.code).Some?
    ensures Lookup(o.code).value.name == o.name
  {
    var r := LanguageList();
    var i :| 0 <= i < |r| && r[i] == o;
    LookupIsUnique(i);
    KeysNotEmpty();
  }
}
