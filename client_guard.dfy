/**
 * The input guard of public/app.js: `translateToSelected` and
 * `translateToAll` trim the input and send no request when nothing is
 * left; `translateToAll` also asks for confirmation first.  The request
 * bodies they build are the ones the server handlers read.
 */
module ClientGuard {
  import opened Common
  import opened Catalog
  import opened Handlers

  /** The characters `String.prototype.trim` removes: white space and line terminators. */
  function IsTrimmable(c: char): (b: bool)
    ensures c == ' ' || c == '\t' || c == '\n' || c == '\r' ==> b
    ensures '0' <= c <= '9' || 'A' <= c <= 'Z' || 'a' <= c <= 'z' ==> !b
  {
    var n := c as int;
    n == 0x09 || n == 0x0A || n == 0x0B || n == 0x0C || n == 0x0D || n == 0x20
    || n == 0xA0 || n == 0x1680 || (0x2000 <= n <= 0x200A) || n == 0x2028 || n == 0x2029
    || n == 0x202F || n == 0x205F || n == 0x3000 || n == 0xFEFF
  }

  function TrimStart(s: string): (r: string)
    ensures |r| <= |s| && r == s[|s| - |r|..]
    ensures forall i :: 0 <= i < |s| - |r| ==> IsTrimmable(s[i])
    ensures r != [] ==> !IsTrimmable(r[0])
  {
    if s != [] && IsTrimmable(s[0]) then TrimStart(s[1..]) else s
  }

  function TrimEnd(s: string): (r: string)
    ensures |r| <= |s| && r == s[..|r|]
    ensures forall i :: |r| <= i < |s| ==> IsTrimmable(s[i])
    ensures r != [] ==> !IsTrimmable(r[|r| - 1])
  {
    if s != [] && IsTrimmable(s[|s| - 1]) then TrimEnd(s[..|s| - 1]) else s
  }

  /** How many trimmable characters `s` starts with. */
  function Lead(s: string): (k: nat)
    ensures k <= |s|
    ensures forall i :: 0 <= i < k ==> IsTrimmable(s[i])
    ensures TrimStart(s) == s[k..]
  {
    |s| - |TrimStart(s)|
  }

  /** A suffix `a` of `s` that ends in trimmable characters from `j` on makes `s` end in them too. */
  lemma TrimmableTailOfSuffix(s: string, a: string, i: nat, j: nat)
    requires i <= |s| && a == s[i..] && j <= |a|
    requires forall k :: j <= k < |a| ==> IsTrimmable(a[k])
    ensures forall k :: i + j <= k < |s| ==> IsTrimmable(s[k])
  {
    forall k | i + j <= k < |s|
      ensures IsTrimmable(s[k])
    {
      assert s[k] == a[k - i];
    }
  }

  /** Past the characters `TrimEnd` keeps of `TrimStart(s)`, `s` holds only trimmable ones. */
  lemma TrailingTrimmable(s: string)
    ensures forall k :: Lead(s) + |TrimEnd(TrimStart(s))| <= k < |s| ==> IsTrimmable(s[k])
  {
    var a := TrimStart(s);
    TrimmableTailOfSuffix(s, a, Lead(s), |TrimEnd(a)|);
  }

  /**
   * `s.trim()`: the part of `s` between its leading and trailing
   * trimmable characters, which itself neither starts nor ends with one.
   */
  function Trim(s: string): (r: string)
    ensures Lead(s) + |r| <= |s| && r == s[Lead(s)..Lead(s) + |r|]
    ensures forall k :: Lead(s) + |r| <= k < |s| ==> IsTrimmable(s[k])
    ensures r != [] ==> !IsTrimmable(r[0]) && !IsTrimmable(r[|r| - 1])
  {
    var a := TrimStart(s);
    var b := TrimEnd(a);
    assert b == s[Lead(s)..][..|b|] == s[Lead(s)..Lead(s) + |b|];
    TrailingTrimmable(s);
    b
  }

  /** Nothing is left after trimming exactly when every character is trimmable. */
  lemma TrimEmptyIff(s: string)
    ensures Trim(s) == [] <==> forall k :: 0 <= k < |s| ==> IsTrimmable(s[k])
  {
    if Trim(s) != [] {
      var r := Trim(s);
      assert s[Lead(s)] == r[0];
    }
  }

  /**
   * `translateToSelected` (lines 90-112): the body it posts to
   * `/api/translate`, or None when the trimmed input is empty and only an
   * alert is shown.
   */
  function TranslateToSelected(input: string, targetLang: string): (b: Option<TranslateBody>)
    ensures b.None? <==> forall k :: 0 <= k < |input| ==> IsTrimmable(input[k])
    ensures b.Some? ==> b.value == TranslateBody(Some(Trim(input)), Some(targetLang), Some(DefaultSourceLang))
  {
    TrimEmptyIff(input);
    var text := Trim(input);
    if text == "" then None
    else Some(TranslateBody(Some(text), Some(targetLang), Some(DefaultSourceLang)))
  }

  /**
   * `translateToAll` (lines 129-153): no request for an empty trimmed
   * input or when the user does not confirm; otherwise the body it posts
   * to `/api/translate-all`.
   */
  function TranslateToAll(input: string, confirmed: bool): (b: Option<TranslateAllBody>)
    ensures b.Some? <==> confirmed && exists k :: 0 <= k < |input| && !IsTrimmable(input[k])
    ensures b.Some? ==> b.value == TranslateAllBody(Some(Trim(input)), Some(DefaultSourceLang))
  {
    TrimEmptyIff(input);
    var text := Trim(input);
    if text == "" then None
    else if !confirmed then None
    else Some(TranslateAllBody(Some(text), Some(DefaultSourceLang)))
  }

  /**
   * What the page sends to `/api/translate` with a language taken from
   * `/api/languages` always passes the server's validation: the text is
   * present and not empty, and the target is a catalog key.
   */
  lemma SelectedRequestIsAccepted(input: string, o: LanguageOption)
    requires o in LanguageList()
    requires TranslateToSelected(input, o.code).Some?
    ensures Validate(TranslateToSelected(input, o.code).value).Accepted?
  {
    ListedCodesResolve(o);
  }

  /** What the page sends to `/api/translate-all` is never rejected for its text,
      and it names 'en', a catalog key, as source. */
  lemma AllRequestIsNotRejected(input: string, confirmed: bool, s: ServerLoader.LoaderState,
                                a: ServerLoader.Acquisition, call: TranslateCall)
    requires TranslateToAll(input, confirmed).Some?
    ensures !TranslateAllOutcome(TranslateToAll(input, confirmed).value, s, a, call).AllBadRequest?
    ensures HasKey(Languages, TranslateToAll(input, confirmed).value.sourceLang.value)
    ensures var r := TranslateAllOutcome(TranslateToAll(input, confirmed).value, s, a, call);
      r.AllTranslated? ==> |r.translations| == 28
  {
    DefaultSourceIsFallback();
  }
}
