/**
 * `buildBaseApiUrl`: fills `%name%` placeholders in a method's path
 * template and appends the version and client query parameters. Both the
 * substitution as the source writes it and the substitution it evidently
 * intends are modelled; the rest of the model uses the intended one, which
 * agrees with the written one on every call the client makes (one key at
 * most).
 */
module UrlBuilder {
  import opened Optional
  import opened JsStrings
  import opened JsValues
  import opened Registry

  /** The placeholder text for a parameter name. */
  function Placeholder(key: string): (p: string)
    ensures 2 <= |p| && p[0] == '%' && p[|p| - 1] == '%'
  {
    "%" + key + "%"
  }

  /** The query string appended to every API path. */
  function QuerySuffix(d: MethodDescriptor): string
  {
    "?api_version=" + d.version + "&api_client=" + ClientName
  }

  /** One step of the substitution: `url.replace(`%${key}%`, value)`. */
  function SubstituteOne(url: string, param: (string, Value)): string
  {
    ReplaceFirst(url, Placeholder(param.0), ToString(param.1))
  }

  /** A template without `%` is left alone by any substitution step. */
  lemma SubstituteOneNoPlaceholder(url: string, param: (string, Value))
    requires '%' !in url
    ensures SubstituteOne(url, param) == url
  {
    AbsentFirstChar(url, Placeholder(param.0));
  }

  // ---------------------------------------------------------------------
  // The substitution as written: the `reduce` callback ignores its
  // accumulator and rewrites the original template at every step.
  // ---------------------------------------------------------------------

  function ReduceAsWritten(template: string, acc: string, params: Entries): string
    decreases |params|
  {
    if |params| == 0 then acc
    else ReduceAsWritten(template, SubstituteOne(template, params[0]), params[1..])
  }

  /** `buildBaseApiUrl(method, urlReplaceParams)` as the source computes it; `None` is a `null` argument. */
  function BuildBaseApiUrlAsWritten(d: MethodDescriptor, params: Option<Entries>): (url: string)
    ensures |QuerySuffix(d)| <= |url| && url[|url| - |QuerySuffix(d)|..] == QuerySuffix(d)
    ensures params.None? || params == Some([]) ==> url == d.url + QuerySuffix(d)
  {
    var path := if params.Some? then ReduceAsWritten(d.url, d.url, params.value) else d.url;
    var url := path + QuerySuffix(d);
    assert url[|url| - |QuerySuffix(d)|..] == QuerySuffix(d);
    url
  }

  /** Every step but the last is thrown away: only the last key's substitution survives. */
  lemma {:induction false} AsWrittenKeepsOnlyLastKey(template: string, acc: string, params: Entries)
    requires 1 <= |params|
    ensures ReduceAsWritten(template, acc, params) == SubstituteOne(template, params[|params| - 1])
    decreases |params|
  {
    if |params| > 1 {
      AsWrittenKeepsOnlyLastKey(template, SubstituteOne(template, params[0]), params[1..]);
    }
  }

  /** A single parameter: the written builder performs that one substitution. */
  lemma AsWrittenOneParam(template: string, p: (string, Value))
    ensures ReduceAsWritten(template, template, [p]) == SubstituteOne(template, p)
  {
    assert [p][1..] == [];
  }

  /**
   * With a single parameter the written builder replaces the first
   * occurrence of its placeholder (when the value has no `$`) and keeps
   * every other character; the query suffix follows.
   */
  lemma AsWrittenSingleKey(d: MethodDescriptor, key: string, v: Value, i: nat)
    requires '$' !in ToString(v)
    requires MatchesAt(d.url, Placeholder(key), i)
    requires forall j: nat :: j < i ==> !MatchesAt(d.url, Placeholder(key), j)
    ensures BuildBaseApiUrlAsWritten(d, Some([(key, v)]))
         == d.url[..i] + ToString(v) + d.url[i + |Placeholder(key)|..] + QuerySuffix(d)
  {
    AsWrittenOneParam(d.url, (key, v));
    ReplaceFirstOccurrence(d.url, Placeholder(key), ToString(v), i);
  }

  /** A placeholder that does not occur leaves the template as it is. */
  lemma AsWrittenAbsentKey(d: MethodDescriptor, key: string, v: Value)
    requires !Contains(d.url, Placeholder(key))
    ensures BuildBaseApiUrlAsWritten(d, Some([(key, v)])) == d.url + QuerySuffix(d)
  {
    AsWrittenOneParam(d.url, (key, v));
  }

  // ---------------------------------------------------------------------
  // The intended substitution: each step rewrites the accumulated URL.
  // ---------------------------------------------------------------------

  /** Replaces each parameter's placeholder in turn in the accumulated path. */
  function Substitute(url: string, params: Entries): string
    decreases |params|
  {
    if |params| == 0 then url
    else Substitute(SubstituteOne(url, params[0]), params[1..])
  }

  /** A template without placeholders passes through the substitution unchanged. */
  lemma {:induction false} SubstituteNoPlaceholder(url: string, params: Entries)
    requires '%' !in url
    ensures Substitute(url, params) == url
    decreases |params|
  {
    if |params| > 0 {
      SubstituteOneNoPlaceholder(url, params[0]);
      SubstituteNoPlaceholder(url, params[1..]);
    }
  }

  /** One unfolding of the intended substitution. */
  lemma SubstituteStep(url: string, params: Entries)
    requires 1 <= |params|
    ensures Substitute(url, params) == Substitute(SubstituteOne(url, params[0]), params[1..])
  {
  }

  /** `buildBaseApiUrl` with the accumulator threaded through the `reduce`. */
  function BuildBaseApiUrl(d: MethodDescriptor, params: Option<Entries>): (url: string)
    ensures |QuerySuffix(d)| <= |url| && url[|url| - |QuerySuffix(d)|..] == QuerySuffix(d)
    ensures params.None? || params == Some([]) ==> url == d.url + QuerySuffix(d)
    ensures '%' !in d.url ==> url == d.url + QuerySuffix(d)
  {
    var path := if params.Some? then Substitute(d.url, params.value) else d.url;
    var url := path + QuerySuffix(d);
    assert url[|url| - |QuerySuffix(d)|..] == QuerySuffix(d);
    if params.Some? && '%' !in d.url then
      SubstituteNoPlaceholder(d.url, params.value);
      url
    else url
  }

  /** With at most one parameter, the written and the intended builder agree. */
  lemma AsWrittenAgreesOnOneKey(d: MethodDescriptor, params: Option<Entries>)
    requires params.Some? ==> |params.value| <= 1
    ensures BuildBaseApiUrlAsWritten(d, params) == BuildBaseApiUrl(d, params)
  {
    if params.Some? && |params.value| == 1 {
      var p := params.value[0];
      assert params.value == [p];
      AsWrittenOneParam(d.url, p);
      SubstituteStep(d.url, [p]);
    }
  }

  /** With one parameter the intended builder performs exactly that one substitution step. */
  lemma IntendedOneKey(d: MethodDescriptor, p: (string, Value))
    ensures BuildBaseApiUrl(d, Some([p])) == SubstituteOne(d.url, p) + QuerySuffix(d)
  {
    SubstituteStep(d.url, [p]);
    assert [p][1..] == [];
  }

  /** The account page template: literal text, the `accountId` placeholder, literal text. */
  lemma AccountInfoUrlShape()
    ensures Descriptor(AccountInfo).url == "/accounts/" + Placeholder("accountId") + "/api/show"
    ensures '%' !in "/accounts/"
    ensures Descriptor(AccountInfo).verb == Some("GET")
  {
    AccountPageText();
  }

  /** The account page path, spelled around its placeholder. */
  lemma AccountPageText()
    ensures "/accounts/" + Placeholder("accountId") + "/api/show" == "/accounts/%accountId%/api/show"
  {
    assert Placeholder("accountId") == "%accountId%";
  }

  /** A template slot: a placeholder, the value that fills it, and the literal text after it. */
  datatype Slot = Slot(key: string, value: Value, text: string)

  /** The template: each slot's placeholder followed by its literal text. */
  function TemplateOf(slots: seq<Slot>): string
    decreases |slots|
  {
    if |slots| == 0 then "" else Placeholder(slots[0].key) + slots[0].text + TemplateOf(slots[1..])
  }

  /** The filled path: each slot's value followed by its literal text. */
  function FilledOf(slots: seq<Slot>): string
    decreases |slots|
  {
    if |slots| == 0 then "" else ToString(slots[0].value) + slots[0].text + FilledOf(slots[1..])
  }

  /** The parameter object, keys in template order. */
  function ParamsOf(slots: seq<Slot>): Entries
  {
    seq(|slots|, i requires 0 <= i < |slots| => (slots[i].key, slots[i].value))
  }

  /** Literal text and values contain no `%`, and values no `$`. */
  predicate Fillable(slots: seq<Slot>)
  {
    forall i :: 0 <= i < |slots| ==>
      '%' !in slots[i].text && '%' !in ToString(slots[i].value) && '$' !in ToString(slots[i].value)
  }

  /** Later slots of a fillable template are fillable. */
  lemma FillableTail(slots: seq<Slot>)
    requires 1 <= |slots| && Fillable(slots)
    ensures Fillable(slots[1..])
  {
    forall i | 0 <= i < |slots[1..]|
      ensures '%' !in slots[1..][i].text
    {
      assert slots[1..][i] == slots[i + 1];
    }
  }

  /** A substitution step on a template whose placeholder follows `%`-free text. */
  lemma SubstituteAfterPrefix(head: string, key: string, v: Value, rest: string)
    requires '%' !in head
    requires '$' !in ToString(v)
    ensures SubstituteOne(head + Placeholder(key) + rest, (key, v)) == head + ToString(v) + rest
  {
    ReplaceAfterPrefix(head, Placeholder(key), rest, ToString(v));
  }

  /** One parameter whose placeholder follows `%`-free text: that placeholder is filled and the rest kept. */
  lemma IntendedOneKeyAfterPrefix(d: MethodDescriptor, head: string, key: string, v: Value, rest: string)
    requires d.url == head + Placeholder(key) + rest
    requires '%' !in head
    requires '$' !in ToString(v)
    ensures BuildBaseApiUrl(d, Some([(key, v)])) == head + ToString(v) + rest + QuerySuffix(d)
  {
    IntendedOneKey(d, (key, v));
    SubstituteAfterPrefix(head, key, v, rest);
  }

  /** The first slot of a template, unfolded. */
  lemma TemplateStep(slots: seq<Slot>)
    requires 1 <= |slots|
    ensures TemplateOf(slots) == Placeholder(slots[0].key) + (slots[0].text + TemplateOf(slots[1..]))
  {
  }

  /** The first slot of a filled path, unfolded. */
  lemma FilledStep(slots: seq<Slot>)
    requires 1 <= |slots|
    ensures FilledOf(slots) == ToString(slots[0].value) + slots[0].text + FilledOf(slots[1..])
  {
  }

  /** The first parameter comes from the first slot, the rest from the rest. */
  lemma ParamsStep(slots: seq<Slot>)
    requires 1 <= |slots|
    ensures ParamsOf(slots)[0] == (slots[0].key, slots[0].value)
    ensures ParamsOf(slots)[1..] == ParamsOf(slots[1..])
  {
  }

  /** Filling the first slot leaves the rest of the template behind `%`-free text. */
  lemma {:induction false} FillFirstSlot(head: string, slots: seq<Slot>)
    requires 1 <= |slots|
    requires '%' !in head
    requires '$' !in ToString(slots[0].value)
    ensures Substitute(head + TemplateOf(slots), ParamsOf(slots))
         == Substitute(head + ToString(slots[0].value) + slots[0].text + TemplateOf(slots[1..]), ParamsOf(slots[1..]))
  {
    var s0 := slots[0];
    var rest := s0.text + TemplateOf(slots[1..]);
    var url := head + TemplateOf(slots);
    var filled := head + ToString(s0.value) + rest;
    TemplateStep(slots);
    assert url == head + Placeholder(s0.key) + rest;
    ParamsStep(slots);
    SubstituteAfterPrefix(head, s0.key, s0.value, rest);
    calc {
      Substitute(url, ParamsOf(slots));
      == { SubstituteStep(url, ParamsOf(slots)); }
      Substitute(SubstituteOne(url, (s0.key, s0.value)), ParamsOf(slots[1..]));
      ==
      Substitute(filled, ParamsOf(slots[1..]));
    }
    assert filled == head + ToString(s0.value) + s0.text + TemplateOf(slots[1..]);
  }

  /** The intended property: every placeholder is replaced by its value and the literal text is kept. */
  lemma {:induction false} SubstituteFillsTemplate(head: string, slots: seq<Slot>)
    requires '%' !in head
    requires Fillable(slots)
    ensures Substitute(head + TemplateOf(slots), ParamsOf(slots)) == head + FilledOf(slots)
    decreases |slots|
  {
    if |slots| > 0 {
      var v, t, rest := ToString(slots[0].value), slots[0].text, slots[1..];
      var head' := head + v + t;
      assert '%' !in v && '%' !in t && '$' !in v;
      assert '%' !in head';
      FillFirstSlot(head, slots);
      FillableTail(slots);
      SubstituteFillsTemplate(head', rest);
      FilledStep(slots);
      Associate(head, v, t, FilledOf(rest));
    }
  }

  /** Regrouping a concatenation of four strings. */
  lemma Associate(a: string, b: string, c: string, d: string)
    ensures a + b + c + d == a + (b + c + d)
  {
  }

  /** The intended builder on a template made of literal text and placeholders. */
  lemma BuildBaseApiUrlFillsTemplate(d: MethodDescriptor, head: string, slots: seq<Slot>)
    requires d.url == head + TemplateOf(slots)
    requires '%' !in head
    requires Fillable(slots)
    ensures BuildBaseApiUrl(d, Some(ParamsOf(slots))) == head + FilledOf(slots) + QuerySuffix(d)
  {
    SubstituteFillsTemplate(head, slots);
  }

  /** In `/%x%/%y%` the first `%y%` starts at index 5. */
  lemma FirstYPlaceholder(t: string)
    requires t == "/%x%/%y%"
    ensures MatchesAt(t, "%y%", 5)
    ensures forall j: nat :: j < 5 ==> !MatchesAt(t, "%y%", j)
  {
    assert t[5..8] == "%y%";
    forall j: nat | j < 5
      ensures !MatchesAt(t, "%y%", j)
    {
      assert t[j..j + 3][0] == t[j] && t[j..j + 3][1] == t[j + 1];
      if j == 0 || j == 4 {
        assert t[j] == '/';
      } else {
        assert t[2] == 'x' && t[4] == '/';
      }
    }
  }

  /** Substituting `y` alone in `/%x%/%y%` fills the second placeholder only. */
  lemma SubstituteYAlone()
    ensures SubstituteOne("/%x%/%y%", ("y", Str("2"))) == "/%x%/2"
  {
    var t := "/%x%/%y%";
    FirstYPlaceholder(t);
    assert Placeholder("y") == "%y%";
    assert ToString(Str("2")) == "2";
    ReplaceFirstOccurrence(t, "%y%", "2", 5);
    assert t[..5] == "/%x%/" && t[8..] == "";
  }

  /** The intended builder on `/%x%/%y%` with the keys the other way round, `y` then `x`: still `/1/2`. */
  lemma IntendedOnTwoKeysReversed()
    ensures var d := MethodDescriptor("1.0", None, "/%x%/%y%");
            BuildBaseApiUrl(d, Some([("y", Str("2")), ("x", Str("1"))])) == "/1/2" + QuerySuffix(d)
  {
    var ps := [("y", Str("2")), ("x", Str("1"))];
    var px := [("x", Str("1"))];
    SubstituteStep("/%x%/%y%", ps);
    SubstituteYAlone();
    assert ps[1..] == px;
    SubstituteStep("/%x%/2", px);
    assert px[1..] == [];
    XThenTwo();
    SubstituteAfterPrefix("/", "x", Str("1"), "/2");
  }

  /** `/%x%/2` is literal text, the `x` placeholder, literal text; and `'1'` converts to `1`. */
  lemma XThenTwo()
    ensures "/%x%/2" == "/" + Placeholder("x") + "/2"
    ensures "/" + ToString(Str("1")) + "/2" == "/1/2"
    ensures '%' !in "/" && '$' !in ToString(Str("1"))
  {
    assert Placeholder("x") == "%x%";
    assert ToString(Str("1")) == "1";
  }

  /**
   * A placeholder that occurs twice is filled only once: an object holds one
   * value per key, and `replace` with a string pattern replaces the first
   * occurrence, so `/%x%/%x%` with `{x: '1'}` gives `/1/%x%`.
   */
  lemma IntendedRepeatedPlaceholder()
    ensures var d := MethodDescriptor("1.0", None, "/%x%/%x%");
            BuildBaseApiUrl(d, Some([("x", Str("1"))])) == "/1/%x%" + QuerySuffix(d)
  {
    var d := MethodDescriptor("1.0", None, "/%x%/%x%");
    XTwice();
    IntendedOneKeyAfterPrefix(d, "/", "x", Str("1"), "/%x%");
  }

  /** `/%x%/%x%` is `/`, the `x` placeholder, then `/%x%`; and `'1'` converts to `1`. */
  lemma XTwice()
    ensures "/%x%/%x%" == "/" + Placeholder("x") + "/%x%"
    ensures "/" + ToString(Str("1")) + "/%x%" == "/1/%x%"
    ensures '%' !in "/" && '$' !in ToString(Str("1"))
  {
    assert Placeholder("x") == "%x%";
    assert ToString(Str("1")) == "1";
  }

  /** The written builder on `/%x%/%y%` with `x` then `y`: only `%y%` is filled. */
  lemma AsWrittenOnTwoKeys()
    ensures var d := MethodDescriptor("1.0", None, "/%x%/%y%");
            BuildBaseApiUrlAsWritten(d, Some([("x", Str("1")), ("y", Str("2"))])) == "/%x%/2" + QuerySuffix(d)
  {
    var d := MethodDescriptor("1.0", None, "/%x%/%y%");
    var params := [("x", Str("1")), ("y", Str("2"))];
    AsWrittenKeepsOnlyLastKey(d.url, d.url, params);
    assert params[|params| - 1] == ("y", Str("2"));
    SubstituteYAlone();
  }

  /** The two slots of `/%x%/%y%` after its leading `/`. */
  const ExampleSlots: seq<Slot> := [Slot("x", Str("1"), "/"), Slot("y", Str("2"), "")]

  /** The example slots spell the template `%x%/%y%` and, filled, `1/2`. */
  lemma ExampleSlotsShape()
    ensures ParamsOf(ExampleSlots) == [("x", Str("1")), ("y", Str("2"))]
    ensures "/" + TemplateOf(ExampleSlots) == "/%x%/%y%"
    ensures Fillable(ExampleSlots)
  {
    var s := ExampleSlots;
    assert TemplateOf(s[1..]) == "%y%" by { assert s[1..][1..] == []; }
    assert TemplateOf(s) == "%x%/%y%";
    assert ToString(s[0].value) == "1" && ToString(s[1].value) == "2";
  }

  /** Filling the example slots gives `1/2`. */
  lemma ExampleSlotsFilled()
    ensures "/" + FilledOf(ExampleSlots) == "/1/2"
  {
    var s := ExampleSlots;
    assert FilledOf(s[1..]) == "2" by { assert s[1..][1..] == []; }
    assert FilledOf(s) == "1/2";
  }

  /** The intended builder on the same template and parameters fills both placeholders. */
  lemma IntendedOnTwoKeys()
    ensures var d := MethodDescriptor("1.0", None, "/%x%/%y%");
            BuildBaseApiUrl(d, Some([("x", Str("1")), ("y", Str("2"))])) == "/1/2" + QuerySuffix(d)
  {
    var d := MethodDescriptor("1.0", None, "/%x%/%y%");
    ExampleSlotsShape();
    ExampleSlotsFilled();
    BuildBaseApiUrlFillsTemplate(d, "/", ExampleSlots);
  }

  /**
   * The discrepancy on a two-placeholder template: the written builder
   * leaves the first placeholder in place, the intended one fills both.
   */
  lemma AsWrittenLosesEarlierSubstitutions()
    ensures var d := MethodDescriptor("1.0", None, "/%x%/%y%");
            var params := [("x", Str("1")), ("y", Str("2"))];
            && BuildBaseApiUrlAsWritten(d, Some(params)) == "/%x%/2" + QuerySuffix(d)
            && BuildBaseApiUrl(d, Some(params)) == "/1/2" + QuerySuffix(d)
            && BuildBaseApiUrlAsWritten(d, Some(params)) != BuildBaseApiUrl(d, Some(params))
  {
    AsWrittenOnTwoKeys();
    IntendedOnTwoKeys();
    var d := MethodDescriptor("1.0", None, "/%x%/%y%");
    SuffixCancels("/%x%/2", "/1/2", QuerySuffix(d));
  }

  /** Distinct paths stay distinct once the same query suffix is appended. */
  lemma SuffixCancels(a: string, b: string, suffix: string)
    requires a != b
    ensures a + suffix != b + suffix
  {
    assert (a + suffix)[..|a|] == a;
    assert |a| == |b| ==> (b + suffix)[..|a|] == b;
  }
}
