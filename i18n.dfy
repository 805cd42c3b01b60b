/** frontend/lib/i18n.js: dotted-key lookup in the translation
    dictionaries, the `t` fallback to the key itself, the stored interface
    language and its switching, and the headline template.

    The dictionaries are a constant object with an "en" and a "ru" entry;
    here they are a parameter `dicts` that must hold the default language,
    as the constant does. */
module I18n {
  import opened Wrappers
  import opened Strings
  import opened JsValues

  const LangKey: string := "ui_language"
  const DefaultLang: string := "ru"
  const ClassPlaceholder: string := "{{class}}"

  // ---------------------------------------------------------------------
  // lookup
  // ---------------------------------------------------------------------

  /** One step of the reduce in `translate`: `acc && acc[part] !== undefined
      ? acc[part] : undefined`. */
  function Descend(acc: Option<Json>, part: string): Option<Json>
  {
    if Defined(acc) then Member(acc.value, part) else None
  }

  /** The reduce over the path segments, from the dictionary down. */
  function Walk(acc: Option<Json>, path: seq<string>): Option<Json>
    decreases |path|
  {
    if path == [] then acc else Walk(Descend(acc, path[0]), path[1..])
  }

  /** `translate(dictionary, key)`: follow the dot-separated segments of
      `key`; None is `undefined`. */
  function Translate(dictionary: Json, key: string): Option<Json>
  {
    Walk(Some(dictionary), Split(key, '.'))
  }

  /** Walking a path in two pieces is walking it whole. */
  lemma {:induction false} WalkAppend(acc: Option<Json>, p: seq<string>, q: seq<string>)
    ensures Walk(acc, p + q) == Walk(Walk(acc, p), q)
    decreases |p|
  {
    if p == [] {
      assert p + q == q;
    } else {
      assert (p + q)[1..] == p[1..] + q;
      WalkAppend(Descend(acc, p[0]), p[1..], q);
    }
  }

  /** Once the walk has lost its value it stays lost. */
  lemma {:induction false} WalkFromNothing(path: seq<string>)
    ensures Walk(None, path) == None
    decreases |path|
  {
    if path != [] {
      WalkFromNothing(path[1..]);
    }
  }

  /** `translate` yields undefined as soon as a segment is missing: if the
      first `i` segments lead nowhere, so does the whole key. */
  lemma MissingSegmentIsFinal(dictionary: Json, key: string, i: nat)
    requires i <= |Split(key, '.')|
    requires Walk(Some(dictionary), Split(key, '.')[..i]) == None
    ensures Translate(dictionary, key) == None
  {
    var path := Split(key, '.');
    assert path == path[..i] + path[i..];
    WalkAppend(Some(dictionary), path[..i], path[i..]);
    WalkFromNothing(path[i..]);
  }

  /** A dotted key is its list of segments: looking up the segments
      joined with dots walks exactly those segments. */
  lemma DottedKeyIsPath(dictionary: Json, parts: seq<string>)
    requires |parts| >= 1
    requires forall i :: 0 <= i < |parts| ==> '.' !in parts[i]
    ensures Translate(dictionary, Join(parts, '.')) == Walk(Some(dictionary), parts)
  {
    SplitJoin(parts, '.');
  }

  /** `t(key)` = `translate(dict, key) || key`: the key itself stands in for
      a missing or falsy translation, so a non-empty key never yields a
      falsy text. */
  function T(dict: Json, key: string): (r: Json)
    ensures !Defined(Translate(dict, key)) ==> r == Str(key)
    ensures Defined(Translate(dict, key)) ==> Some(r) == Translate(dict, key)
    ensures key != "" ==> Truthy(r)
  {
    var found := Translate(dict, key);
    if Defined(found) then found.value else Str(key)
  }

  /** The dictionary in use: the one for `language`, or the default
      language's one when there is none. */
  function ActiveDictionary(dicts: map<string, Json>, language: string): (d: Json)
    requires DefaultLang in dicts
    ensures language in dicts && Truthy(dicts[language]) ==> d == dicts[language]
    ensures language !in dicts ==> d == dicts[DefaultLang]
  {
    if language in dicts && Truthy(dicts[language]) then dicts[language] else dicts[DefaultLang]
  }

  // ---------------------------------------------------------------------
  // the interface language
  // ---------------------------------------------------------------------

  /** `getStoredLanguage()`: the stored value, or the default when none is
      stored, it is empty, or there is no browser. */
  function StoredLanguage(hasWindow: bool, storage: map<string, string>): (r: string)
    ensures r != ""
    ensures hasWindow && LangKey in storage && storage[LangKey] != "" ==> r == storage[LangKey]
    ensures !(hasWindow && LangKey in storage && storage[LangKey] != "") ==> r == DefaultLang
  {
    if !hasWindow then DefaultLang
    else if LangKey in storage && storage[LangKey] != "" then storage[LangKey]
    else DefaultLang
  }

  /** `persistLanguage(value)`: only the language key changes. */
  function Persisted(hasWindow: bool, storage: map<string, string>, value: string): (r: map<string, string>)
    ensures hasWindow ==> LangKey in r && r[LangKey] == value
    ensures !hasWindow ==> r == storage
    ensures forall k :: k != LangKey ==> (k in r <==> k in storage) && (k in r ==> r[k] == storage[k])
  {
    if hasWindow then storage[LangKey := value] else storage
  }

  /** The language `changeLanguage(next)` settles on: `next` when it has a
      dictionary, the default otherwise — so always one with a dictionary. */
  function SafeLanguage(dicts: map<string, Json>, next: string): (r: string)
    requires DefaultLang in dicts
    ensures r in dicts
    ensures next in dicts && Truthy(dicts[next]) ==> r == next
    ensures next !in dicts ==> r == DefaultLang
  {
    if next in dicts && Truthy(dicts[next]) then next else DefaultLang
  }

  /** The language `toggleLanguage` switches to: "en" from "ru", "ru" from
      anything else. */
  function Toggled(prev: string): (r: string)
    ensures r == "en" || r == "ru"
    ensures r == "en" <==> prev == "ru"
  {
    if prev == "ru" then "en" else "ru"
  }

  /** Toggling twice returns to "ru" or "en", and anything else ends on "en". */
  lemma ToggleTwice(prev: string)
    ensures Toggled(Toggled(prev)) == if prev == "ru" then "ru" else "en"
  {
  }

  /** The provider's state: the `language` state variable and the page's
      key-value storage. */
  class LanguageState {
    const hasWindow: bool
    const dicts: map<string, Json>
    var language: string
    var storage: map<string, string>

    ghost predicate Valid()
      reads this
    {
      DefaultLang in dicts
    }

    /** `useState(DEFAULT_LANG)`. */
    constructor (hasWindow: bool, dicts: map<string, Json>, storage: map<string, string>)
      requires DefaultLang in dicts
      ensures Valid()
      ensures this.hasWindow == hasWindow && this.dicts == dicts && this.storage == storage
      ensures language == DefaultLang
    {
      this.hasWindow := hasWindow;
      this.dicts := dicts;
      this.storage := storage;
      language := DefaultLang;
    }

    /** The mount effect: `setLanguage(getStoredLanguage())`. */
    method LoadStored()
      requires Valid()
      modifies this
      ensures Valid() && storage == old(storage)
      ensures language == StoredLanguage(hasWindow, storage)
    {
      if hasWindow && LangKey in storage && storage[LangKey] != "" {
        language := storage[LangKey];
      } else {
        language := DefaultLang;
      }
    }

    /** `changeLanguage(next)`: fall back to the default for a language
        without a dictionary, persist, then set. */
    method ChangeLanguage(next: string)
      requires Valid()
      modifies this
      ensures Valid()
      ensures language == SafeLanguage(dicts, next)
      ensures storage == Persisted(hasWindow, old(storage), language)
    {
      var safe := if next in dicts && Truthy(dicts[next]) then next else DefaultLang;
      if hasWindow {
        storage := storage[LangKey := safe];
      }
      language := safe;
    }

    /** `toggleLanguage()`. */
    method ToggleLanguage()
      requires Valid()
      modifies this
      ensures Valid()
      ensures language == Toggled(old(language))
      ensures storage == Persisted(hasWindow, old(storage), language)
    {
      var next := if language == "ru" then "en" else "ru";
      if hasWindow {
        storage := storage[LangKey := next];
      }
      language := next;
    }

    /** The context's `t`, over the dictionary in use. */
    function Translator(key: string): (r: Json)
      requires Valid()
      reads this
      ensures key != "" ==> Truthy(r)
    {
      T(ActiveDictionary(dicts, language), key)
    }
  }

  /** Whatever language was stored, the provider always reads from a
      dictionary that exists. */
  lemma StoredLanguageHasDictionary(dicts: map<string, Json>, hasWindow: bool, storage: map<string, string>)
    requires DefaultLang in dicts
    ensures ActiveDictionary(dicts, StoredLanguage(hasWindow, storage)) in dicts.Values
  {
  }

  // ---------------------------------------------------------------------
  // headline
  // ---------------------------------------------------------------------

  /** `formatHeadline(template, playerClass)`: "" for a missing or empty
      template, otherwise the first "{{class}}" replaced by the class. */
  function FormatHeadline(template: Option<string>, playerClass: string): (r: string)
    ensures !(template.Some? && template.value != "") ==> r == ""
    ensures template.Some? && template.value != "" && !Contains(template.value, ClassPlaceholder)
            ==> r == template.value
  {
    if template.None? || template.value == "" then ""
    else ReplaceFirst(template.value, ClassPlaceholder, playerClass)
  }

  /** Only the first placeholder is filled: with no brace before it, the
      class goes in its place and the text after it is kept verbatim,
      later placeholders included. */
  lemma HeadlineFillsFirstOnly(before: string, after: string, playerClass: string)
    requires '{' !in before
    ensures FormatHeadline(Some(before + ClassPlaceholder + after), playerClass) == before + playerClass + after
  {
    var t := before + ClassPlaceholder + after;
    var i := |before|;
    assert OccursAt(t, ClassPlaceholder, i) by {
      assert t[i..i + |ClassPlaceholder|] == ClassPlaceholder;
    }
    forall j: nat | j < i ensures !OccursAt(t, ClassPlaceholder, j) {
      assert t[j] == before[j] != ClassPlaceholder[0];
    }
    assert t[..i] == before && t[i + |ClassPlaceholder|..] == after;
  }
}
