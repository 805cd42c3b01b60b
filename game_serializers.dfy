/** backend/game/serializers.py: the response language, the localized
    fields every translatable serializer writes, and a mission's
    availability and progress summary for the requesting user. */
module GameSerializers {
  import opened Wrappers
  import opened Strings
  import opened JsValues
  import opened GameModels
  import opened GameViews

  const DefaultLanguage: string := "ru"

  // ---------------------------------------------------------------------
  // language
  // ---------------------------------------------------------------------

  /** What `_resolve_language` reads from a request: the `lang` query
      parameter and the `Accept-Language` header. */
  datatype LangSource = LangSource(queryLang: Option<string>, acceptLanguage: Option<string>)

  /** The first of query parameter, header and default that is given. */
  function Preferred(req: LangSource, default: string): (r: string)
    ensures Given(req.queryLang) ==> r == req.queryLang.value
    ensures !Given(req.queryLang) && Given(req.acceptLanguage) ==> r == req.acceptLanguage.value
    ensures !Given(req.queryLang) && !Given(req.acceptLanguage) ==> r == default
  {
    if Given(req.queryLang) then req.queryLang.value
    else if Given(req.acceptLanguage) then req.acceptLanguage.value
    else default
  }

  /** `s.split(",")[0].split("-")[0].strip().lower()`: the primary subtag
      of the first listed language, without surrounding white space, in
      lower case. */
  function LanguageTag(s: string): (r: string)
    ensures ',' !in r && '-' !in r
    ensures forall i :: 0 <= i < |r| ==> !('A' <= r[i] <= 'Z')
  {
    var first := BeforeFirst(s, ',');
    var primary := BeforeFirst(first, '-');
    var stripped := PyStrip(primary);
    PrefixKeepsAbsent(primary, first, ',');
    StripKeepsAbsent(primary, ',');
    StripKeepsAbsent(primary, '-');
    LowerKeepsAbsent(stripped, ',');
    LowerKeepsAbsent(stripped, '-');
    Lower(stripped)
  }

  /** `_resolve_language(request, default)`: the default without a request;
      otherwise the tag of the preferred value when it is "ru" or "en",
      and the default when it is anything else. */
  function ResolveLanguage(request: Option<LangSource>, default: string): (r: string)
    ensures request.None? ==> r == default
    ensures r == default || r == "ru" || r == "en"
    ensures request.Some? && LanguageTag(Preferred(request.value, default)) in {"ru", "en"}
            ==> r == LanguageTag(Preferred(request.value, default))
    ensures request.Some? && LanguageTag(Preferred(request.value, default)) !in {"ru", "en"} ==> r == default
  {
    if request.None? then default
    else
      var tag := LanguageTag(Preferred(request.value, default));
      if tag == "ru" || tag == "en" then tag else default
  }

  /** The query parameter wins: when it is given the header is never read. */
  lemma QueryParameterWins(q: string, h1: Option<string>, h2: Option<string>, default: string)
    requires q != ""
    ensures ResolveLanguage(Some(LangSource(Some(q), h1)), default)
            == ResolveLanguage(Some(LangSource(Some(q), h2)), default)
  {
  }

  /** The tag is the primary subtag of the first listed language: for a
      first item `p` with no "-" or "," that is followed by the end, a
      region after "-" or further languages after ",", the tag is `p`
      stripped and lower-cased, and what follows is never read. */
  lemma {:induction false} TagIsPrimarySubtag(p: string, rest: string)
    requires ',' !in p && '-' !in p
    requires rest == [] || rest[0] == '-' || rest[0] == ','
    ensures LanguageTag(p + rest) == Lower(PyStrip(p))
  {
    var s := p + rest;
    var first := BeforeFirst(s, ',');
    if rest == [] {
      assert s == p;
      BeforeFirstIs(s, ',', p);
    } else if rest[0] == ',' {
      BeforeFirstIs(s, ',', p);
    } else {
      var tail := BeforeFirst(rest[1..], ',');
      assert s == p + ['-'] + rest[1..];
      assert (p + ['-'] + tail) <= s;
      BeforeFirstIs(s, ',', p + ['-'] + tail);
      assert first == p + ['-'] + tail;
    }
    assert p <= first && (|first| == |p| || first[|p|] == '-');
    BeforeFirstIs(first, '-', p);
  }

  /** A tag as it is written back: lower case, no "-" or ",", and no white
      space around it reads as itself. */
  lemma TagOfTagIsItself(t: string)
    requires ',' !in t && '-' !in t
    requires forall i :: 0 <= i < |t| ==> !('A' <= t[i] <= 'Z')
    requires t != [] ==> !PySpace(t[0]) && !PySpace(t[|t| - 1])
    ensures LanguageTag(t) == t
  {
    TagIsPrimarySubtag(t, []);
    assert t + [] == t;
    StripOfStripped(t);
    LowerOfLower(t);
  }

  /** A tag is taken whatever region, further languages or white space
      follow it: "en" with anything after a "-" or a "," reads as "en". */
  lemma RegionAndListIgnored(rest: string, default: string)
    requires |rest| > 0 && (rest[0] == '-' || rest[0] == ',')
    ensures ResolveLanguage(Some(LangSource(None, Some("en" + rest))), default) == "en"
  {
    TagIsPrimarySubtag("en", rest);
    EnIsItsOwnTag();
  }

  lemma EnIsItsOwnTag()
    ensures PyStrip("en") == "en" && Lower("en") == "en"
  {
    assert !PySpace('e') && !PySpace('n');
    assert SkipSpace("en", 0) == 0;
    assert SkipSpaceBack("en", 0, 2) == 2;
  }

  // ---------------------------------------------------------------------
  // localized representation
  // ---------------------------------------------------------------------

  /** The localized getters an instance offers: tracks, locations and
      missions have a title and a description, mission tasks a title
      only. */
  datatype Instance = Instance(title: Option<Localized>, description: Option<Localized>)

  const TitleKey: string := "title"
  const DescriptionKey: string := "description"
  const LanguageKey: string := "language"

  /** The entries `to_representation` writes for an instance in language
      `lang`: the localized title and description where the instance has
      them, and the language itself. */
  function LocalizedFields(inst: Instance, lang: string): (f: map<string, Json>)
    ensures LanguageKey in f && f[LanguageKey] == Str(lang)
    ensures TitleKey in f <==> inst.title.Some?
    ensures DescriptionKey in f <==> inst.description.Some?
    ensures inst.title.Some? ==> f[TitleKey] == Str(LocalizedValue(inst.title.value, Some(lang)))
    ensures inst.description.Some? ==> f[DescriptionKey] == Str(LocalizedValue(inst.description.value, Some(lang)))
    ensures forall k :: k in f ==> k == LanguageKey || k == TitleKey || k == DescriptionKey
  {
    var title: map<string, Json> :=
      if inst.title.Some? then map[TitleKey := Str(LocalizedValue(inst.title.value, Some(lang)))] else map[];
    var described :=
      if inst.description.Some? then title[DescriptionKey := Str(LocalizedValue(inst.description.value, Some(lang)))]
      else title;
    described[LanguageKey := Str(lang)]
  }

  /** `LocalizedSerializerMixin.to_representation`: the plain
      representation `data`, with `title` and `description` replaced by the
      texts in the resolved language where the instance has them, and the
      resolved language written under `language`. */
  function ToRepresentation(data: map<string, Json>, inst: Instance, request: Option<LangSource>)
    : (r: map<string, Json>)
    ensures LanguageKey in r && r[LanguageKey] == Str(ResolveLanguage(request, DefaultLanguage))
    ensures inst.title.Some? ==>
              TitleKey in r && r[TitleKey] == Str(LocalizedValue(inst.title.value, Some(ResolveLanguage(request, DefaultLanguage))))
    ensures inst.description.Some? ==>
              DescriptionKey in r
              && r[DescriptionKey] == Str(LocalizedValue(inst.description.value, Some(ResolveLanguage(request, DefaultLanguage))))
    ensures forall k :: k in r <==> k in data || k == LanguageKey
                                    || (k == TitleKey && inst.title.Some?)
                                    || (k == DescriptionKey && inst.description.Some?)
    ensures forall k :: (k in data && k != LanguageKey
                         && !(k == TitleKey && inst.title.Some?)
                         && !(k == DescriptionKey && inst.description.Some?)) ==> r[k] == data[k]
  {
    var lang := ResolveLanguage(request, DefaultLanguage);
    var f := LocalizedFields(inst, lang);
    assert forall k :: k in data + f <==> k in data || k in f;
    data + f
  }

  /** The language the representation reports is the one its texts are
      in: with both translations filled and no base text, the title shown
      is the translation named under `language`. */
  lemma RepresentationSpeaksItsLanguage(data: map<string, Json>, t: Localized, request: Option<LangSource>)
    requires PyHasText(t.ru) && PyHasText(t.en)
    ensures var r := ToRepresentation(data, Instance(Some(t), None), request);
            (r[LanguageKey] == Str("en") ==> r[TitleKey] == Str(t.en))
            && (r[LanguageKey] == Str("ru") ==> r[TitleKey] == Str(t.ru))
  {
    var lang := ResolveLanguage(request, DefaultLanguage);
    KnownLanguageIsNormal(lang);
  }

  // ---------------------------------------------------------------------
  // availability and progress
  // ---------------------------------------------------------------------

  /** Who asks: an anonymous visitor (or no request at all), or a signed-in
      user with an optional profile level and progress rows keyed by
      mission id. */
  datatype Viewer = Anonymous | SignedIn(profileLevel: Option<int>, rows: map<nat, ProgressState>)

  /** When `get_available` says yes: the mission is active and, for a
      signed-in user, the profile (if any) is at its level and every
      prerequisite is completed. */
  predicate IsAvailable(m: Mission, v: Viewer)
  {
    m.isActive
    && (v.SignedIn? ==>
          (v.profileLevel.None? || v.profileLevel.value >= m.minLevel)
          && forall id :: id in m.prerequisites ==> id in CompletedIds(v.rows))
  }

  /** `MissionSerializer.get_available`: the checks in order, stopping at
      the first prerequisite not completed. */
  method GetAvailable(m: Mission, v: Viewer) returns (available: bool)
    ensures available == IsAvailable(m, v)
  {
    if !m.isActive {
      return false;
    }
    if v.SignedIn? {
      if v.profileLevel.Some? && v.profileLevel.value < m.minLevel {
        return false;
      }
      if m.prerequisites != [] {
        var completed := CompletedIds(v.rows);
        var i := 0;
        while i < |m.prerequisites|
          invariant 0 <= i <= |m.prerequisites|
          invariant forall k :: 0 <= k < i ==> m.prerequisites[k] in completed
        {
          if m.prerequisites[i] !in completed {
            return false;
          }
          i := i + 1;
        }
      }
    }
    return true;
  }

  /** The list a signed-in user sees agrees with what the actions enforce:
      a mission shows as available exactly when `start` and `complete`
      would pass their gates. */
  lemma AvailabilityMatchesGate(m: Mission, level: int, rows: map<nat, ProgressState>)
    ensures IsAvailable(m, SignedIn(Some(level), rows)) <==> Gate(m, level, CompletedIds(rows)).None?
  {
  }

  /** An anonymous visitor sees every active mission as available and no
      inactive one. */
  lemma AnonymousSeesActive(m: Mission)
    ensures IsAvailable(m, Anonymous) <==> m.isActive
  {
  }

  /** The fields `get_user_progress` reads from a progress row. */
  datatype ProgressSummary = ProgressSummary(completed: bool, status: Status, attempts: int, xpEarned: int,
                                             stars: int, completedAt: Option<Time>)

  function Summary(p: ProgressState): ProgressSummary
  {
    ProgressSummary(p.completed, p.status, p.attempts, p.xpEarned, p.stars, p.completedAt)
  }

  /** What a signed-in user without a row is shown. */
  const NoProgress := ProgressSummary(false, NotStarted, 0, 0, 0, None)

  /** `MissionSerializer.get_user_progress`: nothing for an anonymous
      visitor; the user's row for the mission, or the not-started summary
      when there is none. */
  function GetUserProgress(missionId: nat, v: Viewer): (r: Option<ProgressSummary>)
    ensures r.None? <==> v.Anonymous?
    ensures v.SignedIn? && missionId in v.rows ==> r == Some(Summary(v.rows[missionId]))
    ensures v.SignedIn? && missionId !in v.rows ==> r == Some(NoProgress)
  {
    match v
    case Anonymous => None
    case SignedIn(_, rows) => if missionId in rows then Some(Summary(rows[missionId])) else Some(NoProgress)
  }

  /** The stand-in summary is exactly what a freshly created row would
      show, so creating the row does not change what the user sees. */
  lemma MissingRowReadsAsFresh(missionId: nat, level: Option<int>, rows: map<nat, ProgressState>)
    requires missionId !in rows
    ensures GetUserProgress(missionId, SignedIn(level, rows))
            == GetUserProgress(missionId, SignedIn(level, rows[missionId := NewProgress]))
  {
  }
}
