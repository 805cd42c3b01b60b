/** backend/game/models.py: the localized-text fallback shared by tracks,
    locations, missions and mission tasks, the rank title lookup, and the
    in-place progress updates of `TaskProgress` and `Progress`.

    Timestamps from `timezone.now()` are passed in as `now`; saving a row
    is not modelled. */
module GameModels {
  import opened Wrappers
  import opened Strings

  type Time = int

  /** The three choices of the `status` columns. */
  datatype Status = NotStarted | InProgress | Completed

  // ---------------------------------------------------------------------
  // localized text
  // ---------------------------------------------------------------------

  /** One translatable field of a row: the base column `<field>` and its
      `<field>_ru` / `<field>_en` columns. A field with no base column
      (a track's tagline) has base "". */
  datatype Localized = Localized(base: string, ru: string, en: string)

  /** The language normalisation in `_get_localized_value`: lower-cased,
      with anything but "ru" or "en" (a missing or empty value included)
      taken as "ru". */
  function NormalizeLang(lang: Option<string>): (r: string)
    ensures r == "ru" || r == "en"
    ensures r == "en" <==> lang.Some? && Lower(lang.value) == "en"
  {
    var l := if lang.None? || lang.value == "" then "ru" else Lower(lang.value);
    if l == "en" then "en" else "ru"
  }

  /** "ru" and "en" are already normal. */
  lemma KnownLanguageIsNormal(lang: string)
    requires lang == "ru" || lang == "en"
    ensures NormalizeLang(Some(lang)) == lang
  {
    assert Lower(lang)[0] == lang[0];
  }

  /** The `<field>_<lang>` column for a normalised language. */
  function InLanguage(t: Localized, lang: string): string
  {
    if lang == "en" then t.en else t.ru
  }

  function OtherLanguage(lang: string): string
  {
    if lang == "ru" then "en" else "ru"
  }

  /** `_get_localized_value(field, lang)`: the requested language's text if
      it is not blank, else the base text if that is not blank, else the
      other language's text (which may be blank). */
  function LocalizedValue(t: Localized, lang: Option<string>): (r: string)
    ensures r == t.base || r == t.ru || r == t.en
    ensures PyHasText(r) <==> PyHasText(t.base) || PyHasText(t.ru) || PyHasText(t.en)
    ensures PyHasText(InLanguage(t, NormalizeLang(lang))) ==> r == InLanguage(t, NormalizeLang(lang))
    ensures !PyHasText(InLanguage(t, NormalizeLang(lang))) && PyHasText(t.base) ==> r == t.base
  {
    var l := NormalizeLang(lang);
    var localized := InLanguage(t, l);
    if PyHasText(localized) then localized
    else if PyHasText(t.base) then t.base
    else InLanguage(t, OtherLanguage(l))
  }

  /** A field filled in one language only shows that text whatever the
      requested language. */
  lemma SingleTranslationServesBoth(t: Localized, lang: Option<string>)
    requires !PyHasText(t.base) && !PyHasText(t.ru) && PyHasText(t.en)
    ensures LocalizedValue(t, lang) == t.en
  {
  }

  /** Two requests that normalise to the same language read the same text;
      in particular an unknown language reads like "ru". */
  lemma UnknownLanguageReadsRussian(t: Localized, lang: string)
    requires Lower(lang) != "en"
    ensures LocalizedValue(t, Some(lang)) == LocalizedValue(t, Some("ru"))
    ensures LocalizedValue(t, Some(lang)) == LocalizedValue(t, None)
  {
  }

  /** The columns of a `Mission` row the game rules read; `prerequisites`
      lists the ids of the missions it requires. */
  datatype Mission = Mission(
    id: nat,
    title: Localized,
    description: Localized,
    xpReward: int,
    isActive: bool,
    prerequisites: seq<nat>,
    minLevel: int,
    repeatable: bool,
    repeatXpRate: int)

  // ---------------------------------------------------------------------
  // rank titles
  // ---------------------------------------------------------------------

  datatype Rank = Rank(titleRu: string, titleEn: string, descriptionRu: string, descriptionEn: string)

  /** `Rank.get_localized_title(lang)` as written: the `title_<lang>`
      attribute always exists, so the default of the `getattr` call never
      applies and an empty column is returned as it is. */
  function RankTitleAsWritten(rank: Rank, lang: Option<string>): (r: string)
    ensures NormalizeLang(lang) == "en" ==> r == rank.titleEn
    ensures NormalizeLang(lang) == "ru" ==> r == rank.titleRu
  {
    if NormalizeLang(lang) == "en" then rank.titleEn else rank.titleRu
  }

  /** An English rank title left empty comes out empty, although the
      Russian one is there. */
  lemma RankTitleAsWrittenLosesFallback()
    ensures RankTitleAsWritten(Rank("Новичок", "", "", ""), Some("en")) == ""
  {
  }

  /** The rank title with the fallback the `getattr` default spells out:
      the requested language's title, else `title_ru or title_en`. */
  function RankTitle(rank: Rank, lang: Option<string>): (r: string)
    ensures r == rank.titleRu || r == rank.titleEn
    ensures r == "" <==> rank.titleRu == "" && rank.titleEn == ""
    ensures InLanguage(Localized("", rank.titleRu, rank.titleEn), NormalizeLang(lang)) != ""
            ==> r == InLanguage(Localized("", rank.titleRu, rank.titleEn), NormalizeLang(lang))
  {
    var own := RankTitleAsWritten(rank, lang);
    if own != "" then own else if rank.titleRu != "" then rank.titleRu else rank.titleEn
  }

  /** Where both titles are filled the two readings agree. */
  lemma RankTitleAgreesWhenFilled(rank: Rank, lang: Option<string>)
    requires rank.titleRu != "" && rank.titleEn != ""
    ensures RankTitle(rank, lang) == RankTitleAsWritten(rank, lang)
  {
  }

  /** `Rank.get_localized_description(lang)`: the description column of
      the normalised language. */
  function RankDescription(rank: Rank, lang: Option<string>): (r: string)
    ensures NormalizeLang(lang) == "en" ==> r == rank.descriptionEn
    ensures NormalizeLang(lang) == "ru" ==> r == rank.descriptionRu
  {
    if NormalizeLang(lang) == "en" then rank.descriptionEn else rank.descriptionRu
  }

  // ---------------------------------------------------------------------
  // task progress
  // ---------------------------------------------------------------------

  function Max(a: int, b: int): int
  {
    if a >= b then a else b
  }

  /** The status rule of `mark_attempt`. */
  function StatusAfterAttempt(s: Status, completed: bool): (r: Status)
    ensures r == Completed <==> completed || s == Completed
    ensures r != NotStarted
    ensures !completed && s != NotStarted ==> r == s
  {
    if completed then Completed else if s == NotStarted then InProgress else s
  }

  /** The columns of a `TaskProgress` row that `mark_attempt` touches. */
  datatype TaskState = TaskState(status: Status, attempts: int, bestScore: int, lastSubmittedAt: Option<Time>)

  /** A fresh row. */
  const NewTask := TaskState(NotStarted, 0, 0, None)

  /** The row after `mark_attempt(score, completed)` at time `now`. */
  function Attempted(t: TaskState, score: int, completed: bool, now: Time): (r: TaskState)
    ensures r.attempts == t.attempts + 1
    ensures r.bestScore >= t.bestScore && r.bestScore >= score
    ensures r.bestScore == t.bestScore || r.bestScore == score
    ensures r.lastSubmittedAt == Some(now)
    ensures r.status == StatusAfterAttempt(t.status, completed)
  {
    TaskState(StatusAfterAttempt(t.status, completed), t.attempts + 1, Max(t.bestScore, score), Some(now))
  }

  /** One submission: score, completion flag, time. */
  datatype Submission = Submission(score: int, completed: bool, at: Time)

  function AttemptAll(t: TaskState, subs: seq<Submission>): TaskState
    decreases |subs|
  {
    if subs == [] then t
    else AttemptAll(Attempted(t, subs[0].score, subs[0].completed, subs[0].at), subs[1..])
  }

  /** After a run of submissions: one attempt counted per submission, the
      best score is the highest seen, and a completed task stays completed. */
  lemma {:induction false} AttemptsAccumulate(t: TaskState, subs: seq<Submission>)
    ensures AttemptAll(t, subs).attempts == t.attempts + |subs|
    ensures AttemptAll(t, subs).bestScore >= t.bestScore
    ensures forall i :: 0 <= i < |subs| ==> AttemptAll(t, subs).bestScore >= subs[i].score
    ensures t.status == Completed ==> AttemptAll(t, subs).status == Completed
    ensures (exists i :: 0 <= i < |subs| && subs[i].completed) ==> AttemptAll(t, subs).status == Completed
    decreases |subs|
  {
    if subs != [] {
      var next := Attempted(t, subs[0].score, subs[0].completed, subs[0].at);
      AttemptsAccumulate(next, subs[1..]);
      forall i | 0 <= i < |subs| ensures AttemptAll(t, subs).bestScore >= subs[i].score {
        if i > 0 {
          assert subs[i] == subs[1..][i - 1];
        }
      }
      if exists i :: 0 <= i < |subs| && subs[i].completed {
        var i :| 0 <= i < |subs| && subs[i].completed;
        if i > 0 {
          assert subs[1..][i - 1].completed;
        }
      }
    }
  }

  /** A `TaskProgress` row. */
  class TaskProgress {
    var status: Status
    var attempts: int
    var bestScore: int
    var lastSubmittedAt: Option<Time>

    function State(): TaskState
      reads this
    {
      TaskState(status, attempts, bestScore, lastSubmittedAt)
    }

    /** The column defaults. */
    constructor ()
      ensures State() == NewTask
    {
      status := NotStarted;
      attempts := 0;
      bestScore := 0;
      lastSubmittedAt := None;
    }

    /** `mark_attempt(score, completed)`. */
    method MarkAttempt(score: int, completed: bool, now: Time)
      modifies this
      ensures State() == Attempted(old(State()), score, completed, now)
    {
      attempts := attempts + 1;
      lastSubmittedAt := Some(now);
      bestScore := Max(bestScore, score);
      if completed {
        status := Completed;
      } else if status == NotStarted {
        status := InProgress;
      }
    }
  }

  // ---------------------------------------------------------------------
  // mission progress
  // ---------------------------------------------------------------------

  /** The columns of a `Progress` row. */
  datatype ProgressState = ProgressState(
    completed: bool,
    status: Status,
    attempts: int,
    startedAt: Option<Time>,
    lastStartedAt: Option<Time>,
    completedAt: Option<Time>,
    xpEarned: int,
    stars: int)

  const NewProgress := ProgressState(false, NotStarted, 0, None, None, None, 0, 0)

  /** The row after `start()` at time `now`. */
  function Started(p: ProgressState, now: Time): (r: ProgressState)
    ensures r.attempts == p.attempts + 1
    ensures r.startedAt == if p.startedAt.None? then Some(now) else p.startedAt
    ensures r.lastStartedAt == Some(now)
    ensures r.status == if p.status == Completed then Completed else InProgress
    ensures r.completed == p.completed && r.completedAt == p.completedAt
    ensures r.xpEarned == p.xpEarned && r.stars == p.stars
  {
    p.(attempts := p.attempts + 1,
       startedAt := if p.startedAt.None? then Some(now) else p.startedAt,
       lastStartedAt := Some(now),
       status := if p.status == Completed then Completed else InProgress)
  }

  /** The row after `complete()` at time `now`: only the first call
      changes anything. */
  function Finished(p: ProgressState, now: Time): (r: ProgressState)
    ensures p.completed ==> r == p
    ensures r.completed && (!p.completed ==> r.status == Completed && r.completedAt == Some(now))
    ensures r.attempts == p.attempts && r.startedAt == p.startedAt && r.xpEarned == p.xpEarned
    ensures r.lastStartedAt == p.lastStartedAt && r.stars == p.stars
    ensures !p.completed ==> r == p.(completed := true, status := Completed, completedAt := Some(now))
  {
    if p.completed then p
    else p.(completed := true, status := Completed, completedAt := Some(now))
  }

  /** Completing twice is completing once: the first completion time is
      kept. */
  lemma FinishIsIdempotent(p: ProgressState, t1: Time, t2: Time)
    ensures Finished(Finished(p, t1), t2) == Finished(p, t1)
  {
  }

  /** The first start time survives every later start, and a completed
      mission that is started again stays completed (for a row whose
      `completed` flag and status agree, as `complete()` leaves them). */
  lemma RestartKeepsHistory(p: ProgressState, t1: Time, t2: Time)
    requires p.completed ==> p.status == Completed
    ensures Started(Started(p, t1), t2).startedAt == if p.startedAt.None? then Some(t1) else p.startedAt
    ensures Started(Finished(p, t1), t2).status == Completed
    ensures Started(Finished(p, t1), t2).completed
  {
  }

  /** A `Progress` row. */
  class Progress {
    var completed: bool
    var status: Status
    var attempts: int
    var startedAt: Option<Time>
    var lastStartedAt: Option<Time>
    var completedAt: Option<Time>
    var xpEarned: int
    var stars: int

    function State(): ProgressState
      reads this
    {
      ProgressState(completed, status, attempts, startedAt, lastStartedAt, completedAt, xpEarned, stars)
    }

    constructor ()
      ensures State() == NewProgress
    {
      completed := false;
      status := NotStarted;
      attempts := 0;
      startedAt := None;
      lastStartedAt := None;
      completedAt := None;
      xpEarned := 0;
      stars := 0;
    }

    /** `start()`. */
    method Start(now: Time)
      modifies this
      ensures State() == Started(old(State()), now)
    {
      attempts := attempts + 1;
      if startedAt.None? {
        startedAt := Some(now);
      }
      lastStartedAt := Some(now);
      if status != Completed {
        status := InProgress;
      }
    }

    /** `complete()`. */
    method Complete(now: Time)
      modifies this
      ensures State() == Finished(old(State()), now)
      ensures old(completed) ==> unchanged(this)
    {
      if !completed {
        completed := true;
        status := Completed;
        completedAt := Some(now);
      }
    }
  }

  /** The ids of the missions a user has completed, from the user's
      progress rows keyed by mission id. */
  function CompletedIds(rows: map<nat, ProgressState>): (ids: set<nat>)
    ensures forall id :: id in ids <==> id in rows && rows[id].completed
  {
    set id | id in rows && rows[id].completed
  }
}
