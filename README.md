# Coding-adventure platform: credential renewal and game progression

This project models three parts of a small coding-adventure web application in Dafny.

- **Credential renewal on the client.** The browser keeps an access token and a refresh token in `localStorage`. An HTTP client sends the access token as a bearer header. A response interceptor reacts to a 401: it issues one renewal request, makes every other expired call wait for it, and re-sends each call at most once. When renewal is impossible it ends the session.
  - The interceptor's state is `isRefreshing`, the waiter queue and the `_retry` marks. It is the class `Api.Coordinator`, built over the token store `Auth.TokenStore`.
  - Each coordinator method is one atomic stretch of the asynchronous handler. Its contract ties the new state to a step function of module `Renewal`.
  - Module `Renewal` proves the protocol properties over those step functions:
    - an invariant preserved by every event;
    - at most one renewal request per expiry episode;
    - one outcome for every waiter, in arrival order;
    - at most one re-send per call;
    - one redirect per failed episode.
- **Game progression on the server.** This covers:
  - the localized text fallback chain;
  - rank titles;
  - task and mission progress transitions;
  - the XP and level rule;
  - the availability gates and XP award of the `start` and `complete` actions;
  - leaderboard filtering, ordering and paging;
  - the response-language resolver;
  - the availability and progress fields of the mission serializer;
  - the rule that a hero class can be chosen only once.

  `TaskProgress`, `Progress` and `Profile` update their fields in place, so each is a class whose methods are proved against functions on values.
- **Small frontend helpers.** These are:
  - dotted-key translation lookup and language switching;
  - headline templating;
  - `unwrapList` and `missionStatus`;
  - the mission-stepper lock rule;
  - the mock code runner's scoring and method guard.

Shared helpers are `Wrappers` (Option, Result), `Strings` (split/join, first-occurrence search and replace, ASCII lower-casing, Python `strip`) and `JsValues` (JSON values, JavaScript truthiness, property access).

Where the code and the written design of the renewal protocol disagree, the model follows the code:
- On a successful renewal, the waiters' promises are resolved first, in arrival order, and the triggering call is settled last. Every one of these calls is re-sent. The model's log records this settlement order.
- With no refresh token stored, the call is rejected with its own error and the queue is not touched. The design calls this a renewal failure.
- A renewal reply without an access token keeps the old stored access token, because `setTokens` skips falsy values. The calls are still re-sent. The handler writes `Bearer undefined` into each call, but the re-send runs the request interceptor again, which puts the old stored token back. So in a browser the calls go out with the old access token when one is stored.

The Cyrillic messages in `frontend/pages/api/runner/execute.js` are stored in that file with a broken encoding: UTF-8 bytes read as Mac Roman. The model uses the Russian text they encode.

## Model

| member | source | states |
|---|---|---|
| Auth.ReadTokens | frontend/lib/auth.js:4-10 | Outside a browser both tokens are null. In a browser each token is present exactly when its key is stored, with the stored value. |
| Auth.WriteTokens | frontend/lib/auth.js:12-16 | A token key is written only when its value is truthy. A missing or empty value keeps what was stored. No other key changes, and nothing changes outside a browser. |
| Auth.ClearedTokens | frontend/lib/auth.js:18-22 | In a browser both token keys are gone. Every other entry is kept. |
| Auth.SetThenGet | frontend/lib/auth.js:4-16 | Writing two non-empty tokens and reading them back gives the same pair. |
| Auth.SetAccessKeepsRefresh | frontend/lib/auth.js:12-16 | Storing only an access token leaves the refresh token as it was. |
| Auth.ClearIsIdempotent | frontend/lib/auth.js:18-22 | After clearing, reading gives two nulls. Clearing twice equals clearing once. |
| Auth.TokenStore.GetTokens | frontend/lib/auth.js:4-10 | Returns the stored pair as `ReadTokens` describes it. |
| Auth.TokenStore.SetTokens | frontend/lib/auth.js:12-16 | The new storage is `WriteTokens` of the old one. |
| Auth.TokenStore.ClearTokens | frontend/lib/auth.js:18-22 | The new storage is `ClearedTokens` of the old one. |
| Renewal.WithBearer | frontend/lib/api.js:12-16 | `Authorization: Bearer <access>` is set exactly when a truthy access token is stored. Otherwise the headers are unchanged. No other header is touched. |
| Renewal.BearerCarriesToken | frontend/lib/api.js:14 | The header is the bearer prefix followed by exactly the token. |
| Renewal.MockRefreshEndpoint | frontend/pages/api/auth/jwt/refresh.js:4-8 | The reference endpoint answers with a truthy access token exactly when a truthy refresh token is posted. Otherwise it refuses. |
| Renewal.InitialInv | frontend/lib/api.js:18-19 | The state at module load, with no renewal in flight and an empty queue, satisfies the protocol invariant. |
| Renewal.OnErrorPreservesInv | frontend/lib/api.js:23-47 | An error response keeps the invariant: single flight, a queue only while renewing, no call waiting twice, and no call re-sent twice. |
| Renewal.OnRenewedPreservesInv | frontend/lib/api.js:48-62 | A successful renewal keeps the invariant. |
| Renewal.OnRenewalFailedPreservesInv | frontend/lib/api.js:54-62 | A failed renewal keeps the invariant. |
| Renewal.OtherErrorsPassThrough | frontend/lib/api.js:64 | Any status but 401, a missing response, or a 401 on a call already retried is rejected with its own error. The tokens, the queue and the flag are unchanged, and no renewal starts. |
| Renewal.MissingRefreshTokenEndsSession | frontend/lib/api.js:26-32 | A first 401 with no refresh token marks the call, clears the tokens, redirects in a browser and rejects the call. No renewal request is issued, even when a renewal is in flight. |
| Renewal.ExpiryDuringRenewalQueues | frontend/lib/api.js:33-42 | While a renewal is in flight, a further expired call joins the end of the queue, and no second request is issued. |
| Renewal.ResentAuthorization | frontend/lib/api.js:12-16 | The header a re-sent call goes out with: the stored access token when one can be read, otherwise `Bearer` and the reply's value as the handler wrote it ("undefined" when missing). |
| Renewal.RenewedCallsCarryStoredToken | frontend/lib/api.js:12-16 | In a browser, a truthy new token is what re-sent calls carry. A reply without one makes them carry the old stored token: a reply `{}` over stored "A" and "R" re-sends with "Bearer A". Without a browser they carry the reply's value. |
| Renewal.RenewalSettlesAllAlike | frontend/lib/api.js:48-59 | When the renewal answers, the waiters are settled in queue order and then the trigger, all with the same outcome. The queue ends empty and the flag drops. |
| Renewal.FailureRedirectsOnce | frontend/lib/api.js:54-59 | A failed renewal redirects once however many calls waited, and leaves no token to read. |
| Renewal.BurstJoinsQueue | frontend/lib/api.js:33-42 | A burst of fresh expired calls during a renewal queues them in arrival order and marks each one. It issues no request. |
| Renewal.ExpireAllKeepsFlight | frontend/lib/api.js:33-42 | A burst of expiries never ends the renewal in flight or changes its trigger. |
| Renewal.EpisodeOpens | frontend/lib/api.js:43-47 | The first expired call of an episode starts a renewal and becomes its trigger, and the renewal stays in flight through any burst that follows. |
| Renewal.BurstPreservesInv | frontend/lib/api.js:33-42 | Any burst of 401 responses keeps the invariant. |
| Renewal.EpisodeInFlight | frontend/lib/api.js:25-47 | Before the renewal answers: one request issued with the stored refresh token, the first call in flight as trigger, the others queued in arrival order, tokens untouched and nothing settled. |
| Renewal.EpisodeKeepsInv | frontend/lib/api.js:21-66 | Whatever the renewal answers, an episode that starts in a state satisfying the invariant ends in one. |
| Renewal.SingleFlightSuccess | frontend/lib/api.js:21-66 | In a successful episode with any number of expired calls: one renewal request, sent with the stored refresh token; each call settled by being re-sent exactly once, all with the same header, waiters settled first in arrival order; in a browser a truthy new token is the header's token; the refresh token kept; the new access token stored; no redirect. |
| Renewal.SingleFlightFailure | frontend/lib/api.js:21-66 | In a failed episode: one renewal request; every waiter and the trigger rejected; tokens cleared; one redirect in all. |
| Renewal.EpisodeAgainstMockEndpoint | frontend/pages/api/auth/jwt/refresh.js:5-6 | Against the reference endpoint an episode never fails. Every call is re-sent carrying the endpoint's token, in a browser or not, and nothing redirects. |
| Api.Coordinator.constructor | frontend/lib/api.js:18-19 | Starts in the initial protocol state, which satisfies the invariant. |
| Api.Coordinator.AuthorizeRequest | frontend/lib/api.js:12-16 | Returns the headers that `WithBearer` gives for the stored access token. |
| Api.Coordinator.OnResponseError | frontend/lib/api.js:23-47 | The fields and the token store move exactly as the `OnError` step says. The reaction returned is that step's reaction: settled, waiting or renewing with the refresh token. The invariant is kept. |
| Api.Coordinator.OnRenewalSucceeded | frontend/lib/api.js:48-62 | The waiters are resolved in queue order, each re-send's header comes from the request interceptor, and the state is exactly the `OnRenewed` step. The invariant is kept. |
| Api.Coordinator.OnRenewalFailure | frontend/lib/api.js:54-62 | The waiters are rejected in queue order, and the state is exactly the `OnRenewalFailed` step. The invariant is kept. |
| Api.Coordinator.SignIn | frontend/lib/api.js:76-77 | Stores the tokens the sign-in returned, with the invariant kept. |
| Api.Coordinator.Logout | frontend/lib/api.js:81-84 | Clears the tokens and redirects once in a browser, with the invariant kept. |
| Api.SettleQueue | frontend/lib/api.js:50 | Its loop gives one settlement per waiter, in queue order, all with the same outcome. |
| Api.UnwrapList | frontend/lib/api.js:100-105 | A falsy body gives []. An array gives itself. An object whose `results` is an array gives that array. A non-empty result always comes from one of those two. |
| Api.MissionStatus | frontend/lib/api.js:199-205 | "completed" exactly when `user_progress.completed` is truthy. Otherwise "available" exactly when `available` is truthy, else "locked". A null mission throws. |
| Strings.Split | frontend/lib/i18n.js:813-814 | The parts contain no separator and join back to the input. |
| Strings.SplitJoin | frontend/lib/i18n.js:813-814 | Splitting a join of separator-free parts gives the parts back. |
| Strings.ReplaceFirst | frontend/lib/i18n.js:879 | Without an occurrence the text is unchanged. Otherwise only the first occurrence is replaced. |
| Strings.PyStrip | backend/game/serializers.py:27 | The result is a slice of the input with no white space at either end. It is empty exactly when the input is all white space. |
| I18n.WalkAppend | frontend/lib/i18n.js:813-815 | Walking a path in two pieces equals walking it whole. |
| I18n.WalkFromNothing | frontend/lib/i18n.js:815 | Once the lookup is undefined it stays undefined. |
| I18n.MissingSegmentIsFinal | frontend/lib/i18n.js:812-816 | If any prefix of the key's segments is missing, the translation is undefined. |
| I18n.DottedKeyIsPath | frontend/lib/i18n.js:812-816 | Translating the dotted join of dot-free segments walks exactly those segments. |
| I18n.T | frontend/lib/i18n.js:821 | A missing or falsy lookup gives the key itself. Otherwise it gives the value found. A non-empty key never yields a falsy text. |
| I18n.LanguageState.Translator | frontend/lib/i18n.js:853 | `t` over the active dictionary. A non-empty key always yields a truthy text. |
| I18n.ActiveDictionary | frontend/lib/i18n.js:849 | A known language with a truthy dictionary uses its own dictionary. An unknown language uses the "ru" dictionary. |
| I18n.StoredLanguage | frontend/lib/i18n.js:802-805 | The stored non-empty language in a browser. Otherwise "ru". Never empty. |
| I18n.Persisted | frontend/lib/i18n.js:807-810 | In a browser the language key holds the value. Outside a browser nothing changes. No other key changes. |
| I18n.SafeLanguage | frontend/lib/i18n.js:835 | Always a language with a dictionary. A language with a truthy dictionary is kept. An unknown one becomes "ru". |
| I18n.Toggled | frontend/lib/i18n.js:842 | "ru" becomes "en", and anything else becomes "ru". |
| I18n.ToggleTwice | frontend/lib/i18n.js:840-846 | Toggling twice from "ru" gives "ru". From anything else it gives "en". |
| I18n.LanguageState.constructor | frontend/lib/i18n.js:828 | Starts in "ru" with the given dictionaries and storage. |
| I18n.LanguageState.LoadStored | frontend/lib/i18n.js:830-832 | The language becomes the stored one, and the storage is unchanged. |
| I18n.LanguageState.ChangeLanguage | frontend/lib/i18n.js:834-838 | The language becomes the safe value, and that same value is persisted. |
| I18n.LanguageState.ToggleLanguage | frontend/lib/i18n.js:840-846 | The language is toggled, and the new value is persisted. |
| I18n.StoredLanguageHasDictionary | frontend/lib/i18n.js:849 | Whatever is stored, the active dictionary is one of the dictionaries. |
| I18n.FormatHeadline | frontend/lib/i18n.js:877-880 | A falsy template gives "". A template without the placeholder is returned unchanged. |
| I18n.HeadlineFillsFirstOnly | frontend/lib/i18n.js:879 | Only the first `{{class}}` is replaced. A later placeholder stays in the text. |
| GameModels.NormalizeLang | backend/game/models.py:34-36 | Always "ru" or "en". It is "en" exactly when the lower-cased language is "en". |
| GameModels.KnownLanguageIsNormal | backend/game/models.py:34-36 | "ru" and "en" normalize to themselves. |
| GameModels.LocalizedValue | backend/game/models.py:33-44 | The result is one of the three fields. It has text exactly when some field has. The requested translation wins if non-blank, then the base field, then the other translation. |
| GameModels.SingleTranslationServesBoth | backend/game/models.py:37-44 | With only an English text, every language reads it. |
| GameModels.UnknownLanguageReadsRussian | backend/game/models.py:34-36 | Any language but "en", and no language at all, reads like "ru". |
| GameModels.RankTitleAsWritten | backend/game/models.py:274-278 | The rank title in the normalized language, with no fallback. |
| GameModels.RankTitleAsWrittenLosesFallback | backend/game/models.py:278 | A rank with a Russian title and an empty English title shows "" in English. |
| GameModels.RankTitle | backend/game/models.py:274-278 | The title in the normalized language when it is non-empty, else the other title. It is empty only when both are. |
| GameModels.RankTitleAgreesWhenFilled | backend/game/models.py:274-278 | With both titles filled, the corrected title equals the title as written. |
| GameModels.RankDescription | backend/game/models.py:280-284 | The description in the normalized language. |
| GameModels.StatusAfterAttempt | backend/game/models.py:248-251 | An attempt leaves the status completed exactly when it completes or the status was already completed. A status is never reset to not started, and other statuses are kept. |
| GameModels.Attempted | backend/game/models.py:243-252 | Attempts go up by one. The best score is the larger of the old best and the score. The submission time is recorded. |
| GameModels.AttemptsAccumulate | backend/game/models.py:245-251 | After any sequence of attempts: attempts grow by the count; the best score bounds every score and never drops; a completed task stays completed, and any completing attempt completes it. |
| GameModels.TaskProgress.constructor | backend/game/models.py:234-237 | A new task row is not started, with no attempts and best score 0. |
| GameModels.TaskProgress.MarkAttempt | backend/game/models.py:243-252 | The row becomes `Attempted` of the old row. |
| GameModels.Started | backend/game/models.py:349-358 | Attempts go up by one. The first start time is set once. The last start time is always set. The status becomes in progress unless completed. Nothing else changes. |
| GameModels.Finished | backend/game/models.py:360-366 | A completed row is unchanged. Otherwise the row becomes completed, with status completed and the completion time, and every other column is kept: counters, start times, XP and stars. |
| GameModels.FinishIsIdempotent | backend/game/models.py:360-366 | Completing twice equals completing once. |
| GameModels.RestartKeepsHistory | backend/game/models.py:349-366 | A restart keeps the first start time. Starting a completed mission keeps it completed. |
| GameModels.Progress.constructor | backend/game/models.py:327-344 | A new row is not completed and not started, with zero counters and no times. |
| GameModels.Progress.Start | backend/game/models.py:349-358 | The row becomes `Started` of the old row. |
| GameModels.Progress.Complete | backend/game/models.py:360-366 | The row becomes `Finished` of the old row. An already completed row is left untouched. |
| GameModels.CompletedIds | backend/game/views.py:106-110 | The ids of exactly the rows marked completed. |
| UserModels.WithXp | backend/users/models.py:33-40 | XP grows by exactly the amount. The level never drops and becomes xp // 100 + 1 when that is higher. |
| UserModels.LevelForMonotone | backend/users/models.py:37 | More XP never gives a lower level. |
| UserModels.GainKeepsConsistent | backend/users/models.py:33-40 | A non-negative gain keeps the level equal to the one the XP earns. |
| UserModels.GainsCompose | backend/users/models.py:33-40 | Adding a, then a non-negative b, equals adding a + b. |
| UserModels.HundredXpIsLevelTwo | backend/game/tests/test_missions_api.py:60-65 | From xp 0 and level 1, adding 100 gives xp 100 and level 2. |
| UserModels.Profile.constructor | backend/users/models.py:21-22 | A new profile has xp 0, level 1 and no class. |
| UserModels.Profile.AddXp | backend/users/models.py:33-40 | The profile becomes `WithXp` of the old one, and the class is unchanged. |
| GameViews.Missing | backend/game/views.py:111-113 | Exactly the prerequisites not completed. |
| GameViews.Gate | backend/game/views.py:101-115 | The action passes exactly when the mission is active, the level reaches the minimum and every prerequisite is completed. Inactive gives 400 first, then a low level gives 403, then a missing prerequisite gives 403 with "Prerequisites not completed". |
| GameViews.XpGain | backend/game/views.py:166-174 | The first completion gives the full reward. A repeat of a non-repeatable mission gives 0. A repeat of a repeatable one gives max(0, reward * rate // 100), rounded down. |
| GameViews.RepeatNeverExceedsFirst | backend/game/views.py:170-174 | With a rate up to 100, a repeat never earns more than the first completion. |
| GameViews.TwentyPercentOfFifty | backend/game/tests/test_missions_api.py:106-114 | A repeatable mission of 50 XP at 20% earns 10 on repeat. |
| GameViews.ClampStars | backend/game/views.py:181 | Stars are clamped into 0..3. |
| GameViews.Credited | backend/game/views.py:185-186 | XP is added to the profile only when the gain is positive. |
| GameViews.StartMission | backend/game/views.py:96-119 | Refused exactly when a gate refuses, with that refusal. Otherwise the row is started. |
| GameViews.CompleteMission | backend/game/views.py:143-196 | Refused exactly when a gate refuses. Otherwise: `xp_added` is the gain decided on the old row; the row is `Finished` of the old row with `xp_earned` grown by the gain and stars set to the clamped request value (0 when absent); the profile figures are the credited profile. |
| GameViews.NonRepeatableRewardsOnce | backend/game/views.py:165-169 | Completing a non-repeatable mission again earns 0 and leaves the profile and `xp_earned` as they were. |
| GameViews.CompletionKeepsLevel | backend/game/views.py:184-186 | A completion never lowers the level, and it keeps a consistent profile consistent. |
| GameViews.Start | backend/game/views.py:96-119 | Returns `StartMission`. A refusal leaves the row untouched, and success stores the started row. |
| GameViews.Complete | backend/game/views.py:143-196 | Returns `CompleteMission`. A refusal leaves row and profile untouched. Success stores the reply's row and profile figures and keeps the class. |
| GameViews.Filter | backend/game/views.py:262-273 | Every matching row with all its copies, and nothing else. Track and scope filter only when given. The period defaults to "all_time". |
| GameViews.Insert | backend/game/views.py:274 | Inserting into a ranking keeps it sorted and is a permutation of the rows plus the new one. |
| GameViews.SortEntries | backend/game/views.py:274 | Sorted by position, then by descending XP, and a permutation of the input. |
| GameViews.Leaderboard | backend/game/views.py:261-274 | At most 200 rows, in ranking order, each one a matching row. |
| GameViews.CutKeepsTop | backend/game/views.py:274 | Cutting a ranking leaves off only rows that rank after every row kept. |
| GameViews.LeaderboardIsTopOfRanking | backend/game/views.py:261-274 | With at most 200 matches the page holds all of them. Otherwise it holds exactly 200, and every match left off ranks after every row on the page. |
| GameSerializers.Preferred | backend/game/serializers.py:22-26 | The query parameter if given, else the header if given, else the default. |
| GameSerializers.LanguageTag | backend/game/serializers.py:27 | The tag holds no ",", no "-" and no upper-case letter. |
| GameSerializers.TagIsPrimarySubtag | backend/game/serializers.py:27 | For any first item with no "-" or ",", followed by the end, a region or further languages, the tag is that item stripped and lower-cased; what follows is never read. |
| GameSerializers.TagOfTagIsItself | backend/game/serializers.py:27 | A lower-case tag with no separators and no surrounding white space reads as itself. |
| GameSerializers.ResolveLanguage | backend/game/serializers.py:18-28 | No request gives the default. Otherwise the tag when it is "ru" or "en", else the default. |
| GameSerializers.QueryParameterWins | backend/game/serializers.py:22-26 | When the query parameter is given, the header does not matter. |
| GameSerializers.RegionAndListIgnored | backend/game/serializers.py:27-28 | "en" followed by a region or further languages resolves to "en". |
| GameSerializers.LocalizedFields | backend/game/serializers.py:43-48 | The entries written: `language` always; `title` and `description` exactly when the instance has them, with the texts in that language. |
| GameSerializers.ToRepresentation | backend/game/serializers.py:40-49 | `language` holds the resolved language. `title` and `description` hold the localized texts where the instance has them. Every other key is kept as it was. |
| GameSerializers.RepresentationSpeaksItsLanguage | backend/game/serializers.py:40-49 | With both translations filled, the title shown is the one in the language the representation reports. |
| GameSerializers.GetAvailable | backend/game/serializers.py:115-134 | Its loop over the prerequisites returns exactly `IsAvailable`: the mission is active and, for a signed-in user, the level is reached and every prerequisite is completed. |
| GameSerializers.AvailabilityMatchesGate | backend/game/serializers.py:115-134 | For a signed-in user with a profile, a mission shows as available exactly when `start` and `complete` pass their gates. |
| GameSerializers.AnonymousSeesActive | backend/game/serializers.py:118-120 | An anonymous visitor sees a mission as available exactly when it is active. |
| GameSerializers.GetUserProgress | backend/game/serializers.py:136-159 | Nothing for an anonymous visitor. The user's row when there is one. Otherwise not completed, not started, zero counters and no time. |
| GameSerializers.MissingRowReadsAsFresh | backend/game/serializers.py:151-158 | The stand-in summary equals the summary of a freshly created row. |
| UserSerializers.ValidateClassRole | backend/users/serializers.py:24-32 | With no class chosen any value, null included, is accepted unchanged. With a class chosen, exactly the same class is accepted, and anything else is refused with the once-only message. |
| UserSerializers.ChoiceIsFinal | backend/users/serializers.py:27-31 | Once a class is chosen it can be neither replaced nor reset to null. |
| MissionStepper.Kept | frontend/components/MissionStepper.jsx:3 | Exactly the non-empty class names given, none empty; order and repeats are stated by `KeptAppend` and `KeptOne`. |
| MissionStepper.KeptAppend | frontend/components/MissionStepper.jsx:3 | Filtering a concatenation filters each part in turn, so order and repeats are kept. |
| MissionStepper.KeptOne | frontend/components/MissionStepper.jsx:3 | A single argument is kept exactly when it is a non-empty string. |
| MissionStepper.CxSplitsBack | frontend/components/MissionStepper.jsx:3 | For any arguments, including multi-class strings with spaces, the attribute's space-separated class tokens are the tokens of the kept arguments, in argument order. With nothing kept the attribute is empty. |
| MissionStepper.Steps | frontend/components/MissionStepper.jsx:20-32 | No tasks render nothing. Otherwise there is one step per task, in order. A step is locked exactly when its task is required, not first, and the previous task has no status. It is completed exactly when its status is "completed". |
| MissionStepper.FirstAndOptionalOpen | frontend/components/MissionStepper.jsx:32 | The first task and optional tasks are never locked. |
| MissionStepper.ProgressUnlocksNext | frontend/components/MissionStepper.jsx:32 | Recording any status on a task unlocks the next one. |
| MissionStepper.CompletedNeverBlocks | frontend/components/MissionStepper.jsx:30-32 | A completed task never locks the next one. |
| MissionStepper.Click | frontend/components/MissionStepper.jsx:36 | `onSelect` receives the step's id exactly when the step is unlocked and a handler exists. |
| MissionStepper.LockedStepIgnoresClicks | frontend/components/MissionStepper.jsx:32-36 | Clicking a locked step never selects anything. |
| Runner.SummarizeTests | frontend/pages/api/runner/execute.js:3-41 | Success holds exactly when the lower-cased code contains the lower-cased snippet, "return" by default. The score is 100 or 45. Stderr is empty exactly on success, and otherwise names the snippet not found. Stdout is the challenge's sample output on success, or the all-passed message when it has none, and empty otherwise. There are three tests in order: Syntax passes exactly for non-blank code, Snippet passes exactly on success, and Greeting is a warning, never a failure. |
| Runner.SnippetInCodePasses | frontend/pages/api/runner/execute.js:4-5 | Code that contains the expected snippet succeeds. |
| Runner.EmptyCodeFails | frontend/pages/api/runner/execute.js:11 | Empty code fails the syntax test and the run. |
| Runner.Handle | frontend/pages/api/runner/execute.js:43-51 | Any method but POST is refused with "Method not allowed". A POST's result is `SummarizeTests` of the submitted code and challenge, "" and `{}` when missing. The language is the submitted one, "python" when missing. |
| Runner.EmptyPostFails | frontend/pages/api/runner/execute.js:43-49 | A POST without a body runs empty Python code against "return": it fails with score 45 and the empty-input syntax verdict. |
| Runner.Status | frontend/pages/api/runner/execute.js:44-46 | 405 exactly for the refusal. |

## Left out

- HTTP transport, axios and promise scheduling are not modelled. Each stretch of the interceptor between suspensions is one atomic event, and a promise is the id of its call.
- Renewal.OnRenewed: the log holds the order in which calls are settled, not the order in which re-sent requests go out. The trigger's `api(original)` is issued in the handler's own stretch, so it is re-sent first. Each waiter's re-send runs later, in its `.then` callback.
- Renewal.ResentAuthorization: the stored tokens are read when the renewal answers. A token write between that moment and a waiter's later re-send is not modelled. A reply whose `access` is `null` is treated like a missing one, so `Bearer null` is not modelled.
- The rejection value a waiter receives is not modelled. `.catch(Promise.reject)` calls `Promise.reject` unbound, so that value is a TypeError. The model records only that the waiter is rejected.
- The renewal reply is an input to the model, not a network call. The development mock endpoint is modelled as a reference oracle.
- `window.location` redirects are a ghost counter. `localStorage` is a map of strings, and the server-side `typeof window` case is a flag.
- `login` is modelled only after its create call, as the token write. The request payload it builds is not modelled.
- The Django ORM, querysets, `get_or_create`, `save`, permissions, transactions and serializer field machinery are not modelled. Rows are values and classes, and queries are filters over sequences and maps.
- `timezone.now()` and `Date.now()` are `Time` parameters.
- The `int(...)` parse of the `stars` request field is not modelled: stars arrive as an optional integer. A parse failure is therefore not modelled.
- `MissionSerializer.get_prerequisites` is not modelled. It only lists related ids, and the availability rule already uses them.
- GameModels.NormalizeLang: only ASCII letters are lower-cased. That is exact for comparing with "ru" and "en", but other Unicode case mapping is not modelled.
- GameSerializers.LanguageTag: only ASCII letters are lower-cased; `strip` removes the characters Python's `str.isspace` accepts.
- Runner.SummarizeTests: the `/print\(.*hello/i` greeting test is the parameter `printsHello`. Lower-casing is ASCII only.
- The 650 ms `sleep` and the `timestamp` field of the runner reply are not modelled. Non-string `code` or `language` fields are not modelled either.
- `String.prototype.replace` special `$` patterns in the player class are not modelled. The class text is inserted verbatim.
- JavaScript property lookup through the prototype chain (such as `dictionaries["toString"]`) is not modelled. Only own keys are looked up.
- React rendering, icons, labels and presentational class names are not modelled. Only the data each step shows is modelled.

## Findings

| source | as written | input that shows it | evidently intended | confidence | as-written member | corrected member |
|---|---|---|---|---|---|---|
| backend/game/models.py:278 | `getattr(self, f"title_{lang}", self.title_ru or self.title_en)` always finds the attribute, so the intended default is never used. An empty title in the requested language is returned as "". | A rank with `title_ru` "Новичок" and an empty `title_en`, asked for "en", gives "". | Fall back to the other language's title when the requested one is empty. | low, not executed | GameModels.RankTitleAsWritten (witness GameModels.RankTitleAsWrittenLosesFallback) | GameModels.RankTitle |
