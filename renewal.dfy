/** The credential-renewal protocol of the response interceptor in
    frontend/lib/api.js, as a state machine over values.

    The interceptor is an async handler with one suspension point (the
    renewal POST). JavaScript runs each stretch between suspensions to
    completion, so the handler is cut into atomic events:
      - a call's response arrives with an error status (`OnError`),
      - the renewal POST answers with a new access token (`OnRenewed`),
      - the renewal POST fails (`OnRenewalFailed`),
    plus the two other writers of the token store in api.js, `login` and
    `logout`. A pending promise is the id of the call it belongs to; its
    settlement is appended to `log` when it is decided. The class `Api.Coordinator` holds the
    same state in fields and is proved to follow these functions step by step. */
module Renewal {
  import opened Wrappers
  import opened Auth

  /** One request configuration object (the interceptor's `original`); a
      retry re-sends the same object, so it keeps its id. */
  type CallId = nat

  const AuthorizationHeader: string := "Authorization"
  const BearerPrefix: string := "Bearer "
  const LoginPath: string := "/login"
  const RefreshPath: string := "/auth/jwt/refresh/"

  /** How the interceptor finally settles a call it handled. */
  datatype Outcome =
    | RejectedOriginal             // `Promise.reject(error)`: the caller sees the response's own error
    | Resent(authorization: string) // sent again via `api(original)`, going out with this `Authorization` value
    | RejectedRenewal              // rejected because the renewal POST failed

  datatype Verdict = Verdict(call: CallId, outcome: Outcome)

  /** What the handler does at once with an error response. */
  datatype Reaction =
    | Settled(outcome: Outcome)   // the call is settled immediately
    | Waiting                     // the call joined the queue of a renewal in flight
    | Renewing(refresh: string)   // a renewal POST carrying this refresh token was issued

  /** The answer of the renewal endpoint. */
  datatype RenewalReply = Renewed(access: Option<string>) | RenewalError(status: int)

  /** Everything the protocol reads or writes. `retried` is the set of calls
      whose `_retry` mark is set; `trigger` is the call whose handler awaits the
      renewal POST. The last three fields are observations only: POSTs to the
      renewal endpoint issued, renewals that have answered, and redirects
      to the login page. */
  datatype Coord = Coord(
    hasWindow: bool,
    storage: map<string, string>,
    isRefreshing: bool,
    queue: seq<CallId>,
    trigger: Option<CallId>,
    retried: set<CallId>,
    log: seq<Verdict>,
    refreshRequests: nat,
    renewalsDone: nat,
    redirects: nat)

  datatype Step = Step(next: Coord, reaction: Reaction)

  /** The state when the module is loaded: `isRefreshing = false`, `queue = []`. */
  function Initial(hasWindow: bool, storage: map<string, string>): Coord
  {
    Coord(hasWindow, storage, false, [], None, {}, [], 0, 0, 0)
  }

  // ---------------------------------------------------------------------
  // the request interceptor
  // ---------------------------------------------------------------------

  /** The request interceptor: `Authorization: Bearer <access>` is set
      exactly when a truthy access token is stored; otherwise the headers
      are passed on unchanged. No other header is touched. */
  function WithBearer(headers: map<string, string>, access: Option<string>): (r: map<string, string>)
    ensures Truthy(access) ==> AuthorizationHeader in r && r[AuthorizationHeader] == BearerPrefix + access.value
    ensures !Truthy(access) ==> r == headers
    ensures forall k :: k in headers && k != AuthorizationHeader ==> k in r && r[k] == headers[k]
    ensures forall k :: k in r ==> k in headers || k == AuthorizationHeader
  {
    if Truthy(access) then headers[AuthorizationHeader := BearerPrefix + access.value] else headers
  }

  /** The token can be read back from the header that carries it. */
  lemma BearerCarriesToken(headers: map<string, string>, access: string)
    requires access != ""
    ensures var h := WithBearer(headers, Some(access))[AuthorizationHeader];
            h[..|BearerPrefix|] == BearerPrefix && h[|BearerPrefix|..] == access
  {
  }

  /** `${token}` in a template literal: a token missing from the reply
      body prints as "undefined". */
  function TemplateText(v: Option<string>): string
  {
    if v.Some? then v.value else "undefined"
  }

  /** The `Authorization` value a re-sent call goes out with. The handler
      writes `Bearer <newAccess>` into the call's configuration, but
      `api(original)` runs the request interceptor on it again, and that
      overwrites the value with the stored access token whenever one can
      be read. */
  function ResentAuthorization(hasWindow: bool, storage: map<string, string>, newAccess: Option<string>)
    : (h: string)
    ensures Truthy(ReadTokens(hasWindow, storage).access)
            ==> h == BearerPrefix + ReadTokens(hasWindow, storage).access.value
    ensures !Truthy(ReadTokens(hasWindow, storage).access) ==> h == BearerPrefix + TemplateText(newAccess)
  {
    var written := map[AuthorizationHeader := BearerPrefix + TemplateText(newAccess)];
    WithBearer(written, ReadTokens(hasWindow, storage).access)[AuthorizationHeader]
  }

  /** The outcome of every call settled by a renewal that answered with
      `access`: re-sent, with the header the tokens stored by then give. */
  function RenewedOutcome(hasWindow: bool, storage: map<string, string>, access: Option<string>): Outcome
  {
    Resent(ResentAuthorization(hasWindow, WriteTokens(hasWindow, storage, access, None), access))
  }

  /** What the re-sent calls carry. In a browser a truthy new token is
      stored and carried; a reply without one leaves the old access token
      stored, and that old token is what the calls carry (a reply `{}`
      over stored tokens "A" and "R" re-sends with "Bearer A"). Without a
      browser nothing is stored, and the calls carry the reply's value as
      the handler wrote it. */
  lemma RenewedCallsCarryStoredToken(hasWindow: bool, storage: map<string, string>, access: Option<string>)
    ensures hasWindow && Truthy(access) ==> RenewedOutcome(hasWindow, storage, access) == Resent(BearerPrefix + access.value)
    ensures hasWindow && !Truthy(access) && Truthy(ReadTokens(hasWindow, storage).access)
            ==> RenewedOutcome(hasWindow, storage, access)
                == Resent(BearerPrefix + ReadTokens(hasWindow, storage).access.value)
    ensures hasWindow && !Truthy(access) && !Truthy(ReadTokens(hasWindow, storage).access)
            ==> RenewedOutcome(hasWindow, storage, access) == Resent(BearerPrefix + TemplateText(access))
    ensures !hasWindow ==> RenewedOutcome(hasWindow, storage, access) == Resent(BearerPrefix + TemplateText(access))
    ensures RenewedOutcome(true, map[AccessKey := "A", RefreshKey := "R"], None) == Resent(BearerPrefix + "A")
  {
    var stored := map[AccessKey := "A", RefreshKey := "R"];
    assert ReadTokens(true, WriteTokens(true, stored, None, None)).access == Some("A");
  }

  // ---------------------------------------------------------------------
  // the response interceptor, event by event
  // ---------------------------------------------------------------------

  /** Session termination: one redirect to the login page, in a browser only. */
  function Redirected(s: Coord): nat
  {
    if s.hasWindow then s.redirects + 1 else s.redirects
  }

  /** Only a 401 on a call not yet retried enters the renewal path. */
  predicate EntersRenewal(s: Coord, c: CallId, status: Option<int>)
  {
    status == Some(401) && c !in s.retried
  }

  /** An error response for call `c` (`status` None: no response at all). */
  function OnError(s: Coord, c: CallId, status: Option<int>): Step
  {
    if !EntersRenewal(s, c, status) then
      Step(s.(log := s.log + [Verdict(c, RejectedOriginal)]), Settled(RejectedOriginal))
    else
      var marked := s.(retried := s.retried + {c});
      var refresh := ReadTokens(s.hasWindow, s.storage).refresh;
      if !Truthy(refresh) then
        Step(marked.(storage := ClearedTokens(s.hasWindow, s.storage),
                     redirects := Redirected(s),
                     log := s.log + [Verdict(c, RejectedOriginal)]),
             Settled(RejectedOriginal))
      else if s.isRefreshing then
        Step(marked.(queue := s.queue + [c]), Waiting)
      else
        Step(marked.(isRefreshing := true, trigger := Some(c), refreshRequests := s.refreshRequests + 1),
             Renewing(refresh.value))
  }

  /** `n` settlements, one per call of `cs` in order, all with outcome `o`. */
  function Verdicts(cs: seq<CallId>, o: Outcome): (r: seq<Verdict>)
    ensures |r| == |cs|
    ensures forall i :: 0 <= i < |cs| ==> r[i] == Verdict(cs[i], o)
  {
    seq(|cs|, i requires 0 <= i < |cs| => Verdict(cs[i], o))
  }

  /** The renewal POST succeeded with `access` (possibly missing from the
      reply body): store it, resolve the queue in order with it, then
      settle the triggering call. Every one of them is re-sent. The log
      holds the order in which the calls are settled; the order in which
      the re-sent requests go out is another (see README). */
  function OnRenewed(s: Coord, access: Option<string>): Coord
    requires s.isRefreshing && s.trigger.Some?
  {
    var o := RenewedOutcome(s.hasWindow, s.storage, access);
    s.(storage := WriteTokens(s.hasWindow, s.storage, access, None),
       isRefreshing := false,
       queue := [],
       trigger := None,
       log := s.log + Verdicts(s.queue, o) + [Verdict(s.trigger.value, o)],
       renewalsDone := s.renewalsDone + 1)
  }

  /** The renewal POST failed: reject the queue in order, clear the tokens,
      redirect once, reject the triggering call. */
  function OnRenewalFailed(s: Coord): Coord
    requires s.isRefreshing && s.trigger.Some?
  {
    s.(storage := ClearedTokens(s.hasWindow, s.storage),
       isRefreshing := false,
       queue := [],
       trigger := None,
       log := s.log + Verdicts(s.queue, RejectedRenewal) + [Verdict(s.trigger.value, RejectedRenewal)],
       renewalsDone := s.renewalsDone + 1,
       redirects := Redirected(s))
  }

  /** The renewal endpoint answered (any non-2xx answer is a failure). */
  function OnReply(s: Coord, reply: RenewalReply): Coord
    requires s.isRefreshing && s.trigger.Some?
  {
    match reply
    case Renewed(access) => OnRenewed(s, access)
    case RenewalError(_) => OnRenewalFailed(s)
  }

  /** `login` after its create call succeeded: store both tokens. */
  function OnSignIn(s: Coord, access: Option<string>, refresh: Option<string>): Coord
  {
    s.(storage := WriteTokens(s.hasWindow, s.storage, access, refresh))
  }

  /** `logout`: clear the tokens and redirect. */
  function OnLogout(s: Coord): Coord
  {
    s.(storage := ClearedTokens(s.hasWindow, s.storage), redirects := Redirected(s))
  }

  /** The reference renewal endpoint (the development mock): 200 with a
      fixed access token when a refresh token is posted, 400 otherwise. */
  function MockRefreshEndpoint(refresh: Option<string>): (r: RenewalReply)
    ensures r.Renewed? <==> Truthy(refresh)
    ensures r.Renewed? ==> Truthy(r.access)
  {
    if Truthy(refresh) then Renewed(Some("demo-access-token-refreshed")) else RenewalError(400)
  }

  // ---------------------------------------------------------------------
  // the invariant
  // ---------------------------------------------------------------------

  predicate Distinct(xs: seq<CallId>)
  {
    forall i, j :: 0 <= i < j < |xs| ==> xs[i] != xs[j]
  }

  /** The calls waiting on the renewal in flight, the trigger last. */
  function Pending(s: Coord): seq<CallId>
  {
    s.queue + (if s.trigger.Some? then [s.trigger.value] else [])
  }

  /** The calls the log shows as re-sent, in order. */
  function ResentCalls(log: seq<Verdict>): seq<CallId>
  {
    if log == [] then []
    else (if log[0].outcome.Resent? then [log[0].call] else []) + ResentCalls(log[1..])
  }

  /** What every reachable state satisfies:
      - a trigger exists exactly while a renewal is in flight, and the queue
        is empty when none is;
      - single flight: at most one renewal POST is outstanding at any time;
      - every waiting call carries its `_retry` mark and waits once;
      - no call is ever re-sent twice, and a call that was re-sent is marked
        and no longer waiting. */
  ghost predicate Inv(s: Coord)
  {
    && (s.isRefreshing <==> s.trigger.Some?)
    && (!s.isRefreshing ==> s.queue == [])
    && s.refreshRequests == s.renewalsDone + (if s.isRefreshing then 1 else 0)
    && Distinct(Pending(s))
    && (forall c :: c in Pending(s) ==> c in s.retried)
    && Distinct(ResentCalls(s.log))
    && (forall c :: c in ResentCalls(s.log) ==> c in s.retried && c !in Pending(s))
  }

  lemma InitialInv(hasWindow: bool, storage: map<string, string>)
    ensures Inv(Initial(hasWindow, storage))
  {
  }

  lemma {:induction false} ResentCallsAppend(a: seq<Verdict>, b: seq<Verdict>)
    ensures ResentCalls(a + b) == ResentCalls(a) + ResentCalls(b)
    decreases |a|
  {
    if a != [] {
      assert (a + b)[0] == a[0];
      assert (a + b)[1..] == a[1..] + b;
      ResentCallsAppend(a[1..], b);
    } else {
      assert a + b == b;
    }
  }

  lemma {:induction false} ResentCallsOfVerdicts(cs: seq<CallId>, o: Outcome)
    ensures ResentCalls(Verdicts(cs, o)) == if o.Resent? then cs else []
    decreases |cs|
  {
    if cs != [] {
      assert Verdicts(cs, o)[1..] == Verdicts(cs[1..], o);
      ResentCallsOfVerdicts(cs[1..], o);
    }
  }

  lemma DistinctConcat(a: seq<CallId>, b: seq<CallId>)
    requires Distinct(a) && Distinct(b)
    requires forall x :: x in a ==> x !in b
    ensures Distinct(a + b)
  {
    forall i, j | 0 <= i < j < |a + b| ensures (a + b)[i] != (a + b)[j] {
      if j < |a| {
      } else if i >= |a| {
        assert (a + b)[i] == b[i - |a|] && (a + b)[j] == b[j - |a|];
      } else {
        assert (a + b)[i] == a[i] && (a + b)[j] == b[j - |a|];
        assert a[i] in a && b[j - |a|] in b;
      }
    }
  }

  lemma OnErrorPreservesInv(s: Coord, c: CallId, status: Option<int>)
    requires Inv(s)
    ensures Inv(OnError(s, c, status).next)
  {
    var n := OnError(s, c, status).next;
    if !EntersRenewal(s, c, status) || !Truthy(ReadTokens(s.hasWindow, s.storage).refresh) {
      ResentCallsAppend(s.log, [Verdict(c, RejectedOriginal)]);
      assert ResentCalls([Verdict(c, RejectedOriginal)]) == [];
      assert Pending(n) == Pending(s);
    } else if s.isRefreshing {
      var t := s.trigger.value;
      assert Pending(s) == s.queue + [t];
      assert Pending(n) == s.queue + [c] + [t];
      assert c !in Pending(s);
      forall i, j | 0 <= i < j < |Pending(n)| ensures Pending(n)[i] != Pending(n)[j] {
        if j == |s.queue| {
          assert Pending(n)[j] == c && Pending(n)[i] == Pending(s)[i];
          assert Pending(s)[i] in Pending(s);
        } else if i == |s.queue| {
          assert Pending(n)[i] == c && Pending(n)[j] == t == Pending(s)[|s.queue|];
          assert t in Pending(s);
        } else {
          var i' := if i < |s.queue| then i else i - 1;
          var j' := if j < |s.queue| then j else j - 1;
          assert Pending(n)[i] == Pending(s)[i'] && Pending(n)[j] == Pending(s)[j'];
        }
      }
    } else {
      assert Pending(n) == [c];
    }
  }

  lemma OnRenewedPreservesInv(s: Coord, access: Option<string>)
    requires Inv(s) && s.isRefreshing
    ensures Inv(OnRenewed(s, access))
  {
    var n := OnRenewed(s, access);
    var t := s.trigger.value;
    var o := RenewedOutcome(s.hasWindow, s.storage, access);
    var added := Verdicts(s.queue, o) + [Verdict(t, o)];
    assert n.log == s.log + added;
    ResentCallsAppend(s.log, added);
    ResentCallsAppend(Verdicts(s.queue, o), [Verdict(t, o)]);
    ResentCallsOfVerdicts(s.queue, o);
    assert ResentCalls([Verdict(t, o)]) == [t];
    assert ResentCalls(added) == Pending(s);
    DistinctConcat(ResentCalls(s.log), Pending(s));
    assert ResentCalls(n.log) == ResentCalls(s.log) + Pending(s);
  }

  lemma OnRenewalFailedPreservesInv(s: Coord)
    requires Inv(s) && s.isRefreshing
    ensures Inv(OnRenewalFailed(s))
  {
    var n := OnRenewalFailed(s);
    var t := s.trigger.value;
    var added := Verdicts(s.queue, RejectedRenewal) + [Verdict(t, RejectedRenewal)];
    assert n.log == s.log + added;
    ResentCallsAppend(s.log, added);
    ResentCallsAppend(Verdicts(s.queue, RejectedRenewal), [Verdict(t, RejectedRenewal)]);
    ResentCallsOfVerdicts(s.queue, RejectedRenewal);
    assert ResentCalls([Verdict(t, RejectedRenewal)]) == [];
    assert ResentCalls(n.log) == ResentCalls(s.log);
  }

  // ---------------------------------------------------------------------
  // properties of single events
  // ---------------------------------------------------------------------

  /** Anything but a first 401 is passed on with its own error: no renewal,
      no change to the tokens, the queue or the flag. */
  lemma OtherErrorsPassThrough(s: Coord, c: CallId, status: Option<int>)
    requires status != Some(401) || c in s.retried
    ensures var st := OnError(s, c, status);
            && st.reaction == Settled(RejectedOriginal)
            && st.next == s.(log := s.log + [Verdict(c, RejectedOriginal)])
  {
  }

  /** A 401 on a call not yet retried marks the call at once; with no
      refresh token stored the session ends right away — even while another
      renewal is in flight — and no renewal POST is issued. */
  lemma MissingRefreshTokenEndsSession(s: Coord, c: CallId)
    requires c !in s.retried
    requires !Truthy(ReadTokens(s.hasWindow, s.storage).refresh)
    ensures var st := OnError(s, c, Some(401));
            && st.reaction == Settled(RejectedOriginal)
            && c in st.next.retried
            && ReadTokens(s.hasWindow, st.next.storage) == Tokens(None, None)
            && st.next.redirects == Redirected(s)
            && st.next.refreshRequests == s.refreshRequests
            && st.next.queue == s.queue && st.next.isRefreshing == s.isRefreshing
  {
  }

  /** While a renewal is in flight, a further expired call only joins the
      queue: no second POST. */
  lemma ExpiryDuringRenewalQueues(s: Coord, c: CallId)
    requires s.isRefreshing && c !in s.retried
    requires Truthy(ReadTokens(s.hasWindow, s.storage).refresh)
    ensures var st := OnError(s, c, Some(401));
            && st.reaction == Waiting
            && st.next.queue == s.queue + [c]
            && st.next.refreshRequests == s.refreshRequests
            && st.next.storage == s.storage
            && st.next.log == s.log
  {
  }

  /** Every call settled by a renewal's end gets that renewal's one
      outcome, and the waiters are settled first, in the order they
      queued, the trigger last. */
  lemma RenewalSettlesAllAlike(s: Coord, reply: RenewalReply)
    requires s.isRefreshing && s.trigger.Some?
    ensures var n := OnReply(s, reply);
            var o := if reply.Renewed? then RenewedOutcome(s.hasWindow, s.storage, reply.access) else RejectedRenewal;
            && n.log[..|s.log|] == s.log
            && |n.log| == |s.log| + |Pending(s)|
            && (forall i :: 0 <= i < |Pending(s)| ==> n.log[|s.log| + i] == Verdict(Pending(s)[i], o))
            && n.queue == [] && !n.isRefreshing
  {
    var n := OnReply(s, reply);
    var o := if reply.Renewed? then RenewedOutcome(s.hasWindow, s.storage, reply.access) else RejectedRenewal;
    assert n.log == s.log + Verdicts(s.queue, o) + [Verdict(s.trigger.value, o)];
    forall i | 0 <= i < |Pending(s)| ensures n.log[|s.log| + i] == Verdict(Pending(s)[i], o) {
      if i < |s.queue| {
        assert n.log[|s.log| + i] == Verdicts(s.queue, o)[i];
      }
    }
  }

  /** A failed renewal ends the session once, however many calls waited. */
  lemma FailureRedirectsOnce(s: Coord)
    requires s.isRefreshing && s.trigger.Some?
    ensures OnRenewalFailed(s).redirects == s.redirects + (if s.hasWindow then 1 else 0)
    ensures ReadTokens(s.hasWindow, OnRenewalFailed(s).storage) == Tokens(None, None)
  {
  }

  // ---------------------------------------------------------------------
  // episodes
  // ---------------------------------------------------------------------

  /** A burst of 401 responses, one per call of `cs`, in order. */
  function ExpireAll(s: Coord, cs: seq<CallId>): Coord
    decreases |cs|
  {
    if cs == [] then s else ExpireAll(OnError(s, cs[0], Some(401)).next, cs[1..])
  }

  /** While a renewal is in flight, a burst of fresh expired calls just
      queues up behind it, in arrival order. */
  lemma {:induction false} BurstJoinsQueue(s: Coord, cs: seq<CallId>)
    requires s.isRefreshing
    requires Truthy(ReadTokens(s.hasWindow, s.storage).refresh)
    requires Distinct(cs)
    requires forall c :: c in cs ==> c !in s.retried
    ensures var n := ExpireAll(s, cs);
            n == s.(queue := s.queue + cs, retried := s.retried + set c | c in cs)
    decreases |cs|
  {
    if cs != [] {
      var s1 := OnError(s, cs[0], Some(401)).next;
      assert forall c :: c in cs[1..] ==> c in cs && c != cs[0];
      BurstJoinsQueue(s1, cs[1..]);
      assert s.queue + [cs[0]] + cs[1..] == s.queue + cs;
      assert s.retried + {cs[0]} + (set c | c in cs[1..]) == s.retried + set c | c in cs;
    }
  }

  /** One expiry episode, from the trigger's 401 to the renewal's answer. */
  function Episode(s: Coord, first: CallId, rest: seq<CallId>, reply: RenewalReply): Coord
    requires !s.isRefreshing
    requires first !in s.retried
    requires Truthy(ReadTokens(s.hasWindow, s.storage).refresh)
  {
    var inFlight := ExpireAll(OnError(s, first, Some(401)).next, rest);
    assert inFlight.isRefreshing && inFlight.trigger.Some? by { EpisodeOpens(s, first, rest); }
    OnReply(inFlight, reply)
  }

  lemma EpisodeOpens(s: Coord, first: CallId, rest: seq<CallId>)
    requires !s.isRefreshing
    requires first !in s.retried
    requires Truthy(ReadTokens(s.hasWindow, s.storage).refresh)
    ensures var inFlight := ExpireAll(OnError(s, first, Some(401)).next, rest);
            inFlight.isRefreshing && inFlight.trigger == Some(first)
  {
    ExpireAllKeepsFlight(OnError(s, first, Some(401)).next, rest);
  }

  lemma {:induction false} ExpireAllKeepsFlight(s: Coord, cs: seq<CallId>)
    requires s.isRefreshing
    ensures ExpireAll(s, cs).isRefreshing && ExpireAll(s, cs).trigger == s.trigger
    decreases |cs|
  {
    if cs != [] {
      ExpireAllKeepsFlight(OnError(s, cs[0], Some(401)).next, cs[1..]);
    }
  }

  /** The state an episode reaches just before the renewal answers: one
      POST issued with the stored refresh token, the trigger in flight, the
      other calls queued in arrival order, nothing settled yet. */
  lemma EpisodeInFlight(s: Coord, first: CallId, rest: seq<CallId>)
    requires !s.isRefreshing
    requires first !in s.retried && Distinct([first] + rest)
    requires forall c :: c in rest ==> c !in s.retried
    requires Truthy(ReadTokens(s.hasWindow, s.storage).refresh)
    ensures var n := ExpireAll(OnError(s, first, Some(401)).next, rest);
            && OnError(s, first, Some(401)).reaction == Renewing(ReadTokens(s.hasWindow, s.storage).refresh.value)
            && n.isRefreshing && n.trigger == Some(first) && n.queue == s.queue + rest
            && n.storage == s.storage && n.log == s.log && n.redirects == s.redirects
            && n.refreshRequests == s.refreshRequests + 1 && n.hasWindow == s.hasWindow
  {
    var s1 := OnError(s, first, Some(401)).next;
    assert forall c :: c in rest ==> c !in s1.retried by {
      forall c | c in rest ensures c !in s1.retried {
        var k :| 0 <= k < |rest| && rest[k] == c;
        assert ([first] + rest)[k + 1] == c && ([first] + rest)[0] == first;
      }
    }
    assert Distinct(rest) by {
      forall i, j | 0 <= i < j < |rest| ensures rest[i] != rest[j] {
        assert rest[i] == ([first] + rest)[i + 1] && rest[j] == ([first] + rest)[j + 1];
      }
    }
    BurstJoinsQueue(s1, rest);
  }

  /** Whatever the renewal answers, an episode ends in a state that again
      satisfies the invariant. */
  lemma EpisodeKeepsInv(s: Coord, first: CallId, rest: seq<CallId>, reply: RenewalReply)
    requires Inv(s) && !s.isRefreshing
    requires first !in s.retried
    requires Truthy(ReadTokens(s.hasWindow, s.storage).refresh)
    ensures Inv(Episode(s, first, rest, reply))
  {
    var s1 := OnError(s, first, Some(401)).next;
    var inFlight := ExpireAll(s1, rest);
    OnErrorPreservesInv(s, first, Some(401));
    BurstPreservesInv(s1, rest);
    EpisodeOpens(s, first, rest);
    match reply
    case Renewed(access) => OnRenewedPreservesInv(inFlight, access);
    case RenewalError(_) => OnRenewalFailedPreservesInv(inFlight);
  }

  /** Single flight, success: for any number of calls that hit expiry
      before the renewal answers, exactly one renewal POST is made; the new
      access token is stored while the refresh token is kept, and every
      one of the calls is settled by being re-sent once, all with the same
      header (in a browser, the new token when the reply has one) — the
      waiters settled in arrival order, then the trigger. */
  lemma SingleFlightSuccess(s: Coord, first: CallId, rest: seq<CallId>, access: Option<string>)
    requires !s.isRefreshing && s.queue == []
    requires first !in s.retried && Distinct([first] + rest)
    requires forall c :: c in rest ==> c !in s.retried
    requires Truthy(ReadTokens(s.hasWindow, s.storage).refresh)
    ensures var n := Episode(s, first, rest, Renewed(access));
            && OnError(s, first, Some(401)).reaction == Renewing(ReadTokens(s.hasWindow, s.storage).refresh.value)
            && n.refreshRequests == s.refreshRequests + 1
            && n.log == s.log + Verdicts(rest, RenewedOutcome(s.hasWindow, s.storage, access))
                              + [Verdict(first, RenewedOutcome(s.hasWindow, s.storage, access))]
            && (s.hasWindow && Truthy(access)
                ==> RenewedOutcome(s.hasWindow, s.storage, access) == Resent(BearerPrefix + access.value))
            && !n.isRefreshing && n.queue == [] && n.trigger.None?
            && ReadTokens(s.hasWindow, n.storage).refresh == ReadTokens(s.hasWindow, s.storage).refresh
            && (s.hasWindow && Truthy(access) ==> ReadTokens(s.hasWindow, n.storage).access == access)
            && n.redirects == s.redirects
  {
    var inFlight := ExpireAll(OnError(s, first, Some(401)).next, rest);
    EpisodeInFlight(s, first, rest);
    assert Episode(s, first, rest, Renewed(access)) == OnRenewed(inFlight, access);
    assert inFlight.queue == rest;
    SetAccessKeepsRefresh(s.hasWindow, s.storage, access);
    RenewedCallsCarryStoredToken(s.hasWindow, s.storage, access);
  }

  /** Single flight, failure: one renewal POST, every waiting call and the
      trigger rejected, the tokens cleared, and one redirect in all. */
  lemma SingleFlightFailure(s: Coord, first: CallId, rest: seq<CallId>, status: int)
    requires !s.isRefreshing && s.queue == []
    requires first !in s.retried && Distinct([first] + rest)
    requires forall c :: c in rest ==> c !in s.retried
    requires Truthy(ReadTokens(s.hasWindow, s.storage).refresh)
    ensures var n := Episode(s, first, rest, RenewalError(status));
            && n.refreshRequests == s.refreshRequests + 1
            && n.log == s.log + Verdicts(rest, RejectedRenewal) + [Verdict(first, RejectedRenewal)]
            && ReadTokens(s.hasWindow, n.storage) == Tokens(None, None)
            && n.redirects == s.redirects + (if s.hasWindow then 1 else 0)
            && !n.isRefreshing && n.queue == []
  {
    var inFlight := ExpireAll(OnError(s, first, Some(401)).next, rest);
    EpisodeInFlight(s, first, rest);
    assert Episode(s, first, rest, RenewalError(status)) == OnRenewalFailed(inFlight);
    assert inFlight.queue == rest;
  }

  lemma {:induction false} BurstPreservesInv(s: Coord, cs: seq<CallId>)
    requires Inv(s)
    ensures Inv(ExpireAll(s, cs))
    decreases |cs|
  {
    if cs != [] {
      OnErrorPreservesInv(s, cs[0], Some(401));
      BurstPreservesInv(OnError(s, cs[0], Some(401)).next, cs[1..]);
    }
  }

  /** Against the reference endpoint a renewal never fails: the POST always
      carries a truthy refresh token, so the episode ends with every call
      re-sent carrying the endpoint's token, in a browser or not. */
  lemma EpisodeAgainstMockEndpoint(s: Coord, first: CallId, rest: seq<CallId>)
    requires !s.isRefreshing && s.queue == []
    requires first !in s.retried && Distinct([first] + rest)
    requires forall c :: c in rest ==> c !in s.retried
    requires Truthy(ReadTokens(s.hasWindow, s.storage).refresh)
    ensures var sent := OnError(s, first, Some(401)).reaction.refresh;
            var n := Episode(s, first, rest, MockRefreshEndpoint(Some(sent)));
            && n.log == s.log + Verdicts(rest, Resent(BearerPrefix + "demo-access-token-refreshed"))
                              + [Verdict(first, Resent(BearerPrefix + "demo-access-token-refreshed"))]
            && n.redirects == s.redirects
  {
    SingleFlightSuccess(s, first, rest, Some("demo-access-token-refreshed"));
    RenewedCallsCarryStoredToken(s.hasWindow, s.storage, Some("demo-access-token-refreshed"));
  }
}
