/** frontend/lib/api.js: the request and response interceptors around the
    backend client, and two helpers that read response bodies.

    The interceptors share module-level state (`isRefreshing`, `queue`) and
    the token store; class `Coordinator` holds that state in fields and
    each method is one atomic stretch of the interceptor's code. Its
    contracts tie every step to the functions of module `Renewal`, where
    the single-flight properties are proved. */
module Api {
  import opened Wrappers
  import opened Auth
  import opened Renewal
  import opened JsValues

  class Coordinator {
    const store: TokenStore
    var isRefreshing: bool
    var queue: seq<CallId>
    /** The call whose handler is suspended on the renewal POST. */
    var trigger: Option<CallId>
    /** The calls whose configuration carries `_retry = true`. */
    var retried: set<CallId>
    /** Settlements of the promises returned by the handler, in order. */
    var settled: seq<Verdict>
    ghost var refreshRequests: nat
    ghost var renewalsDone: nat
    ghost var redirects: nat

    ghost function Abs(): Coord
      reads this, store
    {
      Coord(store.hasWindow, store.storage, isRefreshing, queue, trigger, retried, settled,
            refreshRequests, renewalsDone, redirects)
    }

    ghost predicate Valid()
      reads this, store
    {
      Inv(Abs())
    }

    constructor (store: TokenStore)
      ensures this.store == store
      ensures Valid() && Abs() == Initial(store.hasWindow, store.storage)
    {
      this.store := store;
      isRefreshing := false;
      queue := [];
      trigger := None;
      retried := {};
      settled := [];
      refreshRequests, renewalsDone, redirects := 0, 0, 0;
    }

    /** The request interceptor (api.js lines 12-16). */
    method AuthorizeRequest(headers: map<string, string>) returns (out: map<string, string>)
      ensures out == WithBearer(headers, ReadTokens(store.hasWindow, store.storage).access)
    {
      var tokens := store.GetTokens();
      out := headers;
      if tokens.access.Some? && tokens.access.value != "" {
        out := out[AuthorizationHeader := BearerPrefix + tokens.access.value];
      }
    }

    /** The response interceptor's error handler up to its `await`: an
        error response arrives for call `c`. */
    method OnResponseError(c: CallId, status: Option<int>) returns (reaction: Reaction)
      requires Valid()
      modifies this, store
      ensures Valid()
      ensures Abs() == OnError(old(Abs()), c, status).next
      ensures reaction == OnError(old(Abs()), c, status).reaction
    {
      ghost var before := Abs();
      OnErrorPreservesInv(before, c, status);
      if status == Some(401) && c !in retried {
        retried := retried + {c};
        var tokens := store.GetTokens();
        if !(tokens.refresh.Some? && tokens.refresh.value != "") {
          store.ClearTokens();
          if store.hasWindow {
            redirects := redirects + 1;
          }
          settled := settled + [Verdict(c, RejectedOriginal)];
          assert Abs() == OnError(before, c, status).next;
          return Settled(RejectedOriginal);
        }
        if isRefreshing {
          queue := queue + [c];
          assert Abs() == OnError(before, c, status).next;
          return Waiting;
        }
        isRefreshing := true;
        trigger := Some(c);
        refreshRequests := refreshRequests + 1;
        assert Abs() == OnError(before, c, status).next;
        return Renewing(tokens.refresh.value);
      }
      settled := settled + [Verdict(c, RejectedOriginal)];
      assert Abs() == OnError(before, c, status).next;
      return Settled(RejectedOriginal);
    }

    /** The renewal POST answered with `newAccess`: store it, resolve every
        waiter with it in queue order, empty the queue, re-send the
        triggering call, drop the flag. Each re-sent call passes through
        the request interceptor again, so it carries the header
        `AuthorizeRequest` makes of the one the handler wrote. */
    method OnRenewalSucceeded(newAccess: Option<string>)
      requires Valid() && isRefreshing
      modifies this, store
      ensures Valid()
      ensures Abs() == OnRenewed(old(Abs()), newAccess)
    {
      ghost var before := Abs();
      OnRenewedPreservesInv(before, newAccess);
      store.SetTokens(newAccess, None);
      var headers := AuthorizeRequest(map[AuthorizationHeader := BearerPrefix + TemplateText(newAccess)]);
      var o := Resent(headers[AuthorizationHeader]);
      var resolved := SettleQueue(queue, o);
      settled := settled + resolved + [Verdict(trigger.value, o)];
      queue := [];
      trigger := None;
      isRefreshing := false;
      renewalsDone := renewalsDone + 1;
      assert Abs() == OnRenewed(before, newAccess);
    }

    /** The renewal POST failed: reject every waiter in queue order, empty
        the queue, clear the tokens, redirect once, reject the triggering
        call, drop the flag. */
    method OnRenewalFailure()
      requires Valid() && isRefreshing
      modifies this, store
      ensures Valid()
      ensures Abs() == OnRenewalFailed(old(Abs()))
    {
      ghost var before := Abs();
      OnRenewalFailedPreservesInv(before);
      var rejected := SettleQueue(queue, RejectedRenewal);
      settled := settled + rejected;
      queue := [];
      store.ClearTokens();
      if store.hasWindow {
        redirects := redirects + 1;
      }
      settled := settled + [Verdict(trigger.value, RejectedRenewal)];
      trigger := None;
      isRefreshing := false;
      renewalsDone := renewalsDone + 1;
      assert Abs() == OnRenewalFailed(before);
    }

    /** `login`, once the create call has returned both tokens. */
    method SignIn(access: Option<string>, refresh: Option<string>)
      requires Valid()
      modifies store
      ensures Valid()
      ensures Abs() == OnSignIn(old(Abs()), access, refresh)
    {
      store.SetTokens(access, refresh);
    }

    /** `logout`. */
    method Logout()
      requires Valid()
      modifies this, store
      ensures Valid()
      ensures Abs() == OnLogout(old(Abs()))
    {
      store.ClearTokens();
      if store.hasWindow {
        redirects := redirects + 1;
      }
    }
  }

  /** `queue.forEach((p) => p.resolve(token))` and its `reject` twin: one
      settlement per waiter, all with the same outcome, in queue order. */
  method SettleQueue(queue: seq<CallId>, o: Outcome) returns (vs: seq<Verdict>)
    ensures vs == Verdicts(queue, o)
  {
    vs := [];
    var i := 0;
    while i < |queue|
      invariant 0 <= i <= |queue|
      invariant vs == Verdicts(queue[..i], o)
    {
      assert queue[..i + 1] == queue[..i] + [queue[i]];
      vs := vs + [Verdict(queue[i], o)];
      i := i + 1;
    }
    assert queue[..i] == queue;
  }

  // ---------------------------------------------------------------------
  // response-body helpers
  // ---------------------------------------------------------------------

  /** `unwrapList(data)`: a list body as it is, a paginated body's
      `results` list, and [] for anything else (including no body). */
  function UnwrapList(data: Option<Json>): (r: seq<Json>)
    ensures !Defined(data) ==> r == []
    ensures data.Some? && data.value.Arr? ==> r == data.value.items
    ensures data.Some? && data.value.Obj? && "results" in data.value.fields && data.value.fields["results"].Arr?
            ==> r == data.value.fields["results"].items
    ensures r != [] ==> (data.Some? && data.value.Arr? && r == data.value.items)
                        || (data.Some? && data.value.Obj? && "results" in data.value.fields
                            && data.value.fields["results"] == Arr(r))
  {
    if !Defined(data) then []
    else if data.value.Arr? then data.value.items
    else match Member(data.value, "results")
         case Some(Arr(items)) => items
         case _ => []
  }

  /** `missionStatus(mission)`: "completed" when the user's progress says
      so, else "available" when the mission is, else "locked". Reading a
      property of null throws a TypeError. */
  function MissionStatus(mission: Json): (r: Result<string, string>)
    ensures mission.Null? <==> r.Failure?
    ensures r.Success? ==> r.value in {"completed", "available", "locked"}
    ensures r == Success("completed") <==> !mission.Null? && ProgressCompleted(mission)
    ensures r == Success("available") <==>
            !mission.Null? && !ProgressCompleted(mission) && Defined(Member(mission, "available"))
  {
    if mission.Null? then Failure("TypeError")
    else if ProgressCompleted(mission) then Success("completed")
    else if Defined(Member(mission, "available")) then Success("available")
    else Success("locked")
  }

  /** `mission.user_progress?.completed` is truthy. */
  predicate ProgressCompleted(mission: Json)
  {
    match Member(mission, "user_progress")
    case None => false
    case Some(up) => !up.Null? && Defined(Member(up, "completed"))
  }
}
