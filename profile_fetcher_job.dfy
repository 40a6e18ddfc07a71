/**
 * `ProfileFetcherJob`: fetches each recipient's profile, at most once per
 * throttle window, retries transport failures a bounded number of times, and
 * reconciles the fetched identity key with the trusted one.
 *
 * The dispatch hops of the app are sequential calls here; the clock and the
 * network's answers are given as an environment `env`, whose k-th entry is
 * what the k-th call of a retry chain observes.
 */
module ProfileFetcher {
  import opened Basics
  import ServiceProfile
  import opened IdentityStore

  /** The network's answer to one profile request: the response object, or a failure with an optional error. */
  datatype Outcome = Succeeded(response: ServiceProfile.Payload) | Failed(error: Option<string>)

  /** What one call of `getProfile` observes: the clock (milliseconds) and the answer its request would get. */
  datatype Attempt = Attempt(now: int, outcome: Outcome)

  /** Observable state: the throttle map, the requests issued in order, and the identity store. */
  datatype FetchState = FetchState(fetchDates: map<string, int>, requests: seq<string>, store: StoreState)

  /** Default value of `remainingRetries`. */
  const DefaultRetries: int := 3

  /** Five minutes, the production throttle window, in milliseconds. */
  const ProductionThrottleMillis: nat := 300_000

  /** `kGetProfileMaxFrequencySeconds`: no throttling in debug builds. */
  function ThrottleWindow(debugBuild: bool): nat {
    if debugBuild then 0 else ProductionThrottleMillis
  }

  /** `fabs(lastDate.timeIntervalSinceNow)`: time since the last attempt, whichever way the clock moved. */
  function Elapsed(last: int, now: int): nat {
    if now >= last then now - last else last - now
  }

  /** A call is skipped when the recipient was attempted no longer than `window` ago. */
  predicate IsThrottled(fetchDates: map<string, int>, recipientId: string, now: int, window: nat) {
    recipientId in fetchDates && !(Elapsed(fetchDates[recipientId], now) > window)
  }

  /** Largest number of requests a call chain starting with `remainingRetries` can issue. */
  function MaxRequests(remainingRetries: int): nat {
    if remainingRetries > 1 then remainingRetries else 1
  }

  /**
   * `verifyIdentityUpToDateAsync`: on first use (no trusted key) nothing
   * happens; otherwise the key is saved, and sessions are archived when the
   * save reports a change.
   */
  function Reconcile(s: StoreState, recipientId: string, latestKey: seq<byte>): StoreState {
    if recipientId !in s.identityKeys then s
    else
      var saved := AfterSave(s, latestKey, recipientId);
      if SaveReportsChange(s, latestKey, recipientId) then AfterArchive(saved, recipientId) else saved
  }

  /**
   * `getProfile(recipientId:remainingRetries:)` with every retry it schedules,
   * the k-th call observing env(k).
   */
  function GetProfileSpec(st: FetchState, window: nat, recipientId: string, remainingRetries: int,
                          env: nat -> Attempt, k: nat): FetchState
    decreases if remainingRetries > 0 then remainingRetries else 0
  {
    var a := env(k);
    if IsThrottled(st.fetchDates, recipientId, a.now, window) then st
    else
      var issued := st.(fetchDates := st.fetchDates[recipientId := a.now], requests := st.requests + [recipientId]);
      match a.outcome
      case Succeeded(response) =>
        (match ServiceProfile.Decode(recipientId, response)
         case Failure(_) => issued
         case Success(profile) => issued.(store := Reconcile(issued.store, profile.recipientId, profile.identityKey)))
      case Failed(None) => issued
      case Failed(Some(_)) =>
        if remainingRetries > 1 then GetProfileSpec(issued, window, recipientId, remainingRetries - 1, env, k + 1)
        else issued
  }

  /** `run`: `getProfile` with the default retries for the first n recipients of the thread, in order. */
  function RunPrefix(st: FetchState, window: nat, recipientIds: seq<string>, env: nat -> nat -> Attempt, n: nat): FetchState
    requires n <= |recipientIds|
  {
    if n == 0 then st
    else GetProfileSpec(RunPrefix(st, window, recipientIds, env, n - 1), window, recipientIds[n - 1], DefaultRetries, env(n - 1), 0)
  }

  // ---------------------------------------------------------------------------
  // The objects

  /** The process-wide `fetchDateMap`, shared by every job. */
  class FetchDateMap {
    var dates: map<string, int>

    constructor ()
      ensures dates == map[]
    {
      dates := map[];
    }
  }

  /** The network collaborator: records each request it is asked to send and hands back the environment's answer. */
  class NetworkManager {
    var sent: seq<string>

    constructor ()
      ensures sent == []
    {
      sent := [];
    }

    method MakeRequest(recipientId: string, answer: Outcome) returns (outcome: Outcome)
      modifies this
      ensures sent == old(sent) + [recipientId]
      ensures outcome == answer
    {
      sent := sent + [recipientId];
      outcome := answer;
    }
  }

  class ProfileFetcherJob {
    /** `thread.recipientIdentifiers`. */
    const recipientIds: seq<string>
    const fetchDateMap: FetchDateMap
    const networkManager: NetworkManager
    const storageManager: Store
    /** `_isDebugAssertConfiguration()`. */
    const debugBuild: bool

    function State(): FetchState
      reads fetchDateMap, networkManager, storageManager
    {
      FetchState(fetchDateMap.dates, networkManager.sent, storageManager.State())
    }

    constructor (recipientIds: seq<string>, fetchDateMap: FetchDateMap, networkManager: NetworkManager,
                 storageManager: Store, debugBuild: bool)
      ensures this.recipientIds == recipientIds && this.fetchDateMap == fetchDateMap
      ensures this.networkManager == networkManager && this.storageManager == storageManager
      ensures this.debugBuild == debugBuild
    {
      this.recipientIds := recipientIds;
      this.fetchDateMap := fetchDateMap;
      this.networkManager := networkManager;
      this.storageManager := storageManager;
      this.debugBuild := debugBuild;
    }

    /** `run()`: fetches every recipient of the thread, in order; env(i) is what the i-th recipient's chain observes. */
    method Run(env: nat -> nat -> Attempt)
      modifies fetchDateMap, networkManager, storageManager
      ensures State() == RunPrefix(old(State()), ThrottleWindow(debugBuild), recipientIds, env, |recipientIds|)
    {
      for i := 0 to |recipientIds|
        invariant State() == RunPrefix(old(State()), ThrottleWindow(debugBuild), recipientIds, env, i)
      {
        GetProfile(recipientIds[i], DefaultRetries, env(i), 0);
      }
    }

    /** `getProfile(recipientId:remainingRetries:)`, this call observing env(k). */
    method GetProfile(recipientId: string, remainingRetries: int, env: nat -> Attempt, k: nat)
      modifies fetchDateMap, networkManager, storageManager
      ensures State() == GetProfileSpec(old(State()), ThrottleWindow(debugBuild), recipientId, remainingRetries, env, k)
      decreases if remainingRetries > 0 then remainingRetries else 0
    {
      var now := env(k).now;
      if recipientId in fetchDateMap.dates {
        var lastTimeInterval := Elapsed(fetchDateMap.dates[recipientId], now);
        if !(lastTimeInterval > ThrottleWindow(debugBuild)) {
          return;
        }
      }
      fetchDateMap.dates := fetchDateMap.dates[recipientId := now];
      var outcome := networkManager.MakeRequest(recipientId, env(k).outcome);
      match outcome {
        case Succeeded(response) =>
          var decoded := ServiceProfile.Decode(recipientId, response);
          if decoded.Failure? {
            return;
          }
          ProcessResponse(decoded.value);
        case Failed(error) =>
          if error.None? {
            return;
          }
          if remainingRetries > 1 {
            GetProfile(recipientId, remainingRetries - 1, env, k + 1);
          }
      }
    }

    /** `processResponse(signalServiceProfile:)`. */
    method ProcessResponse(profile: ServiceProfile.SignalServiceProfile)
      modifies storageManager
      ensures storageManager.State() == Reconcile(old(storageManager.State()), profile.recipientId, profile.identityKey)
    {
      VerifyIdentityUpToDate(profile.recipientId, profile.identityKey);
    }

    /** `verifyIdentityUpToDateAsync(recipientId:latestIdentityKey:)`. */
    method VerifyIdentityUpToDate(recipientId: string, latestIdentityKey: seq<byte>)
      modifies storageManager
      ensures storageManager.State() == Reconcile(old(storageManager.State()), recipientId, latestIdentityKey)
    {
      if storageManager.IdentityKey(recipientId).None? {
        return;
      }
      var changed := storageManager.SaveRemoteIdentity(latestIdentityKey, recipientId);
      if changed {
        storageManager.ArchiveAllSessions(recipientId);
      }
    }
  }

  // ---------------------------------------------------------------------------
  // Properties of reconciliation

  /** Trust on first use: with no trusted key, nothing is saved, nothing archived, nothing changes. */
  lemma ReconcileFirstUse(s: StoreState, recipientId: string, latestKey: seq<byte>)
    requires recipientId !in s.identityKeys
    ensures Reconcile(s, recipientId, latestKey) == s
  {
  }

  /**
   * With a trusted key, exactly one save is made, the fetched key becomes the
   * trusted one, and the recipient's sessions are archived exactly when the key changed.
   */
  lemma ReconcileWithTrustedKey(s: StoreState, recipientId: string, latestKey: seq<byte>)
    requires recipientId in s.identityKeys
    ensures var r := Reconcile(s, recipientId, latestKey);
      && r.saves == s.saves + [(recipientId, latestKey)]
      && r.identityKeys == s.identityKeys[recipientId := latestKey]
      && r.archived == s.archived + (if s.identityKeys[recipientId] != latestKey then [recipientId] else [])
  {
  }

  /** Reconciling the same key again changes no key and archives nothing more. */
  lemma ReconcileAgainArchivesNothing(s: StoreState, recipientId: string, latestKey: seq<byte>)
    ensures var once := Reconcile(s, recipientId, latestKey);
      var twice := Reconcile(once, recipientId, latestKey);
      twice.identityKeys == once.identityKeys && twice.archived == once.archived
  {
  }

  // ---------------------------------------------------------------------------
  // Properties of one call chain of getProfile

  /** What a call chain for `recipientId` may do to the state, and no more. */
  ghost predicate TouchesOnly(st: FetchState, st': FetchState, recipientId: string) {
    && st'.fetchDates - {recipientId} == st.fetchDates - {recipientId}
    && st.fetchDates.Keys <= st'.fetchDates.Keys
    && |st.requests| <= |st'.requests|
    && st'.requests[..|st.requests|] == st.requests
    && (forall i | |st.requests| <= i < |st'.requests| :: st'.requests[i] == recipientId)
    && st'.store.identityKeys - {recipientId} == st.store.identityKeys - {recipientId}
    && |st.store.archived| <= |st'.store.archived|
    && st'.store.archived[..|st.store.archived|] == st.store.archived
    && (forall i | |st.store.archived| <= i < |st'.store.archived| :: st'.store.archived[i] == recipientId)
  }

  lemma TouchesOnlyTransitive(st: FetchState, st': FetchState, st'': FetchState, recipientId: string)
    requires TouchesOnly(st, st', recipientId) && TouchesOnly(st', st'', recipientId)
    ensures TouchesOnly(st, st'', recipientId)
  {
    assert st''.requests[..|st.requests|] == st'.requests[..|st'.requests|][..|st.requests|];
    assert st''.store.archived[..|st.store.archived|] == st'.store.archived[..|st'.store.archived|][..|st.store.archived|];
  }

  /**
   * A call chain changes only its own recipient's entries: other timestamps,
   * other trusted keys, earlier requests and archives stay as they were,
   * and everything it adds is for that recipient.
   */
  lemma {:induction false} GetProfileTouchesOnlyRecipient(st: FetchState, window: nat, recipientId: string,
                                                          remainingRetries: int, env: nat -> Attempt, k: nat)
    ensures TouchesOnly(st, GetProfileSpec(st, window, recipientId, remainingRetries, env, k), recipientId)
    decreases if remainingRetries > 0 then remainingRetries else 0
  {
    var a := env(k);
    if !IsThrottled(st.fetchDates, recipientId, a.now, window) {
      var issued := st.(fetchDates := st.fetchDates[recipientId := a.now], requests := st.requests + [recipientId]);
      assert TouchesOnly(st, issued, recipientId);
      match a.outcome {
        case Succeeded(response) =>
          match ServiceProfile.Decode(recipientId, response) {
            case Failure(_) =>
            case Success(profile) =>
              var reconciled := issued.(store := Reconcile(issued.store, profile.recipientId, profile.identityKey));
              assert TouchesOnly(issued, reconciled, recipientId);
              TouchesOnlyTransitive(st, issued, reconciled, recipientId);
          }
        case Failed(None) =>
        case Failed(Some(_)) =>
          if remainingRetries > 1 {
            GetProfileTouchesOnlyRecipient(issued, window, recipientId, remainingRetries - 1, env, k + 1);
            TouchesOnlyTransitive(st, issued, GetProfileSpec(issued, window, recipientId, remainingRetries - 1, env, k + 1), recipientId);
          }
      }
    }
  }

  /** A call within the window after the last attempt issues no request and changes nothing. */
  lemma ThrottledCallChangesNothing(st: FetchState, window: nat, recipientId: string,
                                    remainingRetries: int, env: nat -> Attempt, k: nat)
    requires recipientId in st.fetchDates && Elapsed(st.fetchDates[recipientId], env(k).now) <= window
    ensures GetProfileSpec(st, window, recipientId, remainingRetries, env, k) == st
  {
  }

  /**
   * A call that is not throttled (in particular any call for a recipient never
   * attempted before) stamps the recipient with the current time and issues its
   * request before anything else, whatever the answer turns out to be.
   */
  lemma UnthrottledCallStampsThenRequests(st: FetchState, window: nat, recipientId: string,
                                          remainingRetries: int, env: nat -> Attempt, k: nat)
    requires !IsThrottled(st.fetchDates, recipientId, env(k).now, window)
    ensures var st' := GetProfileSpec(st, window, recipientId, remainingRetries, env, k);
      && recipientId in st'.fetchDates
      && |st'.requests| > |st.requests|
      && st'.requests[|st.requests|] == recipientId
    ensures var a := env(k);
      var issued := st.(fetchDates := st.fetchDates[recipientId := a.now], requests := st.requests + [recipientId]);
      remainingRetries <= 1 || !(a.outcome.Failed? && a.outcome.error.Some?) ==>
        GetProfileSpec(st, window, recipientId, remainingRetries, env, k).fetchDates == issued.fetchDates
  {
    var a := env(k);
    var issued := st.(fetchDates := st.fetchDates[recipientId := a.now], requests := st.requests + [recipientId]);
    if a.outcome.Failed? && a.outcome.error.Some? && remainingRetries > 1 {
      GetProfileTouchesOnlyRecipient(issued, window, recipientId, remainingRetries - 1, env, k + 1);
      var st' := GetProfileSpec(issued, window, recipientId, remainingRetries - 1, env, k + 1);
      assert st'.requests[..|issued.requests|][|st.requests|] == recipientId;
    }
  }

  /** After any call chain the recipient has a timestamp: either it had one, or the call was not throttled. */
  lemma RecipientAlwaysRecorded(st: FetchState, window: nat, recipientId: string,
                                remainingRetries: int, env: nat -> Attempt, k: nat)
    ensures recipientId in GetProfileSpec(st, window, recipientId, remainingRetries, env, k).fetchDates
  {
    if IsThrottled(st.fetchDates, recipientId, env(k).now, window) {
    } else {
      UnthrottledCallStampsThenRequests(st, window, recipientId, remainingRetries, env, k);
    }
  }

  /** Bounded retry: a chain issues at most `remainingRetries` requests (at least one). */
  lemma {:induction false} RequestsBounded(st: FetchState, window: nat, recipientId: string,
                                           remainingRetries: int, env: nat -> Attempt, k: nat)
    ensures |GetProfileSpec(st, window, recipientId, remainingRetries, env, k).requests| <= |st.requests| + MaxRequests(remainingRetries)
    decreases if remainingRetries > 0 then remainingRetries else 0
  {
    var a := env(k);
    if !IsThrottled(st.fetchDates, recipientId, a.now, window) && a.outcome.Failed? && a.outcome.error.Some? && remainingRetries > 1 {
      var issued := st.(fetchDates := st.fetchDates[recipientId := a.now], requests := st.requests + [recipientId]);
      RequestsBounded(issued, window, recipientId, remainingRetries - 1, env, k + 1);
    }
  }

  /** With the default of three retries, a call chain issues at most three requests. */
  lemma DefaultChainIssuesAtMostThree(st: FetchState, window: nat, recipientId: string, env: nat -> Attempt)
    ensures |GetProfileSpec(st, window, recipientId, DefaultRetries, env, 0).requests| <= |st.requests| + 3
  {
    RequestsBounded(st, window, recipientId, DefaultRetries, env, 0);
  }

  /**
   * When every request fails with an error and every retry comes later than
   * the window, a chain issues exactly `remainingRetries` requests (three by
   * default): the first and each retry.
   */
  lemma {:induction false} PersistentFailureUsesEveryRetry(st: FetchState, window: nat, recipientId: string,
                                                           remainingRetries: int, env: nat -> Attempt, k: nat)
    requires !IsThrottled(st.fetchDates, recipientId, env(k).now, window)
    requires forall i: nat :: env(i).outcome.Failed? && env(i).outcome.error.Some?
    requires forall i: nat :: env(i).now + window < env(i + 1).now
    ensures |GetProfileSpec(st, window, recipientId, remainingRetries, env, k).requests| == |st.requests| + MaxRequests(remainingRetries)
    decreases if remainingRetries > 0 then remainingRetries else 0
  {
    var a := env(k);
    var issued := st.(fetchDates := st.fetchDates[recipientId := a.now], requests := st.requests + [recipientId]);
    if remainingRetries > 1 {
      assert env(k).now + window < env(k + 1).now;
      assert !IsThrottled(issued.fetchDates, recipientId, env(k + 1).now, window);
      PersistentFailureUsesEveryRetry(issued, window, recipientId, remainingRetries - 1, env, k + 1);
    }
  }

  /**
   * Because the timestamp is written before the request goes out, a retry
   * that follows a transport failure within the window issues no request:
   * the chain ends after its first request, with the store untouched.
   */
  lemma ImmediateRetryIsThrottled(st: FetchState, window: nat, recipientId: string,
                                  remainingRetries: int, env: nat -> Attempt, k: nat)
    requires !IsThrottled(st.fetchDates, recipientId, env(k).now, window)
    requires env(k).outcome.Failed? && env(k).outcome.error.Some?
    requires env(k).now <= env(k + 1).now <= env(k).now + window
    ensures var st' := GetProfileSpec(st, window, recipientId, remainingRetries, env, k);
      && st'.requests == st.requests + [recipientId]
      && st'.fetchDates == st.fetchDates[recipientId := env(k).now]
      && st'.store == st.store
  {
  }

  /** A response that does not decode ends the chain: no retry, no reconciliation. */
  lemma MalformedResponseEndsChain(st: FetchState, window: nat, recipientId: string,
                                   remainingRetries: int, env: nat -> Attempt, k: nat)
    requires !IsThrottled(st.fetchDates, recipientId, env(k).now, window)
    requires env(k).outcome.Succeeded? && ServiceProfile.Decode(recipientId, env(k).outcome.response).Failure?
    ensures GetProfileSpec(st, window, recipientId, remainingRetries, env, k)
      == st.(fetchDates := st.fetchDates[recipientId := env(k).now], requests := st.requests + [recipientId])
  {
  }

  /** A failure without an error ends the chain: no retry, no reconciliation. */
  lemma NilErrorEndsChain(st: FetchState, window: nat, recipientId: string,
                          remainingRetries: int, env: nat -> Attempt, k: nat)
    requires !IsThrottled(st.fetchDates, recipientId, env(k).now, window)
    requires env(k).outcome == Failed(None)
    ensures GetProfileSpec(st, window, recipientId, remainingRetries, env, k)
      == st.(fetchDates := st.fetchDates[recipientId := env(k).now], requests := st.requests + [recipientId])
  {
  }

  /** A response that decodes is reconciled, for the recipient asked for, with the key it carries. */
  lemma DecodedResponseIsReconciled(st: FetchState, window: nat, recipientId: string,
                                    remainingRetries: int, env: nat -> Attempt, k: nat)
    requires !IsThrottled(st.fetchDates, recipientId, env(k).now, window)
    requires env(k).outcome.Succeeded? && ServiceProfile.Decode(recipientId, env(k).outcome.response).Success?
    ensures var st' := GetProfileSpec(st, window, recipientId, remainingRetries, env, k);
      && st'.requests == st.requests + [recipientId]
      && st'.store == Reconcile(st.store, recipientId, ServiceProfile.Decode(recipientId, env(k).outcome.response).value.identityKey)
  {
  }

  // ---------------------------------------------------------------------------
  // Properties of run

  /**
   * After `run`, every recipient of the thread has a timestamp, recipients
   * outside the thread keep theirs, and every request issued is for a
   * recipient of the thread: at most three per occurrence of that recipient
   * in the thread, so at most 3 * n in all.
   */
  lemma {:induction false} RunCoversThread(st: FetchState, window: nat, recipientIds: seq<string>,
                                           env: nat -> nat -> Attempt, n: nat)
    requires n <= |recipientIds|
    ensures var st' := RunPrefix(st, window, recipientIds, env, n);
      && (forall i | 0 <= i < n :: recipientIds[i] in st'.fetchDates)
      && (forall r | r !in recipientIds[..n] :: (r in st'.fetchDates <==> r in st.fetchDates))
      && (forall r | r !in recipientIds[..n] && r in st.fetchDates :: st'.fetchDates[r] == st.fetchDates[r])
      && |st.requests| <= |st'.requests| <= |st.requests| + 3 * n
      && st'.requests[..|st.requests|] == st.requests
      && (forall i | |st.requests| <= i < |st'.requests| :: st'.requests[i] in recipientIds[..n])
      && (forall x :: multiset(st'.requests[|st.requests|..])[x] <= 3 * multiset(recipientIds[..n])[x])
  {
    if n > 0 {
      RunCoversThread(st, window, recipientIds, env, n - 1);
      var prev := RunPrefix(st, window, recipientIds, env, n - 1);
      var r := recipientIds[n - 1];
      var st' := GetProfileSpec(prev, window, r, DefaultRetries, env(n - 1), 0);
      GetProfileTouchesOnlyRecipient(prev, window, r, DefaultRetries, env(n - 1), 0);
      RecipientAlwaysRecorded(prev, window, r, DefaultRetries, env(n - 1), 0);
      DefaultChainIssuesAtMostThree(prev, window, r, env(n - 1));
      assert recipientIds[..n] == recipientIds[..n - 1] + [r];
      forall i | 0 <= i < n ensures recipientIds[i] in st'.fetchDates {
        if i < n - 1 {
          assert recipientIds[i] in prev.fetchDates;
        }
      }
      forall x | x !in recipientIds[..n]
        ensures (x in st'.fetchDates <==> x in st.fetchDates)
        ensures x in st.fetchDates ==> st'.fetchDates[x] == st.fetchDates[x]
      {
        assert x != r && x !in recipientIds[..n - 1];
        assert x in st'.fetchDates <==> x in st'.fetchDates - {r};
        assert x in prev.fetchDates <==> x in prev.fetchDates - {r};
        if x in prev.fetchDates {
          assert (st'.fetchDates - {r})[x] == (prev.fetchDates - {r})[x];
        }
      }
      assert st'.requests[..|st.requests|] == st'.requests[..|prev.requests|][..|st.requests|];
      forall i | |st.requests| <= i < |st'.requests| ensures st'.requests[i] in recipientIds[..n] {
        if i < |prev.requests| {
          assert st'.requests[i] == st'.requests[..|prev.requests|][i] == prev.requests[i];
        }
      }
      var earlier := prev.requests[|st.requests|..];
      var chain := st'.requests[|prev.requests|..];
      assert st'.requests == st'.requests[..|prev.requests|] + chain;
      assert st'.requests[|st.requests|..] == earlier + chain;
      CountOfRepeated(chain, r);
      assert multiset(recipientIds[..n]) == multiset(recipientIds[..n - 1]) + multiset{r};
    }
  }

  /** A sequence holding only `r` counts `r` once per element and nothing else. */
  lemma {:induction false} CountOfRepeated(s: seq<string>, r: string)
    requires forall i | 0 <= i < |s| :: s[i] == r
    ensures forall x :: multiset(s)[x] == if x == r then |s| else 0
  {
    if s != [] {
      CountOfRepeated(s[1..], r);
      assert s == [r] + s[1..];
    }
  }
}
