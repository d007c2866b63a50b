/** The session manager of the application shell: the token triple held in
    memory, the count of silent refreshes, the one pending refresh timer, and
    the credential store they are mirrored into. The clock is an explicit
    `now` (milliseconds) and the reply of the refresh endpoint is an input. */
module Session {
  import opened JsValues
  import opened Credentials

  /** The guard `refreshCount >= 3`. */
  const MaxRefreshes := 3
  /** Refresh one minute before expiry. */
  const RefreshLeadMs := 60 * 1000
  /** `expires_in || 1800`. */
  const DefaultExpiresInSeconds := 1800

  const NoTokens := Tokens(None, None, None)

  /** The largest delay `setTimeout` keeps: it reads the delay as a 32-bit
      signed integer (the Web IDL `long` conversion). */
  const MaxTimerDelay := 0x7FFF_FFFF

  /** The delay the browser actually waits: the value wrapped to 32 bits, a
      negative result read as 0. */
  function EffectiveDelay(d: int): int {
    var w := d % 0x1_0000_0000;
    if w > MaxTimerDelay then 0 else w
  }

  /** A pending `setTimeout(refreshTokens, delay)` armed at `armedAt`. */
  datatype Timer = Timer(armedAt: int, delay: int) {
    /** When the refresh was meant to run. */
    function Deadline(): int { armedAt + delay }
    /** When the browser runs it. */
    function FiresAt(): int { armedAt + EffectiveDelay(delay) }
  }

  /** What the refresh endpoint did: a non-2xx status, a thrown error (network
      failure or an unreadable body), or a 2xx reply with its three fields. */
  datatype Reply =
    | NotOk
    | Threw
    | Ok(accessToken: Option<string>, refreshToken: Option<string>, expiresIn: Option<int>)

  /** The whole state the manager reads and writes. */
  datatype State = State(tokens: Tokens, refreshCount: nat, timer: Option<Timer>, store: Storage)

  /** `isAuthenticated = !!tokens.accessToken` */
  predicate Authenticated(s: State) {
    TruthyStr(s.tokens.accessToken)
  }

  /** The store is readable and the in-memory count is the stored one. */
  predicate Consistent(s: State) {
    WellFormed(s.store) && s.refreshCount == Load(s.store).refreshCount
  }

  /** `Date.now() + (expiresIn || 1800) * 1000` */
  function ExpiryFrom(now: int, expiresIn: Option<int>): int {
    now + (if TruthyNum(expiresIn) then expiresIn.value else DefaultExpiresInSeconds) * 1000
  }

  /** The delay `scheduleRefresh` computes for a given expiry. */
  function RefreshDelay(expiresAt: int, now: int): int {
    expiresAt - now - RefreshLeadMs
  }

  /** The guard of `scheduleRefresh`: an expiry, a refresh token and budget left. */
  predicate CanSchedule(s: State) {
    TruthyNum(s.tokens.expiresAt) && TruthyStr(s.tokens.refreshToken) && s.refreshCount < MaxRefreshes
  }

  /** `logout`: all token fields null, the count 0, the store wiped, no timer. */
  function LoggedOut(s: State): (r: State)
    ensures Consistent(r) && !Authenticated(r)
    ensures r.tokens == NoTokens && r.refreshCount == 0 && r.timer.None?
    ensures Load(r.store) == Cleared
    ensures forall k :: k in TokenKeys ==> k !in r.store
    ensures Others(r.store) == Others(s.store)
  {
    State(NoTokens, 0, None, Clear(s.store))
  }

  /** `refreshTokens`: the new state and whether the refresh succeeded. */
  function Refreshed(s: State, now: int, reply: Reply): (r: (State, bool))
    requires Consistent(s)
    ensures Consistent(r.0)
    ensures r.1 <==> TruthyStr(s.tokens.refreshToken) && s.refreshCount < MaxRefreshes && reply.Ok?
    ensures !r.1 ==> r.0 == LoggedOut(s)
    ensures r.1 ==> && r.0.tokens.accessToken == reply.accessToken
                    && r.0.tokens.refreshToken == (if TruthyStr(reply.refreshToken) then reply.refreshToken else s.tokens.refreshToken)
                    && r.0.tokens.expiresAt == Some(ExpiryFrom(now, reply.expiresIn))
                    && r.0.refreshCount == s.refreshCount + 2
                    && Load(r.0.store).refreshToken == r.0.tokens.refreshToken
                    && Load(r.0.store).accessToken == (if TruthyStr(reply.accessToken) then reply.accessToken else Load(s.store).accessToken)
                    && Load(r.0.store).expiresAt == (if ExpiryFrom(now, reply.expiresIn) != 0 then r.0.tokens.expiresAt else Load(s.store).expiresAt)
                    && r.0.timer == s.timer
                    && Others(r.0.store) == Others(s.store)
  {
    if !TruthyStr(s.tokens.refreshToken) || s.refreshCount >= MaxRefreshes then (LoggedOut(s), false)
    else match reply
      case NotOk => (LoggedOut(s), false)
      case Threw => (LoggedOut(s), false)
      case Ok(accessToken, refreshToken, expiresIn) =>
        var newTokens := Tokens(accessToken, OrStr(refreshToken, s.tokens.refreshToken), Some(ExpiryFrom(now, expiresIn)));
        var (m1, _) := Bump(s.store, newTokens);
        var (m2, newCount) := Bump(m1, newTokens);
        BumpThenLoad(s.store, newTokens);
        BumpThenLoad(m1, newTokens);
        BumpWrites(s.store, newTokens);
        BumpWrites(m1, newTokens);
        (State(newTokens, newCount, s.timer, m2), true)
  }

  /** `scheduleRefresh`: cancel the pending timer; then, if the guard passes,
      arm one for the delay when it is positive, or refresh at once. */
  function Scheduled(s: State, now: int, reply: Reply): (r: State)
    requires Consistent(s)
    ensures Consistent(r)
    ensures !CanSchedule(s) ==> r == s.(timer := None)
    ensures r.timer.Some? <==> CanSchedule(s) && RefreshDelay(s.tokens.expiresAt.value, now) > 0
    ensures r.timer.Some? ==> && r.timer.value.armedAt == now
                              && r.timer.value.delay == RefreshDelay(s.tokens.expiresAt.value, now)
                              && r.timer.value.Deadline() == s.tokens.expiresAt.value - RefreshLeadMs
                              && r.tokens == s.tokens && r.refreshCount == s.refreshCount && r.store == s.store
    ensures CanSchedule(s) && RefreshDelay(s.tokens.expiresAt.value, now) <= 0 ==>
              r == Refreshed(s.(timer := None), now, reply).0
  {
    var cancelled := s.(timer := None);
    if !CanSchedule(s) then cancelled
    else
      var delay := RefreshDelay(s.tokens.expiresAt.value, now);
      if delay > 0 then cancelled.(timer := Some(Timer(now, delay)))
      else Refreshed(cancelled, now, reply).0
  }

  /** The part of `setTokensOnLogin` before it schedules: persist the new tokens,
      reset the count in memory and in the store. The pending timer is kept. */
  function Installed(s: State, accessToken: string, refreshToken: string, expiresIn: Option<int>, now: int): (r: State)
    ensures Consistent(r)
    ensures r.tokens == Tokens(Some(accessToken), Some(refreshToken), Some(ExpiryFrom(now, expiresIn)))
    ensures r.refreshCount == 0 && r.timer == s.timer
    ensures Load(r.store) == Loaded(if accessToken == "" then None else Some(accessToken),
                                    if refreshToken == "" then None else Some(refreshToken),
                                    Some(ExpiryFrom(now, expiresIn)), 0)
    ensures Others(r.store) == Others(s.store)
  {
    var expiresAt := ExpiryFrom(now, expiresIn);
    var saved := Save(s.store, accessToken, refreshToken, expiresAt);
    SaveThenLoad(s.store, accessToken, refreshToken, expiresAt);
    State(Tokens(Some(accessToken), Some(refreshToken), Some(expiresAt)), 0, s.timer, Reset(saved))
  }

  /** `setTokensOnLogin`: install the new session; the pending timer is cancelled,
      and the effect that watches the tokens schedules the new session's refresh
      only when its access token is truthy. */
  function LoggedIn(s: State, accessToken: string, refreshToken: string, expiresIn: Option<int>, now: int, reply: Reply): (r: State)
    ensures Consistent(r)
    ensures var i := Installed(s, accessToken, refreshToken, expiresIn, now);
            var delay := RefreshDelay(ExpiryFrom(now, expiresIn), now);
            var armable := accessToken != "" && refreshToken != "" && ExpiryFrom(now, expiresIn) != 0;
            && (!armable ==> r == i.(timer := None))
            && (armable && delay > 0 ==> r == i.(timer := Some(Timer(now, delay))))
            && (armable && delay <= 0 ==> r == Refreshed(i.(timer := None), now, reply).0)
  {
    var i := Installed(s, accessToken, refreshToken, expiresIn, now);
    if accessToken == "" then i.(timer := None) else Scheduled(i, now, reply)
  }

  /** The pending timer goes off: it is no longer pending and `refreshTokens` runs. */
  function Fired(s: State, now: int, reply: Reply): (r: State)
    requires Consistent(s) && s.timer.Some? && now >= s.timer.value.FiresAt()
    ensures Consistent(r) && r.timer.None?
    ensures r == LoggedOut(s) <==> !(TruthyStr(s.tokens.refreshToken) && s.refreshCount < MaxRefreshes && reply.Ok?)
    ensures r != LoggedOut(s) ==> && reply.Ok?
                                  && r.tokens.accessToken == reply.accessToken
                                  && r.tokens.expiresAt == Some(ExpiryFrom(now, reply.expiresIn))
                                  && r.refreshCount == s.refreshCount + 2
                                  && r.tokens.refreshToken == (if TruthyStr(reply.refreshToken) then reply.refreshToken else s.tokens.refreshToken)
                                  && Load(r.store).refreshToken == r.tokens.refreshToken
                                  && Load(r.store).accessToken == (if TruthyStr(reply.accessToken) then reply.accessToken else Load(s.store).accessToken)
                                  && Load(r.store).expiresAt == (if ExpiryFrom(now, reply.expiresIn) != 0 then r.tokens.expiresAt else Load(s.store).expiresAt)
                                  && Others(r.store) == Others(s.store)
  {
    Refreshed(s.(timer := None), now, reply).0
  }

  /** `logout` twice is `logout` once. */
  lemma LogoutIdempotent(s: State)
    ensures LoggedOut(LoggedOut(s)) == LoggedOut(s)
  {
    ClearIdempotent(s.store);
  }

  /** How many silent refreshes can still succeed from a count `c`: each success
      adds two to the count (`updateAccessToken` runs twice), and none is tried
      once the count reaches `MaxRefreshes`. */
  function Budget(c: nat): nat
    decreases MaxRefreshes - c
  {
    if c >= MaxRefreshes then 0 else 1 + Budget(c + 2)
  }

  /** Runs `refreshTokens` once per attempt (an instant and a reply), in order;
      yields the final state and the number of attempts that succeeded. */
  function RefreshRun(s: State, attempts: seq<(int, Reply)>): (r: (State, nat))
    requires Consistent(s)
    ensures Consistent(r.0)
    ensures r.1 <= |attempts|
    decreases |attempts|
  {
    if attempts == [] then (s, 0)
    else
      var (s1, ok) := Refreshed(s, attempts[0].0, attempts[0].1);
      var (s2, n) := RefreshRun(s1, attempts[1..]);
      (s2, n + if ok then 1 else 0)
  }

  /** Whatever the replies, no more than `Budget(refreshCount)` refreshes succeed,
      and none without a refresh token. */
  lemma {:induction false} RefreshesWithinBudget(s: State, attempts: seq<(int, Reply)>)
    requires Consistent(s)
    ensures RefreshRun(s, attempts).1 <= if TruthyStr(s.tokens.refreshToken) then Budget(s.refreshCount) else 0
    decreases |attempts|
  {
    if attempts != [] {
      var (s1, ok) := Refreshed(s, attempts[0].0, attempts[0].1);
      RefreshesWithinBudget(s1, attempts[1..]);
      if !ok {
        assert !TruthyStr(s1.tokens.refreshToken);
      } else {
        assert TruthyStr(s1.tokens.refreshToken) && s1.refreshCount == s.refreshCount + 2;
      }
    }
  }

  /** After a login (count 0) at most two silent refreshes succeed, not three:
      the doubled increment spends the budget twice as fast. */
  lemma AtMostTwoRefreshesPerLogin(s: State, attempts: seq<(int, Reply)>)
    requires Consistent(s) && s.refreshCount == 0
    ensures RefreshRun(s, attempts).1 <= 2
  {
    RefreshesWithinBudget(s, attempts);
    assert Budget(0) == 2 by {
      assert Budget(4) == 0;
    }
  }

  /** Two successful refreshes after a login bring both counts to 4; the third
      attempt makes no exchange, whatever the endpoint would say, and logs out. */
  lemma ThirdRefreshForcesLogout(s: State, t1: int, r1: Reply, t2: int, r2: Reply, t3: int, r3: Reply)
    requires Consistent(s) && s.refreshCount == 0 && TruthyStr(s.tokens.refreshToken)
    requires r1.Ok? && r2.Ok?
    ensures var (s1, ok1) := Refreshed(s, t1, r1);
            var (s2, ok2) := Refreshed(s1, t2, r2);
            var (s3, ok3) := Refreshed(s2, t3, r3);
            && ok1 && ok2 && s1.refreshCount == 2
            && s2.refreshCount == 4 && Load(s2.store).refreshCount == 4
            && !ok3 && s3 == LoggedOut(s2) && !Authenticated(s3)
  {
  }

  /** Once the budget is spent, `scheduleRefresh` cancels the timer and arms
      nothing, without logging out: the session stays until the token lapses. */
  lemma ExhaustedBudgetFreezesSession(s: State, now: int, reply: Reply)
    requires Consistent(s) && s.refreshCount >= MaxRefreshes
    ensures Scheduled(s, now, reply) == s.(timer := None)
    ensures Authenticated(Scheduled(s, now, reply)) == Authenticated(s)
  {
  }

  /** A login with `expires_in = 1800` arms a timer of 1,740,000 ms, which the
      browser runs at its deadline. */
  lemma LoginArmsTimerBeforeExpiry(s: State, accessToken: string, refreshToken: string, now: int, reply: Reply)
    requires accessToken != "" && refreshToken != "" && now != -1800000
    ensures LoggedIn(s, accessToken, refreshToken, Some(1800), now, reply).timer == Some(Timer(now, 1740000))
    ensures Timer(now, 1740000).FiresAt() == Timer(now, 1740000).Deadline()
  {
  }

  /** A login with an empty access token arms no timer and is not authenticated. */
  lemma LoginWithoutAccessTokenArmsNothing(s: State, refreshToken: string, expiresIn: Option<int>, now: int, reply: Reply)
    ensures var r := LoggedIn(s, "", refreshToken, expiresIn, now, reply);
            r.timer.None? && !Authenticated(r) && r.refreshCount == 0
  {
  }

  /** An `expires_in` of 80 days wraps past 2^31 again: the timer runs at once. */
  lemma EightyDaySessionTimerFiresAtOnce(s: State, accessToken: string, refreshToken: string, now: int, reply: Reply)
    requires accessToken != "" && refreshToken != "" && now != -6912000000
    ensures var t := LoggedIn(s, accessToken, refreshToken, Some(6912000), now, reply).timer;
            && t == Some(Timer(now, 6911940000))
            && t.value.FiresAt() == now
  {
    assert EffectiveDelay(6911940000) == 0 by {
      assert 6911940000 % 0x1_0000_0000 == 2616972704;
    }
  }

  /** The browser never waits longer than asked: a wrapped delay only shortens it. */
  lemma TimerNeverFiresLate(t: Timer)
    requires t.delay >= 0
    ensures t.armedAt <= t.FiresAt() <= t.Deadline()
  {
  }

  /** A delay the browser can hold is waited out in full. */
  lemma TimerWithinRangeFiresAtDeadline(t: Timer)
    requires 0 <= t.delay <= MaxTimerDelay
    ensures t.FiresAt() == t.Deadline()
  {
  }

  /** A login with `expires_in` of 30 days arms a timer whose delay the browser
      wraps to a negative value: it runs at once, and the refresh budget is
      spent long before the token lapses. */
  lemma LongSessionTimerFiresAtOnce(s: State, accessToken: string, refreshToken: string, now: int, reply: Reply)
    requires accessToken != "" && refreshToken != "" && now != -2592000000
    ensures var t := LoggedIn(s, accessToken, refreshToken, Some(2592000), now, reply).timer;
            && t == Some(Timer(now, 2591940000))
            && t.value.Deadline() > now + MaxTimerDelay
            && t.value.FiresAt() == now
  {
    assert EffectiveDelay(2591940000) == 0 by {
      assert 2591940000 % 0x1_0000_0000 == 2591940000;
    }
  }

  /** The manager as the application holds it: component state updated in
      place, and the shared credential store. */
  class SessionManager {
    var tokens: Tokens
    var refreshCount: nat
    var timer: Option<Timer>
    const store: TokenStore

    function Current(): State
      reads this, store
    {
      State(tokens, refreshCount, timer, store.items)
    }

    ghost predicate Valid()
      reads this, store
    {
      Consistent(Current())
    }

    /** Start-up: the state is whatever `loadTokens` finds; no timer yet. */
    constructor (store: TokenStore)
      requires store.Valid()
      ensures Valid() && this.store == store
      ensures var t := store.LoadTokens();
              tokens == Tokens(t.accessToken, t.refreshToken, t.expiresAt) && refreshCount == t.refreshCount
      ensures timer.None?
    {
      var loaded := store.LoadTokens();
      tokens := Tokens(loaded.accessToken, loaded.refreshToken, loaded.expiresAt);
      refreshCount := loaded.refreshCount;
      timer := None;
      this.store := store;
    }

    function IsAuthenticated(): (b: bool)
      reads this, store
      ensures b == Authenticated(Current())
    {
      TruthyStr(tokens.accessToken)
    }

    method Logout()
      modifies this, store
      ensures Valid()
      ensures Current() == LoggedOut(old(Current()))
    {
      tokens := NoTokens;
      refreshCount := 0;
      store.ClearTokens();
      if timer.Some? {
        timer := None;
      }
    }

    method RefreshTokens(now: int, reply: Reply) returns (ok: bool)
      requires Valid()
      modifies this, store
      ensures Valid()
      ensures (Current(), ok) == Refreshed(old(Current()), now, reply)
    {
      if !TruthyStr(tokens.refreshToken) || refreshCount >= MaxRefreshes {
        Logout();
        return false;
      }
      match reply {
        case NotOk =>
          Logout();
          return false;
        case Threw =>
          Logout();
          return false;
        case Ok(accessToken, refreshToken, expiresIn) =>
          var newTokens := Tokens(accessToken, OrStr(refreshToken, tokens.refreshToken), Some(ExpiryFrom(now, expiresIn)));
          var _ := store.UpdateAccessToken(newTokens);
          tokens := newTokens;
          BumpThenLoad(store.items, newTokens);
          var newCount := store.UpdateAccessToken(newTokens);
          refreshCount := newCount;
          return true;
      }
    }

    method ScheduleRefresh(now: int, reply: Reply)
      requires Valid()
      modifies this, store
      ensures Valid()
      ensures Current() == Scheduled(old(Current()), now, reply)
    {
      timer := None;
      if !TruthyNum(tokens.expiresAt) || !TruthyStr(tokens.refreshToken) || refreshCount >= MaxRefreshes {
        return;
      }
      var delay := tokens.expiresAt.value - now - RefreshLeadMs;
      if delay > 0 {
        timer := Some(Timer(now, delay));
      } else {
        var _ := RefreshTokens(now, reply);
      }
    }

    method SetTokensOnLogin(accessToken: string, refreshToken: string, expiresIn: Option<int>, now: int, reply: Reply)
      requires Valid()
      modifies this, store
      ensures Valid()
      ensures Current() == LoggedIn(old(Current()), accessToken, refreshToken, expiresIn, now, reply)
    {
      var expiresAt := ExpiryFrom(now, expiresIn);
      store.SaveTokens(accessToken, refreshToken, expiresAt);
      store.ResetRefreshCount();
      SaveThenLoad(old(store.items), accessToken, refreshToken, expiresAt);
      tokens := Tokens(Some(accessToken), Some(refreshToken), Some(expiresAt));
      refreshCount := 0;
      // The effect on the tokens reschedules only for a truthy access token;
      // otherwise the timer stays cancelled.
      if accessToken == "" {
        timer := None;
      } else {
        ScheduleRefresh(now, reply);
      }
    }

    method TimerFires(now: int, reply: Reply)
      requires Valid() && timer.Some? && now >= timer.value.FiresAt()
      modifies this, store
      ensures Valid()
      ensures Current() == Fired(old(Current()), now, reply)
    {
      timer := None;
      var _ := RefreshTokens(now, reply);
    }
  }
}
