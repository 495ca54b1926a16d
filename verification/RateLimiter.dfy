/** The login rate limiter (internal/auth/auth.go): per address, a counter and the time
    of the failure that started its window. The ghost history keeps every failure since
    the last reset of that address; the counter is proved to be a summary of it. */
module RateLimiter {
  import opened Common

  datatype Attempts = Attempts(count: nat, firstSeen: Time)

  /** The index of the failure that opened the current window: the latest one that came
      more than `window` after the opening of the window before. */
  function Start(h: seq<Time>, window: Time): (s: nat)
    ensures h != [] ==> s < |h|
  {
    if |h| <= 1 then 0
    else
      var s := Start(h[..|h| - 1], window);
      if h[|h| - 1] - h[s] > window then |h| - 1 else s
  }

  predicate IsLimited(h: seq<Time>, limit: int, window: Time, now: Time) {
    h != [] && now - h[Start(h, window)] <= window && |h| - Start(h, window) >= limit
  }

  predicate Sorted(h: seq<Time>) {
    forall i, j :: 0 <= i <= j < |h| ==> h[i] <= h[j]
  }

  /** Every failure was let through: no window ever held more than `limit`. */
  ghost predicate Gated(h: seq<Time>, limit: int, window: Time) {
    forall n :: 0 < n <= |h| ==> n - Start(h[..n], window) <= limit
  }

  /** A window opens more than `window` after the previous one did. */
  lemma {:induction false} WindowsApart(h: seq<Time>, window: Time)
    requires h != []
    ensures var s := Start(h, window); s > 0 ==> h[s] - h[Start(h[..s], window)] > window
  {
    if |h| > 1 {
      var init := h[..|h| - 1];
      WindowsApart(init, window);
      var s := Start(init, window);
      assert init[..s] == h[..s];
    }
  }

  /** Failures `i` to `j`, no more than one window length apart, number at most 2 * limit - 1. */
  lemma BurstBounded(h: seq<Time>, limit: int, window: Time, i: nat, j: nat)
    requires Sorted(h) && Gated(h, limit, window) && i <= j < |h| && h[j] - h[i] <= window
    ensures j - i + 1 <= 2 * limit - 1
  {
    var upTo := h[..j + 1];
    var s := Start(upTo, window);
    WindowsApart(upTo, window);
    assert j + 1 - s <= limit;
    if i < s {
      var p := Start(upTo[..s], window);
      assert upTo[..s] == h[..s];
      assert s - p <= limit;
      assert h[s] - h[p] > window;
      assert i > p;
    }
  }

  function Range(lo: int, hi: int): (r: set<int>)
    requires lo <= hi
    ensures forall i :: i in r <==> lo <= i < hi
    ensures |r| == hi - lo
    decreases hi - lo
  {
    if lo == hi then {} else Range(lo, hi - 1) + {hi - 1}
  }

  /** Any closed interval of one window length holds at most 2 * limit - 1 failures. */
  lemma IntervalBounded(h: seq<Time>, limit: int, window: Time, from: Time)
    requires Sorted(h) && Gated(h, limit, window) && limit >= 1
    ensures |set i | 0 <= i < |h| && from <= h[i] <= from + window| <= 2 * limit - 1
  {
    var inside := set i | 0 <= i < |h| && from <= h[i] <= from + window;
    if inside != {} {
      LeastExists(inside, (i: int) => i);
      LeastExists(inside, (i: int) => -i);
      var first :| first in inside && forall k :: k in inside ==> first <= k;
      var last :| last in inside && forall k :: k in inside ==> -last <= -k;
      BurstBounded(h, limit, window, first, last);
      SubsetSize(inside, Range(first, last + 1));
    }
  }

  /** The failures of an address in a closed time interval. */
  function Failures(h: seq<Time>, from: Time, to: Time): set<int> {
    set i | 0 <= i < |h| && from <= h[i] <= to
  }

  /** A refusal is justified: that address failed at least `limit` times in the window that ends now. */
  lemma LimitedIsJustified(h: seq<Time>, limit: int, window: Time, now: Time)
    requires Sorted(h) && (h != [] ==> h[|h| - 1] <= now) && IsLimited(h, limit, window, now)
    ensures |Failures(h, now - window, now)| >= limit
  {
    var s := Start(h, window);
    assert Range(s, |h|) <= Failures(h, now - window, now);
    SubsetSize(Range(s, |h|), Failures(h, now - window, now));
  }

  lemma {:induction false} StartOfBurst(h: seq<Time>, window: Time)
    requires h != [] && Sorted(h) && h[|h| - 1] - h[0] <= window
    ensures Start(h, window) == 0
  {
    if |h| > 1 {
      var init := h[..|h| - 1];
      assert init[0] == h[0] && init[|init| - 1] <= h[|h| - 1];
      StartOfBurst(init, window);
    }
  }

  /** And it does come: once the failures since the last success number `limit`, all of them in
      the window that ends now, the address is limited; with fewer it is not. */
  lemma BurstIsLimited(h: seq<Time>, limit: int, window: Time, now: Time)
    requires Sorted(h) && h != [] && h[|h| - 1] <= now && now - h[0] <= window
    ensures IsLimited(h, limit, window, now) <==> |h| >= limit
  {
    StartOfBurst(h, window);
  }

  /** The bound is reached: one failure, limit - 1 more at the very end of its window, and
      `limit` in the next window, which opens one tick later. */
  function Burst(limit: nat, window: Time): seq<Time>
    requires limit >= 1
  {
    [0] + seq(limit - 1, _ => window) + seq(limit, _ => window + 1)
  }

  lemma {:induction false} BurstStart(limit: nat, window: Time, n: nat)
    requires limit >= 1 && window >= 0 && 0 < n <= 2 * limit
    ensures Start(Burst(limit, window)[..n], window) == if n <= limit then 0 else limit
  {
    var h := Burst(limit, window);
    if n > 1 {
      BurstStart(limit, window, n - 1);
      assert h[..n][..n - 1] == h[..n - 1];
    }
  }

  lemma BurstGated(limit: nat, window: Time)
    requires limit >= 1 && window >= 0
    ensures Gated(Burst(limit, window), limit, window)
  {
    var h := Burst(limit, window);
    forall n | 0 < n <= |h| ensures n - Start(h[..n], window) <= limit {
      BurstStart(limit, window, n);
    }
  }

  lemma BoundIsReached(limit: nat, window: Time)
    requires limit >= 1 && window >= 1
    ensures var h := Burst(limit, window);
            && Sorted(h) && Gated(h, limit, window)
            && |set i | 0 <= i < |h| && 1 <= h[i] <= 1 + window| == 2 * limit - 1
  {
    var h := Burst(limit, window);
    BurstGated(limit, window);
    assert forall i :: 0 < i < |h| ==> 1 <= h[i] <= 1 + window;
    assert (set i | 0 <= i < |h| && 1 <= h[i] <= 1 + window) == Range(1, 2 * limit);
  }

  /** The entry of an address is what its history says; it may be missing only when
      there is no history or its window has passed. */
  predicate Summarises(entry: Option<Attempts>, h: seq<Time>, window: Time, clock: Time) {
    && Sorted(h) && (h != [] ==> h[|h| - 1] <= clock)
    && match entry
       case Some(attempts) => h != [] && attempts == Attempts(|h| - Start(h, window), h[Start(h, window)])
       case None => h == [] || clock - h[Start(h, window)] > window
  }

  lemma SummaryLasts(entry: Option<Attempts>, h: seq<Time>, window: Time, clock: Time, later: Time)
    requires Summarises(entry, h, window, clock) && clock <= later
    ensures Summarises(entry, h, window, later)
  {
  }

  /** Whether a failure checked at `now` opens a new window. */
  predicate Opens(entry: Option<Attempts>, window: Time, now: Time) {
    entry.None? || now - entry.value.firstSeen > window
  }

  /** The entry after one more failure, checked at `now` and stamped `stamp` if it opens a window. */
  function Counted(entry: Option<Attempts>, window: Time, now: Time, stamp: Time): Attempts {
    if Opens(entry, window, now) then Attempts(1, stamp) else entry.value.(count := entry.value.count + 1)
  }

  lemma SummaryGrows(entry: Option<Attempts>, h: seq<Time>, window: Time, now: Time, stamp: Time)
    requires Summarises(entry, h, window, now) && now <= stamp
    ensures Summarises(Some(Counted(entry, window, now, stamp)),
                       h + [if Opens(entry, window, now) then stamp else now], window, stamp)
  {
    var at := if Opens(entry, window, now) then stamp else now;
    assert (h + [at])[..|h|] == h;
  }

  /** The window that one more failure falls into. */
  lemma StartGrows(h: seq<Time>, window: Time, at: Time)
    ensures Start(h + [at], window) == if h == [] || at - h[Start(h, window)] > window then |h| else Start(h, window)
  {
    assert (h + [at])[..|h|] == h;
  }

  /** A failure let through at `asked` and recorded at `at` keeps the history gated. */
  lemma StillGated(h: seq<Time>, limit: int, window: Time, asked: Time, at: Time)
    requires Gated(h, limit, window) && limit >= 1 && asked <= at
    requires !IsLimited(h, limit, window, asked)
    ensures Gated(h + [at], limit, window)
  {
    var longer := h + [at];
    StartGrows(h, window, at);
    forall n | 0 < n <= |longer| ensures n - Start(longer[..n], window) <= limit {
      hide Start;
      if n <= |h| {
        assert longer[..n] == h[..n];
      } else {
        assert longer[..n] == longer;
      }
    }
  }

  /** The time of a failure let through: stamped when it opens a window, otherwise the time it was checked. */
  function FailureTime(h: seq<Time>, window: Time, now: Time, stamp: Time): Time {
    if h == [] || now - h[Start(h, window)] > window then stamp else now
  }

  datatype LoginResult = TooManyAttempts | WrongPassword | LoggedIn

  function Lookup<T>(m: map<string, T>, ip: string): Option<T> {
    if ip in m then Some(m[ip]) else None
  }

  function Past(history: map<string, seq<Time>>, ip: string): seq<Time> {
    if ip in history then history[ip] else []
  }

  // ---------------------------------------------------------------- logins one after the other

  // One login request: when the limiter is asked, when a failure is checked, and when it is stamped.
  datatype Request = Request(ip: string, passwordOk: bool, asked: Time, now: Time, stamp: Time)

  function AfterLogin(history: map<string, seq<Time>>, limit: int, window: Time, r: Request): map<string, seq<Time>> {
    var h := Past(history, r.ip);
    if IsLimited(h, limit, window, r.asked) then history
    else if r.passwordOk then history - {r.ip}
    else history[r.ip := h + [FailureTime(h, window, r.now, r.stamp)]]
  }

  function AfterLogins(history: map<string, seq<Time>>, limit: int, window: Time, logins: seq<Request>): map<string, seq<Time>> {
    if logins == [] then history
    else AfterLogin(AfterLogins(history, limit, window, logins[..|logins| - 1]), limit, window, logins[|logins| - 1])
  }

  function Answer(history: map<string, seq<Time>>, limit: int, window: Time, r: Request): LoginResult {
    if IsLimited(Past(history, r.ip), limit, window, r.asked) then TooManyAttempts
    else if r.passwordOk then LoggedIn
    else WrongPassword
  }

  function Answers(history: map<string, seq<Time>>, limit: int, window: Time, logins: seq<Request>): seq<LoginResult> {
    if logins == [] then []
    else
      var init, last := logins[..|logins| - 1], logins[|logins| - 1];
      Answers(history, limit, window, init) + [Answer(AfterLogins(history, limit, window, init), limit, window, last)]
  }

  lemma OneMoreLogin(history: map<string, seq<Time>>, limit: int, window: Time, logins: seq<Request>, i: nat)
    requires i < |logins|
    ensures var before := AfterLogins(history, limit, window, logins[..i]);
            && AfterLogins(history, limit, window, logins[..i + 1]) == AfterLogin(before, limit, window, logins[i])
            && Answers(history, limit, window, logins[..i + 1])
               == Answers(history, limit, window, logins[..i]) + [Answer(before, limit, window, logins[i])]
  {
    assert logins[..i + 1][..i] == logins[..i];
  }

  /** The clock never goes back, from one login to the next and within each. */
  predicate InOrder(logins: seq<Request>, clock: Time) {
    forall i :: 0 <= i < |logins| ==>
      && Before(logins, clock, i) <= logins[i].asked <= logins[i].now <= logins[i].stamp
  }

  function Before(logins: seq<Request>, clock: Time, i: nat): Time
    requires i <= |logins|
  {
    if i == 0 then clock else logins[i - 1].stamp
  }

  ghost predicate PastOk(h: seq<Time>, limit: int, window: Time, clock: Time) {
    Sorted(h) && Gated(h, limit, window) && (h != [] ==> h[|h| - 1] <= clock)
  }

  lemma LoginKeepsPast(history: map<string, seq<Time>>, limit: int, window: Time, r: Request, clock: Time, ip: string)
    requires limit >= 1 && clock <= r.asked <= r.now <= r.stamp
    requires PastOk(Past(history, ip), limit, window, clock)
    ensures PastOk(Past(AfterLogin(history, limit, window, r), ip), limit, window, r.stamp)
  {
    var h := Past(history, r.ip);
    if ip == r.ip && !r.passwordOk && !IsLimited(h, limit, window, r.asked) {
      StillGated(h, limit, window, r.asked, FailureTime(h, window, r.now, r.stamp));
    }
  }

  lemma {:induction false} LoginsKeepPast(limit: int, window: Time, logins: seq<Request>, clock: Time, ip: string)
    requires limit >= 1 && InOrder(logins, clock)
    ensures PastOk(Past(AfterLogins(map[], limit, window, logins), ip), limit, window, Before(logins, clock, |logins|))
    decreases |logins|
  {
    if logins != [] {
      var n := |logins| - 1;
      var init := logins[..n];
      assert forall i :: 0 <= i < n ==> Before(init, clock, i) == Before(logins, clock, i);
      LoginsKeepPast(limit, window, init, clock, ip);
      LoginKeepsPast(AfterLogins(map[], limit, window, init), limit, window, logins[n], Before(logins, clock, n), ip);
    }
  }

  /** Whatever sequence of logins a fresh limiter sees, of any addresses: no address has more
      than 2 * limit - 1 failures in any closed interval of one window length since its last success. */
  lemma LoginsBounded(limit: int, window: Time, logins: seq<Request>, clock: Time, ip: string, from: Time)
    requires limit >= 1 && InOrder(logins, clock)
    ensures var h := Past(AfterLogins(map[], limit, window, logins), ip);
            |set i | 0 <= i < |h| && from <= h[i] <= from + window| <= 2 * limit - 1
  {
    LoginsKeepPast(limit, window, logins, clock, ip);
    IntervalBounded(Past(AfterLogins(map[], limit, window, logins), ip), limit, window, from);
  }

  // ---------------------------------------------------------------- the limiter

  predicate AddressOk(items: map<string, Attempts>, history: map<string, seq<Time>>, window: Time, clock: Time, ip: string) {
    Summarises(Lookup(items, ip), Past(history, ip), window, clock)
  }

  ghost predicate AllSummarised(items: map<string, Attempts>, history: map<string, seq<Time>>, window: Time, clock: Time) {
    forall ip: string :: AddressOk(items, history, window, clock, ip)
  }

  lemma AddressLasts(items: map<string, Attempts>, history: map<string, seq<Time>>, window: Time, clock: Time,
                     later: Time, ip: string)
    requires AddressOk(items, history, window, clock, ip) && clock <= later
    ensures AddressOk(items, history, window, later, ip)
  {
    SummaryLasts(Lookup(items, ip), Past(history, ip), window, clock, later);
  }

  lemma OtherAddress(items: map<string, Attempts>, history: map<string, seq<Time>>, window: Time, clock: Time,
                     ip: string, item: Attempts, h: seq<Time>, other: string)
    requires AddressOk(items, history, window, clock, other) && other != ip
    ensures AddressOk(items[ip := item], history[ip := h], window, clock, other)
  {
    assert Lookup(items[ip := item], other) == Lookup(items, other);
    assert Past(history[ip := h], other) == Past(history, other);
  }

  lemma FailureSummarised(items: map<string, Attempts>, history: map<string, seq<Time>>, window: Time,
                          clock: Time, ip: string, now: Time, stamp: Time, at: Time)
    requires AllSummarised(items, history, window, clock) && clock <= now <= stamp
    requires at == if Opens(Lookup(items, ip), window, now) then stamp else now
    ensures AllSummarised(items[ip := Counted(Lookup(items, ip), window, now, stamp)],
                          history[ip := Past(history, ip) + [at]], window, stamp)
  {
    var item, h := Counted(Lookup(items, ip), window, now, stamp), Past(history, ip) + [at];
    var items', history' := items[ip := item], history[ip := h];
    forall other: string ensures AddressOk(items', history', window, stamp, other) {
      if other == ip {
        AddressLasts(items, history, window, clock, now, ip);
        SummaryGrows(Lookup(items, ip), Past(history, ip), window, now, stamp);
        assert Lookup(items[ip := item], ip) == Some(item) && Past(history[ip := h], ip) == h;
      } else {
        AddressLasts(items, history, window, clock, stamp, other);
        OtherAddress(items, history, window, stamp, ip, item, h, other);
      }
    }
  }

  class Limiter {
    const limit: int
    const window: Time
    var items: map<string, Attempts>
    // Every recorded failure of an address since its last reset.
    ghost var history: map<string, seq<Time>>
    ghost var clock: Time

    ghost predicate Valid()
      reads this
    {
      AllSummarised(items, history, window, clock)
    }

    ghost predicate AllGated()
      reads this
    {
      forall ip: string :: Gated(Past(history, ip), limit, window)
    }

    constructor (limit: int, window: Time)
      ensures Valid() && AllGated() && this.limit == limit && this.window == window
      ensures history == map[] && clock == 0
    {
      this.limit, this.window, items := limit, window, map[];
      history, clock := map[], 0;
    }

    /** Whatever logins came before, no address has more than 2 * limit - 1 failures in any
        closed interval of one window length. */
    lemma FailuresBounded(ip: string, from: Time)
      requires Valid() && AllGated() && limit >= 1
      ensures var h := Past(history, ip);
              |set i | 0 <= i < |h| && from <= h[i] <= from + window| <= 2 * limit - 1
    {
      assert AddressOk(items, history, window, clock, ip);
      IntervalBounded(Past(history, ip), limit, window, from);
    }

    lemma Later(now: Time)
      requires Valid() && clock <= now
      ensures AllSummarised(items, history, window, now)
    {
      forall ip: string ensures AddressOk(items, history, window, now, ip) {
        AddressLasts(items, history, window, clock, now, ip);
      }
    }

    /** Agrees with the full history, whatever entries were dropped on the way. */
    method Limited(ip: string, now: Time) returns (limited: bool)
      requires Valid() && clock <= now
      modifies this`items, this`clock
      ensures Valid() && clock == now
      ensures limited == IsLimited(Past(history, ip), limit, window, now)
    {
      Later(now);
      clock := now;
      assert AddressOk(items, history, window, now, ip);
      if ip !in items {
        limited := false;
      } else if now - items[ip].firstSeen > window {
        ghost var before := items;
        items := items - {ip};
        forall other: string ensures AddressOk(items, history, window, now, other) {
          assert AddressOk(before, history, window, now, other);
          assert other != ip ==> Lookup(items, other) == Lookup(before, other);
        }
        limited := false;
      } else {
        limited := items[ip].count >= limit;
      }
    }

    /** `now` is read to test the window, `stamp` to open a new one. */
    method RecordFailure(ip: string, now: Time, stamp: Time) returns (ghost at: Time)
      requires Valid() && clock <= now <= stamp
      modifies this
      ensures Valid() && clock == stamp && at == FailureTime(Past(old(history), ip), window, now, stamp)
      ensures history == old(history)[ip := Past(old(history), ip) + [at]]
    {
      at := if Opens(Lookup(items, ip), window, now) then stamp else now;
      assert AddressOk(items, history, window, clock, ip);
      FailureSummarised(items, history, window, clock, ip, now, stamp, at);
      var item := if ip in items then items[ip] else Attempts(0, 0);
      if ip !in items || now - item.firstSeen > window {
        item := Attempts(0, stamp);
      }
      item := item.(count := item.count + 1);
      assert item == Counted(Lookup(items, ip), window, now, stamp);
      items := items[ip := item];
      history := history[ip := Past(history, ip) + [at]];
      clock := stamp;
    }

    method Reset(ip: string)
      requires Valid()
      modifies this`items, this`history
      ensures Valid() && history == old(history) - {ip}
    {
      items := items - {ip};
      history := history - {ip};
      forall other: string ensures AddressOk(items, history, window, clock, other) {
        assert AddressOk(old(items), old(history), window, clock, other);
      }
    }

    method ResetAll() returns (count: nat)
      requires Valid()
      modifies this`items, this`history
      ensures Valid() && history == map[] && count == |old(items)|
    {
      count := |items|;
      items := map[];
      history := map[];
    }

    /** One login attempt, run on its own. Whoever is refused failed at least `limit` times in
        the last window; with fewer failures the password alone decides. A limited address is
        turned away before its password is looked at, so no window ever takes in more than
        `limit` failures. */
    method Login(ip: string, passwordOk: bool, asked: Time, now: Time, stamp: Time)
      returns (result: LoginResult, ghost at: Time)
      requires Valid() && AllGated() && limit >= 1 && clock <= asked <= now <= stamp
      modifies this
      ensures Valid() && AllGated() && clock <= stamp && now <= at <= stamp
      ensures result == TooManyAttempts <==> IsLimited(Past(old(history), ip), limit, window, asked)
      ensures history == match result
                         case TooManyAttempts => old(history)
                         case WrongPassword => old(history)[ip := Past(old(history), ip) + [at]]
                         case LoggedIn => old(history) - {ip}
      ensures var r := Request(ip, passwordOk, asked, now, stamp);
              history == AfterLogin(old(history), limit, window, r) && result == Answer(old(history), limit, window, r)
      ensures var recent := |Failures(Past(old(history), ip), asked - window, asked)|;
              && (result == TooManyAttempts ==> recent >= limit)
              && (recent < limit ==> result == if passwordOk then LoggedIn else WrongPassword)
      ensures result == LoggedIn ==> passwordOk
      ensures result == WrongPassword ==> !passwordOk
    {
      at := now;
      assert AddressOk(items, history, window, clock, ip);
      var limited := Limited(ip, asked);
      if limited {
        LimitedIsJustified(Past(old(history), ip), limit, window, asked);
        return TooManyAttempts, at;
      }
      assert Gated(Past(history, ip), limit, window);
      if !passwordOk {
        at := RecordFailure(ip, now, stamp);
        StillGated(Past(old(history), ip), limit, window, asked, at);
        result := WrongPassword;
      } else {
        Reset(ip);
        result := LoggedIn;
      }
      assert forall other: string :: other != ip ==> Past(history, other) == Past(old(history), other);
    }

    /** Logins handled one after the other: the limiter follows the specification all the way. */
    method Serve(logins: seq<Request>) returns (results: seq<LoginResult>)
      requires Valid() && AllGated() && limit >= 1 && InOrder(logins, clock)
      modifies this
      ensures Valid() && AllGated() && clock <= Before(logins, old(clock), |logins|)
      ensures history == AfterLogins(old(history), limit, window, logins)
      ensures results == Answers(old(history), limit, window, logins)
    {
      results := [];
      for i := 0 to |logins|
        invariant Valid() && AllGated() && clock <= Before(logins, old(clock), i)
        invariant history == AfterLogins(old(history), limit, window, logins[..i])
        invariant results == Answers(old(history), limit, window, logins[..i])
      {
        var r := logins[i];
        OneMoreLogin(old(history), limit, window, logins, i);
        var result, _ := Login(r.ip, r.passwordOk, r.asked, r.now, r.stamp);
        results := results + [result];
      }
      assert logins[..|logins|] == logins;
    }
  }

  /** The limiter that the server uses: five failures in ten minutes. */
  method NewLimiter() returns (limiter: Limiter)
    ensures fresh(limiter) && limiter.Valid() && limiter.AllGated() && limiter.clock == 0
    ensures limiter.limit == 5 && limiter.window == 600 * SECOND
  {
    limiter := new Limiter(5, 10 * 60 * SECOND);
  }
}
