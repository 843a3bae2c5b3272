/** Login throttle kept in Redis: one counter with an expiry per account. */
module AccountLimiter {
  import opened Basics
  import opened Text

  const MAX_FAILED_ATTEMPTS: nat := 10
  const WINDOW_SECONDS: real := 900.0

  function Normalised(email: string): string { Lower(Strip(email)) }

  function Key(email: string): string { "auth:fail:" + Normalised(email) }

  /** What follows the last "@", or everything if there is none. */
  function AfterLastAt(s: string): string {
    if s == [] || s[|s| - 1] == '@' then [] else AfterLastAt(s[..|s| - 1]) + [s[|s| - 1]]
  }

  function EmailDomain(email: string): string { AfterLastAt(Normalised(email)) }

  // ---------------------------------------------------------------------------
  // The shared counters
  // ---------------------------------------------------------------------------

  datatype Entry = Entry(count: nat, expiresAt: real)

  type Entries = map<string, Entry>

  /** GET: an expired key reads as absent. */
  function Get(entries: Entries, key: string, t: real): Option<nat> {
    if key in entries && t < entries[key].expiresAt then Some(entries[key].count) else None
  }

  /** INCR and EXPIRE in one transaction. */
  function Bumped(entries: Entries, key: string, t: real): Entries {
    var count := match Get(entries, key, t) case None => 0 case Some(n) => n;
    entries[key := Entry(count + 1, t + WINDOW_SECONDS)]
  }

  datatype Command = Bump(key: string, at: real) | Delete(key: string, at: real)

  function Execute(entries: Entries, c: Command): Entries {
    match c
    case Bump(key, t) => Bumped(entries, key, t)
    case Delete(key, _) => entries - {key}
  }

  function Replay(log: seq<Command>): Entries {
    if log == [] then map[] else Execute(Replay(log[..|log| - 1]), log[|log| - 1])
  }

  predicate Counts(entries: Entries, key: string, t: real, k: nat) {
    Get(entries, key, t).Some? && Get(entries, key, t).value >= k
  }

  predicate Throttled(entries: Entries, key: string, t: real) { Counts(entries, key, t, MAX_FAILED_ATTEMPTS) }

  // ---------------------------------------------------------------------------
  // Calls that may fail
  // ---------------------------------------------------------------------------

  /** A failed call may or may not have reached the server. */
  datatype Fault = Fault(message: string, applied: bool)

  /** How one attempt goes: opening and pinging a client (only if it opens its own), the command, the close. */
  datatype Attempt = Attempt(at: real, build: Option<string>, ping: Option<string>, command: Option<Fault>,
                             close: Option<string>)

  datatype Operation = Check | Record | Reset

  datatype Unavailable = Unavailable(operation: Operation, emailDomain: string, cause: string)

  predicate Contains(s: string, part: string) {
    part <= s || (s != [] && Contains(s[1..], part))
  }

  predicate CanRetryWithoutSharedClient(message: string) {
    Contains(Lower(message), "different loop") || Contains(Lower(message), "event loop is closed")
  }

  /** The error of an attempt, if any; a failing close is only logged. */
  function ErrorOf(shared: bool, a: Attempt): Option<string> {
    if !shared && a.build.Some? then a.build
    else if !shared && a.ping.Some? then a.ping
    else if a.command.Some? then Some(a.command.value.message)
    else None
  }

  /** The command reaches the server in this attempt. */
  predicate Reaches(shared: bool, a: Attempt) {
    (shared || (a.build.None? && a.ping.None?)) && (a.command.None? || a.command.value.applied)
  }

  predicate Retries(shared: bool, a: Attempt) {
    shared && ErrorOf(shared, a).Some? && CanRetryWithoutSharedClient(ErrorOf(shared, a).value)
  }

  /** The error left when there is no more to try. */
  function FinalError(shared: bool, first: Attempt, second: Attempt): Option<string> {
    if Retries(shared, first) then ErrorOf(false, second) else ErrorOf(shared, first)
  }

  /** The commands of one call that take effect: at most two, and two only after a retry. */
  function Applied(shared: bool, first: Attempt, second: Attempt, one: Command, two: Command): seq<Command> {
    (if Reaches(shared, first) then [one] else [])
    + (if Retries(shared, first) && Reaches(false, second) then [two] else [])
  }

  function Answer(operation: Operation, email: string, error: Option<string>): Result<(), Unavailable> {
    if error.None? then Ok(()) else Err(Unavailable(operation, EmailDomain(email), error.value))
  }

  class Redis {
    var entries: Entries
    var openClients: nat
    ghost var log: seq<Command>

    ghost predicate Valid() reads this { entries == Replay(log) }

    constructor ()
      ensures Valid() && log == [] && openClients == 0
    {
      entries, openClients, log := map[], 0, [];
    }

    method Run(c: Command)
      requires Valid()
      modifies this
      ensures Valid() && log == old(log) + [c] && openClients == old(openClients)
    {
      entries, log := Execute(entries, c), log + [c];
      assert log[..|log| - 1] == old(log);
    }

    /** A new client that answers a ping; one that does not is closed again before the error goes on. */
    method GetClient(a: Attempt) returns (error: Option<string>)
      modifies this`openClients
      ensures error == if a.build.Some? then a.build else a.ping
      ensures openClients == old(openClients) + (if error.None? then 1 else 0)
    {
      if a.build.Some? { return a.build; }
      openClients := openClients + 1;
      if a.ping.Some? { openClients := openClients - 1; }
      error := a.ping;
    }

    method IsAccountThrottled(email: string, shared: bool, first: Attempt, second: Attempt)
      returns (r: Result<bool, Unavailable>)
      requires Valid()
      modifies this`openClients
      decreases shared
      ensures openClients == old(openClients)
      ensures r.Err? <==> FinalError(shared, first, second).Some?
      ensures r.Err? ==> r.error == Unavailable(Check, EmailDomain(email), FinalError(shared, first, second).value)
      ensures r.Ok? ==>
        r.value == Throttled(entries, Key(email), if Retries(shared, first) then second.at else first.at)
    {
      var error: Option<string> := None;
      if !shared { error := GetClient(first); }
      var open := !shared && error.None?;
      if error.None? {
        if first.command.Some? {
          error := Some(first.command.value.message);
        } else {
          var raw := Get(entries, Key(email), first.at);
          r := Ok(raw.Some? && raw.value >= MAX_FAILED_ATTEMPTS);
        }
      }
      if error.Some? {
        if shared && CanRetryWithoutSharedClient(error.value) {
          r := IsAccountThrottled(email, false, second, second);
        } else {
          r := Err(Unavailable(Check, EmailDomain(email), error.value));
        }
      }
      if open { openClients := openClients - 1; }
    }

    /** One attempt at a writing command: open a client if there is no shared one, run, close what was opened. */
    method TryCommand(c: Command, shared: bool, a: Attempt) returns (error: Option<string>)
      requires Valid()
      modifies this
      ensures Valid() && openClients == old(openClients)
      ensures error == ErrorOf(shared, a)
      ensures log == old(log) + (if Reaches(shared, a) then [c] else [])
    {
      error := None;
      if !shared { error := GetClient(a); }
      if error.None? {
        if a.command.None? || a.command.value.applied { Run(c); }
        if a.command.Some? { error := Some(a.command.value.message); }
        if !shared { openClients := openClients - 1; }
      }
    }

    method RecordLoginFailure(email: string, shared: bool, first: Attempt, second: Attempt)
      returns (r: Result<(), Unavailable>)
      requires Valid()
      modifies this
      decreases shared
      ensures Valid() && openClients == old(openClients)
      ensures log == old(log) + Applied(shared, first, second, Bump(Key(email), first.at), Bump(Key(email), second.at))
      ensures r == Answer(Record, email, FinalError(shared, first, second))
    {
      var error := TryCommand(Bump(Key(email), first.at), shared, first);
      if error.Some? && shared && CanRetryWithoutSharedClient(error.value) {
        r := RecordLoginFailure(email, false, second, second);
      } else {
        r := Answer(Record, email, error);
      }
    }

    method ResetLoginFailures(email: string, shared: bool, first: Attempt, second: Attempt)
      returns (r: Result<(), Unavailable>)
      requires Valid()
      modifies this
      decreases shared
      ensures Valid() && openClients == old(openClients)
      ensures log == old(log)
        + Applied(shared, first, second, Delete(Key(email), first.at), Delete(Key(email), second.at))
      ensures r == Answer(Reset, email, FinalError(shared, first, second))
    {
      var error := TryCommand(Delete(Key(email), first.at), shared, first);
      if error.Some? && shared && CanRetryWithoutSharedClient(error.value) {
        r := ResetLoginFailures(email, false, second, second);
      } else {
        r := Answer(Reset, email, error);
      }
    }
  }

  // ---------------------------------------------------------------------------
  // The counter against the history of an account
  // ---------------------------------------------------------------------------

  /** The commands that concern one account. */
  function HistoryOf(log: seq<Command>, key: string): seq<Command> {
    if log == [] then []
    else
      var rest := HistoryOf(log[..|log| - 1], key);
      if log[|log| - 1].key == key then rest + [log[|log| - 1]] else rest
  }

  /** The moment after the i-th event that ends its gap: the next event, or t. */
  function NextMoment(history: seq<Command>, i: nat, t: real): real {
    if i + 1 < |history| then history[i + 1].at else t
  }

  /** The last k events are failures, and each was followed within the window by the next event or by t. */
  ghost predicate LiveRun(history: seq<Command>, k: nat, t: real) {
    && k <= |history|
    && forall i :: |history| - k <= i < |history| ==>
         history[i].Bump? && NextMoment(history, i, t) - history[i].at < WINDOW_SECONDS
  }

  lemma {:induction false} ReplayOnlyOwnKey(log: seq<Command>, key: string)
    ensures Replay(HistoryOf(log, key)).Keys <= {key}
    ensures key in Replay(log) <==> key in Replay(HistoryOf(log, key))
    ensures key in Replay(log) ==> Replay(log)[key] == Replay(HistoryOf(log, key))[key]
  {
    if log != [] {
      var init, c := log[..|log| - 1], log[|log| - 1];
      ReplayOnlyOwnKey(init, key);
      if c.key == key {
        var rest, own := HistoryOf(init, key), HistoryOf(log, key);
        assert own == rest + [c] && own[..|own| - 1] == rest;
      }
    }
  }

  lemma {:induction false} HistoryIsOwn(log: seq<Command>, key: string)
    ensures forall c :: c in HistoryOf(log, key) ==> c.key == key
    ensures HistoryOf(HistoryOf(log, key), key) == HistoryOf(log, key)
  {
    if log != [] {
      var init, c := log[..|log| - 1], log[|log| - 1];
      HistoryIsOwn(init, key);
      if c.key == key {
        var rest, own := HistoryOf(init, key), HistoryOf(log, key);
        assert own == rest + [c] && own[..|own| - 1] == rest;
      }
    }
  }

  /** On one account's own history: the live counter at t is the length of the longest live run. */
  lemma {:induction false} CounterOfOwn(history: seq<Command>, key: string, t: real, k: nat)
    requires forall c :: c in history ==> c.key == key
    requires k > 0
    ensures Counts(Replay(history), key, t, k) <==> LiveRun(history, k, t)
  {
    if history != [] {
      var n := |history| - 1;
      var init, c := history[..n], history[n];
      assert c in history;
      match c
      case Delete(_, _) =>
        assert !LiveRun(history, k, t);
      case Bump(_, at) =>
        assert Get(Replay(history), key, t).Some? <==> t - at < WINDOW_SECONDS;
        if k == 1 {
          assert LiveRun(history, 1, t) <==> t - at < WINDOW_SECONDS;
        } else {
          CounterOfOwn(init, key, at, k - 1);
          RunStep(init, c, t, k);
          assert history == init + [c];
        }
    }
  }

  lemma RunStep(init: seq<Command>, c: Command, t: real, k: nat)
    requires c.Bump? && k > 1
    ensures LiveRun(init + [c], k, t) <==> LiveRun(init, k - 1, c.at) && t - c.at < WINDOW_SECONDS
  {
    var all := init + [c];
    assert forall i :: 0 <= i < |init| ==> NextMoment(all, i, t) == NextMoment(init, i, c.at) && all[i] == init[i];
    if LiveRun(all, k, t) {
      assert NextMoment(all, |init|, t) - all[|init|].at < WINDOW_SECONDS;
      assert forall i :: |init| - (k - 1) <= i < |init| ==> NextMoment(all, i, t) == NextMoment(init, i, c.at);
    }
  }

  /** The throttle answers yes at t exactly when the account's last ten events are failures, no reset among
      them, each less than the window after the one before and the last less than the window before t. */
  lemma ThrottledIff(log: seq<Command>, key: string, t: real)
    ensures Throttled(Replay(log), key, t) <==> LiveRun(HistoryOf(log, key), MAX_FAILED_ATTEMPTS, t)
  {
    ReplayOnlyOwnKey(log, key);
    HistoryIsOwn(log, key);
    CounterOfOwn(HistoryOf(log, key), key, t, MAX_FAILED_ATTEMPTS);
  }

  // ---------------------------------------------------------------------------
  // The documented sliding window
  // ---------------------------------------------------------------------------

  /** The failures since the last reset that are less than the window old at t: what "ten failed attempts within
      a sliding window" counts. */
  function Recent(history: seq<Command>, t: real): nat {
    if history == [] || history[|history| - 1].Delete? then 0
    else
      var rest := Recent(history[..|history| - 1], t);
      if t - history[|history| - 1].at < WINDOW_SECONDS then rest + 1 else rest
  }

  predicate SlidingThrottled(history: seq<Command>, t: real) { Recent(history, t) >= MAX_FAILED_ATTEMPTS }

  /** The last k events are failures. */
  ghost predicate LastFail(history: seq<Command>, k: nat) {
    k <= |history| && forall i :: |history| - k <= i < |history| ==> history[i].Bump?
  }

  /** With a clock that never goes back, the window holds k failures exactly when the last k events are failures
      and the first of them is recent. */
  lemma {:induction false} RecentIsLast(history: seq<Command>, k: nat, t: real)
    requires Ordered(history) && k > 0
    ensures Recent(history, t) >= k <==> LastFail(history, k) && t - history[|history| - k].at < WINDOW_SECONDS
  {
    if history != [] {
      var n := |history| - 1;
      var init := history[..n];
      if history[n].Delete? {
        assert !LastFail(history, k);
      } else if t - history[n].at >= WINDOW_SECONDS {
        RecentIsLast(init, k, t);
      } else if k > 1 {
        RecentIsLast(init, k - 1, t);
        assert LastFail(history, k) <==> LastFail(init, k - 1) by {
          if LastFail(history, k) { assert forall i :: 0 <= i < n ==> init[i] == history[i]; }
        }
      }
    }
  }

  ghost predicate Ordered(history: seq<Command>) {
    forall i, j :: 0 <= i < j < |history| ==> history[i].at <= history[j].at
  }

  lemma {:induction false} HistoryOrdered(log: seq<Command>, key: string)
    requires Ordered(log)
    ensures Ordered(HistoryOf(log, key))
    ensures forall c :: c in HistoryOf(log, key) ==> c in log
  {
    if log != [] {
      var c := log[|log| - 1];
      HistoryOrdered(log[..|log| - 1], key);
      var rest := HistoryOf(log[..|log| - 1], key);
      assert forall i :: 0 <= i < |rest| ==> rest[i] in rest && rest[i].at <= c.at;
    }
  }

  ghost predicate ClockRuns(log: seq<Command>, t: real) {
    Ordered(log) && (log != [] ==> log[|log| - 1].at <= t)
  }

  lemma RecentRunIsLive(log: seq<Command>, key: string, t: real)
    requires ClockRuns(log, t)
    requires var h := HistoryOf(log, key); LastFail(h, 10) && t - h[|h| - 10].at < WINDOW_SECONDS
    ensures LiveRun(HistoryOf(log, key), 10, t)
  {
    HistoryOrdered(log, key);
    var h := HistoryOf(log, key);
    forall i | |h| - 10 <= i < |h| ensures NextMoment(h, i, t) - h[i].at < WINDOW_SECONDS {
      assert h[|h| - 1] in log;
      assert h[|h| - 10].at <= h[i].at;
    }
  }

  /** The documented limit: ten failures inside one window and no reset after the first of them always throttle. */
  lemma TenInsideAWindowThrottle(log: seq<Command>, key: string, t: real)
    requires ClockRuns(log, t)
    ensures SlidingThrottled(HistoryOf(log, key), t) ==> Throttled(Replay(log), key, t)
  {
    HistoryOrdered(log, key);
    RecentIsLast(HistoryOf(log, key), 10, t);
    ThrottledIff(log, key, t);
    if SlidingThrottled(HistoryOf(log, key), t) { RecentRunIsLive(log, key, t); }
  }

  /** The throttle and the documented sliding window disagree in exactly one situation: the last ten events are
      failures that kept the counter alive, and the first of them has already left the window. Then, and only then,
      the program still throttles and the sliding window would not. */
  lemma SlidingWindowIff(log: seq<Command>, key: string, t: real)
    requires ClockRuns(log, t)
    ensures var h := HistoryOf(log, key);
      (Throttled(Replay(log), key, t) <==> SlidingThrottled(h, t))
      <==> !(LiveRun(h, 10, t) && t - h[|h| - 10].at >= WINDOW_SECONDS)
  {
    HistoryOrdered(log, key);
    RecentIsLast(HistoryOf(log, key), 10, t);
    ThrottledIff(log, key, t);
    TenInsideAWindowThrottle(log, key, t);
  }

  /** Fewer failures than the limit since the last reset never throttle. */
  lemma FewFailuresNeverThrottle(log: seq<Command>, key: string, t: real, since: nat)
    requires var h := HistoryOf(log, key);
      since <= |h| < since + 10 && (since > 0 ==> h[since - 1].Delete?)
    ensures !Throttled(Replay(log), key, t)
  {
    ThrottledIff(log, key, t);
  }

  /** Traffic on other accounts changes nothing for this one. */
  lemma {:induction false} OtherAccountsDoNotMatter(log: seq<Command>, more: seq<Command>, key: string, t: real)
    requires forall c :: c in more ==> c.key != key
    ensures Throttled(Replay(log + more), key, t) == Throttled(Replay(log), key, t)
  {
    if more == [] {
      assert log + more == log;
    } else {
      var m := more[..|more| - 1];
      assert (log + more)[..|log + more| - 1] == log + m && (log + more)[|log + more| - 1] == more[|more| - 1];
      assert more[|more| - 1] in more;
      OtherAccountsDoNotMatter(log, m, key, t);
    }
  }

  function Spread(key: string, n: nat): seq<Command> {
    seq(n, i requires 0 <= i < n => Bump(key, 899.0 * (i as real)))
  }

  lemma {:induction false} SpreadHistory(key: string, n: nat)
    ensures HistoryOf(Spread(key, n), key) == Spread(key, n)
  {
    if n > 0 {
      assert Spread(key, n)[..n - 1] == Spread(key, n - 1);
      SpreadHistory(key, n - 1);
    }
  }

  /** A run on which they disagree: one failure every 899 seconds throttles, although the sliding window never
      holds more than two of them. */
  lemma SpreadOutFailuresThrottle(key: string)
    ensures ClockRuns(Spread(key, 10), 8092.0)
    ensures Throttled(Replay(Spread(key, 10)), key, 8092.0)
    ensures !SlidingThrottled(HistoryOf(Spread(key, 10), key), 8092.0)
    ensures forall i :: 0 <= i < 8 ==> Spread(key, 10)[i + 2].at - Spread(key, 10)[i].at > WINDOW_SECONDS
  {
    SpreadHistory(key, 10);
    ThrottledIff(Spread(key, 10), key, 8092.0);
    SlidingWindowIff(Spread(key, 10), key, 8092.0);
  }

  /** Surrounding space and letter case do not give an account a second counter. */
  lemma KeyIgnoresCaseAndSpace(email: string)
    ensures Key(Normalised(email)) == Key(email)
  {
    var s := Strip(email);
    StripEnds(email);
    LowerTwice(s);
    if s != [] {
      LowerTidy(s);
      TidyStrips(Lower(s));
    }
  }

  /** Two addresses share one counter if and only if, without the white space around them, they are the same text up to
      the case of letters. */
  lemma SameKeyIff(email: string, other: string, a: string, b: string)
    requires Tidy(a) && Padded(email, a) && Tidy(b) && Padded(other, b)
    ensures Key(email) == Key(other) <==> SameLetters(a, b)
  {
    StripIff(email, a);
    StripIff(other, b);
    LowerIff(a, b);
    var prefix := "auth:fail:";
    assert Key(email)[|prefix|..] == Lower(a) && Key(other)[|prefix|..] == Lower(b);
  }

  lemma {:induction false} AfterLastAtIs(user: string, domain: string)
    requires '@' !in domain
    ensures AfterLastAt(user + ['@'] + domain) == domain
    ensures AfterLastAt(domain) == domain
  {
    if domain != [] {
      var init := domain[..|domain| - 1];
      AfterLastAtIs(user, init);
      assert (user + ['@'] + domain)[..|user| + |domain|] == user + ['@'] + init;
      assert domain == init + [domain[|domain| - 1]];
    } else {
      assert user + ['@'] + domain == user + ['@'];
    }
  }

  lemma LowerAddress(user: string, domain: string)
    requires '@' !in domain
    ensures Lower(user + ['@'] + domain) == Lower(user) + ['@'] + Lower(domain) && '@' !in Lower(domain)
  {
    var all, low := user + ['@'] + domain, Lower(user) + ['@'] + Lower(domain);
    forall i | 0 <= i < |all| ensures Lower(all)[i] == low[i] {
      assert Lower(all)[i] == LowerChar(all[i]);
    }
    forall i | 0 <= i < |domain| ensures Lower(domain)[i] != '@' { assert domain[i] in domain; }
  }

  /** The error names the part behind the last "@", in small letters, and so never the user. */
  lemma EmailDomainIs(email: string, user: string, domain: string)
    requires '@' !in domain && Tidy(user + ['@'] + domain) && Padded(email, user + ['@'] + domain)
    ensures EmailDomain(email) == Lower(domain)
  {
    StripIff(email, user + ['@'] + domain);
    LowerAddress(user, domain);
    AfterLastAtIs(Lower(user), Lower(domain));
  }

  lemma {:induction false} ContainsAround(a: string, part: string, b: string)
    ensures Contains(a + part + b, part)
  {
    var s := a + part + b;
    if a == [] {
      assert s == part + b;
    } else {
      assert s[1..] == a[1..] + part + b;
      ContainsAround(a[1..], part, b);
    }
  }

  lemma {:induction false} ContainedPart(s: string, part: string) returns (a: string, b: string)
    requires Contains(s, part)
    ensures s == a + part + b
  {
    if part <= s {
      a, b := [], s[|part|..];
    } else {
      var rest, after := ContainedPart(s[1..], part);
      a, b := [s[0]] + rest, after;
      assert s == [s[0]] + s[1..];
    }
  }

  /** The part stands somewhere in the text. */
  lemma ContainsIff(s: string, part: string)
    ensures Contains(s, part) <==> exists a, b :: s == a + part + b
  {
    if Contains(s, part) { var a, b := ContainedPart(s, part); }
    if a, b :| s == a + part + b { ContainsAround(a, part, b); }
  }

  // ---------------------------------------------------------------------------
  // What a call books
  // ---------------------------------------------------------------------------

  /** The text stands somewhere in the message, in any case of letters. */
  ghost predicate Mentions(message: string, part: string) {
    exists a, b :: Lower(message) == a + part + b
  }

  /** The two messages of a client that belongs to another event loop. */
  ghost predicate LoopGone(message: string) {
    Mentions(message, "different loop") || Mentions(message, "event loop is closed")
  }

  lemma RetriedIff(message: string)
    ensures CanRetryWithoutSharedClient(message) <==> LoopGone(message)
  {
    ContainsIff(Lower(message), "different loop");
    ContainsIff(Lower(message), "event loop is closed");
  }

  /** The client was built, answered, and took the command. */
  predicate TakenByOwnClient(a: Attempt) {
    a.build.None? && a.ping.None? && (a.command.None? || a.command.value.applied)
  }

  /** A call books its command twice exactly if the shared client took it and lost the answer with a message about its
      loop, and the client of the retry took it again. */
  lemma BookedTwiceIff(shared: bool, first: Attempt, second: Attempt, one: Command, two: Command)
    ensures Applied(shared, first, second, one, two) == [one, two] <==>
      && shared && first.command.Some? && first.command.value.applied && LoopGone(first.command.value.message)
      && TakenByOwnClient(second)
    ensures |Applied(shared, first, second, one, two)| <= 2
  {
    if first.command.Some? { RetriedIff(first.command.value.message); }
  }

  /** A call without a shared client, or whose shared client answers, books its command once if the command was taken
      and never otherwise; and it fails exactly if something did. */
  lemma PlainCall(shared: bool, first: Attempt, second: Attempt, one: Command, two: Command)
    requires shared ==> first.command.None?
    ensures Applied(shared, first, second, one, two) ==
      if (shared && first.command.None?) || TakenByOwnClient(first) then [one] else []
    ensures FinalError(shared, first, second).None? <==>
      first.command.None? && (shared || (first.build.None? && first.ping.None?))
  {
  }

  /** A call whose shared client failed fails too, with that message, unless the message is about its loop; then the
      retry alone decides. */
  lemma RetryDecides(first: Attempt, second: Attempt)
    requires first.command.Some?
    ensures var message := first.command.value.message;
      && (!LoopGone(message) ==> FinalError(true, first, second) == Some(message))
      && (LoopGone(message) ==>
            (FinalError(true, first, second).None? <==>
               second.build.None? && second.ping.None? && second.command.None?))
  {
    RetriedIff(first.command.value.message);
  }
}
