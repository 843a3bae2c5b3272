/** Rate limit on the log lines written for refused cross-tenant accesses. */
module AuditDenials {
  import opened Basics

  const WINDOW_SECONDS: real := 60.0
  const MAX_PER_WINDOW: nat := 5

  datatype Denial = Denial(userId: string, at: real, resource: string, resourceId: string, orgId: Option<string>)

  datatype Line = Denied(denial: Denial) | Notice(noticeUser: string, noticeOrg: Option<string>, suppressedFrom: nat)

  datatype Window = Window(start: real, count: nat)

  type Counts = map<string, Window>

  /** The window a denial falls into, and its position there. */
  function NextWindow(known: Option<Window>, now: real): Window {
    var w := if known.Some? then known.value else Window(now, 0);
    var current := if now - w.start > WINDOW_SECONDS then Window(now, 0) else w;
    Window(current.start, current.count + 1)
  }

  function LookUp(counts: Counts, userId: string): Option<Window> {
    if userId in counts then Some(counts[userId]) else None
  }

  function LineAt(d: Denial, count: nat): Option<Line> {
    if count <= MAX_PER_WINDOW then Some(Denied(d))
    else if count == MAX_PER_WINDOW + 1 then Some(Notice(d.userId, d.orgId, count))
    else None
  }

  function CountsAfter(denials: seq<Denial>): Counts {
    if denials == [] then map[]
    else
      var counts, d := CountsAfter(denials[..|denials| - 1]), denials[|denials| - 1];
      counts[d.userId := NextWindow(LookUp(counts, d.userId), d.at)]
  }

  /** What the last denial of the sequence writes. */
  function LastLine(denials: seq<Denial>): Option<Line>
    requires denials != []
  {
    var d := denials[|denials| - 1];
    LineAt(d, NextWindow(LookUp(CountsAfter(denials[..|denials| - 1]), d.userId), d.at).count)
  }

  function Lines(denials: seq<Denial>): seq<Line> {
    if denials == [] then []
    else
      var before := Lines(denials[..|denials| - 1]);
      if LastLine(denials).Some? then before + [LastLine(denials).value] else before
  }

  class DenialLog {
    var counts: Counts
    var lines: seq<Line>
    ghost var denials: seq<Denial>

    ghost predicate Valid() reads this { counts == CountsAfter(denials) && lines == Lines(denials) }

    constructor ()
      ensures Valid() && denials == []
    {
      counts, lines, denials := map[], [], [];
    }

    method LogCrossTenantDenied(d: Denial)
      requires Valid()
      modifies this
      ensures Valid() && denials == old(denials) + [d]
      ensures lines == Lines(old(denials) + [d])
    {
      var windowStart, count := d.at, 0;
      if d.userId in counts { windowStart, count := counts[d.userId].start, counts[d.userId].count; }
      if d.at - windowStart > WINDOW_SECONDS { windowStart, count := d.at, 0; }
      count := count + 1;
      denials := denials + [d];
      assert denials[..|denials| - 1] == old(denials);
      counts := counts[d.userId := Window(windowStart, count)];
      if count <= MAX_PER_WINDOW {
        lines := lines + [Denied(d)];
      } else if count == MAX_PER_WINDOW + 1 {
        lines := lines + [Notice(d.userId, d.orgId, count)];
      }
    }
  }

  // ---------------------------------------------------------------------------
  // One user on their own
  // ---------------------------------------------------------------------------

  /** The moments of one user's denials. */
  function Mine(denials: seq<Denial>, userId: string): seq<real> {
    if denials == [] then []
    else
      var rest, d := Mine(denials[..|denials| - 1], userId), denials[|denials| - 1];
      if d.userId == userId then rest + [d.at] else rest
  }

  /** The window after these moments, from the moments alone. */
  function Reached(moments: seq<real>): Option<Window> {
    if moments == [] then None
    else Some(NextWindow(Reached(moments[..|moments| - 1]), moments[|moments| - 1]))
  }

  lemma {:induction false} CountsAreMine(denials: seq<Denial>, userId: string)
    ensures LookUp(CountsAfter(denials), userId) == Reached(Mine(denials, userId))
  {
    if denials != [] {
      var init, d := denials[..|denials| - 1], denials[|denials| - 1];
      CountsAreMine(init, userId);
      if d.userId == userId {
        var mine := Mine(denials, userId);
        assert mine[..|mine| - 1] == Mine(init, userId);
      }
    }
  }

  /** Users do not affect each other: the line a denial writes is fixed by the moments of that user's own denials. */
  lemma LineDependsOnOwnMoments(denials: seq<Denial>)
    requires denials != []
    ensures var d := denials[|denials| - 1];
      LastLine(denials) == LineAt(d, Reached(Mine(denials, d.userId)).value.count)
      && Mine(denials, d.userId) != []
  {
    var d := denials[|denials| - 1];
    CountsAreMine(denials[..|denials| - 1], d.userId);
    var mine := Mine(denials, d.userId);
    assert mine[..|mine| - 1] == Mine(denials[..|denials| - 1], d.userId);
  }

  // ---------------------------------------------------------------------------
  // How much is written
  // ---------------------------------------------------------------------------

  function UserOf(line: Line): string {
    match line
    case Denied(d) => d.userId
    case Notice(u, _, _) => u
  }

  /** The lines one user causes between two moments. */
  function CountLines(denials: seq<Denial>, userId: string, lo: real, hi: real): nat {
    if denials == [] then 0
    else
      var d := denials[|denials| - 1];
      CountLines(denials[..|denials| - 1], userId, lo, hi)
      + (if LastLine(denials).Some? && UserOf(LastLine(denials).value) == userId && lo <= d.at <= hi then 1 else 0)
  }

  /** The same count from the user's own moments. */
  function Logged(moments: seq<real>, lo: real, hi: real): nat {
    if moments == [] then 0
    else
      Logged(moments[..|moments| - 1], lo, hi)
      + (if Reached(moments).value.count <= MAX_PER_WINDOW + 1 && lo <= moments[|moments| - 1] <= hi then 1 else 0)
  }

  lemma {:induction false} CountLinesIsLogged(denials: seq<Denial>, userId: string, lo: real, hi: real)
    ensures CountLines(denials, userId, lo, hi) == Logged(Mine(denials, userId), lo, hi)
  {
    if denials != [] {
      var init, d := denials[..|denials| - 1], denials[|denials| - 1];
      CountLinesIsLogged(init, userId, lo, hi);
      LineDependsOnOwnMoments(denials);
      if d.userId == userId {
        var mine := Mine(denials, userId);
        assert mine[..|mine| - 1] == Mine(init, userId) && mine[|mine| - 1] == d.at;
      }
    }
  }

  ghost predicate Ordered(moments: seq<real>) {
    forall i, j :: 0 <= i < j < |moments| ==> moments[i] <= moments[j]
  }

  function Least(a: nat, b: nat): nat { if a <= b then a else b }

  /** A window that has seen n denials began n denials ago, all of them are at most a window's length after its
      start, and together they wrote min(n, 6) lines: the first five in full, the sixth as the notice. */
  lemma {:induction false} WindowWritesAtMostSix(moments: seq<real>, lo: real, hi: real)
    requires moments != [] && Ordered(moments)
    requires lo <= moments[0] && moments[|moments| - 1] <= hi
    ensures var w := Reached(moments).value;
      && 1 <= w.count <= |moments| && moments[|moments| - w.count] == w.start
      && moments[|moments| - 1] - w.start <= WINDOW_SECONDS
      && Logged(moments, lo, hi) == Logged(moments[..|moments| - w.count], lo, hi) + Least(w.count, 6)
  {
    if |moments| > 1 {
      var init := moments[..|moments| - 1];
      WindowWritesAtMostSix(init, lo, hi);
      var w := Reached(moments).value;
      if w.count == 1 {
        assert moments[..|moments| - w.count] == init;
      } else {
        assert moments[..|moments| - w.count] == init[..|init| - (w.count - 1)];
      }
    } else {
      assert moments[..0] == [];
    }
  }

  /** The number of windows begun at or after `lo`. */
  function Begun(moments: seq<real>, lo: real): nat {
    if moments == [] then 0
    else Begun(moments[..|moments| - 1], lo)
         + (if Reached(moments).value.count == 1 && lo <= moments[|moments| - 1] then 1 else 0)
  }

  /** What m windows begun since `lo` have written, the current one included; `late` if the first of them began
      after `lo` because an older window was still open at `lo`. */
  predicate WithinQuota(lines: nat, m: nat, count: nat, late: bool) {
    if m == 0 then lines <= Least(count, 6) - 1
    else lines <= 6 * (m - 1) + Least(count, 6) + (if late then 5 else 0)
  }

  /** Windows begin more than a window's length apart, and each writes at most six lines. */
  lemma {:induction false} WindowsAreApart(moments: seq<real>, lo: real, hi: real) returns (late: bool)
    requires moments != [] && Ordered(moments) && moments[|moments| - 1] <= hi
    ensures var w, m := Reached(moments).value, Begun(moments, lo);
      && 1 <= w.count && w.start <= moments[|moments| - 1] && moments[|moments| - 1] - w.start <= WINDOW_SECONDS
      && (moments[|moments| - 1] < lo ==> Logged(moments, lo, hi) == 0)
      && (m == 0 ==> w.start < lo)
      && (m > 0 ==> w.start >= lo + WINDOW_SECONDS * ((m - 1) as real))
      && (m > 1 || (m > 0 && late) ==> w.start > lo + WINDOW_SECONDS * ((m - 1) as real))
      && WithinQuota(Logged(moments, lo, hi), m, w.count, late)
  {
    late := false;
    if |moments| > 1 {
      var init, t := moments[..|moments| - 1], moments[|moments| - 1];
      late := WindowsAreApart(init, lo, hi);
      if Begun(init, lo) == 0 && lo <= t { late := init[|init| - 1] >= lo; }
    } else {
      assert moments[..0] == [];
    }
  }

  /** x rounded up. */
  function Ceiling(x: real): int {
    if x == x.Floor as real then x.Floor else x.Floor + 1
  }

  /** The most lines one user can write in a span of T seconds. */
  function MostLines(span: real): int
    requires span >= 0.0
  {
    if span == 0.0 then 6 else 6 * Ceiling(span / WINDOW_SECONDS) + 5
  }

  lemma CeilingBounds(span: real, m: int)
    requires span > WINDOW_SECONDS * ((m - 1) as real)
    ensures m <= Ceiling(span / WINDOW_SECONDS)
  {
    var q := span / WINDOW_SECONDS;
    assert q > (m - 1) as real;
    assert q.Floor as real <= q < q.Floor as real + 1.0;
    assert (m - 1) as real < q <= Ceiling(q) as real;
  }

  lemma {:induction false} LoggedBound(moments: seq<real>, lo: real, hi: real)
    requires Ordered(moments) && lo <= hi
    ensures Logged(moments, lo, hi) <= MostLines(hi - lo)
  {
    CeilingBounds(hi - lo, 0);
    if hi > lo { CeilingBounds(hi - lo, 1); }
    if moments != [] && moments[|moments| - 1] <= hi {
      var late := WindowsAreApart(moments, lo, hi);
      var m := Begun(moments, lo);
      if m > 1 || (m > 0 && late) { CeilingBounds(hi - lo, m); }
    } else if moments != [] {
      LoggedBound(moments[..|moments| - 1], lo, hi);
    }
  }

  ghost predicate ClockRuns(denials: seq<Denial>) {
    forall i, j :: 0 <= i < j < |denials| ==> denials[i].at <= denials[j].at
  }

  lemma {:induction false} MineOrdered(denials: seq<Denial>, userId: string)
    requires ClockRuns(denials)
    ensures Ordered(Mine(denials, userId))
    ensures forall t :: t in Mine(denials, userId) ==> exists i :: 0 <= i < |denials| && denials[i].at == t
  {
    if denials != [] {
      var init := denials[..|denials| - 1];
      MineOrdered(init, userId);
      var rest := Mine(init, userId);
      forall k | 0 <= k < |rest| ensures rest[k] <= denials[|denials| - 1].at {
        assert rest[k] in rest;
        var i :| 0 <= i < |init| && init[i].at == rest[k];
        assert denials[i].at == rest[k];
      }
      forall t | t in Mine(denials, userId) ensures exists i :: 0 <= i < |denials| && denials[i].at == t {
        if t in rest {
          var i :| 0 <= i < |init| && init[i].at == t;
          assert denials[i].at == t;
        } else {
          assert denials[|denials| - 1].at == t;
        }
      }
    }
  }

  /** One user causes at most 6 ceil(T / 60) + 5 lines in any span of T > 0 seconds, and six at any one moment,
      whatever they and all other users do. */
  lemma FloodBound(denials: seq<Denial>, userId: string, lo: real, hi: real)
    requires ClockRuns(denials) && lo <= hi
    ensures CountLines(denials, userId, lo, hi) <= MostLines(hi - lo)
  {
    MineOrdered(denials, userId);
    CountLinesIsLogged(denials, userId, lo, hi);
    LoggedBound(Mine(denials, userId), lo, hi);
  }

  /** The same user denied n more times at one moment. */
  function Burst(moments: seq<real>, t: real, n: nat): seq<real> {
    if n == 0 then moments else Burst(moments, t, n - 1) + [t]
  }

  lemma OneMore(moments: seq<real>, t: real, lo: real, hi: real)
    requires moments != [] && Ordered(moments) && moments[|moments| - 1] <= t && lo <= t <= hi
    ensures Ordered(moments + [t])
    ensures Reached(moments + [t]) == Some(NextWindow(Reached(moments), t))
    ensures NextWindow(Reached(moments), t).count <= 6 ==> Logged(moments + [t], lo, hi) == Logged(moments, lo, hi) + 1
  {
    assert (moments + [t])[..|moments + [t]| - 1] == moments;
  }

  lemma {:induction false} BurstAt(moments: seq<real>, w: Window, t: real, n: nat, lo: real, hi: real)
    requires moments != [] && Ordered(moments) && moments[|moments| - 1] <= t && lo <= t <= hi
    requires Reached(moments) == Some(w) && t - w.start <= WINDOW_SECONDS && w.count + n <= 6
    ensures BurstDone(moments, w, t, n, lo, hi, Burst(moments, t, n))
  {
    if n > 0 {
      BurstAt(moments, w, t, n - 1, lo, hi);
      BurstStep(moments, w, t, n - 1, lo, hi, Burst(moments, t, n - 1));
    }
  }

  lemma BurstStep(moments: seq<real>, w: Window, t: real, n: nat, lo: real, hi: real, all: seq<real>)
    requires BurstDone(moments, w, t, n, lo, hi, all) && lo <= t <= hi
    requires t - w.start <= WINDOW_SECONDS && w.count + n < 6
    ensures BurstDone(moments, w, t, n + 1, lo, hi, all + [t])
  {
    OneMore(all, t, lo, hi);
    assert NextWindow(Some(Window(w.start, w.count + n)), t) == Window(w.start, w.count + n + 1);
  }

  ghost predicate BurstDone(moments: seq<real>, w: Window, t: real, n: nat, lo: real, hi: real, all: seq<real>) {
    && all != [] && Ordered(all) && all[|all| - 1] <= t
    && Reached(all) == Some(Window(w.start, w.count + n))
    && Logged(all, lo, hi) == Logged(moments, lo, hi) + n
  }

  /** Six lines at once when a denial opens a new window, whatever was written before. */
  function Wave(moments: seq<real>, t: real): seq<real> { Burst(moments + [t], t, 5) }

  lemma WaveAt(moments: seq<real>, w: Window, t: real, lo: real, hi: real)
    requires moments != [] && Ordered(moments) && moments[|moments| - 1] <= t && lo <= t <= hi
    requires Reached(moments) == Some(w) && t - w.start > WINDOW_SECONDS
    ensures WaveDone(moments, t, lo, hi, Wave(moments, t))
  {
    OneMore(moments, t, lo, hi);
    BurstAt(moments + [t], Window(t, 1), t, 5, lo, hi);
  }

  ghost predicate WaveDone(moments: seq<real>, t: real, lo: real, hi: real, all: seq<real>) {
    && all != [] && Ordered(all) && all[|all| - 1] <= t
    && Reached(all) == Some(Window(t, 6)) && Logged(all, lo, hi) == Logged(moments, lo, hi) + 6
  }

  /** An old window with five lines left at 60, then k waves, each `step` after the one before. */
  function Waves(step: real, k: nat): seq<real> {
    if k == 0 then Burst([0.0], 60.0, 5) else Wave(Waves(step, k - 1), WaveStart(step, k))
  }

  function WaveOffset(step: real, k: nat): real
    requires k > 0
  {
    step * (k as real) + WINDOW_SECONDS * ((k - 1) as real)
  }

  /** The window the k-th wave opened; before the first, the old one. */
  function WaveStart(step: real, k: nat): real {
    if k == 0 then 0.0 else 60.0 + WaveOffset(step, k)
  }

  lemma WaveStartsApart(step: real, k: nat)
    requires step > 0.0 && k > 0
    ensures WaveStart(step, k) > WaveStart(step, k - 1) + WINDOW_SECONDS
    ensures WaveStart(step, k) > 60.0
  {
    if k > 1 { assert WaveOffset(step, k) == WaveOffset(step, k - 1) + step + WINDOW_SECONDS; }
    assert step * (k as real) > 0.0;
  }

  ghost predicate WavesDone(all: seq<real>, start: real, k: nat, hi: real) {
    && all != [] && Ordered(all) && Logged(all, 60.0, hi) == 6 * k + 5
    && Reached(all) == Some(Window(start, 6)) && all[|all| - 1] <= (if k == 0 then 60.0 else start)
  }

  lemma {:induction false} WavesAt(step: real, k: nat, hi: real)
    requires step > 0.0 && 60.0 <= hi && (k > 0 ==> WaveStart(step, k) <= hi)
    ensures WavesDone(Waves(step, k), WaveStart(step, k), k, hi)
  {
    if k == 0 {
      var a := [0.0];
      assert a[..0] == [];
      assert Reached(a) == Some(Window(0.0, 1)) && Logged(a, 60.0, hi) == 0;
      BurstAt(a, Window(0.0, 1), 60.0, 5, 60.0, hi);
    } else {
      WaveStartsApart(step, k);
      WavesAt(step, k - 1, hi);
      OneWaveMore(Waves(step, k - 1), WaveStart(step, k - 1), k - 1, WaveStart(step, k), hi);
    }
  }

  lemma OneWaveMore(moments: seq<real>, start: real, k: nat, t: real, hi: real)
    requires WavesDone(moments, start, k, hi) && start + WINDOW_SECONDS < t <= hi && 60.0 < t
    ensures WavesDone(Wave(moments, t), t, k + 1, hi)
  {
    WaveAt(moments, Window(start, 6), t, 60.0, hi);
  }

  lemma BoundReached(span: real) returns (moments: seq<real>, lo: real, hi: real)
    requires span >= 0.0
    ensures lo <= hi && hi - lo == span && Ordered(moments) && Logged(moments, lo, hi) == MostLines(span)
  {
    if span == 0.0 {
      var a := [0.0];
      assert a[..0] == [];
      assert Reached(a) == Some(Window(0.0, 1)) && Logged(a, 0.0, 0.0) == 1;
      BurstAt(a, Window(0.0, 1), 0.0, 5, 0.0, 0.0);
      moments, lo, hi := Burst(a, 0.0, 5), 0.0, 0.0;
    } else {
      var k := Ceiling(span / WINDOW_SECONDS);
      CeilingBounds(span, 1);
      LastWaveFits(span, k);
      var step := (span - WINDOW_SECONDS * ((k - 1) as real)) / (k as real);
      WavesAt(step, k, 60.0 + span);
      moments, lo, hi := Waves(step, k), 60.0, 60.0 + span;
    }
  }

  /** One user denied at these moments. */
  function Traffic(userId: string, moments: seq<real>): seq<Denial> {
    seq(|moments|, i requires 0 <= i < |moments| => Denial(userId, moments[i], "project", "p", None))
  }

  lemma {:induction false} TrafficIsMine(userId: string, moments: seq<real>)
    ensures Mine(Traffic(userId, moments), userId) == moments
  {
    if moments != [] {
      var n := |moments| - 1;
      assert Traffic(userId, moments)[..n] == Traffic(userId, moments[..n]);
      TrafficIsMine(userId, moments[..n]);
      assert moments == moments[..n] + [moments[n]];
    }
  }

  /** The bound is attained for every length of span, by real traffic through the log: no smaller one holds. */
  lemma FloodBoundReached(span: real, userId: string)
    requires span >= 0.0
    ensures exists denials, lo, hi ::
      ClockRuns(denials) && hi - lo == span && CountLines(denials, userId, lo, hi) == MostLines(span)
  {
    var moments, lo, hi := BoundReached(span);
    TrafficIsMine(userId, moments);
    CountLinesIsLogged(Traffic(userId, moments), userId, lo, hi);
    assert ClockRuns(Traffic(userId, moments));
  }

  lemma LastWaveFits(span: real, k: int)
    requires span > 0.0 && k == Ceiling(span / WINDOW_SECONDS) && k >= 1
    ensures var step := (span - WINDOW_SECONDS * ((k - 1) as real)) / (k as real);
      step > 0.0 && WaveOffset(step, k) == span
  {
    var q := span / WINDOW_SECONDS;
    assert q.Floor as real <= q < q.Floor as real + 1.0;
    assert (k - 1) as real < q;
    assert WINDOW_SECONDS * ((k - 1) as real) < span;
    var rest := span - WINDOW_SECONDS * ((k - 1) as real);
    assert rest > 0.0 && rest / (k as real) * (k as real) == rest;
  }

  // ---------------------------------------------------------------------------
  // What a window reads like
  // ---------------------------------------------------------------------------

  /** One user's denials within a minute of the first, which starts a new window. */
  ghost predicate OneWindow(before: seq<Denial>, burst: seq<Denial>, userId: string) {
    && (forall i :: 0 <= i < |burst| ==> burst[i].userId == userId && burst[i].at - burst[0].at <= 60.0)
    && (burst != [] && userId in CountsAfter(before) ==> burst[0].at - CountsAfter(before)[userId].start > 60.0)
  }

  /** The log of a window: the first five denials as they are, the sixth as a notice, and nothing more. */
  function WindowLines(burst: seq<Denial>): seq<Line> {
    seq(Least(|burst|, 5), i requires 0 <= i < Least(|burst|, 5) => Denied(burst[i]))
    + (if |burst| >= 6 then [Notice(burst[5].userId, burst[5].orgId, 6)] else [])
  }

  function AsLines(line: Option<Line>): seq<Line> { if line.Some? then [line.value] else [] }

  lemma WindowLinesSnoc(burst: seq<Denial>)
    requires burst != []
    ensures WindowLines(burst) == WindowLines(burst[..|burst| - 1]) + AsLines(LineAt(burst[|burst| - 1], |burst|))
  {
  }

  /** The user's window when the log has just seen the burst. */
  lemma NextInWindow(before: seq<Denial>, burst: seq<Denial>, userId: string)
    requires burst != [] && OneWindow(before, burst, userId)
    requires |burst| > 1 ==>
      LookUp(CountsAfter(before + burst[..|burst| - 1]), userId) == Some(Window(burst[0].at, |burst| - 1))
    ensures var all := before + burst;
      && LookUp(CountsAfter(all), userId) == Some(Window(burst[0].at, |burst|))
      && LastLine(all) == LineAt(burst[|burst| - 1], |burst|)
  {
    var n := |burst| - 1;
    var all := before + burst;
    assert all[..|all| - 1] == before + burst[..n] && all[|all| - 1] == burst[n];
    if n == 0 { assert before + burst[..0] == before; }
  }

  lemma {:induction false} WindowCounts(before: seq<Denial>, burst: seq<Denial>, userId: string)
    requires OneWindow(before, burst, userId) && burst != []
    ensures LookUp(CountsAfter(before + burst), userId) == Some(Window(burst[0].at, |burst|))
    ensures LastLine(before + burst) == LineAt(burst[|burst| - 1], |burst|)
  {
    if |burst| > 1 { WindowCounts(before, burst[..|burst| - 1], userId); }
    NextInWindow(before, burst, userId);
  }

  lemma LinesSnoc(denials: seq<Denial>, d: Denial)
    ensures Lines(denials + [d]) == Lines(denials) + AsLines(LastLine(denials + [d]))
  {
    assert (denials + [d])[..|denials|] == denials;
  }

  lemma ShorterWindow(before: seq<Denial>, burst: seq<Denial>, userId: string)
    requires OneWindow(before, burst, userId) && burst != []
    ensures OneWindow(before, burst[..|burst| - 1], userId)
  {
  }

  lemma ReadsSnoc(before: seq<Denial>, init: seq<Denial>, d: Denial)
    requires Lines(before + init) == Lines(before) + WindowLines(init)
    requires LastLine(before + (init + [d])) == LineAt(d, |init| + 1)
    ensures Lines(before + (init + [d])) == Lines(before) + WindowLines(init + [d])
  {
    assert (init + [d])[..|init|] == init;
    WindowLinesSnoc(init + [d]);
    LinesSnoc(before + init, d);
    assert before + init + [d] == before + (init + [d]);
  }

  /** After any denials of any users: the denials of a new window are written as such. */
  lemma {:induction false} WindowReads(before: seq<Denial>, burst: seq<Denial>, userId: string)
    requires OneWindow(before, burst, userId)
    ensures Lines(before + burst) == Lines(before) + WindowLines(burst)
  {
    if burst == [] {
      assert before + burst == before;
    } else {
      var init, d := burst[..|burst| - 1], burst[|burst| - 1];
      ShorterWindow(before, burst, userId);
      WindowReads(before, init, userId);
      WindowCounts(before, burst, userId);
      assert init + [d] == burst;
      ReadsSnoc(before, init, d);
    }
  }
}
