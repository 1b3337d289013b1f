/** The leaky-bucket limiter, with its two clock readings a call and exact arithmetic. */
module RateLimit {

  /** A call: when it was made, on the bucket's clock, and how many bytes it offered. */
  datatype Call = Call(time: real, bytes: nat)

  function Larger(a: real, b: real): real {
    if a >= b then a else b
  }

  /** Bytes offered by calls j .. k, refused ones included. */
  function Offered(h: seq<Call>, j: nat, k: nat): nat
    requires j <= k <= |h|
    decreases k
  {
    if j == k then 0 else Offered(h, j, k - 1) + h[k - 1].bytes
  }

  ghost predicate InOrder(h: seq<Call>) {
    forall j, k :: 0 <= j <= k < |h| ==> h[j].time <= h[k].time
  }

  /** What drains from the bucket in some time. */
  function Leaked(rate: nat, elapsed: real): real {
    rate as real * elapsed
  }

  /** What the bucket would hold if it had started empty at call j. */
  function LevelSince(h: seq<Call>, rate: nat, j: nat): real
    requires j < |h|
  {
    Offered(h, j, |h|) as real - Leaked(rate, h[|h| - 1].time - h[j].time)
  }

  /** The one number is the greatest of the levels since each earlier call. */
  ghost predicate IsLevel(h: seq<Call>, rate: nat, level: real) {
    if h == [] then level == 0.0
    else
      && (forall j: nat :: j < |h| ==> LevelSince(h, rate, j) <= level)
      && (exists j: nat :: j < |h| && LevelSince(h, rate, j) == level)
  }

  /** What the rate pays for between two instants, with one second's worth in hand. */
  function Budget(rate: nat, start: real, end: real): real {
    Leaked(rate, 1.0 + (end - start))
  }

  /** The history admits its last call. */
  ghost predicate Admits(h: seq<Call>, rate: nat)
    requires h != []
  {
    forall j: nat :: j < |h| ==> WithinSince(h, rate, j)
  }

  ghost predicate WithinSince(h: seq<Call>, rate: nat, j: nat)
    requires j < |h|
  {
    Offered(h, j, |h|) as real <= Budget(rate, h[j].time, h[|h| - 1].time)
  }

  lemma {:induction false} OfferedPrefix(h: seq<Call>, c: Call, j: nat, k: nat)
    requires j <= k <= |h|
    ensures Offered(h + [c], j, k) == Offered(h, j, k)
    decreases k
  {
    if j < k { OfferedPrefix(h, c, j, k - 1); }
  }

  /** One more call moves every earlier level alike. */
  lemma LevelShift(h: seq<Call>, rate: nat, c: Call, j: nat)
    requires j < |h|
    ensures LevelSince(h + [c], rate, j)
            == LevelSince(h, rate, j) - Leaked(rate, c.time - h[|h| - 1].time) + c.bytes as real
  {
    var g, x, y := h + [c], h[|h| - 1].time - h[j].time, c.time - h[|h| - 1].time;
    OfferedPrefix(h, c, j, |h|);
    assert Offered(g, j, |g|) == Offered(h, j, |h|) + c.bytes;
    assert g[|g| - 1].time - g[j].time == x + y;
    Distribute(rate, x, y);
  }

  lemma NothingLeaks(rate: nat)
    ensures Leaked(rate, 0.0) == 0.0
  {
  }

  lemma LevelOfLast(h: seq<Call>, rate: nat, c: Call)
    ensures LevelSince(h + [c], rate, |h|) == c.bytes as real
  {
    var g, n := h + [c], |h|;
    assert Offered(g, n, n) == 0 && g[n] == c && |g| == n + 1;
    NothingLeaks(rate);
  }

  lemma LevelStep(h: seq<Call>, rate: nat, level: real, c: Call, drained: real)
    requires IsLevel(h, rate, level)
    requires h != [] ==> drained == level - Leaked(rate, c.time - h[|h| - 1].time)
    requires h == [] ==> drained <= 0.0
    ensures IsLevel(h + [c], rate, Larger(drained, 0.0) + c.bytes as real)
  {
    var g, n := h + [c], |h|;
    var level' := Larger(drained, 0.0) + c.bytes as real;
    LevelOfLast(h, rate, c);
    forall j: nat | j < |g| ensures LevelSince(g, rate, j) <= level' {
      if j < n {
        LevelShift(h, rate, c, j);
        assert LevelSince(h, rate, j) <= level;
      }
    }
    if drained > 0.0 {
      var best: nat :| best < n && LevelSince(h, rate, best) == level;
      LevelShift(h, rate, c, best);
      assert LevelSince(g, rate, best) == level';
    } else {
      assert LevelSince(g, rate, n) == level';
    }
  }

  lemma Distribute(rate: nat, x: real, y: real)
    ensures Leaked(rate, x + y) == Leaked(rate, x) + Leaked(rate, y)
  {
  }

  lemma OneSecond(rate: nat)
    ensures Leaked(rate, 1.0) == rate as real
  {
  }

  lemma LevelAdmits(h: seq<Call>, rate: nat, level: real)
    requires h != [] && IsLevel(h, rate, level)
    ensures level <= rate as real <==> Admits(h, rate)
  {
    var last := h[|h| - 1].time;
    forall j: nat | j < |h| ensures WithinSince(h, rate, j) <==> LevelSince(h, rate, j) <= rate as real {
      Distribute(rate, 1.0, last - h[j].time);
      OneSecond(rate);
    }
    var best: nat :| best < |h| && LevelSince(h, rate, best) == level;
    if Admits(h, rate) { assert WithinSince(h, rate, best); }
    if level <= rate as real {
      forall j: nat | j < |h| ensures WithinSince(h, rate, j) { assert LevelSince(h, rate, j) <= level; }
    }
  }

  lemma CallStep(h: seq<Call>, rate: nat, level: real, last: real, c: Call)
    requires InOrder(h) && IsLevel(h, rate, level) && (h != [] ==> last == h[|h| - 1].time) && last <= c.time
    ensures var next := Larger(level - Leaked(rate, c.time - last), 0.0) + c.bytes as real;
            InOrder(h + [c]) && IsLevel(h + [c], rate, next) && (next <= rate as real <==> Admits(h + [c], rate))
  {
    var drained := level - Leaked(rate, c.time - last);
    NothingLeaks(rate);
    LeaksMore(rate, 0.0, c.time - last);
    LevelStep(h, rate, level, c, drained);
    LevelAdmits(h + [c], rate, Larger(drained, 0.0) + c.bytes as real);
  }

  lemma LeaksMore(rate: nat, x: real, y: real)
    requires x <= y
    ensures Leaked(rate, x) <= Leaked(rate, y)
  {
  }

  class RateLimiter {
    const maxBytesPerSecond: nat
    var accumulated: real
    var last: real
    ghost var history: seq<Call>
    /** The time between the two readings of each call so far; the bucket does not drain in it, so its
        clock runs this much late. */
    ghost var lost: real

    constructor (maxBytesPerSecond: nat, now: real)
      ensures Valid() && history == [] && last == now && lost == 0.0 && this.maxBytesPerSecond == maxBytesPerSecond
    {
      this.maxBytesPerSecond, accumulated, last, history, lost := maxBytesPerSecond, 0.0, now, [], 0.0;
    }

    ghost predicate Valid()
      reads this
    {
      && InOrder(history) && IsLevel(history, maxBytesPerSecond, accumulated)
      && (history != [] ==> last - lost == history[|history| - 1].time)
    }

    /** The answer is a statement about the whole history of calls.  The clock is read once for the time
        since the last call and again, at `later`, for the time to remember. */
    method Allow(bytes: nat, now: real, later: real) returns (ok: bool)
      requires Valid() && last <= now <= later
      modifies this
      ensures Valid() && last == later && lost == old(lost) + (later - now)
      ensures history == old(history) + [Call(now - old(lost), bytes)]
      ensures ok <==> Admits(history, maxBytesPerSecond)
    {
      ghost var call := Call(now - lost, bytes);
      CallStep(history, maxBytesPerSecond, accumulated, last - lost, call);
      var elapsed := now - last;
      assert call.time - (last - lost) == elapsed;
      var drained := accumulated - Leaked(maxBytesPerSecond, elapsed);
      accumulated := if drained >= 0.0 then drained else 0.0;
      last := later;
      accumulated := accumulated + bytes as real;
      history, lost := history + [call], lost + (later - now);
      ok := accumulated <= maxBytesPerSecond as real;
    }
  }

  // ---- what gets through ----

  /** Which calls were answered yes. */
  function AdmittedBytes(h: seq<Call>, ok: seq<bool>, j: nat, k: nat): nat
    requires j <= k <= |h| == |ok|
    decreases k
  {
    if j == k then 0 else AdmittedBytes(h, ok, j, k - 1) + if ok[k - 1] then h[k - 1].bytes else 0
  }

  ghost predicate Answers(h: seq<Call>, ok: seq<bool>, rate: nat) {
    && |ok| == |h|
    && forall k: nat :: k < |h| ==> (ok[k] <==> Admits(h[..k + 1], rate))
  }

  lemma {:induction false} OfferedTake(h: seq<Call>, j: nat, k: nat, m: nat)
    requires j <= k <= m <= |h|
    ensures Offered(h[..m], j, k) == Offered(h, j, k)
    decreases k
  {
    if j < k { OfferedTake(h, j, k - 1, m); }
  }

  lemma {:induction false} AdmittedAtMostOffered(h: seq<Call>, ok: seq<bool>, j: nat, k: nat)
    requires j <= k <= |h| == |ok|
    ensures AdmittedBytes(h, ok, j, k) <= Offered(h, j, k)
    decreases k
  {
    if j < k { AdmittedAtMostOffered(h, ok, j, k - 1); }
  }

  /** In any window that starts at a call, the bytes let through are at most the rate times one second
      more than the window. */
  lemma {:induction false} WindowBound(h: seq<Call>, ok: seq<bool>, rate: nat, j: nat, k: nat)
    requires InOrder(h) && Answers(h, ok, rate) && j < k <= |h|
    ensures AdmittedBytes(h, ok, j, k) as real <= Budget(rate, h[j].time, h[k - 1].time)
    decreases k
  {
    if ok[k - 1] {
      LastAdmitted(h, ok, rate, j, k);
    } else if k - 1 > j {
      WindowBound(h, ok, rate, j, k - 1);
      BudgetGrows(rate, h[j].time, h[k - 2].time, h[k - 1].time);
    } else {
      assert AdmittedBytes(h, ok, j, j) == 0;
      BudgetGrows(rate, h[j].time, h[j].time - 1.0, h[k - 1].time);
    }
  }

  lemma LastAdmitted(h: seq<Call>, ok: seq<bool>, rate: nat, j: nat, k: nat)
    requires Answers(h, ok, rate) && j < k <= |h| && ok[k - 1]
    ensures AdmittedBytes(h, ok, j, k) as real <= Budget(rate, h[j].time, h[k - 1].time)
  {
    var g := h[..k];
    assert h[..(k - 1) + 1] == g;
    assert Admits(g, rate) && WithinSince(g, rate, j);
    OfferedTake(h, j, k, k);
    AdmittedAtMostOffered(h, ok, j, k);
  }

  lemma BudgetGrows(rate: nat, start: real, end: real, later: real)
    requires end <= later
    ensures Budget(rate, start, end) <= Budget(rate, start, later)
    ensures end == start - 1.0 ==> Budget(rate, start, end) == 0.0
  {
    NothingLeaks(rate);
    LeaksMore(rate, 1.0 + (end - start), 1.0 + (later - start));
  }

  /** The same bound on the wall clock, which shows call i `late[i]` after the bucket's: lost time only
      makes the limiter stricter. */
  lemma WallClockBound(h: seq<Call>, ok: seq<bool>, rate: nat, late: seq<real>, j: nat, k: nat)
    requires InOrder(h) && Answers(h, ok, rate) && j < k <= |h| == |late|
    requires late[j] <= late[k - 1]
    ensures AdmittedBytes(h, ok, j, k) as real <= Budget(rate, h[j].time + late[j], h[k - 1].time + late[k - 1])
  {
    WindowBound(h, ok, rate, j, k);
    LeaksMore(rate, 1.0 + (h[k - 1].time - h[j].time), 1.0 + (h[k - 1].time + late[k - 1] - (h[j].time + late[j])));
  }

  // ---- a limiter in use ----

  /** One call of `allow`: the bytes offered and its two readings of the clock. */
  datatype Offer = Offer(bytes: nat, now: real, later: real)

  /** The clock never goes back. */
  predicate Timed(offers: seq<Offer>, start: real) {
    forall i: nat :: i < |offers| ==> TimedAt(offers, start, i)
  }

  predicate TimedAt(offers: seq<Offer>, start: real, i: nat) {
    i < |offers| && (if i == 0 then start else offers[i - 1].later) <= offers[i].now <= offers[i].later
  }

  /** Call i of the history is offer i, on a clock that runs `late[i]` late. */
  ghost predicate LoggedAt(h: seq<Call>, offers: seq<Offer>, late: seq<real>, i: nat) {
    i < |h| && i < |offers| && i < |late| && h[i] == Call(offers[i].now - late[i], offers[i].bytes)
  }

  ghost predicate Logged(h: seq<Call>, offers: seq<Offer>, late: seq<real>) {
    && |late| == |h| <= |offers|
    && (forall i: nat :: i < |h| ==> LoggedAt(h, offers, late, i))
    && forall i, j :: 0 <= i <= j < |late| ==> late[i] <= late[j]
  }

  lemma AnswersSnoc(h: seq<Call>, ok: seq<bool>, rate: nat, c: Call, answer: bool)
    requires Answers(h, ok, rate) && (answer <==> Admits(h + [c], rate))
    ensures Answers(h + [c], ok + [answer], rate)
  {
    forall k: nat | k < |h| + 1 ensures (ok + [answer])[k] <==> Admits((h + [c])[..k + 1], rate) {
      if k < |h| { assert (h + [c])[..k + 1] == h[..k + 1]; } else { assert (h + [c])[..k + 1] == h + [c]; }
    }
  }

  lemma LoggedSnoc(h: seq<Call>, offers: seq<Offer>, late: seq<real>, lost: real, c: Call)
    requires Logged(h, offers, late) && |h| < |offers| && (forall i :: 0 <= i < |late| ==> late[i] <= lost)
    requires c == Call(offers[|h|].now - lost, offers[|h|].bytes)
    ensures Logged(h + [c], offers, late + [lost])
  {
    forall i: nat | i < |h| + 1 ensures LoggedAt(h + [c], offers, late + [lost], i) {
      if i < |h| { assert LoggedAt(h, offers, late, i); }
    }
  }

  /** Any calls of a new limiter, answered one after the other: in any window of them that starts at a
      call, the bytes let through are at most the rate times one second more than the window lasts on the
      clock that the callers read. */
  method CallAll(limiter: RateLimiter, offers: seq<Offer>) returns (ok: seq<bool>)
    requires limiter.Valid() && limiter.history == [] && Timed(offers, limiter.last)
    modifies limiter
    ensures limiter.Valid() && |ok| == |offers| == |limiter.history|
    ensures Answers(limiter.history, ok, limiter.maxBytesPerSecond)
    ensures forall i: nat :: i < |offers| ==> limiter.history[i].bytes == offers[i].bytes
    ensures forall j: nat, k: nat :: j < k <= |offers| ==>
              AdmittedBytes(limiter.history, ok, j, k) as real
              <= Budget(limiter.maxBytesPerSecond, offers[j].now, offers[k - 1].now)
  {
    ok := [];
    ghost var late: seq<real> := [];
    ghost var rate := limiter.maxBytesPerSecond;
    ghost var start := limiter.last;
    var i := 0;
    while i < |offers|
      invariant i == |ok| == |limiter.history| <= |offers| && limiter.Valid()
      invariant limiter.last == if i == 0 then start else offers[i - 1].later
      invariant Answers(limiter.history, ok, rate) && Logged(limiter.history, offers, late)
      invariant forall k :: 0 <= k < |late| ==> late[k] <= limiter.lost
    {
      assert TimedAt(offers, start, i);
      ghost var h, lost := limiter.history, limiter.lost;
      var answer := limiter.Allow(offers[i].bytes, offers[i].now, offers[i].later);
      AnswersSnoc(h, ok, rate, Call(offers[i].now - lost, offers[i].bytes), answer);
      LoggedSnoc(h, offers, late, lost, Call(offers[i].now - lost, offers[i].bytes));
      ok, late := ok + [answer], late + [lost];
      i := i + 1;
    }
    forall k: nat | k < |offers| ensures limiter.history[k].bytes == offers[k].bytes {
      assert LoggedAt(limiter.history, offers, late, k);
    }
    forall j: nat, k: nat | j < k <= |offers|
      ensures AdmittedBytes(limiter.history, ok, j, k) as real <= Budget(rate, offers[j].now, offers[k - 1].now)
    {
      assert LoggedAt(limiter.history, offers, late, j) && LoggedAt(limiter.history, offers, late, k - 1);
      WallClockBound(limiter.history, ok, rate, late, j, k);
    }
  }
}
