/** The fixed-window rate limiter and its cleanup.  Times are whole nanoseconds. */
module RateLimit {
  import opened Options

  datatype Window = Window(count: int, reset: int)

  type Windows = map<string, Window>

  datatype Event = Request(key: string, now: int) | Cleanup(now: int)

  /** The answer to a request, and the windows after it. */
  function Allowed(ws: Windows, limit: int, key: string, now: int): bool {
    !(key in ws && now <= ws[key].reset && ws[key].count >= limit)
  }

  function AfterRequest(ws: Windows, limit: int, dur: int, key: string, now: int): Windows {
    if key !in ws || now > ws[key].reset then ws[key := Window(1, now + dur)]
    else if ws[key].count >= limit then ws
    else ws[key := ws[key].(count := ws[key].count + 1)]
  }

  function AfterCleanup(ws: Windows, now: int): Windows {
    map k | k in ws && now <= ws[k].reset :: ws[k]
  }

  // ----- the program -----

  class Limiter {
    var windows: Windows
    const limit: int
    const dur: int

    constructor (limit: int, dur: int)
      ensures windows == map[] && this.limit == limit && this.dur == dur
    {
      windows := map[];
      this.limit, this.dur := limit, dur;
    }

    method Allow(key: string, now: int) returns (ok: bool)
      modifies `windows
      ensures ok == Allowed(old(windows), limit, key, now)
      ensures windows == AfterRequest(old(windows), limit, dur, key, now)
    {
      if key !in windows || now > windows[key].reset {
        windows := windows[key := Window(1, now + dur)];
        return true;
      }
      var w := windows[key];
      if w.count >= limit {
        return false;
      }
      windows := windows[key := w.(count := w.count + 1)];
      ok := true;
    }

    /** One pass of the cleanup loop. */
    method Cleanup(now: int)
      modifies `windows
      ensures windows == AfterCleanup(old(windows), now)
    {
      var rest := windows.Keys;
      while rest != {}
        invariant rest <= windows.Keys <= old(windows).Keys
        invariant forall k | k in rest :: windows[k] == old(windows)[k]
        invariant forall k | k in old(windows) && k !in rest :: k in windows <==> now <= old(windows)[k].reset
        invariant forall k | k in windows :: windows[k] == old(windows)[k]
        decreases rest
      {
        var k :| k in rest;
        if now > windows[k].reset {
          windows := windows - {k};
        }
        rest := rest - {k};
      }
    }
  }

  // ----- runs -----

  /** The clock does not go back. */
  predicate Ordered(es: seq<Event>) {
    forall i, j | 0 <= i < j < |es| :: es[i].now <= es[j].now
  }

  function Exec(es: seq<Event>, limit: int, dur: int): Windows {
    if es == [] then map[]
    else
      var ws, e := Exec(es[..|es| - 1], limit, dur), es[|es| - 1];
      match e
      case Request(key, now) => AfterRequest(ws, limit, dur, key, now)
      case Cleanup(now) => AfterCleanup(ws, now)
  }

  /** The same run without the cleanups. */
  function Requests(es: seq<Event>): seq<Event> {
    if es == [] then []
    else
      var e := es[|es| - 1];
      Requests(es[..|es| - 1]) + if e.Request? then [e] else []
  }

  // ----- cleanup is invisible -----

  /** The window that still counts at time `now`. */
  function LiveWindow(ws: Windows, key: string, now: int): Option<Window> {
    if key in ws && now <= ws[key].reset then Some(ws[key]) else None
  }

  ghost predicate SameFrom(a: Windows, b: Windows, now: int) {
    forall key, t | now <= t :: LiveWindow(a, key, t) == LiveWindow(b, key, t)
  }

  lemma RequestSame(a: Windows, b: Windows, limit: int, dur: int, key: string, now: int)
    requires SameFrom(a, b, now)
    ensures Allowed(a, limit, key, now) == Allowed(b, limit, key, now)
    ensures SameFrom(AfterRequest(a, limit, dur, key, now), AfterRequest(b, limit, dur, key, now), now)
  {
    assert LiveWindow(a, key, now) == LiveWindow(b, key, now);
    var a', b' := AfterRequest(a, limit, dur, key, now), AfterRequest(b, limit, dur, key, now);
    forall k, t | now <= t
      ensures LiveWindow(a', k, t) == LiveWindow(b', k, t)
    {
      assert LiveWindow(a, k, t) == LiveWindow(b, k, t);
    }
  }

  lemma CleanupSame(a: Windows, b: Windows, now: int)
    requires SameFrom(a, b, now)
    ensures SameFrom(AfterCleanup(a, now), b, now)
  {
    forall k, t | now <= t
      ensures LiveWindow(AfterCleanup(a, now), k, t) == LiveWindow(b, k, t)
    {
      assert LiveWindow(a, k, t) == LiveWindow(b, k, t);
    }
  }

  lemma {:induction false} CleanupTracked(es: seq<Event>, limit: int, dur: int, now: int)
    requires Ordered(es) && forall i | 0 <= i < |es| :: es[i].now <= now
    ensures SameFrom(Exec(es, limit, dur), Exec(Requests(es), limit, dur), now)
    decreases |es|
  {
    if es != [] {
      var front, e, n := es[..|es| - 1], es[|es| - 1], |es|;
      CleanupTracked(front, limit, dur, e.now);
      var a, b := Exec(front, limit, dur), Exec(Requests(front), limit, dur);
      match e {
        case Request(key, t) =>
          RequestSame(a, b, limit, dur, key, t);
          assert (Requests(front) + [e])[..|Requests(front)|] == Requests(front);
        case Cleanup(t) =>
          CleanupSame(a, b, t);
          assert Requests(front) + [] == Requests(front);
      }
    }
  }

  /** Cleanups anywhere in a run change no answer: each request is answered as without them. */
  lemma CleanupInvisible(es: seq<Event>, limit: int, dur: int, i: nat)
    requires Ordered(es) && i < |es| && es[i].Request?
    ensures Allowed(Exec(es[..i], limit, dur), limit, es[i].key, es[i].now)
         == Allowed(Exec(Requests(es[..i]), limit, dur), limit, es[i].key, es[i].now)
    ensures forall e :: e in Requests(es) <==> e in es && e.Request?
  {
    CleanupTracked(es[..i], limit, dur, es[i].now);
    RequestSame(Exec(es[..i], limit, dur), Exec(Requests(es[..i]), limit, dur), limit, dur, es[i].key, es[i].now);
    AllRequests(es);
  }

  lemma {:induction false} AllRequests(es: seq<Event>)
    ensures forall e :: e in Requests(es) <==> e in es && e.Request?
    decreases |es|
  {
    if es != [] {
      AllRequests(es[..|es| - 1]);
      assert es == es[..|es| - 1] + [es[|es| - 1]];
    }
  }

  // ----- what the cleaner drops -----

  /** Requests at time `now` and later. */
  predicate LaterRequests(now: int, es: seq<Event>) {
    Ordered(es) && forall i | 0 <= i < |es| :: es[i].Request? && now <= es[i].now
  }

  /** The answers to requests that come one after the other on the windows `ws`. */
  function AnswersFrom(ws: Windows, es: seq<Event>, limit: int, dur: int): seq<bool>
    requires forall i | 0 <= i < |es| :: es[i].Request?
    decreases |es|
  {
    if es == [] then []
    else
      [Allowed(ws, limit, es[0].key, es[0].now)] +
      AnswersFrom(AfterRequest(ws, limit, dur, es[0].key, es[0].now), es[1..], limit, dur)
  }

  /** Whether the window of the key can change an answer at time `now` or later. */
  ghost predicate Matters(ws: Windows, key: string, limit: int, dur: int, now: int) {
    exists es :: LaterRequests(now, es) && AnswersFrom(ws, es, limit, dur) != AnswersFrom(ws - {key}, es, limit, dur)
  }

  lemma {:induction false} SameAnswers(a: Windows, b: Windows, es: seq<Event>, limit: int, dur: int, now: int)
    requires SameFrom(a, b, now) && LaterRequests(now, es)
    ensures AnswersFrom(a, es, limit, dur) == AnswersFrom(b, es, limit, dur)
    decreases |es|
  {
    if es != [] {
      var k, t := es[0].key, es[0].now;
      assert SameFrom(a, b, t);
      RequestSame(a, b, limit, dur, k, t);
      SameAnswers(AfterRequest(a, limit, dur, k, t), AfterRequest(b, limit, dur, k, t), es[1..], limit, dur, t);
    }
  }

  /** So many requests of the key at one time. */
  function AtOnce(key: string, now: int, n: nat): (es: seq<Event>)
    ensures LaterRequests(now, es)
  {
    seq(n, _ => Request(key, now))
  }

  lemma AtOnceFirst(ws: Windows, key: string, limit: int, dur: int, now: int, n: nat)
    requires n > 0
    ensures AnswersFrom(ws, AtOnce(key, now, n), limit, dur) ==
      [Allowed(ws, limit, key, now)] +
      AnswersFrom(AfterRequest(ws, limit, dur, key, now), AtOnce(key, now, n - 1), limit, dur)
  {
    assert AtOnce(key, now, n)[1..] == AtOnce(key, now, n - 1);
  }

  /** The window leaves room for `n` requests, or there is none. */
  predicate Roomy(ws: Windows, key: string, limit: int, now: int, n: nat) {
    || n == 0
    || ((key !in ws || now > ws[key].reset) && n <= PerWindow(limit))
    || (key in ws && 0 <= ws[key].count && ws[key].count + n <= limit)
  }

  lemma {:induction false} AllPass(ws: Windows, key: string, limit: int, dur: int, now: int, n: nat)
    requires Roomy(ws, key, limit, now, n)
    ensures AnswersFrom(ws, AtOnce(key, now, n), limit, dur) == seq(n, _ => true)
    decreases n
  {
    if n > 0 {
      AtOnceFirst(ws, key, limit, dur, now, n);
      AllPass(AfterRequest(ws, limit, dur, key, now), key, limit, dur, now, n - 1);
      assert [true] + seq(n - 1, _ => true) == seq(n, _ => true);
    }
  }

  lemma {:induction false} LastRefused(ws: Windows, key: string, limit: int, dur: int, now: int, n: nat)
    requires key in ws && now <= ws[key].reset && n > 0
    requires limit <= ws[key].count + n - 1 && (n > 1 ==> limit == ws[key].count + n - 1)
    ensures AnswersFrom(ws, AtOnce(key, now, n), limit, dur) != seq(n, _ => true)
    decreases n
  {
    AtOnceFirst(ws, key, limit, dur, now, n);
    if n > 1 {
      LastRefused(AfterRequest(ws, limit, dur, key, now), key, limit, dur, now, n - 1);
      assert seq(n, _ => true)[1..] == seq(n - 1, _ => true);
    } else {
      assert seq(n, _ => true)[0];
    }
  }

  lemma WindowMatters(ws: Windows, key: string, limit: int, dur: int, now: int)
    requires key in ws && ws[key].count >= 1
    ensures now <= ws[key].reset <==> Matters(ws, key, limit, dur, now)
  {
    if now <= ws[key].reset {
      var n := if limit <= ws[key].count then 1 else limit - ws[key].count + 1;
      LastRefused(ws, key, limit, dur, now, n);
      AllPass(ws - {key}, key, limit, dur, now, n);
      assert LaterRequests(now, AtOnce(key, now, n));
    } else {
      forall es | LaterRequests(now, es)
        ensures AnswersFrom(ws, es, limit, dur) == AnswersFrom(ws - {key}, es, limit, dur)
      {
        SameAnswers(ws, ws - {key}, es, limit, dur, now);
      }
    }
  }

  /** Every window that a run leaves counts a request at least. */
  lemma {:induction false} CountsPositive(es: seq<Event>, limit: int, dur: int, key: string)
    requires key in Exec(es, limit, dur)
    ensures Exec(es, limit, dur)[key].count >= 1
    decreases |es|
  {
    var front := es[..|es| - 1];
    if key in Exec(front, limit, dur) {
      CountsPositive(front, limit, dur, key);
    }
  }

  /** After any run, a pass of the cleanup loop keeps exactly the windows that can still change an answer, unchanged. */
  lemma CleanupExact(es: seq<Event>, key: string, limit: int, dur: int, now: int)
    requires key in Exec(es, limit, dur)
    ensures var ws := Exec(es, limit, dur);
      && (key in AfterCleanup(ws, now) <==> Matters(ws, key, limit, dur, now))
      && (key in AfterCleanup(ws, now) ==> AfterCleanup(ws, now)[key] == ws[key])
  {
    CountsPositive(es, limit, dur, key);
    WindowMatters(Exec(es, limit, dur), key, limit, dur, now);
  }

  // ----- how many requests are let through -----

  /** How many requests of `key` are allowed at times from `a` to `b`. */
  function Passed(es: seq<Event>, limit: int, dur: int, key: string, a: int, b: int): nat {
    if es == [] then 0
    else
      var front, e := es[..|es| - 1], es[|es| - 1];
      Passed(front, limit, dur, key, a, b) +
      if e.Request? && e.key == key && a <= e.now <= b && Allowed(Exec(front, limit, dur), limit, key, e.now)
      then 1 else 0
  }

  /** What one window lets through. */
  function PerWindow(limit: int): int {
    if limit < 1 then 1 else limit
  }

  function Ceil(n: int, d: int): int
    requires d > 0
  {
    (n + d - 1) / d
  }

  /** What an interval of length `length` lets through. */
  function Bound(limit: int, dur: int, length: int): int
    requires dur > 0
  {
    if length == 0 then PerWindow(limit) else (Ceil(length, dur) + 1) * PerWindow(limit) - 1
  }

  /** The interval from `a` on has met `k` windows of the key, the last one `w`; `early` if the first of them
      was opened before `a`, with a request that does not count. */
  predicate Met(k: int, early: bool, w: Window, limit: int, dur: int, a: int, passed: int) {
    var start, m := w.reset - dur, PerWindow(limit);
    && k >= 1 && a <= w.reset
    && passed <= (k - 1) * m + w.count - (if early then 1 else 0)
    && (early ==> k == 1 || start > a + (k - 2) * dur)
    && (!early ==> if k == 1 then start >= a else start > a + (k - 1) * dur)
  }

  /** The state of the count after some requests at times up to `b`. */
  predicate Counted(k: int, early: bool, ws: Windows, limit: int, dur: int, key: string, a: int, now: int,
                    passed: int)
  {
    && (key in ws ==> 1 <= ws[key].count <= PerWindow(limit) && ws[key].reset - dur <= now)
    && (passed == 0 && key in ws ==> ws[key].reset - dur < a)
    && (passed > 0 ==> key in ws && Met(k, early, ws[key], limit, dur, a, passed))
  }

  lemma RequestCounted(k: int, early: bool, ws: Windows, limit: int, dur: int, key: string, a: int, was: int, now: int,
                       passed: nat)
    returns (k': int, early': bool)
    requires dur > 0 && was <= now && Counted(k, early, ws, limit, dur, key, a, was, passed)
    ensures Counted(k', early', AfterRequest(ws, limit, dur, key, now), limit, dur, key, a, now,
                    passed + if a <= now && Allowed(ws, limit, key, now) then 1 else 0)
      || (now < a && passed > 0)
  {
    k', early' := k, early;
    var opens := key !in ws || now > ws[key].reset;
    if a <= now {
      if opens {
        k', early' := if passed == 0 then 1 else k + 1, passed > 0 && early;
        if passed > 0 {
          OneWindowMore(k, PerWindow(limit));
          OneWindowMore(k - 1, dur);
          OneWindowMore(k - 2, dur);
        }
      } else if passed == 0 {
        k', early' := 1, true;
      }
    }
  }

  lemma OneWindowMore(k: int, m: int)
    ensures (k + 1) * m == k * m + m && (k - 1) * m == k * m - m
  {
  }

  lemma {:induction false} RunCounted(es: seq<Event>, limit: int, dur: int, key: string, a: int, b: int)
    returns (k: int, early: bool)
    requires dur > 0 && Ordered(es) && forall i | 0 <= i < |es| :: es[i].Request? && es[i].now <= b
    ensures Counted(k, early, Exec(es, limit, dur), limit, dur, key, a, if es == [] then a else es[|es| - 1].now,
                    Passed(es, limit, dur, key, a, b))
    decreases |es|
  {
    k, early := 1, false;
    if es != [] {
      var front, e := es[..|es| - 1], es[|es| - 1];
      k, early := RunCounted(front, limit, dur, key, a, b);
      var ws, passed := Exec(front, limit, dur), Passed(front, limit, dur, key, a, b);
      var was := if front == [] then e.now else front[|front| - 1].now;
      NothingBefore(front, limit, dur, key, a, b);
      if e.key == key {
        k, early := RequestCounted(k, early, ws, limit, dur, key, a, was, e.now, passed);
      }
    }
  }

  /** Requests before the interval do not count. */
  lemma {:induction false} NothingBefore(es: seq<Event>, limit: int, dur: int, key: string, a: int, b: int)
    requires Ordered(es)
    ensures es != [] && es[|es| - 1].now < a ==> Passed(es, limit, dur, key, a, b) == 0
    decreases |es|
  {
    if es != [] {
      NothingBefore(es[..|es| - 1], limit, dur, key, a, b);
    }
  }

  lemma TimesMonotone(x: int, y: int, m: int)
    requires x <= y && m >= 0
    ensures x * m <= y * m
  {
  }

  lemma FewWindows(n: int, dur: int, length: int)
    requires dur > 0 && n * dur < length
    ensures n + 1 <= Ceil(length, dur)
  {
    var c := Ceil(length, dur);
    assert c * dur >= length;
    if c <= n {
      TimesMonotone(c, n, dur);
    }
  }

  /** `k` windows of at most `m` each, bounded by `c` and one more. */
  lemma SumBound(k: int, c: int, m: int, count: int, passed: int)
    requires passed <= (k - 1) * m + count && count <= m && 0 <= m && k <= c
    ensures passed <= c * m
  {
    OneWindowMore(k, m);
    TimesMonotone(k, c, m);
  }

  lemma MetBound(k: int, early: bool, w: Window, limit: int, dur: int, a: int, b: int, passed: int)
    requires dur > 0 && a <= b && Met(k, early, w, limit, dur, a, passed)
    requires 1 <= w.count <= PerWindow(limit) && w.reset - dur <= b
    ensures passed <= Bound(limit, dur, b - a)
  {
    var m, c := PerWindow(limit), Ceil(b - a, dur);
    OneWindowMore(c, m);
    if k == 1 {
      if b > a {
        FewWindows(0, dur, b - a);
        TimesMonotone(1, c, m);
      }
    } else if early {
      FewWindows(k - 2, dur, b - a);
      NotInstant(k - 2, dur, b - a);
      SumBoundLess(k, c + 1, m, w.count, passed);
    } else {
      FewWindows(k - 1, dur, b - a);
      NotInstant(k - 1, dur, b - a);
      SumBound(k, c, m, w.count, passed);
    }
  }

  lemma NotInstant(n: int, dur: int, length: int)
    requires n >= 0 && dur > 0 && n * dur < length
    ensures length > 0
  {
  }

  lemma SumBoundLess(k: int, c: int, m: int, count: int, passed: int)
    requires passed <= (k - 1) * m + count - 1 && count <= m && 0 <= m && k <= c
    ensures passed <= c * m - 1
  {
    SumBound(k, c, m, count, passed + 1);
  }

  lemma {:induction false} RequestsBounded(es: seq<Event>, limit: int, dur: int, key: string, a: int, b: int)
    requires dur > 0 && a <= b && Ordered(es) && forall i | 0 <= i < |es| :: es[i].Request?
    ensures Passed(es, limit, dur, key, a, b) <= Bound(limit, dur, b - a)
    decreases |es|
  {
    if es != [] && es[|es| - 1].now > b {
      RequestsBounded(es[..|es| - 1], limit, dur, key, a, b);
    } else {
      var k, early := RunCounted(es, limit, dur, key, a, b);
      var passed := Passed(es, limit, dur, key, a, b);
      if passed > 0 {
        MetBound(k, early, Exec(es, limit, dur)[key], limit, dur, a, b, passed);
      } else {
        BoundPositive(limit, dur, b - a);
      }
    }
  }

  lemma BoundPositive(limit: int, dur: int, length: int)
    requires dur > 0 && length >= 0
    ensures 0 <= Bound(limit, dur, length) <= (Ceil(length, dur) + 1) * PerWindow(limit)
  {
    var c, m := Ceil(length, dur), PerWindow(limit);
    assert c >= 0;
    assert (c + 1) * m >= 1 * m;
  }

  lemma {:induction false} PassedWithoutCleanups(es: seq<Event>, limit: int, dur: int, key: string, a: int, b: int)
    requires Ordered(es)
    ensures Passed(es, limit, dur, key, a, b) == Passed(Requests(es), limit, dur, key, a, b)
    decreases |es|
  {
    if es != [] {
      var front, e := es[..|es| - 1], es[|es| - 1];
      PassedWithoutCleanups(front, limit, dur, key, a, b);
      if e.Request? {
        CleanupTracked(front, limit, dur, e.now);
        RequestSame(Exec(front, limit, dur), Exec(Requests(front), limit, dur), limit, dur, e.key, e.now);
        assert (Requests(front) + [e])[..|Requests(front)|] == Requests(front);
      } else {
        assert Requests(front) + [] == Requests(front);
      }
    }
  }

  lemma {:induction false} RequestsOrdered(es: seq<Event>)
    requires Ordered(es)
    ensures Ordered(Requests(es)) && forall i | 0 <= i < |Requests(es)| :: Requests(es)[i].Request?
    ensures forall i | 0 <= i < |Requests(es)| :: Requests(es)[i].now <= es[|es| - 1].now
    decreases |es|
  {
    if es != [] {
      RequestsOrdered(es[..|es| - 1]);
    }
  }

  /** The rate bound: in every run whose clock does not go back, with cleanups anywhere, an interval of length L
      lets through at most (ceil(L / dur) + 1) * max(1, limit) requests of a key, less one if L > 0. */
  lemma RateBound(es: seq<Event>, limit: int, dur: int, key: string, a: int, b: int)
    requires dur > 0 && a <= b && Ordered(es)
    ensures Passed(es, limit, dur, key, a, b) <= Bound(limit, dur, b - a)
    ensures Bound(limit, dur, b - a) <= (Ceil(b - a, dur) + 1) * PerWindow(limit)
  {
    PassedWithoutCleanups(es, limit, dur, key, a, b);
    RequestsOrdered(es);
    RequestsBounded(Requests(es), limit, dur, key, a, b);
    BoundPositive(limit, dur, b - a);
  }

  // ----- no request is refused without need -----

  /** The count of a window is made up of requests let through since it was opened. */
  lemma {:induction false} CountMadeUp(es: seq<Event>, limit: int, dur: int, key: string, a: int, b: int)
    requires Ordered(es) && forall i | 0 <= i < |es| :: es[i].now <= b
    ensures var ws := Exec(es, limit, dur);
      key in ws ==>
        && 1 <= ws[key].count && (es != [] ==> ws[key].reset - dur <= es[|es| - 1].now)
        && (a <= ws[key].reset - dur ==> ws[key].count <= Passed(es, limit, dur, key, a, b))
    decreases |es|
  {
    if es != [] {
      CountMadeUp(es[..|es| - 1], limit, dur, key, a, b);
    }
  }

  /** A request is refused only if as many requests of its key as the limit allows, and at least one, were let
      through in the time `dur` before it. */
  lemma RefusedWhenFull(es: seq<Event>, limit: int, dur: int, key: string, now: int)
    requires Ordered(es) && forall i | 0 <= i < |es| :: es[i].now <= now
    requires !Allowed(Exec(es, limit, dur), limit, key, now)
    ensures Passed(es, limit, dur, key, now - dur, now) >= PerWindow(limit)
  {
    CountMadeUp(es, limit, dur, key, now - dur, now);
  }

  // ----- "at most limit requests per dur" -----

  /** `n` requests at one time. */
  function Volley(key: string, t: int, n: nat): seq<Event> {
    if n == 0 then [] else Volley(key, t, n - 1) + [Request(key, t)]
  }

  /** A window opened at time 0 and filled in its last instant, and `n` more windows, each opened and filled as soon
      as the one before has passed. */
  function Rounds(key: string, limit: int, dur: int, n: nat): seq<Event> {
    if n == 0 then [Request(key, 0)] + Volley(key, dur, PerWindow(limit) - 1)
    else Rounds(key, limit, dur, n - 1) + Volley(key, n * (dur + 1), PerWindow(limit))
  }

  /** After these requests the key has one window, and so many of them were let through in the interval. */
  predicate After(es: seq<Event>, limit: int, dur: int, key: string, a: int, b: int, w: Window, last: int,
                  passed: int)
  {
    && Exec(es, limit, dur) == map[key := w] && Passed(es, limit, dur, key, a, b) == passed
    && Ordered(es) && forall i | 0 <= i < |es| :: es[i].now <= last
  }

  /** One more request that is let through. */
  lemma OneMore(es: seq<Event>, limit: int, dur: int, key: string, a: int, b: int, w: Window, last: int, passed: int,
                t: int)
    requires After(es, limit, dur, key, a, b, w, last, passed)
    requires a <= t <= b && last <= t && (t <= w.reset ==> w.count < limit)
    ensures After(es + [Request(key, t)], limit, dur, key, a, b,
                  if t <= w.reset then w.(count := w.count + 1) else Window(1, t + dur), t, passed + 1)
  {
    var es' := es + [Request(key, t)];
    assert es'[..|es'| - 1] == es;
  }

  lemma VolleyLast(es: seq<Event>, key: string, t: int, n: nat)
    requires n > 0
    ensures es + Volley(key, t, n) == es + Volley(key, t, n - 1) + [Request(key, t)]
  {
  }

  /** The rest of a window, filled at one time. */
  lemma {:induction false} Fill(es: seq<Event>, limit: int, dur: int, key: string, a: int, b: int, w: Window, last: int,
                                passed: int, t: int, n: nat, all: seq<Event>)
    requires After(es, limit, dur, key, a, b, w, last, passed) && all == es + Volley(key, t, n)
    requires a <= t <= b && last <= t <= w.reset && w.count + n <= limit
    ensures After(all, limit, dur, key, a, b, w.(count := w.count + n), t, passed + n)
    decreases n
  {
    if n == 0 {
      assert all == es;
    } else {
      var front := es + Volley(key, t, n - 1);
      Fill(es, limit, dur, key, a, b, w, last, passed, t, n - 1, front);
      OneMore(front, limit, dur, key, a, b, w.(count := w.count + n - 1), t, passed + n - 1, t);
      VolleyLast(es, key, t, n);
    }
  }

  lemma {:induction false} VolleyFirst(key: string, t: int, n: nat)
    requires n > 0
    ensures Volley(key, t, n) == [Request(key, t)] + Volley(key, t, n - 1)
  {
    if n > 1 {
      VolleyFirst(key, t, n - 1);
    }
  }

  /** The first window: what is let through at its last instant counts. */
  lemma FirstRound(limit: int, dur: int, key: string, b: int)
    requires dur > 0 && dur <= b
    ensures After(Rounds(key, limit, dur, 0), limit, dur, key, dur, b, Window(PerWindow(limit), dur), dur,
                  PerWindow(limit) - 1)
  {
    var first, none := [Request(key, 0)], [];
    assert first[..0] == none;
    assert Exec(none, limit, dur) == map[] && Passed(none, limit, dur, key, dur, b) == 0;
    assert After(first, limit, dur, key, dur, b, Window(1, dur), 0, 0);
    if limit < 2 {
      assert first + Volley(key, dur, 0) == first;
    } else {
      Fill(first, limit, dur, key, dur, b, Window(1, dur), 0, 0, dur, limit - 1, Rounds(key, limit, dur, 0));
    }
  }

  /** One more window, begun and filled at once. */
  lemma NextRound(es: seq<Event>, limit: int, dur: int, key: string, a: int, b: int, w: Window, last: int, passed: int,
                  t: int, all: seq<Event>)
    requires dur > 0 && After(es, limit, dur, key, a, b, w, last, passed)
    requires a <= t <= b && last <= t && w.reset < t && all == es + Volley(key, t, PerWindow(limit))
    ensures After(all, limit, dur, key, a, b, Window(PerWindow(limit), t + dur), t,
                  passed + PerWindow(limit))
  {
    var m, begun := PerWindow(limit), es + [Request(key, t)];
    OneMore(es, limit, dur, key, a, b, w, last, passed, t);
    VolleyFirst(key, t, m);
    assert all == begun + Volley(key, t, m - 1);
    if m == 1 {
      assert all == begun;
    } else {
      Fill(begun, limit, dur, key, a, b, Window(1, t + dur), t, passed + 1, t, m - 1, all);
    }
  }

  /** All rounds, the last one at time `t`. */
  lemma {:induction false} RoundsPass(limit: int, dur: int, key: string, b: int, n: nat, t: int, passed: int)
    requires dur > 0 && dur <= b && t <= b && t == n * (dur + 1) && passed == n * PerWindow(limit)
    ensures After(Rounds(key, limit, dur, n), limit, dur, key, dur, b,
                  Window(PerWindow(limit), t + dur), if n == 0 then dur else t, PerWindow(limit) - 1 + passed)
    decreases n
  {
    if n == 0 {
      FirstRound(limit, dur, key, b);
    } else {
      var m, before := PerWindow(limit), t - (dur + 1);
      OneWindowMore(n, dur + 1);
      OneWindowMore(n, m);
      TimesMonotone(1, n, dur + 1);
      RoundsPass(limit, dur, key, b, n - 1, before, passed - m);
      NextRound(Rounds(key, limit, dur, n - 1), limit, dur, key, dur, b, Window(m, before + dur),
                if n == 1 then dur else before, m - 1 + passed - m, t, Rounds(key, limit, dur, n));
    }
  }

  lemma WholeWindows(n: nat, dur: int)
    requires dur > 0
    ensures Ceil(n * dur, dur) == n
  {
    assert (n * dur + (dur - 1)) / dur == n by {
      var q := (n * dur + (dur - 1)) / dur;
      assert q * dur <= n * dur + dur - 1 < q * dur + dur;
      if q < n {
        TimesMonotone(q + 1, n, dur);
        OneWindowMore(q, dur);
      } else if n < q {
        TimesMonotone(n + 1, q, dur);
        OneWindowMore(n, dur);
      }
    }
  }

  /** The rate bound cannot be lowered: for every limit and every interval of up to `dur` whole windows there is a
      run that meets it. */
  lemma BoundAttained(limit: int, dur: int, key: string, n: nat)
    requires dur > 0 && 1 <= n <= dur
    ensures var es := Rounds(key, limit, dur, n);
      Ordered(es) && Passed(es, limit, dur, key, dur, dur + n * dur) == Bound(limit, dur, n * dur)
  {
    var m := PerWindow(limit);
    TimesMonotone(1, n, dur);
    assert n * (dur + 1) == n * dur + n;
    RoundsPass(limit, dur, key, dur + n * dur, n, n * (dur + 1), n * m);
    WholeWindows(n, dur);
    OneWindowMore(n, m);
  }

  /** The documented promise for one run, key and interval of length `dur`. */
  predicate WithinLimit(es: seq<Event>, limit: int, dur: int, key: string, a: int) {
    Passed(es, limit, dur, key, a, a + dur) <= limit
  }

  /** No interval of length `dur` ever lets through more than `limit` requests of a key exactly if the limit is
      one: a smaller limit lets one through all the same, and a larger one can be exceeded across the border of
      two windows. */
  lemma LimitPerDuration(limit: int, dur: int)
    requires dur > 0
    ensures (forall es, key, a | Ordered(es) :: WithinLimit(es, limit, dur, key, a)) <==> limit == 1
  {
    WholeWindows(1, dur);
    if limit == 1 {
      forall es, key, a | Ordered(es)
        ensures WithinLimit(es, limit, dur, key, a)
      {
        RateBound(es, limit, dur, key, a, a + dur);
      }
    } else {
      var es := LimitExceeded(limit, dur);
      assert !WithinLimit(es, limit, dur, "", dur);
    }
  }

  /** A run that goes beyond any limit but one. */
  lemma LimitExceeded(limit: int, dur: int) returns (es: seq<Event>)
    requires dur > 0 && limit != 1
    ensures Ordered(es) && !WithinLimit(es, limit, dur, "", dur)
  {
    es := Rounds("", limit, dur, 1);
    WholeWindows(1, dur);
    BoundAttained(limit, dur, "", 1);
  }
}
