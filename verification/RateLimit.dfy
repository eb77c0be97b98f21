/**
 The per-IP request limiter. Its windows are fixed, not rolling: the promise of at most N
 requests "within a rolling 60-second window" is judged here against what `allow` does.
*/
module RateLimit {
  import opened Domain

  const MINUTE: int := 60_000_000_000

  datatype Window = Window(count: int, windowEnd: int)

  datatype Request = Request(ip: string, time: int)

  /** The decision for one request, and the window it leaves. */
  function Decide(w: Option<Window>, limit: int, now: int): (Window, bool) {
    if w == None || now > w.value.windowEnd then (Window(1, now + MINUTE), true)
    else if w.value.count >= limit then (w.value, false)
    else (w.value.(count := w.value.count + 1), true)
  }

  function RecordOf(records: map<string, Window>, ip: string): Option<Window> {
    if ip in records then Some(records[ip]) else None
  }

  class RateLimiter {
    var records: map<string, Window>
    const requestsPerMinute: int

    constructor (requestsPerMinute: int)
      ensures records == map[] && this.requestsPerMinute == requestsPerMinute
    {
      records := map[];
      this.requestsPerMinute := requestsPerMinute;
    }

    method Allow(ip: string, now: int) returns (ok: bool)
      modifies this`records
      ensures var (w, d) := Decide(RecordOf(old(records), ip), requestsPerMinute, now);
        ok == d && records == old(records)[ip := w]
      ensures if ip !in old(records) || now > old(records)[ip].windowEnd
              then ok && records == old(records)[ip := Window(1, now + 60_000_000_000)]
              else if old(records)[ip].count < requestsPerMinute
              then ok && records == old(records)[ip := old(records)[ip].(count := old(records)[ip].count + 1)]
              else !ok && records == old(records)
    {
      if ip !in records || now > records[ip].windowEnd {
        records := records[ip := Window(1, now + MINUTE)];
        return true;
      }
      if records[ip].count >= requestsPerMinute {
        assert records == records[ip := records[ip]];
        return false;
      }
      records := records[ip := records[ip].(count := records[ip].count + 1)];
      return true;
    }

    /** A whole trace of requests is decided as each IP's own requests are. */
    method Serve(trace: seq<Request>) returns (decisions: seq<bool>)
      requires records == map[]
      modifies this`records
      ensures |decisions| == |trace|
      ensures forall i :: 0 <= i < |trace| ==>
        decisions[i] == DecidedAlone(requestsPerMinute, trace, i)
      ensures InOrder(trace) ==> forall ip, a, b :: b - a <= 60_000_000_000 ==>
        Served(trace, decisions, ip, a, b) <= if requestsPerMinute < 1 then 1 else 2 * requestsPerMinute - 1
      ensures InOrder(trace) ==> forall i :: 0 <= i < |trace| ==>
        (!decisions[i] ==>
           Served(trace[..i], decisions[..i], trace[i].ip, trace[i].time - 60_000_000_000, trace[i].time) >= requestsPerMinute)
      ensures forall i :: 0 <= i < |trace| && (forall j :: 0 <= j < i ==> trace[j].ip != trace[i].ip) ==> decisions[i]
    {
      hide OwnTimes, WindowAfter, Admitted;
      decisions := [];
      NoTimes(requestsPerMinute);
      assert trace[..0] == [];
      for i := 0 to |trace|
        invariant |decisions| == i
        invariant forall ip :: RecordOf(records, ip) == WindowAfter(requestsPerMinute, OwnTimes(trace[..i], ip))
        invariant forall j :: 0 <= j < i ==> decisions[j] == DecidedAlone(requestsPerMinute, trace, j)
      {
        OwnTimesNext(trace, i);
        DecideNext(requestsPerMinute, OwnTimes(trace[..i], trace[i].ip), trace[i].time);
        ghost var before := records;
        var ok := Allow(trace[i].ip, trace[i].time);
        decisions := decisions + [ok];
        forall ip ensures RecordOf(records, ip) == WindowAfter(requestsPerMinute, OwnTimes(trace[..i + 1], ip)) {
          assert ip != trace[i].ip ==> RecordOf(records, ip) == RecordOf(before, ip);
        }
      }
      if InOrder(trace) {
        NoMinuteOverfull(requestsPerMinute, trace, decisions);
        NoIdleRejection(requestsPerMinute, trace, decisions);
      }
      FirstIsAdmitted(requestsPerMinute, trace, decisions);
    }
  }

  // ---------------------------------------------------------------- the whole trace

  predicate InOrder(trace: seq<Request>) {
    forall i, j :: 0 <= i < j < |trace| ==> trace[i].time <= trace[j].time
  }

  /** How many requests of the IP were admitted at a time in [a, b]. */
  function Served(trace: seq<Request>, decisions: seq<bool>, ip: string, a: int, b: int): nat
    requires |decisions| == |trace|
  {
    if trace == [] then 0
    else
      var n := |trace| - 1;
      Served(trace[..n], decisions[..n], ip, a, b)
      + (if decisions[n] && trace[n].ip == ip && a <= trace[n].time <= b then 1 else 0)
  }

  ghost predicate Decided(limit: int, trace: seq<Request>, decisions: seq<bool>) {
    |decisions| == |trace| && forall i :: 0 <= i < |trace| ==> decisions[i] == DecidedAlone(limit, trace, i)
  }

  lemma DecidedUntil(limit: int, trace: seq<Request>, decisions: seq<bool>, n: nat)
    requires Decided(limit, trace, decisions) && n <= |trace|
    ensures Decided(limit, trace[..n], decisions[..n])
  {
    hide Admitted, OwnTimes;
    assert forall i :: 0 <= i < n ==> trace[..n][..i] == trace[..i];
  }

  lemma {:induction false} ServedIsAdmitted(limit: int, trace: seq<Request>, decisions: seq<bool>, ip: string, a: int, b: int)
    requires Decided(limit, trace, decisions)
    ensures Served(trace, decisions, ip, a, b) == AdmittedIn(limit, OwnTimes(trace, ip), a, b)
  {
    hide Admitted;
    if trace != [] {
      var n := |trace| - 1;
      DecidedUntil(limit, trace, decisions, n);
      ServedIsAdmitted(limit, trace[..n], decisions[..n], ip, a, b);
      LastDecided(limit, trace, decisions);
      var before := OwnTimes(trace[..n], ip);
      if trace[n].ip == ip {
        assert (before + [trace[n].time])[..|before|] == before;
      } else {
        assert before + [] == before;
      }
    }
  }

  lemma {:induction false} LongerHoldsMore(limit: int, times: seq<int>, a: int, b: int, b': int)
    requires b <= b'
    ensures AdmittedIn(limit, times, a, b) <= AdmittedIn(limit, times, a, b')
  {
    if times != [] {
      LongerHoldsMore(limit, times[..|times| - 1], a, b, b');
    }
  }

  lemma LastDecided(limit: int, trace: seq<Request>, decisions: seq<bool>)
    requires Decided(limit, trace, decisions) && trace != []
    ensures decisions[|trace| - 1] == DecidedAlone(limit, trace, |trace| - 1)
  {
  }

  lemma {:induction false} OwnTimesOrdered(trace: seq<Request>, ip: string)
    requires InOrder(trace)
    ensures Ordered(OwnTimes(trace, ip))
    ensures trace != [] ==> forall i :: 0 <= i < |OwnTimes(trace, ip)| ==> OwnTimes(trace, ip)[i] <= trace[|trace| - 1].time
  {
    if trace != [] {
      OwnTimesOrdered(trace[..|trace| - 1], ip);
    }
  }

  lemma NoMinuteOverfull(limit: int, trace: seq<Request>, decisions: seq<bool>)
    requires Decided(limit, trace, decisions) && InOrder(trace)
    ensures forall ip, a, b :: b - a <= 60_000_000_000 ==>
      Served(trace, decisions, ip, a, b) <= if limit < 1 then 1 else 2 * limit - 1
  {
    hide OwnTimes, Served, AdmittedIn, Ordered, DecidedAlone;
    forall ip, a, b | b - a <= 60_000_000_000
      ensures Served(trace, decisions, ip, a, b) <= if limit < 1 then 1 else 2 * limit - 1
    {
      ServedIsAdmitted(limit, trace, decisions, ip, a, b);
      LongerHoldsMore(limit, OwnTimes(trace, ip), a, b, a + MINUTE);
      OwnTimesOrdered(trace, ip);
      AtMostTwiceMinusOne(limit, OwnTimes(trace, ip), a);
    }
  }

  lemma NoIdleRejection(limit: int, trace: seq<Request>, decisions: seq<bool>)
    requires Decided(limit, trace, decisions) && InOrder(trace)
    ensures forall i :: 0 <= i < |trace| ==>
      (!decisions[i] ==>
         Served(trace[..i], decisions[..i], trace[i].ip, trace[i].time - 60_000_000_000, trace[i].time) >= limit)
  {
    hide OwnTimes, Served, Admitted, Ordered;
    forall i | 0 <= i < |trace| && !decisions[i]
      ensures Served(trace[..i], decisions[..i], trace[i].ip, trace[i].time - 60_000_000_000, trace[i].time) >= limit
    {
      var ip, t := trace[i].ip, trace[i].time;
      var before := OwnTimes(trace[..i], ip);
      OwnTimesNext(trace, i);
      OwnTimesOrdered(trace[..i + 1], ip);
      RejectionIsEarned(limit, before + [t]);
      assert (before + [t])[..|before|] == before;
      DecidedUntil(limit, trace, decisions, i);
      ServedIsAdmitted(limit, trace[..i], decisions[..i], ip, t - MINUTE, t);
    }
  }

  lemma FirstIsAdmitted(limit: int, trace: seq<Request>, decisions: seq<bool>)
    requires Decided(limit, trace, decisions)
    ensures forall i :: 0 <= i < |trace| && (forall j :: 0 <= j < i ==> trace[j].ip != trace[i].ip) ==> decisions[i]
  {
    forall i | 0 <= i < |trace| && (forall j :: 0 <= j < i ==> trace[j].ip != trace[i].ip) ensures decisions[i] {
      NoOwnTimes(trace[..i], trace[i].ip);
      DecideNext(limit, [], trace[i].time);
      assert [] + [trace[i].time] == [trace[i].time];
    }
  }

  lemma {:induction false} NoOwnTimes(trace: seq<Request>, ip: string)
    requires forall j :: 0 <= j < |trace| ==> trace[j].ip != ip
    ensures OwnTimes(trace, ip) == []
  {
    if trace != [] {
      NoOwnTimes(trace[..|trace| - 1], ip);
    }
  }

  // ---------------------------------------------------------------- one IP

  /** The times of one IP's requests. */
  function OwnTimes(trace: seq<Request>, ip: string): seq<int> {
    if trace == [] then []
    else
      var r := trace[|trace| - 1];
      OwnTimes(trace[..|trace| - 1], ip) + (if r.ip == ip then [r.time] else [])
  }

  /** One IP's window after its requests at these times. */
  function WindowAfter(limit: int, times: seq<int>): Option<Window> {
    if times == [] then None
    else Some(Decide(WindowAfter(limit, times[..|times| - 1]), limit, times[|times| - 1]).0)
  }

  /** Whether the last of these requests is admitted. */
  predicate Admitted(limit: int, times: seq<int>)
    requires times != []
  {
    Decide(WindowAfter(limit, times[..|times| - 1]), limit, times[|times| - 1]).1
  }

  /** The decision on request `i` if only the requests of its own IP had been made. */
  predicate DecidedAlone(limit: int, trace: seq<Request>, i: nat)
    requires i < |trace|
  {
    Admitted(limit, OwnTimes(trace[..i], trace[i].ip) + [trace[i].time])
  }

  /** How many of the requests are admitted at a time in [a, b]. */
  function AdmittedIn(limit: int, times: seq<int>, a: int, b: int): nat {
    if times == [] then 0
    else
      AdmittedIn(limit, times[..|times| - 1], a, b)
      + (if Admitted(limit, times) && a <= times[|times| - 1] <= b then 1 else 0)
  }

  predicate Ordered(times: seq<int>) {
    forall i, j :: 0 <= i < j < |times| ==> times[i] <= times[j]
  }

  lemma NoTimes(limit: int)
    ensures forall ip :: OwnTimes([], ip) == []
    ensures WindowAfter(limit, []) == None
  {
  }

  lemma OwnTimesNext(trace: seq<Request>, i: nat)
    requires i < |trace|
    ensures forall ip ::
      OwnTimes(trace[..i + 1], ip) == OwnTimes(trace[..i], ip) + (if ip == trace[i].ip then [trace[i].time] else [])
    ensures forall ip :: ip != trace[i].ip ==> OwnTimes(trace[..i + 1], ip) == OwnTimes(trace[..i], ip)
  {
    assert trace[..i + 1][..i] == trace[..i];
    forall ip ensures OwnTimes(trace[..i], ip) + [] == OwnTimes(trace[..i], ip) {
    }
  }

  lemma DecideNext(limit: int, times: seq<int>, t: int)
    ensures var (w, d) := Decide(WindowAfter(limit, times), limit, t);
      WindowAfter(limit, times + [t]) == Some(w) && Admitted(limit, times + [t]) == d
  {
    assert (times + [t])[..|times|] == times;
  }

  /** What the current window says about the requests admitted in [a, a + MINUTE]. */
  lemma {:induction false} WindowBounds(limit: int, times: seq<int>, a: int)
    requires Ordered(times)
    ensures var w, in', n := WindowAfter(limit, times), AdmittedIn(limit, times, a, a + MINUTE), AtLeastOne(limit);
      && 0 <= in' <= 2 * n - 1
      && (w == None ==> in' == 0)
      && (w.Some? ==>
            var start := w.value.windowEnd - MINUTE;
            && 1 <= w.value.count <= n && start <= times[|times| - 1]
            && (times[|times| - 1] < a ==> in' == 0)
            && (start < a ==> in' <= w.value.count - 1)
            && (start <= a + MINUTE ==> in' <= n - 1 + w.value.count))
  {
    if times != [] {
      var m := |times| - 1;
      WindowBounds(limit, times[..m], a);
      if m > 0 {
        assert times[..m][m - 1] == times[m - 1] <= times[m];
      }
    }
  }

  /** At most 2N - 1 requests of one IP are admitted in any closed interval of a minute (one, if
      N is less than one). */
  lemma AtMostTwiceMinusOne(limit: int, times: seq<int>, a: int)
    requires Ordered(times)
    ensures AdmittedIn(limit, times, a, a + MINUTE) <= 2 * AtLeastOne(limit) - 1
  {
    WindowBounds(limit, times, a);
  }

  /** The current window was opened at `windowEnd - MINUTE` and has admitted `count` since. */
  lemma {:induction false} WindowCounts(limit: int, times: seq<int>, b: int)
    requires Ordered(times) && times != [] && times[|times| - 1] <= b
    ensures var w := WindowAfter(limit, times).value;
      w.windowEnd - MINUTE <= times[|times| - 1] && AdmittedIn(limit, times, w.windowEnd - MINUTE, b) >= w.count
  {
    var m := |times| - 1;
    if m > 0 {
      assert times[..m][m - 1] == times[m - 1] <= times[m];
      WindowCounts(limit, times[..m], b);
    }
  }

  lemma {:induction false} WiderHoldsMore(limit: int, times: seq<int>, a: int, a': int, b: int)
    requires a' <= a
    ensures AdmittedIn(limit, times, a, b) <= AdmittedIn(limit, times, a', b)
  {
    if times != [] {
      WiderHoldsMore(limit, times[..|times| - 1], a, a', b);
    }
  }

  /** A rejection at time t means N admissions of that IP within [t - 60s, t]. */
  lemma RejectionIsEarned(limit: int, times: seq<int>)
    requires Ordered(times) && times != [] && !Admitted(limit, times)
    ensures var t := times[|times| - 1]; AdmittedIn(limit, times, t - MINUTE, t) >= limit
  {
    var m, t := |times| - 1, times[|times| - 1];
    var before := times[..m];
    var w := WindowAfter(limit, before).value;
    assert before != [] && times[m - 1] <= t;
    WindowCounts(limit, before, t);
    WiderHoldsMore(limit, before, w.windowEnd - MINUTE, t - MINUTE, t);
  }

  // ---------------------------------------------------------------- the rolling promise

  /** One request, then `held` more a minute later in the same window, then `next` more an
      instant after, when that window is over. */
  function Burst(held: nat, next: nat): (times: seq<int>)
    ensures |times| == 1 + held + next
    ensures Ordered(times) && forall i :: 0 <= i < |times| ==> times[i] <= if next > 0 then MINUTE + 1 else MINUTE
    decreases held + next
  {
    if next > 0 then Burst(held, next - 1) + [MINUTE + 1]
    else if held > 0 then Burst(held - 1, 0) + [MINUTE]
    else [0]
  }

  lemma AdmittedNext(limit: int, times: seq<int>, t: int, a: int, b: int)
    ensures AdmittedIn(limit, times + [t], a, b)
         == AdmittedIn(limit, times, a, b) + (if Decide(WindowAfter(limit, times), limit, t).1 && a <= t <= b then 1 else 0)
  {
    assert (times + [t])[..|times|] == times;
  }

  lemma {:induction false} BurstAdmits(limit: int, held: nat, next: nat)
    requires held <= limit - 1 && next <= limit && (next > 0 ==> held == limit - 1)
    ensures WindowAfter(limit, Burst(held, next))
         == Some(if next > 0 then Window(next, 2 * MINUTE + 1) else Window(held + 1, MINUTE))
    ensures AdmittedInMinute(limit, Burst(held, next), MINUTE) == held + next
    decreases held + next
  {
    hide WindowAfter, AdmittedIn, Ordered;
    if next > 0 {
      var before := Burst(held, next - 1);
      BurstAdmits(limit, held, next - 1);
      DecideNext(limit, before, MINUTE + 1);
      AdmittedNext(limit, before, MINUTE + 1, MINUTE, MINUTE + MINUTE);
    } else if held > 0 {
      var before := Burst(held - 1, 0);
      BurstAdmits(limit, held - 1, 0);
      DecideNext(limit, before, MINUTE);
      AdmittedNext(limit, before, MINUTE, MINUTE, MINUTE + MINUTE);
    } else {
      OnlyOne(limit, 0, MINUTE);
    }
  }

  lemma OnlyOne(limit: int, t: int, a: int)
    ensures WindowAfter(limit, [t]) == Some(Window(1, t + MINUTE)) && Ordered([t])
    ensures AdmittedInMinute(limit, [t], a) == if a <= t <= a + MINUTE then 1 else 0
  {
    assert [] + [t] == [t];
    DecideNext(limit, [], t);
    AdmittedNext(limit, [], t, a, a + MINUTE);
  }

  function AdmittedInMinute(limit: int, times: seq<int>, a: int): nat {
    AdmittedIn(limit, times, a, a + MINUTE)
  }

  /** The promise: no minute, wherever it starts, holds more than `limit` admitted requests. */
  ghost predicate Rolling(limit: int) {
    forall times, a :: Ordered(times) ==> AdmittedInMinute(limit, times, a) <= limit
  }

  /** The bound 2N - 1 is reached, and the rolling promise is kept exactly for a limit of one. */
  lemma RollingOnlyForOne(limit: int)
    ensures limit >= 1 ==> AdmittedInMinute(limit, Burst(limit - 1, limit), MINUTE) == 2 * limit - 1
    ensures Rolling(limit) <==> limit == 1
  {
    hide WindowAfter, AdmittedIn, Ordered;
    if limit >= 1 {
      BurstAdmits(limit, limit - 1, limit);
    } else {
      OnlyOne(limit, 0, 0);
    }
    if limit == 1 {
      forall times, a | Ordered(times) ensures AdmittedInMinute(limit, times, a) <= limit {
        AtMostTwiceMinusOne(limit, times, a);
      }
    } else {
      var times := if limit >= 1 then Burst(limit - 1, limit) else [0];
      var a := if limit >= 1 then MINUTE else 0;
      assert Ordered(times) && AdmittedInMinute(limit, times, a) > limit;
    }
  }
}
