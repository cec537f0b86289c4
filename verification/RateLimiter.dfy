/** The sliding-window rate limiter: one queue of accepted times per client,
    trimmed lazily when that client calls again. */
module RateLimiter {

  /** Drop the leading entries that have left the window. */
  function Evict(q: seq<real>, cutoff: real): seq<real> {
    if q != [] && q[0] <= cutoff then Evict(q[1..], cutoff) else q
  }

  datatype Limits = Limits(maxRequests: int, window: real)

  function QueueOf(requests: map<string, seq<real>>, client: string): seq<real> {
    if client in requests then requests[client] else []
  }

  /** Whether a call is accepted, and the queue after it. */
  function Decide(l: Limits, q: seq<real>, now: real): (bool, seq<real>) {
    var kept := Evict(q, now - l.window);
    if |kept| >= l.maxRequests then (false, kept) else (true, kept + [now])
  }

  datatype Call = Call(client: string, now: real)

  /** The queues of all clients, and all calls accepted so far. */
  datatype Service = Service(queues: map<string, seq<real>>, granted: seq<Call>)

  function ServeOne(l: Limits, s: Service, call: Call): Service {
    var (ok, q) := Decide(l, QueueOf(s.queues, call.client), call.now);
    Service(s.queues[call.client := q], s.granted + if ok then [call] else [])
  }

  class RateLimiter {
    const limits: Limits
    var requests: map<string, seq<real>>

    constructor (limits: Limits)
      ensures this.limits == limits && requests == map[]
    {
      this.limits, requests := limits, map[];
    }

    method Check(client: string, now: real) returns (ok: bool)
      modifies this
      ensures var (accepted, q) := Decide(limits, old(QueueOf(requests, client)), now);
              ok == accepted && requests == old(requests)[client := q]
      ensures forall granted :: ServeOne(limits, Service(old(requests), granted), Call(client, now))
                == Service(requests, granted + if ok then [Call(client, now)] else [])
    {
      var q := QueueOf(requests, client);
      requests := requests[client := q];
      while q != [] && q[0] <= now - limits.window
        invariant Evict(q, now - limits.window) == Evict(old(QueueOf(requests, client)), now - limits.window)
        invariant requests == old(requests)[client := q]
      {
        q := q[1..];
        requests := requests[client := q];
      }
      if |q| >= limits.maxRequests {
        return false;
      }
      q := q + [now];
      requests := requests[client := q];
      return true;
    }
  }

  // ------------------------------------------------------------ runs

  /** One client's queue, and all its accepted times, after a run of calls. */
  datatype Trace = Trace(queue: seq<real>, accepted: seq<real>)

  function Serve(l: Limits, t: Trace, now: real): Trace {
    var (ok, q) := Decide(l, t.queue, now);
    Trace(q, t.accepted + if ok then [now] else [])
  }

  function Run(l: Limits, calls: seq<real>): Trace {
    if calls == [] then Trace([], []) else Serve(l, Run(l, calls[..|calls| - 1]), calls[|calls| - 1])
  }

  ghost predicate Monotone(times: seq<real>) {
    forall i, j :: 0 <= i < j < |times| ==> times[i] <= times[j]
  }

  ghost predicate UpTo(times: seq<real>, hi: real) {
    forall i :: 0 <= i < |times| ==> times[i] <= hi
  }

  /** The entries later than lo. */
  function Since(times: seq<real>, lo: real): (r: seq<real>) {
    if times == [] then []
    else
      var n := |times| - 1;
      Since(times[..n], lo) + if lo < times[n] then [times[n]] else []
  }

  /** How many entries lie in the half-open window (lo, hi]. */
  function Within(times: seq<real>, lo: real, hi: real): nat {
    if times == [] then 0
    else
      var n := |times| - 1;
      Within(times[..n], lo, hi) + if lo < times[n] <= hi then 1 else 0
  }

  lemma SinceAppend(times: seq<real>, x: real, lo: real)
    ensures Since(times + [x], lo) == Since(times, lo) + if lo < x then [x] else []
  {
    assert (times + [x])[..|times|] == times;
  }

  lemma {:induction false} SinceSince(times: seq<real>, lo: real, from: real)
    requires lo <= from
    ensures Since(Since(times, lo), from) == Since(times, from)
  {
    if times != [] {
      var n := |times| - 1;
      SinceSince(times[..n], lo, from);
      SinceAppend(Since(times[..n], lo), times[n], from);
      if lo >= times[n] {
        assert Since(times, lo) == Since(times[..n], lo);
      }
    }
  }

  lemma Regroup(a: seq<real>, b: seq<real>, c: seq<real>)
    ensures a + b + c == a + (b + c)
  {
  }

  lemma {:induction false} SinceFromFront(times: seq<real>, lo: real)
    requires times != []
    ensures Since(times, lo) == (if lo < times[0] then [times[0]] else []) + Since(times[1..], lo)
  {
    var n := |times| - 1;
    if n == 0 {
      assert times[1..] == [];
    } else {
      SinceFromFront(times[..n], lo);
      assert times[..n][1..] == times[1..n] && times[1..n] + [times[n]] == times[1..];
      SinceAppend(times[1..n], times[n], lo);
      Regroup(if lo < times[0] then [times[0]] else [], Since(times[1..n], lo), if lo < times[n] then [times[n]] else []);
    }
  }

  lemma {:induction false} SinceKeepsAll(times: seq<real>, lo: real)
    requires forall i :: 0 <= i < |times| ==> lo < times[i]
    ensures Since(times, lo) == times
  {
    if times != [] {
      SinceKeepsAll(times[..|times| - 1], lo);
    }
  }

  /** On sorted times, trimming the front is filtering. */
  lemma {:induction false} EvictingIsFiltering(q: seq<real>, cutoff: real)
    requires Monotone(q)
    ensures Evict(q, cutoff) == Since(q, cutoff)
  {
    if q != [] {
      if q[0] <= cutoff {
        SinceFromFront(q, cutoff);
        EvictingIsFiltering(q[1..], cutoff);
      } else {
        SinceKeepsAll(q, cutoff);
      }
    }
  }

  lemma {:induction false} SinceKeepsOrder(times: seq<real>, lo: real, hi: real)
    requires Monotone(times) && UpTo(times, hi)
    ensures Monotone(Since(times, lo)) && UpTo(Since(times, lo), hi)
  {
    if times != [] {
      var n := |times| - 1;
      assert Monotone(times[..n]) && UpTo(times[..n], times[n]);
      SinceKeepsOrder(times[..n], lo, times[n]);
    }
  }

  lemma {:induction false} WithinAtMostSince(times: seq<real>, lo: real, hi: real, from: real)
    requires lo <= from
    ensures Within(times, from, hi) <= |Since(times, lo)|
  {
    if times != [] {
      WithinAtMostSince(times[..|times| - 1], lo, hi, from);
    }
  }

  lemma {:induction false} WithinIsSince(times: seq<real>, lo: real, hi: real)
    requires UpTo(times, hi)
    ensures Within(times, lo, hi) == |Since(times, lo)|
  {
    if times != [] {
      WithinIsSince(times[..|times| - 1], lo, hi);
    }
  }

  /** The queue and the acceptance history agree on every window that can still
      matter after a call at the time last. */
  ghost predicate Tracks(l: Limits, t: Trace, last: real) {
    && Monotone(t.queue) && UpTo(t.queue, last)
    && Monotone(t.accepted) && UpTo(t.accepted, last)
    && forall lo :: last - l.window <= lo ==> Since(t.queue, lo) == Since(t.accepted, lo)
  }

  function Accepted(l: Limits, t: Trace, now: real): seq<real> {
    if |Since(t.accepted, now - l.window)| < l.maxRequests then [now] else []
  }

  /** What one call does, in terms of the history alone. */
  lemma ServeByHistory(l: Limits, t: Trace, last: real, now: real)
    requires Tracks(l, t, last) && last <= now
    ensures Serve(l, t, now) == Trace(Since(t.accepted, now - l.window) + Accepted(l, t, now), t.accepted + Accepted(l, t, now))
  {
    EvictingIsFiltering(t.queue, now - l.window);
  }

  lemma AppendKeepsOrder(times: seq<real>, tail: seq<real>, now: real)
    requires Monotone(times) && UpTo(times, now) && tail in {[], [now]}
    ensures Monotone(times + tail) && UpTo(times + tail, now)
  {
  }

  lemma AppendKeepsAgreement(q: seq<real>, a: seq<real>, tail: seq<real>, now: real, lo: real)
    requires Since(q, lo) == Since(a, lo) && tail in {[], [now]}
    ensures Since(q + tail, lo) == Since(a + tail, lo)
  {
    if tail == [] {
      assert q + tail == q && a + tail == a;
    } else {
      SinceAppend(q, now, lo);
      SinceAppend(a, now, lo);
    }
  }

  lemma ServingTracks(l: Limits, t: Trace, last: real, now: real)
    requires Tracks(l, t, last) && last <= now
    ensures Tracks(l, Serve(l, t, now), now)
  {
    var from := now - l.window;
    var kept, tail := Since(t.accepted, from), Accepted(l, t, now);
    ServeByHistory(l, t, last, now);
    SinceKeepsOrder(t.accepted, from, last);
    AppendKeepsOrder(kept, tail, now);
    AppendKeepsOrder(t.accepted, tail, now);
    forall lo | from <= lo ensures Since(kept + tail, lo) == Since(t.accepted + tail, lo) {
      SinceSince(t.accepted, from, lo);
      AppendKeepsAgreement(kept, t.accepted, tail, now, lo);
    }
  }

  lemma {:induction false} RunTracks(l: Limits, calls: seq<real>, last: real)
    requires Monotone(calls) && UpTo(calls, last)
    ensures exists at :: at <= last && Tracks(l, Run(l, calls), at)
  {
    if calls == [] {
      assert Tracks(l, Run(l, calls), last);
    } else {
      var n := |calls| - 1;
      RunTracks(l, calls[..n], calls[n]);
      var at :| at <= calls[n] && Tracks(l, Run(l, calls[..n]), at);
      ServingTracks(l, Run(l, calls[..n]), at, calls[n]);
      assert Tracks(l, Run(l, calls), calls[n]) && calls[n] <= last;
    }
  }

  lemma QueueAfterServing(l: Limits, t: Trace, last: real, now: real)
    requires Tracks(l, t, last) && last <= now && l.window > 0.0
    ensures Serve(l, t, now).queue == Since(Serve(l, t, now).accepted, now - l.window)
  {
    var from := now - l.window;
    ServeByHistory(l, t, last, now);
    if Accepted(l, t, now) == [] {
      assert t.accepted + [] == t.accepted && Since(t.accepted, from) + [] == Since(t.accepted, from);
    } else {
      SinceAppend(t.accepted, now, from);
    }
  }

  /** After any call the queue is the full acceptance history filtered to the
      window that ends with that call. */
  lemma QueueIsRecentHistory(l: Limits, calls: seq<real>, now: real)
    requires Monotone(calls + [now]) && l.window > 0.0
    ensures var after := Run(l, calls + [now]);
            after.queue == Since(after.accepted, now - l.window)
  {
    var at := OrderedBefore(l, calls, now);
    QueueAfterServing(l, Run(l, calls), at, now);
  }

  lemma OrderedBefore(l: Limits, calls: seq<real>, now: real) returns (at: real)
    requires Monotone(calls + [now])
    ensures at <= now && Tracks(l, Run(l, calls), at)
    ensures Run(l, calls + [now]) == Serve(l, Run(l, calls), now)
  {
    var all := calls + [now];
    assert all[..|calls|] == calls;
    assert forall i :: 0 <= i < |calls| ==> calls[i] == all[i] && all[i] <= all[|calls|];
    RunTracks(l, calls, now);
    at :| at <= now && Tracks(l, Run(l, calls), at);
  }

  lemma WithinAppend(times: seq<real>, x: real, lo: real, hi: real)
    ensures Within(times + [x], lo, hi) == Within(times, lo, hi) + if lo < x <= hi then 1 else 0
  {
    assert (times + [x])[..|times|] == times;
  }

  function Cap(l: Limits): nat {
    if l.maxRequests > 0 then l.maxRequests else 0
  }

  lemma ServingKeepsTheLimit(l: Limits, before: Trace, last: real, now: real, t: real)
    requires Tracks(l, before, last) && last <= now
    requires Within(before.accepted, t - l.window, t) <= Cap(l)
    ensures Within(Serve(l, before, now).accepted, t - l.window, t) <= Cap(l)
  {
    ServeByHistory(l, before, last, now);
    if Accepted(l, before, now) == [] {
      assert before.accepted + [] == before.accepted;
    } else {
      WithinAppend(before.accepted, now, t - l.window, t);
      if now <= t {
        WithinAtMostSince(before.accepted, now - l.window, t, t - l.window);
      }
    }
  }

  /** In no window of the configured length, wherever it ends, are more calls
      accepted than the limit. */
  lemma {:induction false} NeverMoreThanTheLimit(l: Limits, calls: seq<real>, t: real)
    requires Monotone(calls)
    ensures Within(Run(l, calls).accepted, t - l.window, t) <= Cap(l)
  {
    if calls != [] {
      var n := |calls| - 1;
      var now, before := calls[n], Run(l, calls[..n]);
      NeverMoreThanTheLimit(l, calls[..n], t);
      assert calls[..n] + [now] == calls;
      var at := OrderedBefore(l, calls[..n], now);
      ServingKeepsTheLimit(l, before, at, now, t);
    }
  }

  lemma AppendingNothing(times: seq<real>, tail: seq<real>)
    ensures times + tail == times <==> tail == []
  {
    assert |times + tail| == |times| + |tail|;
  }

  lemma RefusedByHistory(l: Limits, before: Trace, last: real, now: real)
    requires Tracks(l, before, last) && last <= now
    ensures Serve(l, before, now).accepted == before.accepted
       <==> Within(before.accepted, now - l.window, now) >= l.maxRequests
  {
    ServeByHistory(l, before, last, now);
    WithinIsSince(before.accepted, now - l.window, now);
    AppendingNothing(before.accepted, Accepted(l, before, now));
  }

  lemma PrefixInOrder(calls: seq<real>, now: real)
    requires Monotone(calls + [now])
    ensures Monotone(calls)
  {
    assert forall i :: 0 <= i < |calls| ==> calls[i] == (calls + [now])[i];
  }

  /** A call is refused exactly when the window that ends with it already holds
      the limit; with a limit that is not negative it then holds exactly the
      limit. */
  lemma RefusedExactlyWhenWindowIsFull(l: Limits, calls: seq<real>, now: real)
    requires Monotone(calls + [now])
    ensures var before := Run(l, calls);
            var count := Within(before.accepted, now - l.window, now);
            && (Run(l, calls + [now]).accepted == before.accepted <==> count >= l.maxRequests)
            && (count >= l.maxRequests >= 0 ==> count == l.maxRequests)
  {
    var at := OrderedBefore(l, calls, now);
    RefusedByHistory(l, Run(l, calls), at, now);
    PrefixInOrder(calls, now);
    NeverMoreThanTheLimit(l, calls, now);
  }

  // ------------------------------------------------------------ several clients

  /** A run of calls by any clients in any order. */
  function ServeAll(l: Limits, calls: seq<Call>): Service {
    if calls == [] then Service(map[], []) else ServeOne(l, ServeAll(l, calls[..|calls| - 1]), calls[|calls| - 1])
  }

  function CallsOf(calls: seq<Call>, client: string): seq<real> {
    if calls == [] then []
    else
      var n := |calls| - 1;
      CallsOf(calls[..n], client) + if calls[n].client == client then [calls[n].now] else []
  }

  lemma CallsOfAppend(calls: seq<Call>, call: Call, client: string)
    ensures CallsOf(calls + [call], client) == CallsOf(calls, client) + if call.client == client then [call.now] else []
  {
    assert (calls + [call])[..|calls|] == calls;
  }

  lemma ServeAllAppend(l: Limits, calls: seq<Call>, call: Call)
    ensures ServeAll(l, calls + [call]) == ServeOne(l, ServeAll(l, calls), call)
  {
    assert (calls + [call])[..|calls|] == calls;
  }

  lemma RunAppend(l: Limits, calls: seq<real>, now: real)
    ensures Run(l, calls + [now]) == Serve(l, Run(l, calls), now)
  {
    assert (calls + [now])[..|calls|] == calls;
  }

  ghost predicate Sees(s: Service, client: string, t: Trace) {
    QueueOf(s.queues, client) == t.queue && CallsOf(s.granted, client) == t.accepted
  }

  lemma OneCallSeen(l: Limits, s: Service, call: Call, client: string, t: Trace)
    requires Sees(s, client, t)
    ensures Sees(ServeOne(l, s, call), client, if call.client == client then Serve(l, t, call.now) else t)
  {
    CallsOfAppend(s.granted, call, client);
    assert s.granted + [] == s.granted;
  }

  lemma OneCallGranted(l: Limits, s: Service, call: Call, t: Trace)
    requires Sees(s, call.client, t)
    ensures ServeOne(l, s, call).granted
         == s.granted + (if Serve(l, t, call.now).accepted == t.accepted then [] else [call])
  {
    assert |t.accepted + [call.now]| == |t.accepted| + 1 && t.accepted + [] == t.accepted;
  }

  /** What a client's queue holds, and which of its calls are accepted, depends on
      that client's calls alone. */
  lemma {:induction false} ClientsAreIndependent(l: Limits, calls: seq<Call>, client: string)
    ensures Sees(ServeAll(l, calls), client, Run(l, CallsOf(calls, client)))
  {
    if calls != [] {
      var n := |calls| - 1;
      var own := CallsOf(calls[..n], client);
      ClientsAreIndependent(l, calls[..n], client);
      OneCallSeen(l, ServeAll(l, calls[..n]), calls[n], client, Run(l, own));
      RunAppend(l, own, calls[n].now);
      assert own + [] == own;
    }
  }

  ghost predicate InOrder(calls: seq<Call>) {
    forall i, j :: 0 <= i < j < |calls| ==> calls[i].now <= calls[j].now
  }

  lemma {:induction false} OwnCallsInOrder(calls: seq<Call>, client: string, hi: real)
    requires InOrder(calls) && forall i :: 0 <= i < |calls| ==> calls[i].now <= hi
    ensures Monotone(CallsOf(calls, client)) && UpTo(CallsOf(calls, client), hi)
  {
    if calls != [] {
      var n := |calls| - 1;
      OwnCallsInOrder(calls[..n], client, calls[n].now);
    }
  }

  /** However the calls of the clients are interleaved, no client gets more than
      the limit accepted in any window. */
  lemma NoClientExceedsTheLimit(l: Limits, calls: seq<Call>, client: string, t: real)
    requires InOrder(calls)
    ensures Within(CallsOf(ServeAll(l, calls).granted, client), t - l.window, t) <= Cap(l)
  {
    ClientsAreIndependent(l, calls, client);
    if calls != [] {
      OwnCallsInOrder(calls, client, calls[|calls| - 1].now);
    }
    NeverMoreThanTheLimit(l, CallsOf(calls, client), t);
  }

  /** And its call is refused exactly when it already has the limit accepted in the
      window that ends with the call. */
  lemma ClientIsRefusedExactlyWhenFull(l: Limits, calls: seq<Call>, call: Call)
    requires InOrder(calls + [call])
    ensures var granted := ServeAll(l, calls).granted;
            var count := Within(CallsOf(granted, call.client), call.now - l.window, call.now);
            && ServeAll(l, calls + [call]).granted == granted + (if count >= l.maxRequests then [] else [call])
            && (count >= l.maxRequests >= 0 ==> count == l.maxRequests)
  {
    var own := CallsOf(calls, call.client);
    ClientsAreIndependent(l, calls, call.client);
    ServeAllAppend(l, calls, call);
    RunAppend(l, own, call.now);
    OneCallGranted(l, ServeAll(l, calls), call, Run(l, own));
    OwnCallsInOrder(calls + [call], call.client, call.now);
    CallsOfAppend(calls, call, call.client);
    RefusedExactlyWhenWindowIsFull(l, own, call.now);
  }
}
