/** The identifier generator of one process: a clamped clock and a 24-bit
    counter. */
module XidGenerator {
  import opened Wrappers
  import opened JsonText
  import opened Positional
  import opened Xid

  const WRAP := 0x100_0000
  const TIME_LIMIT := 0x1_0000_0000

  datatype State = State(last: int, counter: int, machine: seq<int>, pid: seq<int>)

  ghost predicate IsState(g: State) {
    && g.last >= 0 && 0 <= g.counter < WRAP
    && |g.machine| == 3 && AreDigits(g.machine, 256) && |g.pid| == 2 && AreDigits(g.pid, 256)
  }

  /** The state after one more identifier; the clock may read anything. */
  function Advance(g: State, clock: int): State {
    g.(last := if clock < g.last then g.last + 1 else clock, counter := (g.counter + 1) % WRAP)
  }

  /** The identifier a state stands for. None is the overflow error raised when
      the timestamp does not fit four bytes; the state has advanced by then. */
  function Issued(g: State): Option<seq<int>>
    requires g.last >= 0 && g.counter >= 0
  {
    if g.last >= TIME_LIMIT then None
    else Some(Digits(g.last, 256, 4) + g.machine + g.pid + Digits(g.counter, 256, 3))
  }

  class Generator {
    var lastTimestamp: int
    var counter: int
    const machine: seq<int>
    const pid: seq<int>

    ghost predicate Valid()
      reads this
    {
      IsState(Now())
    }

    function Now(): State
      reads this
    {
      State(lastTimestamp, counter, machine, pid)
    }

    constructor (seed: int, machine: seq<int>, pid: seq<int>)
      requires IsState(State(0, seed, machine, pid))
      ensures Valid() && Now() == State(0, seed, machine, pid)
    {
      lastTimestamp, counter, this.machine, this.pid := 0, seed, machine, pid;
    }

    method New(clock: int) returns (id: Option<seq<int>>)
      requires Valid()
      modifies this
      ensures Valid() && Now() == Advance(old(Now()), clock) && id == Issued(Now())
    {
      var now := clock;
      if now < lastTimestamp {
        now := lastTimestamp + 1;
      }
      lastTimestamp := now;
      counter := (counter + 1) % WRAP;
      if now >= TIME_LIMIT {
        return None;
      }
      id := Some(Digits(now, 256, 4) + machine + pid + Digits(counter, 256, 3));
    }
  }

  // ------------------------------------------------------------ runs

  /** The state after a run of clock readings. */
  ghost function After(g: State, clocks: seq<int>): State {
    if clocks == [] then g else Advance(After(g, clocks[..|clocks| - 1]), clocks[|clocks| - 1])
  }

  lemma {:induction false} RunKeepsState(g: State, clocks: seq<int>)
    requires IsState(g)
    ensures IsState(After(g, clocks))
    ensures After(g, clocks).machine == g.machine && After(g, clocks).pid == g.pid
    ensures After(g, clocks).counter == (g.counter + |clocks|) % WRAP
  {
    if clocks != [] {
      RunKeepsState(g, clocks[..|clocks| - 1]);
    }
  }

  lemma {:induction false} RunSplits(g: State, a: seq<int>, b: seq<int>)
    ensures After(g, a + b) == After(After(g, a), b)
  {
    if b == [] {
      assert a + b == a;
    } else {
      assert (a + b)[..|a + b| - 1] == a + b[..|b| - 1];
      RunSplits(g, a, b[..|b| - 1]);
    }
  }

  /** Embedded timestamps never decrease, whatever the clock does; while the
      clock lags they grow by one per identifier. */
  lemma {:induction false} TimestampsNeverDecrease(g: State, clocks: seq<int>)
    requires IsState(g)
    ensures After(g, clocks).last >= g.last
    ensures clocks != [] && (forall i :: 0 <= i < |clocks| ==> clocks[i] < g.last)
            ==> After(g, clocks).last == g.last + |clocks|
  {
    if clocks != [] {
      TimestampsNeverDecrease(g, clocks[..|clocks| - 1]);
    }
  }

  lemma IssuedParts(g: State, h: State)
    requires IsState(g) && IsState(h) && g.machine == h.machine && g.pid == h.pid
    requires g.last < TIME_LIMIT && h.last < TIME_LIMIT
    ensures Issued(g) == Issued(h) <==> g.last == h.last && g.counter == h.counter
    ensures Before(Issued(g).value, Issued(h).value) <==> g.last < h.last || (g.last == h.last && g.counter < h.counter)
  {
    assert Pow(256, 4) == TIME_LIMIT && Pow(256, 3) == WRAP;
    var a, b := Digits(g.last, 256, 4), Digits(h.last, 256, 4);
    var c, d := Digits(g.counter, 256, 3), Digits(h.counter, 256, 3);
    ValueOfDigits(g.last, 256, 4);
    ValueOfDigits(h.last, 256, 4);
    ValueOfDigits(g.counter, 256, 3);
    ValueOfDigits(h.counter, 256, 3);
    OrderIsValueOrder(a, b, 256);
    OrderIsValueOrder(c, d, 256);
    var m := g.machine + g.pid;
    assert Issued(g).value == a + (m + c) && Issued(h).value == b + (m + d);
    BeforeInParts(a, b, m + c, m + d);
    BeforeInParts(m, m, c, d);
    BeforeIsIrreflexive(m);
    if Issued(g) == Issued(h) {
      assert (a + (m + c))[..4] == a && (b + (m + d))[..4] == b;
      assert (a + (m + c))[9..] == c && (b + (m + d))[9..] == d;
    }
  }

  lemma WrapsExactly(c: int, n: nat)
    requires 0 <= c < WRAP
    ensures (c + n) % WRAP == c <==> n % WRAP == 0
  {
    var q, r := n / WRAP, n % WRAP;
    assert n == q * WRAP + r;
    assert (c + n) % WRAP == (c + r) % WRAP;
  }

  lemma RepeatsExactly(g: State, clocks: seq<int>)
    requires IsState(g) && g.last < TIME_LIMIT && After(g, clocks).last < TIME_LIMIT
    ensures IsState(After(g, clocks))
    ensures Issued(After(g, clocks)) == Issued(g) <==> After(g, clocks).last == g.last && |clocks| % WRAP == 0
  {
    RunKeepsState(g, clocks);
    IssuedParts(After(g, clocks), g);
    WrapsExactly(g.counter, |clocks|);
  }

  /** Two identifiers of one run are equal exactly when their timestamps are and
      the number of steps between them is a multiple of 2^24; so any 2^24
      consecutive identifiers are pairwise distinct. */
  lemma RunRepeatsExactly(g: State, clocks: seq<int>, i: nat, j: nat)
    requires IsState(g) && i < j <= |clocks|
    requires After(g, clocks[..j]).last < TIME_LIMIT
    ensures var x, y := After(g, clocks[..i]), After(g, clocks[..j]);
            && IsState(x) && IsState(y) && x.last < TIME_LIMIT
            && (Issued(x) == Issued(y) <==> x.last == y.last && (j - i) % WRAP == 0)
            && (j - i < WRAP ==> Issued(x) != Issued(y))
  {
    RunKeepsState(g, clocks[..i]);
    var x := After(g, clocks[..i]);
    assert clocks[..j] == clocks[..i] + clocks[i..j];
    RunSplits(g, clocks[..i], clocks[i..j]);
    TimestampsNeverDecrease(x, clocks[i..j]);
    RepeatsExactly(x, clocks[i..j]);
  }

  /** The next identifier is greater, as bytes and as a string, except when the
      counter wraps within one timestamp. */
  lemma SuccessorIsGreater(g: State, clock: int)
    requires IsState(g) && Advance(g, clock).last < TIME_LIMIT
    ensures var h := Advance(g, clock);
            && IsXid(Issued(g).value) && IsXid(Issued(h).value)
            && (Before(Issued(g).value, Issued(h).value) <==> !(clock == g.last && g.counter == WRAP - 1))
            && (Less(Encoded(Issued(g).value), Encoded(Issued(h).value)) <==> !(clock == g.last && g.counter == WRAP - 1))
  {
    var h := Advance(g, clock);
    IssuedParts(g, h);
    StringsSortLikeBytes(Issued(g).value, Issued(h).value);
  }

  /** Once a timestamp has overflowed the process never issues again. */
  lemma OverflowIsForever(g: State, clocks: seq<int>)
    requires IsState(g) && Issued(g).None?
    ensures After(g, clocks).last >= 0 && After(g, clocks).counter >= 0 && Issued(After(g, clocks)).None?
  {
    RunKeepsState(g, clocks);
    TimestampsNeverDecrease(g, clocks);
  }
}
