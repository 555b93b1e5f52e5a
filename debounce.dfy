/** `debounce(func, wait)` with time as a tick counter: each call cancels the pending timer
    and schedules a new one `wait` ticks later, so a burst of calls runs `func` once, with
    the last call's argument, after the burst has been quiet for `wait` ticks. */
module Debounce {
  import opened Results
  import opened Seqs

  /** One call of the debounced function: its argument and the tick it was made at. */
  datatype Call<A> = Call(arg: A, at: nat)

  /** A timer set at tick `t` has gone off by tick `t2`: `wait` ticks have passed, and at
      least one tick has, since a timer never runs in the task that set it. */
  predicate Elapsed(wait: nat, t: nat, t2: nat) {
    t2 >= t + wait && t2 > t
  }

  predicate NotLater<A>(c: Call<A>, d: Call<A>) {
    c.at <= d.at
  }

  /** Reference definition: the arguments `func` has run with by tick `now`, given every
      call so far in order. A call's timer goes off unless the next call comes before it
      does; the last call's timer goes off once `now` reaches it. */
  function Fires<A>(wait: nat, calls: seq<Call<A>>, now: nat): (r: seq<A>)
    ensures |r| <= |calls|
    ensures calls == [] ==> r == []
  {
    if calls == [] then []
    else if |calls| == 1 then (if Elapsed(wait, calls[0].at, now) then [calls[0].arg] else [])
    else (if Elapsed(wait, calls[0].at, calls[1].at) then [calls[0].arg] else []) + Fires(wait, calls[1..], now)
  }

  /** A call made now fires nothing yet, and its cancelling the pending timer changes
      nothing about what has already run. */
  lemma {:induction false} FiresAppendCall<A>(wait: nat, calls: seq<Call<A>>, arg: A, now: nat)
    requires forall c :: c in calls ==> c.at <= now
    ensures Fires(wait, calls + [Call(arg, now)], now) == Fires(wait, calls, now)
  {
    if |calls| >= 2 {
      forall c | c in calls[1..] ensures c.at <= now {
        assert c in calls;
      }
      FiresAppendCall(wait, calls[1..], arg, now);
      assert (calls + [Call(arg, now)])[1..] == calls[1..] + [Call(arg, now)];
    }
  }

  /** One tick runs `func` at most once: with the last call's argument, exactly when its
      timer goes off at this tick. */
  lemma {:induction false} FiresTick<A>(wait: nat, calls: seq<Call<A>>, now: nat)
    ensures Fires(wait, calls, now + 1) == Fires(wait, calls, now) +
      (if calls != [] && !Elapsed(wait, calls[|calls| - 1].at, now) && Elapsed(wait, calls[|calls| - 1].at, now + 1)
       then [calls[|calls| - 1].arg] else [])
  {
    if |calls| >= 2 {
      FiresTick(wait, calls[1..], now);
      assert calls[1..][|calls[1..]| - 1] == calls[|calls| - 1];
    }
  }

  /** A burst, whose every call comes before the previous call's timer goes off, runs
      `func` at most once, with the argument of its last call. */
  lemma {:induction false} BurstFiresLast<A>(wait: nat, calls: seq<Call<A>>, now: nat)
    requires calls != []
    requires forall i :: 0 <= i < |calls| - 1 ==> !Elapsed(wait, calls[i].at, calls[i + 1].at)
    ensures Fires(wait, calls, now) ==
      if Elapsed(wait, calls[|calls| - 1].at, now) then [calls[|calls| - 1].arg] else []
  {
    if |calls| >= 2 {
      forall i | 0 <= i < |calls[1..]| - 1 ensures !Elapsed(wait, calls[1..][i].at, calls[1..][i + 1].at) {
        assert calls[1..][i] == calls[i + 1] && calls[1..][i + 1] == calls[i + 2];
      }
      assert !Elapsed(wait, calls[0].at, calls[1].at);
      BurstFiresLast(wait, calls[1..], now);
      assert calls[1..][|calls[1..]| - 1] == calls[|calls| - 1];
    }
  }

  /** Keystrokes at 0, 100, 150 and 620 with a 300 tick wait: the third fires at 450 and the
      fourth at 920, and nothing else ever fires. */
  lemma DebounceExample()
    ensures var calls := [Call("a", 0), Call("ab", 100), Call("abc", 150), Call("abcd", 620)];
      && Fires(300, calls[..3], 449) == []
      && Fires(300, calls[..3], 450) == ["abc"]
      && Fires(300, calls, 919) == ["abc"]
      && Fires(300, calls, 920) == ["abc", "abcd"]
  {
    var calls := [Call("a", 0), Call("ab", 100), Call("abc", 150), Call("abcd", 620)];
    var burst := [Call("a", 0), Call("ab", 100), Call("abc", 150)];
    assert calls[..3] == burst;
    BurstFiresLast(300, burst, 449);
    BurstFiresLast(300, burst, 450);
    var last := [Call("abcd", 620)];
    var fromThird := [Call("abc", 150)] + last;
    var fromSecond := [Call("ab", 100)] + fromThird;
    assert calls == [Call("a", 0)] + fromSecond;
    assert calls[1..] == fromSecond && fromSecond[1..] == fromThird && fromThird[1..] == last;
    assert Fires(300, last, 919) == [] && Fires(300, last, 920) == ["abcd"];
    assert Fires(300, fromThird, 919) == ["abc"] && Fires(300, fromThird, 920) == ["abc", "abcd"];
    assert Fires(300, fromSecond, 919) == Fires(300, fromThird, 919);
    assert Fires(300, fromSecond, 920) == Fires(300, fromThird, 920);
  }

  /** The closure `debounce` returns: the pending timer (at most one, with the call it will
      make), the tick counter, and what `func` has run with so far. */
  class Debouncer<A> {
    const wait: nat
    var now: nat
    var pending: Option<Call<A>>
    var invoked: seq<A>
    ghost var calls: seq<Call<A>>

    /** What has run is exactly what the reference definition says for the calls so far, and
        a timer is pending exactly when the last call's has not gone off. */
    ghost predicate Valid()
      reads this
    {
      && Pairwise(calls, NotLater)
      && (forall c :: c in calls ==> c.at <= now)
      && invoked == Fires(wait, calls, now)
      && pending == (if calls != [] && !Elapsed(wait, calls[|calls| - 1].at, now) then Some(calls[|calls| - 1]) else None)
    }

    constructor (wait: nat)
      ensures Valid() && this.wait == wait && now == 0 && pending.None? && invoked == [] && calls == []
    {
      this.wait := wait;
      now, pending, invoked := 0, None, [];
      calls := [];
    }

    /** `executedFunction(arg)`: clear the pending timer and set a new one for this call. */
    method Invoke(arg: A)
      requires Valid()
      modifies this
      ensures Valid()
      ensures pending == Some(Call(arg, now)) && now == old(now) && invoked == old(invoked)
      ensures calls == old(calls) + [Call(arg, now)]
    {
      FiresAppendCall(wait, calls, arg, now);
      AppendPairwise(calls, Call(arg, now), NotLater);
      pending := Some(Call(arg, now));
      calls := calls + [Call(arg, now)];
    }

    /** One tick of the clock: the pending timer, if it goes off now, runs `func` with the
        argument it captured, which is returned. */
    method Tick() returns (ran: Option<A>)
      requires Valid()
      modifies this
      ensures Valid()
      ensures now == old(now) + 1 && calls == old(calls)
      ensures ran.Some? <==> old(pending).Some? && Elapsed(wait, old(pending).value.at, now)
      ensures ran.Some? ==> ran.value == old(pending).value.arg && pending.None?
      ensures ran.None? ==> pending == old(pending)
      ensures invoked == old(invoked) + (if ran.Some? then [ran.value] else [])
    {
      FiresTick(wait, calls, now);
      now := now + 1;
      ran := None;
      if pending.Some? && Elapsed(wait, pending.value.at, now) {
        ran := Some(pending.value.arg);
        invoked := invoked + [pending.value.arg];
        pending := None;
      }
    }
  }
}
