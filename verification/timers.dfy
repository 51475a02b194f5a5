/**
 * The browser's timer queue as a logical clock: `setTimeout`,
 * `setInterval`, `clearTimeout`/`clearInterval` and the firing of the
 * earliest pending callback. Handles are positive whole numbers handed out
 * in order, as browsers do, so a stored handle is always truthy.
 */
module Timers {

  /** A pending callback: handle, absolute due time, repeat period (0 for a one-shot) and what it does. */
  datatype Timer<A> = Timer(id: nat, due: nat, period: nat, action: A)

  /** The clock: current time in milliseconds, the next handle, and the pending callbacks in registration order. */
  datatype Clock<A> = Clock(now: nat, nextId: nat, pending: seq<Timer<A>>)

  /** A handle returned together with the clock it was registered in. */
  datatype Scheduled<A> = Scheduled(clock: Clock<A>, id: nat)

  /** A callback that fired, its place in the queue, and the clock after it. */
  datatype Fired<A> = Fired(timer: Timer<A>, index: nat, clock: Clock<A>)

  /** The clock of a freshly loaded page. */
  function Initial<A(!new)>(): (c: Clock<A>)
    ensures Valid(c) && |c.pending| == 0
  {
    Clock(0, 1, [])
  }

  /** No two pending callbacks share a handle. */
  ghost predicate Distinct<A(!new)>(p: seq<Timer<A>>)
  {
    forall i, j :: 0 <= i < j < |p| ==> p[i].id != p[j].id
  }

  /** No callback is overdue, handles are positive, issued, and distinct. */
  ghost predicate Valid<A(!new)>(c: Clock<A>)
  {
    && c.nextId >= 1
    && (forall t :: t in c.pending ==> c.now <= t.due && 1 <= t.id < c.nextId)
    && Distinct(c.pending)
  }

  /** In a valid clock a handle names one pending callback. */
  lemma SameHandle<A(!new)>(c: Clock<A>, t: Timer<A>, u: Timer<A>)
    requires Valid(c) && t in c.pending && u in c.pending && t.id == u.id
    ensures t == u
  {
    var i :| 0 <= i < |c.pending| && c.pending[i] == t;
    var j :| 0 <= j < |c.pending| && c.pending[j] == u;
    assert !(i < j) && !(j < i);
  }

  /** `setTimeout(action, delay)`. */
  function SetTimeout<A(!new)>(c: Clock<A>, delay: nat, action: A): (r: Scheduled<A>)
    ensures Valid(c) ==> Valid(r.clock)
    ensures Valid(c) ==> r.id >= 1 && forall t :: t in c.pending ==> t.id != r.id
    ensures r.clock.now == c.now
    ensures r.clock.pending == c.pending + [Timer(r.id, c.now + delay, 0, action)]
  {
    Scheduled(Clock(c.now, c.nextId + 1, c.pending + [Timer(c.nextId, c.now + delay, 0, action)]), c.nextId)
  }

  /** `setInterval(action, period)`: first due one period from now, then every period. */
  function SetInterval<A(!new)>(c: Clock<A>, period: nat, action: A): (r: Scheduled<A>)
    requires period > 0
    ensures Valid(c) ==> Valid(r.clock)
    ensures Valid(c) ==> r.id >= 1 && forall t :: t in c.pending ==> t.id != r.id
    ensures r.clock.now == c.now
    ensures r.clock.pending == c.pending + [Timer(r.id, c.now + period, period, action)]
  {
    Scheduled(Clock(c.now, c.nextId + 1, c.pending + [Timer(c.nextId, c.now + period, period, action)]), c.nextId)
  }

  /** The pending callbacks whose handle is not in `ids`, in order. */
  function Without<A(!new)>(p: seq<Timer<A>>, ids: seq<nat>): (r: seq<Timer<A>>)
    ensures forall t :: t in r <==> t in p && t.id !in ids
    ensures |r| <= |p|
    ensures (forall t :: t in p ==> t.id in ids) ==> r == []
  {
    if |p| == 0 then []
    else if p[0].id in ids then Without(p[1..], ids)
    else [p[0]] + Without(p[1..], ids)
  }

  /** Handles keep their relative order and stay distinct when some are removed. */
  lemma {:induction false} WithoutDistinct<A(!new)>(p: seq<Timer<A>>, ids: seq<nat>)
    ensures Distinct(p) ==> Distinct(Without(p, ids))
  {
    if |p| > 0 && Distinct(p) {
      assert Distinct(p[1..]);
      WithoutDistinct(p[1..], ids);
      var rest := Without(p[1..], ids);
      if p[0].id !in ids {
        var r := [p[0]] + rest;
        forall i, j | 0 <= i < j < |r|
          ensures r[i].id != r[j].id
        {
          assert r[j] == rest[j - 1];
          if i == 0 {
            assert rest[j - 1] in p[1..];
          } else {
            assert r[i] == rest[i - 1];
          }
        }
      }
    }
  }

  /** `clearTimeout`/`clearInterval` of every handle in `ids`; unknown handles are ignored. */
  function Cancel<A(!new)>(c: Clock<A>, ids: seq<nat>): (r: Clock<A>)
    ensures Valid(c) ==> Valid(r)
    ensures r.now == c.now && r.nextId == c.nextId
    ensures forall t :: t in r.pending <==> t in c.pending && t.id !in ids
    ensures (forall t :: t in c.pending ==> t.id in ids) ==> r.pending == []
  {
    WithoutDistinct(c.pending, ids);
    Clock(c.now, c.nextId, Without(c.pending, ids))
  }

  /** Cancelling the same handles twice is the same as cancelling them once. */
  lemma {:induction false} WithoutIdempotent<A(!new)>(p: seq<Timer<A>>, ids: seq<nat>)
    ensures Without(Without(p, ids), ids) == Without(p, ids)
  {
    if |p| > 0 {
      WithoutIdempotent(p[1..], ids);
    }
  }

  /** Cancelling a handle just registered gives back the callbacks pending before. */
  lemma {:induction false} WithoutFresh<A(!new)>(p: seq<Timer<A>>, t: Timer<A>, ids: seq<nat>)
    requires t.id in ids
    requires forall x :: x in p ==> x.id !in ids
    ensures Without(p + [t], ids) == p
  {
    if |p| == 0 {
      assert p + [t] == [t];
    } else {
      assert (p + [t])[1..] == p[1..] + [t];
      WithoutFresh(p[1..], t, ids);
    }
  }

  /** The index of the first callback with the smallest due time. */
  function Earliest<A(!new)>(p: seq<Timer<A>>): (k: nat)
    requires |p| > 0
    ensures k < |p|
    ensures forall i :: 0 <= i < |p| ==> p[k].due <= p[i].due
    ensures forall i :: 0 <= i < k ==> p[i].due > p[k].due
  {
    if |p| == 1 then 0
    else
      var k := Earliest(p[1..]);
      if p[0].due <= p[k + 1].due then 0 else k + 1
  }

  /** What a fired callback leaves behind: an interval's next occurrence. */
  function Again<A>(t: Timer<A>): seq<Timer<A>>
  {
    if t.period > 0 then [Timer(t.id, t.due + t.period, t.period, t.action)] else []
  }

  /**
   * Fire the earliest pending callback: the clock moves to its due time and
   * it leaves the queue; an interval is put back one period later.
   */
  function Fire<A(!new)>(c: Clock<A>): (r: Fired<A>)
    requires |c.pending| > 0
    ensures r.timer in c.pending
    ensures forall t :: t in c.pending ==> r.timer.due <= t.due
    ensures r.index < |c.pending| && c.pending[r.index] == r.timer
    ensures forall i :: 0 <= i < r.index ==> c.pending[i].due > r.timer.due
    ensures r.clock.pending == c.pending[..r.index] + c.pending[r.index + 1..] + Again(r.timer)
    ensures r.clock.now == r.timer.due && r.clock.nextId == c.nextId
    ensures Valid(c) ==> Valid(r.clock) && c.now <= r.clock.now
    ensures Valid(c) ==> forall t :: t in r.clock.pending <==>
      (t in c.pending && t.id != r.timer.id) ||
      (r.timer.period > 0 && t == Timer(r.timer.id, r.timer.due + r.timer.period, r.timer.period, r.timer.action))
  {
    var k := Earliest(c.pending);
    var t := c.pending[k];
    var rest := c.pending[..k] + c.pending[k + 1..];
    FireFacts(c, k);
    Fired(t, k, Clock(t.due, c.nextId, rest + Again(t)))
  }

  lemma FireFacts<A(!new)>(c: Clock<A>, k: nat)
    requires k < |c.pending|
    requires forall i :: 0 <= i < |c.pending| ==> c.pending[k].due <= c.pending[i].due
    ensures Valid(c) ==> var t := c.pending[k];
      var rest := c.pending[..k] + c.pending[k + 1..];
      var again := if t.period > 0 then [Timer(t.id, t.due + t.period, t.period, t.action)] else [];
      && Valid(Clock(t.due, c.nextId, rest + again))
      && (forall x :: x in rest + again <==>
           (x in c.pending && x.id != t.id) ||
           (t.period > 0 && x == Timer(t.id, t.due + t.period, t.period, t.action)))
  {
    if Valid(c) {
      FireFactsValid(c, k);
    }
  }

  lemma FireFactsValid<A(!new)>(c: Clock<A>, k: nat)
    requires Valid(c)
    requires k < |c.pending|
    requires forall i :: 0 <= i < |c.pending| ==> c.pending[k].due <= c.pending[i].due
    ensures var t := c.pending[k];
      var rest := c.pending[..k] + c.pending[k + 1..];
      var again := if t.period > 0 then [Timer(t.id, t.due + t.period, t.period, t.action)] else [];
      && Valid(Clock(t.due, c.nextId, rest + again))
      && (forall x :: x in rest + again <==>
           (x in c.pending && x.id != t.id) ||
           (t.period > 0 && x == Timer(t.id, t.due + t.period, t.period, t.action)))
  {
    var p := c.pending;
    var t := p[k];
    var rest := p[..k] + p[k + 1..];
    var again := if t.period > 0 then [Timer(t.id, t.due + t.period, t.period, t.action)] else [];
    RemoveAtFacts(p, k);
    assert forall x :: x in rest ==> t.due <= x.due;
    AppendDistinct(rest, again);
  }

  /** Removing the callback at `k` leaves exactly those with another handle, still distinct. */
  lemma RemoveAtFacts<A(!new)>(p: seq<Timer<A>>, k: nat)
    requires Distinct(p)
    requires k < |p|
    ensures var rest := p[..k] + p[k + 1..];
      && Distinct(rest)
      && (forall x :: x in rest <==> x in p && x.id != p[k].id)
  {
    var rest := p[..k] + p[k + 1..];
    assert |rest| == |p| - 1;
    assert forall i :: 0 <= i < |rest| ==> rest[i] == p[if i < k then i else i + 1];
    forall x | x in p && x.id != p[k].id
      ensures x in rest
    {
      var i :| 0 <= i < |p| && p[i] == x;
      if i < k { assert rest[i] == x; } else { assert rest[i - 1] == x; }
    }
  }

  /** Appending callbacks with handles new to a distinct queue keeps it distinct. */
  lemma AppendDistinct<A(!new)>(p: seq<Timer<A>>, q: seq<Timer<A>>)
    requires Distinct(p) && Distinct(q)
    requires forall x, y :: x in p && y in q ==> x.id != y.id
    ensures Distinct(p + q)
  {
    var r := p + q;
    forall i, j | 0 <= i < j < |r|
      ensures r[i].id != r[j].id
    {
      if j < |p| {
        assert r[i] == p[i] && r[j] == p[j];
      } else if i >= |p| {
        assert r[i] == q[i - |p|] && r[j] == q[j - |p|];
      } else {
        assert r[i] in p && r[j] in q;
      }
    }
  }

  /** Timeouts registered together and the handle list they were pushed to. */
  datatype Registered<A> = Registered(clock: Clock<A>, timeouts: seq<nat>)

  /** The timeouts `steps` become when registered on `c`, handle after handle. */
  function NewTimers<A(!new)>(c: Clock<A>, steps: seq<(nat, A)>): (ts: seq<Timer<A>>)
    ensures |ts| == |steps|
    ensures forall i :: 0 <= i < |steps| ==> ts[i] == Timer(c.nextId + i, c.now + steps[i].0, 0, steps[i].1)
  {
    seq(|steps|, i requires 0 <= i < |steps| => Timer(c.nextId + i, c.now + steps[i].0, 0, steps[i].1))
  }

  /** The `n` handles issued from `first` on. */
  function NewIds(first: nat, n: nat): (ids: seq<nat>)
    ensures |ids| == n
    ensures forall i :: 0 <= i < n ==> ids[i] == first + i
  {
    seq(n, i => first + i)
  }

  /** `steps.forEach(... timeoutsRef.current.push(setTimeout(...)))`. */
  function ScheduleAll<A(!new)>(c: Clock<A>, timeouts: seq<nat>, steps: seq<(nat, A)>): (r: Registered<A>)
    ensures r.clock.now == c.now && r.clock.nextId == c.nextId + |steps|
    ensures r.clock.pending == c.pending + NewTimers(c, steps)
    ensures r.timeouts == timeouts + NewIds(c.nextId, |steps|)
    ensures Valid(c) ==> Valid(r.clock)
    decreases |steps|
  {
    if |steps| == 0 then Registered(c, timeouts)
    else
      var s := SetTimeout(c, steps[0].0, steps[0].1);
      var r := ScheduleAll(s.clock, timeouts + [s.id], steps[1..]);
      NewTimersCons(c, s.clock, steps);
      NewIdsCons(c.nextId, |steps|);
      r
  }

  /** Registering the first step, then the rest from the next handle on. */
  lemma NewTimersCons<A(!new)>(c: Clock<A>, d: Clock<A>, steps: seq<(nat, A)>)
    requires |steps| > 0 && d.now == c.now && d.nextId == c.nextId + 1
    ensures [Timer(c.nextId, c.now + steps[0].0, 0, steps[0].1)] + NewTimers(d, steps[1..]) == NewTimers(c, steps)
  {
    var a := [Timer(c.nextId, c.now + steps[0].0, 0, steps[0].1)] + NewTimers(d, steps[1..]);
    var b := NewTimers(c, steps);
    forall i | 0 <= i < |steps|
      ensures a[i] == b[i]
    {
      if i > 0 {
        assert a[i] == NewTimers(d, steps[1..])[i - 1];
        assert steps[1..][i - 1] == steps[i];
      }
    }
  }

  lemma NewIdsCons(first: nat, n: nat)
    requires n > 0
    ensures [first] + NewIds(first + 1, n - 1) == NewIds(first, n)
  {
    var a := [first] + NewIds(first + 1, n - 1);
    forall i | 0 <= i < n
      ensures a[i] == first + i
    {
      if i > 0 {
        assert a[i] == NewIds(first + 1, n - 1)[i - 1];
      }
    }
  }

  /** Nothing is due before `now + dt`, so the page may sit idle that long. */
  ghost predicate CanWait<A(!new)>(c: Clock<A>, dt: nat)
  {
    forall t :: t in c.pending ==> c.now + dt <= t.due
  }

  /** `CanWait`, checked callback by callback. */
  predicate QuietFor<A(!new)>(c: Clock<A>, dt: nat)
    ensures QuietFor(c, dt) <==> CanWait(c, dt)
  {
    forall i | 0 <= i < |c.pending| :: c.now + dt <= c.pending[i].due
  }

  /** Let `dt` milliseconds pass without any callback firing. */
  function Wait<A(!new)>(c: Clock<A>, dt: nat): (r: Clock<A>)
    ensures CanWait(c, dt) && Valid(c) ==> Valid(r)
    ensures r.now == c.now + dt && r.pending == c.pending
  {
    Clock(c.now + dt, c.nextId, c.pending)
  }
}
