/**
 * What holds in every state the date game can reach, and what follows:
 * the reveal stays locked until the end-of-spin timeout fires, the lever
 * and the confetti always come back, the settings screen stays put, and
 * the reels and the calendar show the round's date.
 */
module CalendarInvariant {
  import opened Options
  import opened Timers
  import opened Draws
  import opened CalendarDates
  import opened CalendarGrid
  import opened CalendarReels
  import opened CalendarGame

  /** A callback doing `a` is pending. */
  ghost predicate Pending(p: seq<Timer<Action>>, a: Action)
  {
    exists t :: t in p && t.action == a
  }

  /** At most one callback doing `a` is pending. */
  ghost predicate AtMostOne(p: seq<Timer<Action>>, a: Action)
  {
    forall t, u :: t in p && u in p && t.action == a && u.action == a ==> t == u
  }

  /** Every other pending callback is due before the spin. */
  ghost predicate SpinLast(p: seq<Timer<Action>>)
  {
    forall t, u :: t in p && u in p && u.action == StartSpin && t.action != StartSpin ==> t.due < u.due
  }

  /** The dates `randomDate` can draw. */
  ghost predicate DrawnDate(d: Date)
  {
    2000 <= d.year <= 2024 && 1 <= d.month <= 12 && 1 <= d.day <= 28
  }

  /**
   * The queue: one-shot callbacks only; `clearTimers` reaches the countdown
   * and the end of the spin; the countdown runs only while getting ready
   * and ends with the spin; the end of the spin is pending only on the
   * slot machine.
   */
  ghost predicate QueueInv(g: Game)
  {
    var p := g.clock.pending;
    && Valid(g.clock)
    && (forall t :: t in p ==> t.period == 0)
    && (forall t :: t in p ==> (IsTracked(t.action) <==> t.id in g.timeouts))
    && (forall i :: i in g.timeouts ==> i < g.clock.nextId)
    && (forall t :: t in p && t.action.ShowText? ==> g.phase == GetReady)
    && (g.phase == GetReady <==> Pending(p, StartSpin))
    && AtMostOne(p, StartSpin)
    && SpinLast(p)
  }

  /** The spin: the reels turn and the roulette plays exactly while the end of the spin is pending, at most 5.8 s ahead. */
  ghost predicate SpinInv(g: Game)
  {
    var p := g.clock.pending;
    && (Pending(p, SpinDone) ==> g.phase == Slot)
    && AtMostOne(p, SpinDone)
    && (forall t :: t in p && t.action == SpinDone ==> t.due <= g.clock.now + SettleDelay)
    && (g.isSpinning <==> Pending(p, SpinDone))
    && g.rouletteOn == g.isSpinning
    && (g.phase == Slot ==> (g.canShowAnswer <==> !g.isSpinning))
  }

  /** The lever is down exactly while its one spring-back is pending, at most 0.4 s ahead. */
  ghost predicate LeverInv(g: Game)
  {
    var p := g.clock.pending;
    && (g.leverPulled <==> Pending(p, LeverUp))
    && AtMostOne(p, LeverUp)
    && (forall t :: t in p && t.action == LeverUp ==> t.due <= g.clock.now + LeverDelay)
  }

  /** Confetti falls only while its end is pending, at most 3 s ahead and never on the slot machine. */
  ghost predicate ConfettiInv(g: Game)
  {
    var p := g.clock.pending;
    && (forall t :: t in p && t.action == ConfettiOff ==> t.due <= g.clock.now + ConfettiDelay && g.phase != Slot)
    && (g.showConfetti ==> Pending(p, ConfettiOff))
  }

  /** Every round has a drawn date. */
  ghost predicate DateInv(g: Game)
  {
    && (g.phase != Settings ==> g.date.Some?)
    && (g.date.Some? ==> DrawnDate(g.date.value))
  }

  ghost predicate Inv(g: Game)
  {
    QueueInv(g) && SpinInv(g) && LeverInv(g) && ConfettiInv(g) && DateInv(g)
  }

  lemma InitialInv()
    ensures Inv(InitialGame())
  {
  }

  /** What firing leaves: every other callback, nothing new. */
  lemma Remaining(g: Game)
    requires QueueInv(g) && |g.clock.pending| > 0
    ensures var f := Fire(g.clock);
      && Valid(f.clock) && g.clock.now <= f.clock.now && f.clock.now == f.timer.due
      && f.clock.nextId == g.clock.nextId
      && (forall t :: t in f.clock.pending <==> t in g.clock.pending && t != f.timer)
  {
    var f := Fire(g.clock);
    assert f.timer.period == 0;
    forall t | t in g.clock.pending && t != f.timer
      ensures t.id != f.timer.id
    {
      if t.id == f.timer.id {
        SameHandle(g.clock, t, f.timer);
      }
    }
  }

  /** A callback doing `a` other than the fired one is still pending after it. */
  lemma StillPending(g: Game, a: Action)
    requires QueueInv(g) && |g.clock.pending| > 0
    requires Fire(g.clock).timer.action != a
    ensures Pending(Fire(g.clock).clock.pending, a) <==> Pending(g.clock.pending, a)
  {
    Remaining(g);
    var f := Fire(g.clock);
    if Pending(g.clock.pending, a) {
      var t :| t in g.clock.pending && t.action == a;
      assert t in f.clock.pending;
    }
  }

  /** The only callback doing `a` is gone once it fires. */
  lemma NoLongerPending(g: Game, a: Action)
    requires QueueInv(g) && |g.clock.pending| > 0
    requires Fire(g.clock).timer.action == a && AtMostOne(g.clock.pending, a)
    ensures !Pending(Fire(g.clock).clock.pending, a)
  {
    Remaining(g);
  }

  /** When the spin is due, nothing else is pending. */
  lemma SpinFiresAlone(g: Game)
    requires QueueInv(g) && |g.clock.pending| > 0
    requires Fire(g.clock).timer.action == StartSpin
    ensures forall t :: t !in Fire(g.clock).clock.pending
  {
    Remaining(g);
  }

  /** The callbacks `clearTimers` leaves are the lever's and the confetti's. */
  lemma Untracked(a: Action)
    ensures !IsTracked(a) <==> a == LeverUp || a == ConfettiOff
  {
  }

  /** What `startRound` keeps of the queue: the untracked callbacks, due within 3 s. */
  lemma StartRoundKeeps(g: Game)
    requires QueueInv(g) && LeverInv(g) && ConfettiInv(g)
    ensures forall t :: t in Cancel(g.clock, g.timeouts).pending <==> t in g.clock.pending && !IsTracked(t.action)
    ensures forall t :: t in Cancel(g.clock, g.timeouts).pending ==>
      && t.period == 0 && t.id < g.clock.nextId
      && (t.action == LeverUp || t.action == ConfettiOff)
      && t.due <= g.clock.now + ConfettiDelay
  {
    forall t | t in g.clock.pending
      ensures !IsTracked(t.action) ==> t.action == LeverUp || t.action == ConfettiOff
    {
      Untracked(t.action);
    }
  }

  /** The countdown's timers: fresh handles, one-shot, the spin last at 5.5 s. */
  lemma CountdownShape(n: nat, now: nat)
    ensures var cd := CountdownTimers(n, now);
      && cd[5] in cd && cd[5].action == StartSpin && cd[5].due == now + 5500
      && forall t :: t in cd ==>
        && t.id in NewIds(n, 6) && t.period == 0 && IsTracked(t.action)
        && (t.action == StartSpin ==> t == cd[5])
        && (t.action != StartSpin ==> t.action.ShowText? && t.due <= now + 4500)
  {
    var cd := CountdownTimers(n, now);
    var ids := NewIds(n, 6);
    assert ids[0] == n && ids[1] == n + 1 && ids[2] == n + 2;
    assert ids[3] == n + 3 && ids[4] == n + 4 && ids[5] == n + 5;
  }

  /** `startRound` from the settings or the answer screen. */
  lemma StartRoundInv(g: Game, ry: Unit, rm: Unit, rd: Unit)
    requires Inv(g) && (g.phase == Settings || g.phase == Answer)
    ensures Inv(StartRound(g, ry, rm, rd))
  {
    var r := StartRound(g, ry, rm, rd);
    var kept := Cancel(g.clock, g.timeouts).pending;
    var cd := CountdownTimers(g.clock.nextId, g.clock.now);
    StartRoundKeeps(g);
    CountdownShape(g.clock.nextId, g.clock.now);
    StartRoundQueue(r, kept, cd, g.clock.nextId, g.clock.now);
    assert !Pending(g.clock.pending, SpinDone);
    StartRoundFlags(g, r, kept, cd);
  }

  lemma StartRoundQueue(r: Game, kept: seq<Timer<Action>>, cd: seq<Timer<Action>>, n: nat, now: nat)
    requires Valid(r.clock) && r.phase == GetReady && r.clock.now == now
    requires r.clock.pending == kept + cd && cd == CountdownTimers(n, now)
    requires r.timeouts == NewIds(n, 6)
    requires forall t :: t in kept ==>
      && t.period == 0 && t.id < n
      && (t.action == LeverUp || t.action == ConfettiOff)
      && t.due <= now + ConfettiDelay
    requires cd[5] in cd && cd[5].action == StartSpin && cd[5].due == now + 5500
    requires forall t :: t in cd ==>
      && t.id in NewIds(n, 6) && t.period == 0 && IsTracked(t.action)
      && (t.action == StartSpin ==> t == cd[5])
      && (t.action != StartSpin ==> t.action.ShowText? && t.due <= now + 4500)
    ensures QueueInv(r)
  {
    var p := r.clock.pending;
    assert cd[5] in p;
    forall t | t in p
      ensures IsTracked(t.action) <==> t.id in r.timeouts
    {
      if t in kept {
        assert t.id !in r.timeouts;
      }
    }
  }

  lemma StartRoundFlags(g: Game, r: Game, kept: seq<Timer<Action>>, cd: seq<Timer<Action>>)
    requires SpinInv(g) && LeverInv(g) && ConfettiInv(g) && !Pending(g.clock.pending, SpinDone)
    requires r.phase == GetReady && r.clock.now == g.clock.now
    requires r.isSpinning == g.isSpinning && r.rouletteOn == g.rouletteOn
    requires r.leverPulled == g.leverPulled && r.showConfetti == g.showConfetti
    requires r.date.Some? && DrawnDate(r.date.value)
    requires r.clock.pending == kept + cd
    requires forall t :: t in kept <==> t in g.clock.pending && !IsTracked(t.action)
    requires forall t :: t in cd ==> t.action.ShowText? || t.action == StartSpin
    ensures SpinInv(r) && LeverInv(r) && ConfettiInv(r) && DateInv(r)
  {
    var p := r.clock.pending;
    if g.leverPulled {
      var t :| t in g.clock.pending && t.action == LeverUp;
      assert t in p;
    }
    if g.showConfetti {
      var t :| t in g.clock.pending && t.action == ConfettiOff;
      assert t in p;
    }
  }

  /** The spin starts: nothing else was pending, so the lever and the end of the spin are the whole queue. */
  lemma TriggerInv(g: Game)
    requires Inv(g) && |g.clock.pending| > 0
    requires Fire(g.clock).timer.action == StartSpin
    ensures Inv(Step(g, TimerFires))
  {
    var f := Fire(g.clock);
    Remaining(g);
    SpinFiresAlone(g);
    assert g.phase == GetReady by { assert f.timer in g.clock.pending; }
    var r := Step(g, TimerFires);
    assert r == TriggerSpinSequence(g.(clock := f.clock));
    var n := g.clock.nextId;
    var lever := Timer(n, f.clock.now + LeverDelay, 0, LeverUp);
    var settle := Timer(n + 1, f.clock.now + SettleDelay, 0, SpinDone);
    assert r.clock.pending == f.clock.pending + [lever, settle];
    TriggerQueue(r, lever, settle, g.timeouts);
  }

  lemma TriggerQueue(r: Game, lever: Timer<Action>, settle: Timer<Action>, kept: seq<nat>)
    requires Valid(r.clock) && r.phase == Slot
    requires r.isSpinning && !r.canShowAnswer && !r.showConfetti && r.leverPulled && r.rouletteOn
    requires r.date.Some? && DrawnDate(r.date.value)
    requires forall t :: t in r.clock.pending <==> t == lever || t == settle
    requires lever == Timer(lever.id, r.clock.now + LeverDelay, 0, LeverUp)
    requires settle == Timer(lever.id + 1, r.clock.now + SettleDelay, 0, SpinDone)
    requires r.timeouts == kept + [lever.id + 1] && lever.id + 2 == r.clock.nextId
    requires forall i :: i in kept ==> i < lever.id
    ensures Inv(r)
  {
    var p := r.clock.pending;
    assert lever in p && settle in p;
  }

  /** A callback other than the spin fires: the queue only shrinks. */
  lemma ShrinkQueue(g: Game)
    requires QueueInv(g) && |g.clock.pending| > 0
    requires Fire(g.clock).timer.action != StartSpin
    ensures QueueInv(g.(clock := Fire(g.clock).clock))
  {
    Remaining(g);
    StillPending(g, StartSpin);
  }

  /** What a callback other than the spin changes. */
  lemma OnTimerShape(g: Game)
    requires |g.clock.pending| > 0
    requires Fire(g.clock).timer.action != StartSpin
    ensures var f := Fire(g.clock); var a := f.timer.action; var r := Step(g, TimerFires);
      && r.clock == f.clock && r.timeouts == g.timeouts && r.phase == g.phase && r.date == g.date
      && r.isSpinning == (g.isSpinning && a != SpinDone) && r.rouletteOn == (g.rouletteOn && a != SpinDone)
      && r.canShowAnswer == (g.canShowAnswer || a == SpinDone)
      && r.leverPulled == (g.leverPulled && a != LeverUp)
      && r.showConfetti == (g.showConfetti && a != ConfettiOff)
  {
  }

  lemma ShrinkInv(g: Game)
    requires Inv(g) && |g.clock.pending| > 0
    requires Fire(g.clock).timer.action != StartSpin
    ensures Inv(Step(g, TimerFires))
  {
    var f := Fire(g.clock);
    var a := f.timer.action;
    var r := Step(g, TimerFires);
    Remaining(g);
    ShrinkQueue(g);
    OnTimerShape(g);
    assert QueueInv(r);
    ShrinkSpin(g, r);
    ShrinkLever(g, r);
    ShrinkConfetti(g, r);
  }

  lemma ShrinkSpin(g: Game, r: Game)
    requires Inv(g) && |g.clock.pending| > 0
    requires Fire(g.clock).timer.action != StartSpin && r == Step(g, TimerFires)
    ensures SpinInv(r)
  {
    Remaining(g);
    OnTimerShape(g);
    if Fire(g.clock).timer.action == SpinDone {
      NoLongerPending(g, SpinDone);
      assert g.phase == Slot by { assert Fire(g.clock).timer in g.clock.pending; }
    } else {
      StillPending(g, SpinDone);
    }
  }

  lemma ShrinkLever(g: Game, r: Game)
    requires Inv(g) && |g.clock.pending| > 0
    requires Fire(g.clock).timer.action != StartSpin && r == Step(g, TimerFires)
    ensures LeverInv(r)
  {
    Remaining(g);
    OnTimerShape(g);
    if Fire(g.clock).timer.action == LeverUp {
      NoLongerPending(g, LeverUp);
    } else {
      StillPending(g, LeverUp);
    }
  }

  lemma ShrinkConfetti(g: Game, r: Game)
    requires Inv(g) && |g.clock.pending| > 0
    requires Fire(g.clock).timer.action != StartSpin && r == Step(g, TimerFires)
    ensures ConfettiInv(r)
  {
    Remaining(g);
    OnTimerShape(g);
    if Fire(g.clock).timer.action != ConfettiOff {
      StillPending(g, ConfettiOff);
    }
  }

  lemma FireInv(g: Game)
    requires Inv(g)
    ensures Inv(Step(g, TimerFires))
  {
    if |g.clock.pending| > 0 {
      if Fire(g.clock).timer.action == StartSpin {
        TriggerInv(g);
      } else {
        ShrinkInv(g);
      }
    }
  }

  /** REVEAL once the spin is over: the answer and its confetti. */
  lemma ShowAnswerInv(g: Game)
    requires Inv(g) && g.phase == Slot
    ensures Inv(Step(g, Reveal))
  {
    var r := Step(g, Reveal);
    if g.canShowAnswer {
      var c := Timer(g.clock.nextId, g.clock.now + ConfettiDelay, 0, ConfettiOff);
      assert r.clock.pending == g.clock.pending + [c];
      assert !Pending(g.clock.pending, StartSpin) && !Pending(g.clock.pending, SpinDone);
      ShowAnswerQueue(g, r, c);
      ShowAnswerFlags(g, r, c);
    }
  }

  lemma ShowAnswerQueue(g: Game, r: Game, c: Timer<Action>)
    requires QueueInv(g) && g.phase == Slot && !Pending(g.clock.pending, StartSpin)
    requires Valid(r.clock) && r.phase == Answer && r.timeouts == g.timeouts
    requires r.clock.nextId == g.clock.nextId + 1
    requires c == Timer(g.clock.nextId, g.clock.now + ConfettiDelay, 0, ConfettiOff)
    requires r.clock.pending == g.clock.pending + [c]
    ensures QueueInv(r)
  {
    assert c.id !in g.timeouts;
  }

  lemma ShowAnswerFlags(g: Game, r: Game, c: Timer<Action>)
    requires SpinInv(g) && LeverInv(g) && ConfettiInv(g) && DateInv(g)
    requires g.phase == Slot && !Pending(g.clock.pending, SpinDone)
    requires r == g.(phase := Answer, showConfetti := true, clock := r.clock)
    requires r.clock.now == g.clock.now
    requires c == Timer(g.clock.nextId, g.clock.now + ConfettiDelay, 0, ConfettiOff)
    requires r.clock.pending == g.clock.pending + [c]
    ensures SpinInv(r) && LeverInv(r) && ConfettiInv(r) && DateInv(r)
  {
    var p := r.clock.pending;
    assert c in p;
    if g.leverPulled {
      var t :| t in g.clock.pending && t.action == LeverUp;
      assert t in p;
    }
  }

  /** Back to the settings: only the lever and the confetti are left pending. */
  lemma BackInv(g: Game)
    requires Inv(g)
    ensures Inv(HandleBackSettings(g))
  {
    var r := HandleBackSettings(g);
    assert forall t :: t in r.clock.pending <==> t in g.clock.pending && !IsTracked(t.action);
    BackFlags(g, r);
  }

  lemma BackFlags(g: Game, r: Game)
    requires LeverInv(g) && ConfettiInv(g) && DateInv(g)
    requires r.phase == Settings && !r.isSpinning && !r.rouletteOn && !r.showConfetti
    requires r.leverPulled == g.leverPulled && r.date == g.date && r.clock.now == g.clock.now
    requires forall t :: t in r.clock.pending <==> t in g.clock.pending && !IsTracked(t.action)
    ensures SpinInv(r) && LeverInv(r) && ConfettiInv(r) && DateInv(r)
  {
    if g.leverPulled {
      var t :| t in g.clock.pending && t.action == LeverUp;
      assert t in r.clock.pending;
    }
  }

  /** Time passes with nothing due. */
  lemma IdleInv(g: Game, dt: nat)
    requires Inv(g)
    ensures Inv(Step(g, Idle(dt)))
  {
  }

  lemma StepInv(g: Game, e: Event)
    requires Inv(g)
    ensures Inv(Step(g, e))
  {
    match e
    case ChooseYearType(_) =>
    case Spin(ry, rm, rd) =>
      if g.phase == Settings || g.phase == Answer {
        StartRoundInv(g, ry, rm, rd);
      }
    case Reveal =>
      if g.phase == Slot {
        ShowAnswerInv(g);
      }
    case OpenSettings => BackInv(g);
    case Idle(dt) => IdleInv(g, dt);
    case TimerFires => FireInv(g);
  }

  /** Every state reached from a state that keeps the invariant keeps it. */
  lemma {:induction false} RunInv(g: Game, events: seq<Event>)
    requires Inv(g)
    ensures Inv(Run(g, events))
    decreases |events|
  {
    if |events| > 0 {
      StepInv(g, events[0]);
      RunInv(Step(g, events[0]), events[1..]);
    }
  }

  /** While the reels turn, REVEAL does nothing, and the end of the spin is at most 5.8 s away. */
  lemma RevealLocked(g: Game)
    requires Inv(g) && g.phase == Slot && !g.canShowAnswer
    ensures Step(g, Reveal) == g
    ensures exists t :: t in g.clock.pending && t.action == SpinDone && t.due <= g.clock.now + SettleDelay
  {
  }

  /** Only the end of the spin unlocks REVEAL, and after it REVEAL shows the answer with confetti. */
  lemma RevealUnlocks(g: Game)
    requires Inv(g) && |g.clock.pending| > 0 && Fire(g.clock).timer.action == SpinDone
    ensures var r := Step(g, TimerFires);
      && r.phase == Slot && r.canShowAnswer && !r.isSpinning && !r.rouletteOn
      && r.clock.now == Fire(g.clock).timer.due
      && Step(r, Reveal).phase == Answer && Step(r, Reveal).showConfetti
  {
    var f := Fire(g.clock);
    assert f.timer in g.clock.pending && Pending(g.clock.pending, SpinDone);
    assert SpinInv(g);
    SpinDoneStep(g, f);
    RevealAfterSpin(OnSpinDone(g.(clock := f.clock)));
  }

  lemma SpinDoneStep(g: Game, f: Fired<Action>)
    requires |g.clock.pending| > 0 && f == Fire(g.clock) && f.timer.action == SpinDone
    ensures Step(g, TimerFires) == OnSpinDone(g.(clock := f.clock))
  {
  }

  lemma RevealAfterSpin(r: Game)
    requires r.phase == Slot && r.canShowAnswer
    ensures Step(r, Reveal).phase == Answer && Step(r, Reveal).showConfetti
  {
  }

  /** A pulled lever has its spring-back pending within 0.4 s; firing it releases the lever. */
  lemma LeverSpringsBack(g: Game)
    requires Inv(g) && g.leverPulled
    ensures exists t :: t in g.clock.pending && t.action == LeverUp && t.due <= g.clock.now + LeverDelay
    ensures Fire(g.clock).timer.action == LeverUp ==> !Step(g, TimerFires).leverPulled
  {
    var p := g.clock.pending;
    assert LeverInv(g) && Pending(p, LeverUp);
    var t :| t in p && t.action == LeverUp;
    assert t.due <= g.clock.now + LeverDelay;
    var f := Fire(g.clock);
    if f.timer.action == LeverUp {
      LeverFires(g, f);
    }
  }

  lemma LeverFires(g: Game, f: Fired<Action>)
    requires |g.clock.pending| > 0 && f == Fire(g.clock) && f.timer.action == LeverUp
    ensures !Step(g, TimerFires).leverPulled
  {
  }

  /**
   * On the settings screen only the lever's and the confetti's callbacks
   * can be pending, so no timer can start a round or a spin.
   */
  lemma SettingsStays(g: Game)
    requires Inv(g) && g.phase == Settings
    ensures forall t :: t in g.clock.pending ==> t.action == LeverUp || t.action == ConfettiOff
    ensures Step(g, TimerFires).phase == Settings
  {
    var p := g.clock.pending;
    assert !Pending(p, StartSpin) && !Pending(p, SpinDone);
    assert forall t :: t in p ==> !t.action.ShowText?;
    if |p| > 0 {
      var f := Fire(g.clock);
      assert f.timer in p;
      SettingsTimer(g, f);
    }
  }

  lemma SettingsTimer(g: Game, f: Fired<Action>)
    requires |g.clock.pending| > 0 && f == Fire(g.clock)
    requires f.timer.action == LeverUp || f.timer.action == ConfettiOff
    ensures Step(g, TimerFires).phase == g.phase
  {
  }

  /** Going back to the settings ends the round for good: nothing pending can leave the settings screen. */
  lemma LeavingEndsRound(g: Game)
    requires Inv(g)
    ensures var r := HandleBackSettings(g);
      && r.phase == Settings
      && (forall t :: t in r.clock.pending ==> t.action == LeverUp || t.action == ConfettiOff)
      && Step(r, TimerFires).phase == Settings
  {
    BackInv(g);
    SettingsStays(HandleBackSettings(g));
  }

  /** A reel stops on `value` at row `t` of its strip. */
  ghost predicate Lands(items: seq<string>, value: string, loops: nat, t: nat)
  {
    && ReelTarget(items, value, loops) == Some(t)
    && t < |Strip(items)| && Strip(items)[t] == value
  }

  /** Once a round has begun, each reel finds the round's date and stops on it inside its strip. */
  lemma RoundReels(g: Game)
    requires Inv(g) && g.phase != Settings
    ensures var d := g.date.value;
      && Lands(DayItems(), Pad2(d.day), DayLoops, d.day - 1 + DayLoops * 31)
      && Lands(MonthItems(), Pad2(d.month), MonthLoops, d.month - 1 + MonthLoops * 12)
      && Lands(YearItems(g.yearType), Show(DisplayYear(d.year, g.yearType)), YearLoops,
               d.year - 2000 + YearLoops * 25)
  {
    var d := g.date.value;
    DayLands(d.day);
    MonthLands(d.month);
    YearLands(d.year, g.yearType);
  }

  lemma DayLands(day: int)
    requires 1 <= day <= 28
    ensures Lands(DayItems(), Pad2(day), DayLoops, day - 1 + DayLoops * 31)
  {
    DayReel(day);
    ReelLandsOnValue(DayItems(), Pad2(day), DayLoops);
  }

  lemma MonthLands(month: int)
    requires 1 <= month <= 12
    ensures Lands(MonthItems(), Pad2(month), MonthLoops, month - 1 + MonthLoops * 12)
  {
    MonthReel(month);
    ReelLandsOnValue(MonthItems(), Pad2(month), MonthLoops);
  }

  lemma YearLands(year: int, yearType: YearType)
    requires 2000 <= year <= 2024
    ensures Lands(YearItems(yearType), Show(DisplayYear(year, yearType)), YearLoops, year - 2000 + YearLoops * 25)
  {
    YearReel(year, yearType);
    ReelLandsOnValue(YearItems(yearType), Show(DisplayYear(year, yearType)), YearLoops);
  }

  /**
   * On the answer screen the calendar of the round's month highlights
   * exactly one cell, in the column of the date's weekday.
   */
  lemma AnswerCalendar(g: Game, r: nat, c: nat)
    requires Inv(g) && g.phase == Answer
    requires var d := g.date.value; r < Rows(FirstDay(d.year, d.month), LastDate(d.year, d.month)) && c < 7
    ensures var d := g.date.value;
      var first := FirstDay(d.year, d.month);
      && (Grid(first, LastDate(d.year, d.month))[r][c] == Some(d.day) <==>
           (r == (first + d.day - 1) / 7 && c == (first + d.day - 1) % 7))
      && (first + d.day - 1) % 7 == Weekday(d)
  {
    var d := g.date.value;
    MonthsFill(d.year, d.month);
    TargetCellUnique(FirstDay(d.year, d.month), LastDate(d.year, d.month), d.day, r, c);
    ColumnIsWeekday(d);
  }
}
