/**
 * What holds in every state the flashcard game can reach, in both builds,
 * and what follows: the cursor stays on the set, the flashing stops on the
 * last number, and the revealed answer is the set's sum. The scoreboard
 * counter matches the rows only when the reveal handles are kept.
 */
module FlashcardInvariant {
  import opened Options
  import opened Timers
  import opened ArithmeticSets
  import opened FlashcardGame

  /** How many scoreboard reveals are pending. */
  function RevealCount(p: seq<Timer<Action>>): nat
  {
    if |p| == 0 then 0 else (if p[0].action.RevealRow? then 1 else 0) + RevealCount(p[1..])
  }

  lemma {:induction false} RevealCountAppend(a: seq<Timer<Action>>, b: seq<Timer<Action>>)
    ensures RevealCount(a + b) == RevealCount(a) + RevealCount(b)
  {
    if |a| == 0 {
      assert a + b == b;
    } else {
      assert (a + b)[0] == a[0];
      assert (a + b)[1..] == a[1..] + b;
      RevealCountAppend(a[1..], b);
    }
  }

  lemma {:induction false} RevealCountNone(p: seq<Timer<Action>>)
    requires forall t :: t in p ==> !t.action.RevealRow?
    ensures RevealCount(p) == 0
  {
    if |p| > 0 {
      assert p[0] in p;
      RevealCountNone(p[1..]);
    }
  }

  lemma {:induction false} RevealCountAll(p: seq<Timer<Action>>)
    requires forall t :: t in p ==> t.action.RevealRow?
    ensures RevealCount(p) == |p|
  {
    if |p| > 0 {
      assert p[0] in p;
      RevealCountAll(p[1..]);
    }
  }

  /** Removing the callback at `k` lowers the count by one exactly when it is a reveal. */
  lemma RevealCountRemove(p: seq<Timer<Action>>, k: nat, again: seq<Timer<Action>>)
    requires k < |p|
    requires forall t :: t in again ==> !t.action.RevealRow?
    ensures RevealCount(p[..k] + p[k + 1..] + again) + (if p[k].action.RevealRow? then 1 else 0) == RevealCount(p)
  {
    assert p == p[..k] + [p[k]] + p[k + 1..];
    RevealCountAppend(p[..k] + [p[k]], p[k + 1..]);
    RevealCountAppend(p[..k], [p[k]]);
    RevealCountAppend(p[..k], p[k + 1..]);
    RevealCountAppend(p[..k] + p[k + 1..], again);
    RevealCountNone(again);
    assert [p[k]][1..] == [];
  }

  /** `clearTimers` can reach a pending callback: the interval through its ref, the rest through the kept list. */
  ghost predicate Tracked(g: Game, t: Timer<Action>)
  {
    if t.action.NextNumber? then g.interval == Some(t.id) else t.id in g.timeouts
  }

  /** A pending callback belongs to the phase it can act in, with the settings of the game. */
  ghost predicate Fits(g: Game, t: Timer<Action>)
  {
    match t.action
    case ShowText(_) => t.period == 0
    case Buzz => t.period == 0
    case BeginPlaying(n, sp) =>
      t.period == 0 && g.phase == GetReady && n == g.config.numbersPerSet && sp == g.config.speedMs
    case NextNumber(n) => t.period > 0 && g.phase == Playing && n == g.config.numbersPerSet
    case RevealRow => t.period == 0 && g.phase == Summary
  }

  /** The sets of a running game: enough for every round, each of the set length, each valid. */
  ghost predicate SetsFit(sets: seq<seq<int>>, cfg: Config)
  {
    && |sets| >= cfg.totalRounds
    && (forall i :: 0 <= i < |sets| ==> |sets[i]| == cfg.numbersPerSet)
    && AllValid(sets)
  }

  /** Every set obeys the generation rules (stated set by set, so that it unfolds only on demand). */
  ghost predicate AllValid(sets: seq<seq<int>>)
    decreases |sets|
  {
    |sets| == 0 || (ValidSet(sets[0]) && AllValid(sets[1..]))
  }

  lemma {:induction false} AllValidAt(sets: seq<seq<int>>, i: nat)
    requires AllValid(sets) && i < |sets|
    ensures ValidSet(sets[i])
    decreases i
  {
    if i > 0 {
      AllValidAt(sets[1..], i - 1);
    }
  }

  lemma {:induction false} AllValidFrom(sets: seq<seq<int>>)
    requires forall i :: 0 <= i < |sets| ==> ValidSet(sets[i])
    ensures AllValid(sets)
    decreases |sets|
  {
    if |sets| > 0 {
      assert forall i :: 0 <= i < |sets[1..]| ==> sets[1..][i] == sets[i + 1];
      AllValidFrom(sets[1..]);
    }
  }

  ghost predicate SetsReady(g: Game)
  {
    SetsFit(g.sets, g.config) && g.setIndex < g.config.totalRounds
  }


  /** A callback `clearTimers` cannot reach: in the component as written, a scoreboard reveal. */
  ghost predicate Stale(t: Timer<Action>, b: Build)
  {
    b == AsWritten && t.action.RevealRow?
  }

  /** A pending callback is a stale reveal (a one-shot), or tracked and fitting the phase. */
  ghost predicate Owned(g: Game, t: Timer<Action>, b: Build)
  {
    if Stale(t, b) then t.period == 0 else Tracked(g, t) && Fits(g, t)
  }

  /** The scoreboard counter and the reveals still to come add up to the rows. */
  ghost predicate Counted(g: Game)
  {
    && (g.phase != Summary ==> g.revealed == 0)
    && (g.phase == Summary ==> g.revealed + RevealCount(g.clock.pending) == g.config.totalRounds)
  }

  /**
   * What holds in every state the machine built as `b` reaches. The
   * counter is tied to the rows only when the reveal handles are kept.
   */
  ghost predicate Inv(g: Game, b: Build)
  {
    && Valid(g.clock)
    && 1 <= g.config.numbersPerSet <= 20
    && 1 <= g.config.totalRounds <= 50
    && (forall t :: t in g.clock.pending ==> Owned(g, t, b))
    && (forall t, u :: t in g.clock.pending && u in g.clock.pending && t.action.BeginPlaying? && u.action.BeginPlaying? ==> t == u)
    && (g.phase == Settings ==> forall t :: t in g.clock.pending ==> Stale(t, b))
    && (g.phase != Settings ==> SetsReady(g))
    && (g.phase == GetReady ==> g.numberIndex == 0)
    && (g.phase == Playing ==> g.numberIndex < g.config.numbersPerSet)
    && ((g.phase == Waiting || g.phase == Answer) ==> g.numberIndex + 1 == g.config.numbersPerSet)
    && (g.phase == Answer ==> g.answer == Some(RowAnswer(g.sets[g.setIndex], g.config.numbersPerSet)))
    && (b == KeepReveals ==> Counted(g))
  }

  lemma InitialInv(b: Build)
    ensures Inv(InitialGame(), b)
  {
  }

  /** A non-empty queue holds its first callback. */
  lemma Head<T>(p: seq<T>)
    ensures |p| > 0 ==> p[0] in p
  {
  }

  /** `clearTimers` leaves only stale reveals. */
  lemma ClearLeaves(g: Game, b: Build)
    requires forall t :: t in g.clock.pending ==> Owned(g, t, b)
    ensures forall t :: t in Cancel(g.clock, TrackedIds(g)).pending ==> Stale(t, b) && t.period == 0
  {
    forall t | t in g.clock.pending && !Stale(t, b)
      ensures t.id in TrackedIds(g)
    {
      assert Tracked(g, t);
    }
  }

  /** With every pending callback tracked, `clearTimers` leaves nothing pending. */
  lemma ClearAll(g: Game)
    requires forall t :: t in g.clock.pending ==> Owned(g, t, KeepReveals)
    ensures Cancel(g.clock, TrackedIds(g)).pending == []
  {
    ClearLeaves(g, KeepReveals);
    Head(Cancel(g.clock, TrackedIds(g)).pending);
  }

  /** What each countdown timer is: a kept handle, a one-shot, text or buzz or the start of flashing. */
  lemma CountdownFacts(id: nat, now: nat, cfg: Config)
    ensures forall t :: t in CountdownTimers(id, now, cfg) ==>
      && t.id in NewIds(id, 6) && t.period == 0
      && (t.action.ShowText? || t.action.Buzz? || t.action == BeginPlaying(cfg.numbersPerSet, cfg.speedMs))
      && (t.action.BeginPlaying? ==> t == CountdownTimers(id, now, cfg)[5])
  {
    var ts := CountdownTimers(id, now, cfg);
    var ids := NewIds(id, 6);
    assert ids[0] == id && ids[1] == id + 1 && ids[2] == id + 2;
    assert ids[3] == id + 3 && ids[4] == id + 4 && ids[5] == id + 5;
  }

  lemma StartSequenceInv(g: Game, setIndex: nat, b: Build)
    requires Valid(g.clock)
    requires 1 <= g.config.numbersPerSet <= 20 && 1 <= g.config.totalRounds <= 50
    requires forall t :: t in g.clock.pending ==> Owned(g, t, b)
    requires SetsFit(g.sets, g.config) && setIndex < g.config.totalRounds
    requires b == KeepReveals ==> g.revealed == 0
    ensures Inv(StartSequenceForSet(g, setIndex), b)
  {
    var r := StartSequenceForSet(g, setIndex);
    StartSequenceQueue(g, setIndex, b);
    assert SetsReady(r);
  }

  /** A new round's queue: what clearing left (stale reveals), then the countdown with its one start of flashing. */
  lemma StartSequenceQueue(g: Game, setIndex: nat, b: Build)
    requires forall t :: t in g.clock.pending ==> Owned(g, t, b)
    ensures var r := StartSequenceForSet(g, setIndex);
      forall t :: t in r.clock.pending ==>
        && Owned(r, t, b)
        && (t.action.BeginPlaying? ==> t == CountdownTimers(g.clock.nextId, g.clock.now, g.config)[5])
  {
    var r := StartSequenceForSet(g, setIndex);
    ClearLeaves(g, b);
    var left := Cancel(g.clock, TrackedIds(g)).pending;
    var ts := CountdownTimers(g.clock.nextId, g.clock.now, g.config);
    assert r.clock.pending == left + ts;
    CountdownFacts(g.clock.nextId, g.clock.now, g.config);
    forall t | t in r.clock.pending
      ensures Owned(r, t, b) && (t.action.BeginPlaying? ==> t == ts[5])
    {
      if t in ts {
        assert t.id in r.timeouts;
      }
    }
  }

  /** `handleStart` from any state whose callbacks are all owned. */
  lemma HandleStartInv(g: Game, rnd: RandomSource, b: Build)
    requires Valid(g.clock)
    requires 1 <= g.config.numbersPerSet <= 20 && 1 <= g.config.totalRounds <= 50
    requires forall t :: t in g.clock.pending ==> Owned(g, t, b)
    requires b == KeepReveals ==> g.revealed == 0
    ensures Inv(HandleStart(g, rnd), b)
  {
    var r := HandleStart(g, rnd);
    var h := g.(sets := r.sets);
    AllValidFrom(r.sets);
    assert SetsFit(h.sets, h.config);
    forall t | t in h.clock.pending
      ensures Owned(h, t, b)
    {
      assert Owned(g, t, b);
    }
    StartSequenceInv(h, 0, b);
  }

  /** What a running game offers `startSequenceForSet` and `handleStart`. */
  lemma RunningFacts(g: Game, b: Build)
    requires Inv(g, b) && g.phase != Settings
    ensures Valid(g.clock)
    ensures 1 <= g.config.numbersPerSet <= 20 && 1 <= g.config.totalRounds <= 50
    ensures forall t :: t in g.clock.pending ==> Owned(g, t, b)
    ensures SetsFit(g.sets, g.config)
  {
    assert SetsReady(g);
  }

  /** The next round of a running game, from the facts `RunningFacts` gives. */
  lemma NextRoundInv(g: Game, next: nat, b: Build)
    requires Valid(g.clock)
    requires 1 <= g.config.numbersPerSet <= 20 && 1 <= g.config.totalRounds <= 50
    requires forall t :: t in g.clock.pending ==> Owned(g, t, b)
    requires SetsFit(g.sets, g.config) && next < g.config.totalRounds
    requires b == KeepReveals ==> g.revealed == 0
    requires next == g.setIndex + 1
    ensures Inv(StartSequenceForSet(g, g.setIndex + 1), b)
  {
    StartSequenceInv(g, next, b);
    SameRound(g, next, b);
  }

  /** Restates a fact about round `next` as one about the round after the current one. */
  lemma SameRound(g: Game, next: nat, b: Build)
    requires next == g.setIndex + 1 && Inv(StartSequenceForSet(g, next), b)
    ensures Inv(StartSequenceForSet(g, g.setIndex + 1), b)
  {
  }

  /** In waiting and answer only countdown texts and stale reveals can still be pending. */
  lemma QuietPhase(g: Game, t: Timer<Action>, b: Build)
    requires Inv(g, b) && (g.phase == Waiting || g.phase == Answer)
    requires t in g.clock.pending
    ensures t.action.ShowText? || t.action.Buzz? || Stale(t, b)
    ensures t.period == 0
  {
    assert Owned(g, t, b);
  }

  /** On the scoreboard the leftover callbacks stay harmless ... */
  lemma SummaryLeftovers(g: Game, b: Build)
    requires Inv(g, b) && (g.phase == Waiting || g.phase == Answer)
    ensures var r := StartSummary(g, b);
      forall t :: t in g.clock.pending ==>
        && !t.action.BeginPlaying? && Owned(r, t, b)
        && (t.action.RevealRow? ==> Stale(t, b))
  {
    var r := StartSummary(g, b);
    forall t | t in g.clock.pending
      ensures !t.action.BeginPlaying? && Owned(r, t, b) && (t.action.RevealRow? ==> Stale(t, b))
    {
      QuietPhase(g, t, b);
      if !Stale(t, b) {
        assert Tracked(g, t);
      }
    }
  }

  /** ... every reveal added is a one-shot ... */
  lemma AddedReveals(g: Game)
    ensures forall t :: t in NewTimers(g.clock, Reveals(RowsShown(g))) ==> t.action.RevealRow? && t.period == 0
  {
    var added := NewTimers(g.clock, Reveals(RowsShown(g)));
    forall t | t in added
      ensures t.action.RevealRow? && t.period == 0
    {
      var i :| 0 <= i < |added| && added[i] == t;
    }
  }

  /** ... with the handles kept, every reveal is reachable by `clearTimers` ... */
  lemma SummaryReveals(g: Game)
    ensures var r := StartSummarySequence(g);
      forall t :: t in NewTimers(g.clock, Reveals(RowsShown(g))) ==>
        t.action.RevealRow? && Tracked(r, t) && Fits(r, t)
  {
    var r := StartSummarySequence(g);
    var added := NewTimers(g.clock, Reveals(RowsShown(g)));
    forall t | t in added
      ensures t.action.RevealRow? && Tracked(r, t) && Fits(r, t)
    {
      var i :| 0 <= i < |added| && added[i] == t;
      assert r.timeouts[|g.timeouts| + i] == t.id;
    }
  }

  /** ... and the queue holds one reveal per row. */
  lemma SummaryCount(g: Game)
    requires Inv(g, KeepReveals) && (g.phase == Waiting || g.phase == Answer)
    ensures RevealCount(StartSummarySequence(g).clock.pending) == g.config.totalRounds
  {
    var added := NewTimers(g.clock, Reveals(RowsShown(g)));
    assert RowsShown(g) == g.config.totalRounds;
    SummaryLeftovers(g, KeepReveals);
    SummaryReveals(g);
    RevealCountNone(g.clock.pending);
    RevealCountAll(added);
    RevealCountAppend(g.clock.pending, added);
  }

  lemma SummaryInv(g: Game, b: Build)
    requires Inv(g, b) && (g.phase == Waiting || g.phase == Answer)
    ensures Inv(StartSummary(g, b), b)
  {
    var r := StartSummary(g, b);
    SummaryLeftovers(g, b);
    AddedReveals(g);
    if b == KeepReveals {
      SummaryReveals(g);
      SummaryCount(g);
    }
    assert SetsReady(r);
    assert forall t :: t in r.clock.pending ==> Owned(r, t, b) && !t.action.BeginPlaying?;
  }

  lemma NextSetRoundInv(g: Game, rnd: RandomSource, b: Build)
    requires Inv(g, b) && (g.phase == Waiting || g.phase == Answer)
    requires g.setIndex + 1 < g.config.totalRounds
    ensures Inv(HandleNextSet(g, rnd, b), b)
  {
    NextSetRoundCore(g, b);
    NextSetIsRound(g, rnd, b);
  }

  lemma NextSetRoundCore(g: Game, b: Build)
    requires Inv(g, b) && (g.phase == Waiting || g.phase == Answer)
    requires g.setIndex + 1 < g.config.totalRounds
    ensures Inv(StartSequenceForSet(g, g.setIndex + 1), b)
  {
    RunningFacts(g, b);
    NextRoundInv(g, g.setIndex + 1, b);
  }

  lemma NextSetIsRound(g: Game, rnd: RandomSource, b: Build)
    requires g.setIndex + 1 < g.config.totalRounds
    ensures HandleNextSet(g, rnd, b) == StartSequenceForSet(g, g.setIndex + 1)
  {
  }

  lemma NextSetSummaryInv(g: Game, rnd: RandomSource, b: Build)
    requires Inv(g, b) && (g.phase == Waiting || g.phase == Answer)
    requires g.setIndex + 1 >= g.config.totalRounds && g.config.mode == End
    ensures Inv(HandleNextSet(g, rnd, b), b)
  {
    SummaryInv(g, b);
    NextSetIsSummary(g, rnd, b);
  }

  lemma NextSetIsSummary(g: Game, rnd: RandomSource, b: Build)
    requires g.setIndex + 1 >= g.config.totalRounds && g.config.mode == End
    ensures HandleNextSet(g, rnd, b) == StartSummary(g, b)
  {
  }

  lemma NextSetRestartInv(g: Game, rnd: RandomSource, b: Build)
    requires Inv(g, b) && (g.phase == Waiting || g.phase == Answer)
    requires g.setIndex + 1 >= g.config.totalRounds && g.config.mode == Each
    ensures Inv(HandleNextSet(g, rnd, b), b)
  {
    RunningFacts(g, b);
    HandleStartInv(g, rnd, b);
  }

  /** NEXT keeps the invariant: the next round, the scoreboard, or a fresh practice game. */
  lemma NextSetInv(g: Game, rnd: RandomSource, b: Build)
    requires Inv(g, b) && (g.phase == Waiting || g.phase == Answer)
    ensures Inv(HandleNextSet(g, rnd, b), b)
  {
    if g.setIndex + 1 < g.config.totalRounds {
      NextSetRoundInv(g, rnd, b);
    } else if g.config.mode == End {
      NextSetSummaryInv(g, rnd, b);
    } else {
      NextSetRestartInv(g, rnd, b);
    }
  }

  /** Back to the settings: what stays pending is a stale reveal, and with the handles kept nothing is. */
  lemma BackToSettingsInv(g: Game, b: Build)
    requires Inv(g, b)
    ensures Inv(HandleBackToSettings(g), b)
    ensures forall t :: t in HandleBackToSettings(g).clock.pending ==> t.action.RevealRow? && b == AsWritten
  {
    ClearLeaves(g, b);
  }

  lemma RevealAnswerInv(g: Game, b: Build)
    requires Inv(g, b) && g.phase == Waiting
    ensures Inv(HandleShowAnswer(g), b)
  {
    var r := HandleShowAnswer(g);
    forall t | t in r.clock.pending
      ensures Owned(r, t, b)
    {
      QuietPhase(g, t, b);
      if !Stale(t, b) {
        assert Tracked(g, t);
      }
    }
  }

  /** The callback that fires is owned, and the reveal count drops by one exactly when it is a reveal. */
  lemma FireShape(g: Game, b: Build)
    requires Inv(g, b) && |g.clock.pending| > 0
    ensures var f := Fire(g.clock);
      && Owned(g, f.timer, b)
      && RevealCount(f.clock.pending) + (if f.timer.action.RevealRow? then 1 else 0) == RevealCount(g.clock.pending)
  {
    var f := Fire(g.clock);
    var again := Again(f.timer);
    assert Owned(g, f.timer, b);
    assert forall t :: t in again ==> t.action == f.timer.action && f.timer.period > 0;
    if f.timer.action.RevealRow? {
      assert again == [];
    }
    RevealCountRemove(g.clock.pending, f.index, again);
  }

  /** A state that differs only by a shorter queue and the scoreboard counter keeps the invariant. */
  lemma QueueShrinks(g: Game, r: Game, b: Build)
    requires Inv(g, b)
    requires r.config == g.config && r.phase == g.phase && r.sets == g.sets && r.setIndex == g.setIndex
    requires r.numberIndex == g.numberIndex && r.answer == g.answer
    requires r.timeouts == g.timeouts && r.interval == g.interval
    requires Valid(r.clock) && forall x :: x in r.clock.pending ==> x in g.clock.pending
    requires b == KeepReveals ==> Counted(r)
    ensures Inv(r, b)
  {
    forall x | x in r.clock.pending
      ensures Owned(r, x, b) && (r.phase == Settings ==> Stale(x, b))
    {
      assert Owned(g, x, b);
    }
    assert SetsReady(r) == SetsReady(g);
  }

  /** A one-shot callback leaves a queue of what was pending before. */
  lemma OneShotQueue(g: Game, b: Build)
    requires Inv(g, b) && |g.clock.pending| > 0
    requires Fire(g.clock).timer.period == 0
    ensures Valid(Fire(g.clock).clock)
    ensures forall x :: x in Fire(g.clock).clock.pending ==> x in g.clock.pending
  {
    var f := Fire(g.clock);
    assert Again(f.timer) == [];
  }

  /** A countdown text or the buzz fires: only the text changes. */
  lemma TextStep(g: Game, b: Build)
    requires |g.clock.pending| > 0
    requires var a := Fire(g.clock).timer.action; a.ShowText? || a.Buzz?
    ensures Step(g, TimerFires, b) == g.(clock := Fire(g.clock).clock, readyText := Step(g, TimerFires, b).readyText)
  {
  }

  lemma TextInv(g: Game, b: Build)
    requires Inv(g, b) && |g.clock.pending| > 0
    requires var a := Fire(g.clock).timer.action; a.ShowText? || a.Buzz?
    ensures Inv(Step(g, TimerFires, b), b)
  {
    TextStep(g, b);
    TextInvFor(g, Step(g, TimerFires, b), b);
  }

  lemma TextInvFor(g: Game, r: Game, b: Build)
    requires Inv(g, b) && |g.clock.pending| > 0
    requires var a := Fire(g.clock).timer.action; a.ShowText? || a.Buzz?
    requires r == g.(clock := Fire(g.clock).clock, readyText := r.readyText)
    ensures Inv(r, b)
  {
    FireShape(g, b);
    OneShotQueue(g, b);
    QueueShrinks(g, r, b);
  }

  /** A reveal fires: with the handles kept it is one of the scoreboard's, and the counter moves on. */
  lemma RevealInv(g: Game, b: Build)
    requires Inv(g, b) && |g.clock.pending| > 0
    requires Fire(g.clock).timer.action.RevealRow?
    ensures Inv(Step(g, TimerFires, b), b)
  {
    RevealStep(g, b);
    RevealInvFor(g, Step(g, TimerFires, b), b);
  }

  lemma RevealStep(g: Game, b: Build)
    requires |g.clock.pending| > 0
    requires Fire(g.clock).timer.action.RevealRow?
    ensures Step(g, TimerFires, b) == g.(clock := Fire(g.clock).clock, revealed := g.revealed + 1)
  {
  }

  lemma RevealInvFor(g: Game, r: Game, b: Build)
    requires Inv(g, b) && |g.clock.pending| > 0
    requires Fire(g.clock).timer.action.RevealRow?
    requires r == g.(clock := Fire(g.clock).clock, revealed := g.revealed + 1)
    ensures Inv(r, b)
  {
    FireShape(g, b);
    OneShotQueue(g, b);
    if b == KeepReveals {
      assert Fits(g, Fire(g.clock).timer);
    }
    QueueShrinks(g, r, b);
  }

  lemma FireInv(g: Game, b: Build)
    requires Inv(g, b) && |g.clock.pending| > 0
    ensures Inv(Step(g, TimerFires, b), b)
  {
    var a := Fire(g.clock).timer.action;
    if a.BeginPlaying? {
      BeginPlayingInv(g, b);
    } else if a.NextNumber? {
      NextNumberInv(g, b);
    } else if a.RevealRow? {
      RevealInv(g, b);
    } else {
      TextInv(g, b);
    }
  }

  lemma BeginPlayingInv(g: Game, b: Build)
    requires Inv(g, b) && |g.clock.pending| > 0
    requires Fire(g.clock).timer.action.BeginPlaying?
    ensures Inv(Step(g, TimerFires, b), b)
  {
    var f := Fire(g.clock);
    assert Owned(g, f.timer, b);
    var s := SetInterval(f.clock, TickPeriod(g.config.speedMs), NextNumber(g.config.numbersPerSet));
    BeginPlayingStep(g, f, s, b);
    BeginPlayingInvFor(g, f, s, b);
  }

  lemma BeginPlayingStep(g: Game, f: Fired<Action>, s: Scheduled<Action>, b: Build)
    requires |g.clock.pending| > 0 && f == Fire(g.clock)
    requires f.timer.action == BeginPlaying(g.config.numbersPerSet, g.config.speedMs)
    requires s == SetInterval(f.clock, TickPeriod(g.config.speedMs), NextNumber(g.config.numbersPerSet))
    ensures Step(g, TimerFires, b) == g.(clock := s.clock, phase := Playing, interval := Some(s.id))
  {
  }

  /** Flashing begins: the interval is the one callback of its kind, and the countdown is over. */
  lemma BeginPlayingInvFor(g: Game, f: Fired<Action>, s: Scheduled<Action>, b: Build)
    requires Inv(g, b) && |g.clock.pending| > 0 && f == Fire(g.clock)
    requires f.timer.action == BeginPlaying(g.config.numbersPerSet, g.config.speedMs)
    requires s == SetInterval(f.clock, TickPeriod(g.config.speedMs), NextNumber(g.config.numbersPerSet))
    ensures Inv(g.(clock := s.clock, phase := Playing, interval := Some(s.id)), b)
  {
    var t := f.timer;
    assert Owned(g, t, b);
    assert Again(t) == [];
    var r := g.(clock := s.clock, phase := Playing, interval := Some(s.id));
    forall x | x in r.clock.pending
      ensures Owned(r, x, b) && !x.action.BeginPlaying?
    {
      if x in f.clock.pending {
        assert x in g.clock.pending && x.id != t.id;
        assert Owned(g, x, b);
      }
    }
  }

  /** An interval tick runs the interval callback on the queue left by firing. */
  lemma NextNumberStep(g: Game, f: Fired<Action>, b: Build)
    requires |g.clock.pending| > 0 && f == Fire(g.clock)
    requires f.timer.action.NextNumber?
    ensures Step(g, TimerFires, b) == OnNextNumber(g.(clock := f.clock), f.timer.action.numbersPerSet)
  {
    assert Step(g, TimerFires, b) == OnTimer(g.(clock := f.clock), f.timer.action);
  }

  lemma NextNumberInv(g: Game, b: Build)
    requires Inv(g, b) && |g.clock.pending| > 0
    requires Fire(g.clock).timer.action.NextNumber?
    ensures Inv(Step(g, TimerFires, b), b)
  {
    NextNumberStep(g, Fire(g.clock), b);
    NextNumberInvFor(g, Fire(g.clock), b);
  }

  lemma NextNumberInvFor(g: Game, f: Fired<Action>, b: Build)
    requires Inv(g, b) && |g.clock.pending| > 0
    requires f == Fire(g.clock) && f.timer.action.NextNumber?
    ensures Inv(OnNextNumber(g.(clock := f.clock), f.timer.action.numbersPerSet), b)
  {
    assert Owned(g, f.timer, b);
    TickQueue(g, f, b);
    if g.numberIndex + 1 >= g.config.numbersPerSet {
      LastTickInv(g, f, b);
    } else {
      NextTickInv(g, f, b);
    }
  }

  /** After a tick the queue holds the interval again and what was pending besides. */
  lemma TickQueue(g: Game, f: Fired<Action>, b: Build)
    requires Inv(g, b) && |g.clock.pending| > 0
    requires f == Fire(g.clock) && f.timer.action.NextNumber?
    ensures Valid(f.clock)
    ensures forall x :: x in f.clock.pending ==> Owned(g, x, b)
    ensures forall x :: x in f.clock.pending && x.action.NextNumber? ==> x.id == f.timer.id
    ensures forall x :: x in f.clock.pending && x.id != f.timer.id ==> x in g.clock.pending
  {
    var t := f.timer;
    assert Owned(g, t, b);
    forall x | x in f.clock.pending
      ensures Owned(g, x, b)
      ensures x.action.NextNumber? ==> x.id == t.id
    {
      if x in g.clock.pending {
        assert Owned(g, x, b);
      }
    }
  }

  /** The last term of the set: the interval is cleared and the game waits on that term. */
  lemma LastTickInv(g: Game, f: Fired<Action>, b: Build)
    requires Inv(g, b) && |g.clock.pending| > 0
    requires f == Fire(g.clock) && f.timer.action == NextNumber(g.config.numbersPerSet)
    requires g.phase == Playing && g.interval == Some(f.timer.id)
    requires g.numberIndex + 1 >= g.config.numbersPerSet
    requires Valid(f.clock)
    requires forall x :: x in f.clock.pending ==> Owned(g, x, b)
    requires forall x :: x in f.clock.pending && x.action.NextNumber? ==> x.id == f.timer.id
    ensures Inv(OnNextNumber(g.(clock := f.clock), f.timer.action.numbersPerSet), b)
  {
    var c := Cancel(f.clock, [f.timer.id]);
    LastTickStep(g, f.clock, f.timer.id);
    LastTickFor(g, f, c, b);
  }

  lemma LastTickStep(g: Game, c: Clock<Action>, id: nat)
    requires 1 <= g.config.numbersPerSet <= 20 && g.interval == Some(id)
    requires g.numberIndex + 1 >= g.config.numbersPerSet
    ensures OnNextNumber(g.(clock := c), g.config.numbersPerSet) ==
      g.(clock := Cancel(c, [id]), interval := None, phase := Waiting)
  {
  }

  lemma LastTickFor(g: Game, f: Fired<Action>, c: Clock<Action>, b: Build)
    requires Inv(g, b) && |g.clock.pending| > 0
    requires f == Fire(g.clock) && f.timer.action == NextNumber(g.config.numbersPerSet)
    requires g.phase == Playing && g.interval == Some(f.timer.id)
    requires g.numberIndex + 1 >= g.config.numbersPerSet
    requires Valid(f.clock) && c == Cancel(f.clock, [f.timer.id])
    requires forall x :: x in f.clock.pending ==> Owned(g, x, b)
    requires forall x :: x in f.clock.pending && x.action.NextNumber? ==> x.id == f.timer.id
    ensures Inv(g.(clock := c, interval := None, phase := Waiting), b)
  {
    var r := g.(clock := c, interval := None, phase := Waiting);
    forall x | x in c.pending
      ensures Owned(r, x, b)
    {
      assert x in f.clock.pending && x.id != f.timer.id;
      assert Owned(g, x, b);
    }
  }

  /** Any other term: the cursor moves on and the queue keeps its shape. */
  lemma NextTickInv(g: Game, f: Fired<Action>, b: Build)
    requires Inv(g, b) && |g.clock.pending| > 0
    requires f == Fire(g.clock) && f.timer.action == NextNumber(g.config.numbersPerSet)
    requires g.phase == Playing
    requires g.numberIndex + 1 < g.config.numbersPerSet
    requires Valid(f.clock)
    requires forall x :: x in f.clock.pending ==> Owned(g, x, b)
    ensures Inv(OnNextNumber(g.(clock := f.clock), f.timer.action.numbersPerSet), b)
  {
    var r := OnNextNumber(g.(clock := f.clock), g.config.numbersPerSet);
    assert r == g.(clock := f.clock, numberIndex := g.numberIndex + 1);
    assert forall x :: x in r.clock.pending ==> Owned(r, x, b);
  }

  lemma EditInv(g: Game, e: Event, b: Build)
    requires Inv(g, b)
    requires e.EditSpeed? || e.FewerRounds? || e.MoreRounds? || e.FewerNumbers? || e.MoreNumbers? || e.ChooseMode?
    ensures Inv(Step(g, e, b), b)
  {
    var r := Step(g, e, b);
    if g.phase == Settings {
      forall t | t in r.clock.pending
        ensures Stale(t, b) && Owned(r, t, b)
      {
        assert Owned(g, t, b);
      }
    }
  }

  lemma IdleInv(g: Game, dt: nat, b: Build)
    requires Inv(g, b)
    ensures Inv(Step(g, Idle(dt), b), b)
  {
    if QuietFor(g.clock, dt) {
      var r := Step(g, Idle(dt), b);
      assert r.clock.pending == g.clock.pending;
    }
  }

  /** Every event keeps the invariant. */
  lemma StepInv(g: Game, e: Event, b: Build)
    requires Inv(g, b)
    ensures Inv(Step(g, e, b), b)
  {
    match e
    case StartGame(rnd) => if g.phase == Settings { HandleStartInv(g, rnd, b); }
    case RevealAnswer => if g.phase == Waiting && g.config.mode == Each { RevealAnswerInv(g, b); }
    case NextSet(rnd) => if (g.phase == Waiting && g.config.mode == End) || g.phase == Answer { NextSetInv(g, rnd, b); }
    case ReturnFromSummary => BackToSettingsInv(g, b);
    case OpenSettings => BackToSettingsInv(g, b);
    case Idle(dt) => IdleInv(g, dt, b);
    case TimerFires => if |g.clock.pending| > 0 { FireInv(g, b); }
    case _ => EditInv(g, e, b);
  }

  /** Every state reachable from a state satisfying the invariant satisfies it. */
  lemma {:induction false} RunInv(g: Game, events: seq<Event>, b: Build)
    requires Inv(g, b)
    ensures Inv(Run(g, events, b), b)
    decreases |events|
  {
    if |events| > 0 {
      var g1 := Step(g, events[0], b);
      StepInv(g, events[0], b);
      RunInv(g1, events[1..], b);
    }
  }

  /** While numbers flash, the cursor is on one of the first `nps` terms of the set. */
  lemma CursorInRange(events: seq<Event>, b: Build)
    ensures var g := Run(InitialGame(), events, b);
      g.phase == Playing ==>
        && g.numberIndex <= NumbersShown(g.config.numbersPerSet) - 1
        && g.setIndex < |g.sets| && g.numberIndex < |g.sets[g.setIndex]|
  {
    InitialInv(b);
    RunInv(InitialGame(), events, b);
  }

  /**
   * Once the set has been flashed the interval is gone and the cursor rests
   * on the last term shown, through the answer too.
   */
  lemma StopsOnLastNumber(events: seq<Event>, b: Build)
    ensures var g := Run(InitialGame(), events, b);
      (g.phase == Waiting || g.phase == Answer) ==>
        && g.numberIndex == NumbersShown(g.config.numbersPerSet) - 1
        && forall t :: t in g.clock.pending ==> !t.action.NextNumber?
  {
    InitialInv(b);
    RunInv(InitialGame(), events, b);
    var g := Run(InitialGame(), events, b);
    if g.phase == Waiting || g.phase == Answer {
      forall t | t in g.clock.pending
        ensures !t.action.NextNumber?
      {
        assert Owned(g, t, b);
      }
    }
  }

  /**
   * The revealed answer is the sum of the whole current set, at least 1, and
   * the same value the scoreboard shows for that row.
   */
  lemma RevealedAnswer(g: Game, b: Build)
    requires Inv(g, b) && g.phase == Waiting && g.config.mode == Each
    ensures var r := Step(g, RevealAnswer, b);
      && r.phase == Answer
      && r.answer == Some(Sum(g.sets[g.setIndex]))
      && r.answer == Some(RowAnswer(g.sets[g.setIndex], g.config.numbersPerSet))
      && Sum(g.sets[g.setIndex]) >= 1
  {
    var row := g.sets[g.setIndex];
    AllValidAt(g.sets, g.setIndex);
    assert row[..|row|] == row;
    ValidSetPrefixPositive(row, |row|);
  }

  /** On the settings screen nothing but a stale reveal is pending; with the handles kept, nothing is. */
  lemma SettingsPending(g: Game, b: Build)
    requires Inv(g, b) && g.phase == Settings
    ensures forall t :: t in g.clock.pending ==> t.action.RevealRow? && t.period == 0
    ensures b == KeepReveals ==> g.clock.pending == []
  {
    forall t | t in g.clock.pending
      ensures t.action.RevealRow? && t.period == 0
    {
      assert Owned(g, t, b);
    }
    Head(g.clock.pending);
  }

  /** With the handles kept, the scoreboard counter never passes the rows and is 0 away from the scoreboard. */
  lemma ScoreboardCounter(g: Game)
    requires Inv(g, KeepReveals)
    ensures g.revealed <= g.config.totalRounds
    ensures g.phase != Summary ==> g.revealed == 0
  {
  }

  /** With the handles kept, leaving the scoreboard cancels the reveals still to come. */
  lemma LeavingScoreboardCancelsReveals(g: Game)
    requires Inv(g, KeepReveals) && g.phase == Summary
    ensures |HandleBackToSettings(g).clock.pending| == 0
  {
    ClearAll(g);
  }
}
