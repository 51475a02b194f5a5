/**
 * The scoreboard reveals are scheduled without keeping their handles, so
 * leaving the scoreboard early does not cancel them: a reveal still fires
 * on the settings screen and bumps the counter there.
 */
module FlashcardFindings {
  import opened Options
  import opened Timers
  import opened ArithmeticSets
  import opened FlashcardGame
  import opened FlashcardInvariant

  /** A one-round competition game waiting after its only set. */
  function OneRoundWaiting(): Game
  {
    Game(Config(1000, 1, 1, End), Waiting, [[10]], 0, 0, "", None, 0, [], None, Initial())
  }

  /**
   * As written: NEXT opens the scoreboard, the settings are opened at once,
   * and the pending reveal still fires and counts a row on the settings
   * screen, where the counter should be 0.
   */
  lemma RevealOutlivesScoreboard(rnd: RandomSource)
    ensures Inv(OneRoundWaiting(), AsWritten) && Inv(OneRoundWaiting(), KeepReveals)
    ensures var s := Step(OneRoundWaiting(), NextSet(rnd), AsWritten);
      var left := Step(s, OpenSettings, AsWritten);
      var fired := Step(left, TimerFires, AsWritten);
      && s.phase == Summary
      && left.phase == Settings && |left.clock.pending| == 1
      && fired.phase == Settings && fired.revealed == 1
      && !Inv(fired, KeepReveals)
  {
    var g := OneRoundWaiting();
    OneRoundInv(g, AsWritten);
    OneRoundInv(g, KeepReveals);
    var s := Step(g, NextSet(rnd), AsWritten);
    OneRoundSummary(g, rnd, AsWritten);
    LoneReveal(g, s);
    var left := Step(s, OpenSettings, AsWritten);
    RevealSurvives(s, left);
    LoneRevealFires(left);
  }

  /** NEXT after the only round opens the scoreboard of the build. */
  lemma OneRoundSummary(g: Game, rnd: RandomSource, b: Build)
    requires g == OneRoundWaiting()
    ensures Step(g, NextSet(rnd), b) == StartSummary(g, b)
  {
    NextSetIsSummary(g, rnd, b);
  }

  /** The scoreboard of the one-round game schedules one reveal, at 0.8 s, and keeps no handle for it. */
  lemma LoneReveal(g: Game, s: Game)
    requires g == OneRoundWaiting() && s == StartSummary(g, AsWritten)
    ensures s.clock.pending == [Timer(1, 800, 0, RevealRow)]
    ensures s.timeouts == [] && s.interval == None
  {
    assert RowsShown(g) == 1;
    assert Reveals(1)[0] == (800, RevealRow);
  }

  /** Nothing tracks that reveal, so leaving the scoreboard keeps it pending. */
  lemma RevealSurvives(s: Game, left: Game)
    requires s.clock.pending == [Timer(1, 800, 0, RevealRow)]
    requires s.timeouts == [] && s.interval == None
    requires left == Step(s, OpenSettings, AsWritten)
    ensures left.phase == Settings && left.revealed == 0
    ensures left.clock.pending == [Timer(1, 800, 0, RevealRow)]
  {
    assert Timer(1, 800, 0, RevealRow) in left.clock.pending;
    forall t | t in left.clock.pending
      ensures t == Timer(1, 800, 0, RevealRow)
    {
    }
    assert TrackedIds(s) == [];
    CancelNothing(s.clock);
  }

  /** Cancelling no handle leaves the queue as it was. */
  lemma CancelNothing(c: Clock<Action>)
    ensures Cancel(c, []).pending == c.pending
  {
    WithoutNone(c.pending);
  }

  lemma {:induction false} WithoutNone(p: seq<Timer<Action>>)
    ensures Without(p, []) == p
  {
    if |p| > 0 {
      WithoutNone(p[1..]);
      assert p == [p[0]] + p[1..];
    }
  }

  /** The lone reveal fires on the settings screen and counts a row there. */
  lemma LoneRevealFires(left: Game)
    requires left.phase == Settings && left.revealed == 0
    requires left.clock.pending == [Timer(1, 800, 0, RevealRow)]
    ensures Step(left, TimerFires, AsWritten).phase == Settings
    ensures Step(left, TimerFires, AsWritten).revealed == 1
  {
    assert Fire(left.clock).timer == Timer(1, 800, 0, RevealRow);
  }

  /** With the reveal handles kept, the same steps leave nothing pending and the counter at 0. */
  lemma RevealCancelledWithScoreboard(rnd: RandomSource)
    ensures var s := Step(OneRoundWaiting(), NextSet(rnd), KeepReveals);
      var left := Step(s, OpenSettings, KeepReveals);
      && s.phase == Summary
      && left.phase == Settings && |left.clock.pending| == 0
      && Step(left, TimerFires, KeepReveals) == left && left.revealed == 0
  {
    var g := OneRoundWaiting();
    OneRoundInv(g, KeepReveals);
    var s := Step(g, NextSet(rnd), KeepReveals);
    OneRoundSummary(g, rnd, KeepReveals);
    SummaryInv(g, KeepReveals);
    LeftClean(s, Step(s, OpenSettings, KeepReveals));
  }

  /** Leaving a scoreboard whose reveals are all kept leaves a queue with nothing to fire. */
  lemma LeftClean(s: Game, left: Game)
    requires Inv(s, KeepReveals) && s.phase == Summary
    requires left == Step(s, OpenSettings, KeepReveals)
    ensures left.phase == Settings && |left.clock.pending| == 0
    ensures Step(left, TimerFires, KeepReveals) == left && left.revealed == 0
  {
    LeavingScoreboardCancelsReveals(s);
    NothingFires(left, KeepReveals);
  }

  /** With nothing pending, time has nothing to fire. */
  lemma NothingFires(g: Game, b: Build)
    requires |g.clock.pending| == 0
    ensures Step(g, TimerFires, b) == g
  {
  }

  lemma OneRoundInv(g: Game, b: Build)
    requires g == OneRoundWaiting()
    ensures Inv(g, b)
  {
    assert ValidSet([10]);
    assert AllValid([[10]]) by {
      assert [[10]][1..] == [];
    }
  }
}
