/**
 * The date game's phase machine: settings -> getready -> slot -> answer.
 *
 * As in the flashcard game, the component's state and its timeout list are
 * one immutable `Game`, and timer callbacks are `Action`s in a
 * `Timers.Clock`. Only the countdown steps and the end-of-spin timeout are
 * pushed to `timeouts`; the lever and confetti timeouts are not, so
 * `clearTimers` leaves them pending.
 */
module CalendarGame {
  import opened Options
  import opened Timers
  import opened Draws
  import opened CalendarDates
  import opened CalendarReels

  datatype Phase = Settings | GetReady | Slot | Answer

  /** What a pending callback does. */
  datatype Action =
    | ShowText(text: string)
    | StartSpin
    | LeverUp
    | SpinDone
    | ConfettiOff

  /**
   * The component's state. `rouletteOn` is whether the looping roulette
   * sound plays; the other sounds are one-off cues and are not kept.
   */
  datatype Game = Game(
    yearType: YearType,
    phase: Phase,
    date: Option<Date>,
    readyText: string,
    spinId: nat,
    canShowAnswer: bool,
    isSpinning: bool,
    leverPulled: bool,
    showConfetti: bool,
    rouletteOn: bool,
    timeouts: seq<nat>,
    clock: Clock<Action>)

  /** The component as first mounted. */
  function InitialGame(): Game
  {
    Game(Normal, Settings, None, "", 0, false, false, false, false, false, [], Initial())
  }

  /** How long each reel turns, and how many full turns it makes before stopping. */
  const DayDuration: nat := 4000
  const MonthDuration: nat := 4800
  const YearDuration: nat := 5600
  const DayLoops: nat := 12
  const MonthLoops: nat := 13
  const YearLoops: nat := 14

  /** The longest reel's duration; the reveal unlocks 200 ms after it. */
  const MaxDuration: nat := 5600
  const SettleDelay: nat := MaxDuration + 200

  /** How long the lever stays pulled and the confetti falls. */
  const LeverDelay: nat := 400
  const ConfettiDelay: nat := 3000

  /** The callbacks `clearTimers` can reach: those pushed to the timeout list. */
  predicate IsTracked(a: Action)
  {
    a.ShowText? || a.StartSpin? || a.SpinDone?
  }

  /** `clearTimers`: cancel every kept timeout, then forget them. */
  function ClearTimers(g: Game): (r: Game)
    ensures r == g.(clock := r.clock, timeouts := [])
    ensures forall t :: t in r.clock.pending <==> t in g.clock.pending && t.id !in g.timeouts
    ensures Valid(g.clock) ==> Valid(r.clock)
  {
    g.(clock := Cancel(g.clock, g.timeouts), timeouts := [])
  }

  /** The countdown: READY, 3, 2, 1 at 0.9 s steps, a blank at 4.5 s, the spin at 5.5 s. */
  function Countdown(): seq<(nat, Action)>
  {
    [(900, ShowText("READY")), (1800, ShowText("3")), (2700, ShowText("2")),
     (3600, ShowText("1")), (4500, ShowText("")), (5500, StartSpin)]
  }

  /** The six countdown timers registered from handle `id` on at time `now`. */
  function CountdownTimers(id: nat, now: nat): seq<Timer<Action>>
  {
    [Timer(id, now + 900, 0, ShowText("READY")),
     Timer(id + 1, now + 1800, 0, ShowText("3")),
     Timer(id + 2, now + 2700, 0, ShowText("2")),
     Timer(id + 3, now + 3600, 0, ShowText("1")),
     Timer(id + 4, now + 4500, 0, ShowText("")),
     Timer(id + 5, now + 5500, 0, StartSpin)]
  }

  lemma CountdownRegistered(c: Clock<Action>)
    ensures NewTimers(c, Countdown()) == CountdownTimers(c.nextId, c.now)
  {
    var a := NewTimers(c, Countdown());
    var b := CountdownTimers(c.nextId, c.now);
    assert |a| == |b| == 6;
    forall i | 0 <= i < 6
      ensures a[i] == b[i]
    {
    }
  }

  /**
   * `startRound`: clear the kept timeouts, draw the date, show "GET" and
   * register the countdown. The spin flags and the confetti are left as
   * they were.
   */
  function StartRound(g: Game, ry: Unit, rm: Unit, rd: Unit): (r: Game)
    ensures r.phase == GetReady && r.readyText == "GET" && r.date == Some(RandomDate(ry, rm, rd))
    ensures r.yearType == g.yearType && r.spinId == g.spinId && r.canShowAnswer == g.canShowAnswer
    ensures r.isSpinning == g.isSpinning && r.leverPulled == g.leverPulled
    ensures r.showConfetti == g.showConfetti && r.rouletteOn == g.rouletteOn
    ensures r.clock.now == g.clock.now
    // what clearTimers could not reach, then the six countdown steps ...
    ensures r.clock.pending == Cancel(g.clock, g.timeouts).pending + CountdownTimers(g.clock.nextId, g.clock.now)
    // ... whose handles alone are kept
    ensures r.timeouts == NewIds(g.clock.nextId, 6)
    ensures Valid(g.clock) ==> Valid(r.clock)
  {
    var c := ClearTimers(g);
    var reg := ScheduleAll(c.clock, [], Countdown());
    CountdownRegistered(c.clock);
    c.(date := Some(RandomDate(ry, rm, rd)), phase := GetReady, readyText := "GET",
       clock := reg.clock, timeouts := reg.timeouts)
  }

  /**
   * `triggerSpinSequence`: the reels turn, the lever is pulled and springs
   * back after 0.4 s (a timeout that is not kept), and the reveal unlocks
   * 5.8 s later (a kept timeout).
   */
  function TriggerSpinSequence(g: Game): (r: Game)
    ensures r.phase == Slot && r.spinId == g.spinId + 1
    ensures r.isSpinning && !r.canShowAnswer && !r.showConfetti && r.leverPulled && r.rouletteOn
    ensures r.yearType == g.yearType && r.date == g.date && r.readyText == g.readyText
    ensures r.clock.now == g.clock.now && r.clock.nextId == g.clock.nextId + 2
    ensures r.clock.pending == g.clock.pending +
      [Timer(g.clock.nextId, g.clock.now + LeverDelay, 0, LeverUp),
       Timer(g.clock.nextId + 1, g.clock.now + SettleDelay, 0, SpinDone)]
    ensures r.timeouts == g.timeouts + [g.clock.nextId + 1]
    ensures Valid(g.clock) ==> Valid(r.clock)
  {
    var lever := SetTimeout(g.clock, LeverDelay, LeverUp);
    var settle := SetTimeout(lever.clock, SettleDelay, SpinDone);
    g.(phase := Slot, spinId := g.spinId + 1, isSpinning := true, canShowAnswer := false,
       showConfetti := false, leverPulled := true, rouletteOn := true,
       clock := settle.clock, timeouts := g.timeouts + [settle.id])
  }

  /** The end-of-spin callback: the roulette stops and the reveal unlocks. */
  function OnSpinDone(g: Game): (r: Game)
    ensures r == g.(rouletteOn := false, canShowAnswer := true, isSpinning := false)
  {
    g.(rouletteOn := false, canShowAnswer := true, isSpinning := false)
  }

  /** `handleShowAnswer`: nothing until the spin is over; then the answer and 3 s of confetti (a timeout that is not kept). */
  function HandleShowAnswer(g: Game): (r: Game)
    ensures !g.canShowAnswer ==> r == g
    ensures g.canShowAnswer ==>
      && r == g.(phase := Answer, showConfetti := true, clock := r.clock)
      && r.clock.now == g.clock.now && r.clock.nextId == g.clock.nextId + 1
      && r.clock.pending == g.clock.pending + [Timer(g.clock.nextId, g.clock.now + ConfettiDelay, 0, ConfettiOff)]
    ensures Valid(g.clock) ==> Valid(r.clock)
  {
    if !g.canShowAnswer then g
    else
      var s := SetTimeout(g.clock, ConfettiDelay, ConfettiOff);
      g.(phase := Answer, showConfetti := true, clock := s.clock)
  }

  /** `handleBackSettings` (also the `openSettings` hook). `canShowAnswer` is left as it was. */
  function HandleBackSettings(g: Game): (r: Game)
    ensures r == ClearTimers(g).(rouletteOn := false, phase := Settings, isSpinning := false, showConfetti := false)
    ensures r.phase == Settings && !r.isSpinning && !r.showConfetti && !r.rouletteOn && r.timeouts == []
    ensures forall t :: t in r.clock.pending <==> t in g.clock.pending && t.id !in g.timeouts
  {
    ClearTimers(g).(rouletteOn := false, phase := Settings, isSpinning := false, showConfetti := false)
  }

  /** What a fired callback does to the game. */
  function OnTimer(g: Game, a: Action): Game
  {
    match a
    case ShowText(s) => g.(readyText := s)
    case StartSpin => TriggerSpinSequence(g)
    case LeverUp => g.(leverPulled := false)
    case SpinDone => OnSpinDone(g)
    case ConfettiOff => g.(showConfetti := false)
  }

  /** What the player (or the page's settings button, or time) can do. */
  datatype Event =
    | ChooseYearType(yearType: YearType)
    | Spin(ry: Unit, rm: Unit, rd: Unit)
    | Reveal
    | OpenSettings
    | Idle(dt: nat)
    | TimerFires

  /**
   * One event. A control is usable only where the screen shows it: the
   * year format and SPIN on the settings screen, REVEAL on the slot
   * machine, PLAY AGAIN on the answer; an event anywhere else leaves the
   * game unchanged.
   */
  function Step(g: Game, e: Event): Game
  {
    match e
    case ChooseYearType(yt) =>
      if g.phase == Settings then g.(yearType := yt) else g
    case Spin(ry, rm, rd) =>
      if g.phase == Settings || g.phase == Answer then StartRound(g, ry, rm, rd) else g
    case Reveal =>
      if g.phase == Slot then HandleShowAnswer(g) else g
    case OpenSettings => HandleBackSettings(g)
    case Idle(dt) =>
      if QuietFor(g.clock, dt) then g.(clock := Wait(g.clock, dt)) else g
    case TimerFires =>
      if |g.clock.pending| == 0 then g
      else
        var f := Fire(g.clock);
        OnTimer(g.(clock := f.clock), f.timer.action)
  }

  /** A run of events from a given state. */
  function Run(g: Game, events: seq<Event>): Game
    decreases |events|
  {
    if |events| == 0 then g else Run(Step(g, events[0]), events[1..])
  }
}
