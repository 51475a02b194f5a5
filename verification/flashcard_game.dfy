/**
 * The flashcard game's phase machine:
 * settings -> getready -> playing -> waiting -> answer | summary.
 *
 * The component's state and refs are one immutable `Game` value. Timer
 * callbacks are `Action`s in a `Timers.Clock`; `timeouts` is the list of
 * handles the component keeps for `clearTimers` and `interval` the handle
 * of the number-flashing interval.
 */
module FlashcardGame {
  import opened Options
  import opened Timers
  import opened ArithmeticSets

  datatype Phase = Settings | GetReady | Playing | Waiting | Answer | Summary

  /** "each" (practice: answer after every set) or "end" (competition: scoreboard at the end). */
  datatype RevealMode = Each | End

  /** The settings screen's values; the speed is held in whole milliseconds. */
  datatype Config = Config(speedMs: int, numbersPerSet: int, totalRounds: int, mode: RevealMode)

  /**
   * What a pending callback does. The countdown's last step and the
   * interval capture the settings of the moment they were scheduled.
   */
  datatype Action =
    | ShowText(text: string)
    | Buzz
    | BeginPlaying(numbersPerSet: int, speedMs: int)
    | NextNumber(numbersPerSet: int)
    | RevealRow

  datatype Game = Game(
    config: Config,
    phase: Phase,
    sets: seq<seq<int>>,
    setIndex: nat,
    numberIndex: nat,
    readyText: string,
    answer: Option<int>,
    revealed: nat,
    timeouts: seq<nat>,
    interval: Option<nat>,
    clock: Clock<Action>)

  /** The component as first mounted. */
  function InitialGame(): Game
  {
    Game(Config(1000, 5, 5, Each), Settings, [], 0, 0, "", None, 0, [], None, Initial())
  }

  /** `Math.max(1, Math.min(n, 20))`: how many numbers of a set are flashed. */
  function NumbersShown(n: int): (r: int)
    ensures 1 <= r <= 20
    ensures 1 <= n <= 20 ==> r == n
    ensures n < 1 ==> r == 1
    ensures n > 20 ==> r == 20
  {
    Max(1, Min(n, 20))
  }

  /** `Math.max(speed, 0.2) * 1000`: the flashing period, never below 200 ms. */
  function TickPeriod(speedMs: int): (r: nat)
    ensures r >= 200
    ensures speedMs >= 200 ==> r == speedMs
    ensures speedMs < 200 ==> r == 200
  {
    Max(speedMs, 200)
  }

  /** The number of sets generated for a game: `Math.max(30, totalRounds)`. */
  function SetsToGenerate(totalRounds: int): (r: nat)
    ensures r >= 30 && r >= totalRounds
    ensures totalRounds <= 30 ==> r == 30
    ensures totalRounds > 30 ==> r == totalRounds
  {
    Max(30, totalRounds)
  }

  /** The answer of a set: the sum of its first `NumbersShown(numbersPerSet)` terms. */
  function RowAnswer(row: seq<int>, numbersPerSet: int): int
  {
    Sum(row[..Min(NumbersShown(numbersPerSet), |row|)])
  }

  /** The handles `clearTimers` cancels: the interval's and every kept timeout's. */
  function TrackedIds(g: Game): seq<nat>
  {
    g.timeouts + (if g.interval.Some? then [g.interval.value] else [])
  }

  /** `clearTimers`: cancel the interval and every kept timeout, then forget the timeouts. */
  function ClearTimers(g: Game): (r: Game)
    ensures r == g.(clock := r.clock, timeouts := [])
    ensures forall t :: t in r.clock.pending <==>
      t in g.clock.pending && t.id !in g.timeouts && g.interval != Some(t.id)
    ensures Valid(g.clock) ==> Valid(r.clock)
  {
    g.(clock := Cancel(g.clock, TrackedIds(g)), timeouts := [])
  }

  /** The countdown: READY, 3, 2, 1 at 0.9 s steps, a buzz at 4.5 s, flashing from 5.5 s. */
  function Countdown(numbersPerSet: int, speedMs: int): seq<(nat, Action)>
  {
    [(900, ShowText("READY")), (1800, ShowText("3")), (2700, ShowText("2")),
     (3600, ShowText("1")), (4500, Buzz), (5500, BeginPlaying(numbersPerSet, speedMs))]
  }

  /** `startSequenceForSet(setIndex)`. */
  function StartSequenceForSet(g: Game, setIndex: nat): (r: Game)
    ensures r.phase == GetReady && r.setIndex == setIndex
    ensures r.numberIndex == 0 && r.answer == None && r.readyText == "GET"
    ensures r.config == g.config && r.sets == g.sets && r.revealed == g.revealed && r.interval == g.interval
    ensures r.clock.now == g.clock.now
    // what clearTimers could not reach, then the six countdown steps ...
    ensures r.clock.pending == Cancel(g.clock, TrackedIds(g)).pending
      + CountdownTimers(g.clock.nextId, g.clock.now, g.config)
    // ... whose handles alone are kept for the next clearTimers
    ensures r.timeouts == NewIds(g.clock.nextId, 6)
    ensures Valid(g.clock) ==> Valid(r.clock)
  {
    var c := ClearTimers(g);
    var steps := Countdown(g.config.numbersPerSet, g.config.speedMs);
    var reg := ScheduleAll(c.clock, [], steps);
    CountdownRegistered(c.clock, g.config);
    c.(setIndex := setIndex, numberIndex := 0, answer := None, phase := GetReady,
       readyText := "GET", clock := reg.clock, timeouts := reg.timeouts)
  }

  lemma CountdownRegistered(c: Clock<Action>, cfg: Config)
    ensures NewTimers(c, Countdown(cfg.numbersPerSet, cfg.speedMs)) == CountdownTimers(c.nextId, c.now, cfg)
  {
    var a := NewTimers(c, Countdown(cfg.numbersPerSet, cfg.speedMs));
    var b := CountdownTimers(c.nextId, c.now, cfg);
    assert |a| == |b| == 6;
    forall i | 0 <= i < 6
      ensures a[i] == b[i]
    {
    }
  }

  /** The six countdown timers registered from handle `id` on at time `now`. */
  function CountdownTimers(id: nat, now: nat, cfg: Config): seq<Timer<Action>>
  {
    [Timer(id, now + 900, 0, ShowText("READY")),
     Timer(id + 1, now + 1800, 0, ShowText("3")),
     Timer(id + 2, now + 2700, 0, ShowText("2")),
     Timer(id + 3, now + 3600, 0, ShowText("1")),
     Timer(id + 4, now + 4500, 0, Buzz),
     Timer(id + 5, now + 5500, 0, BeginPlaying(cfg.numbersPerSet, cfg.speedMs))]
  }

  /** `handleStart`: generate `max(30, totalRounds)` sets and begin with set 0. */
  function HandleStart(g: Game, rnd: RandomSource): (r: Game)
    ensures |r.sets| == SetsToGenerate(g.config.totalRounds) && |r.sets| >= g.config.totalRounds
    ensures forall i :: 0 <= i < |r.sets| ==>
      |r.sets[i]| == NumbersShown(g.config.numbersPerSet) && ValidSet(r.sets[i])
    ensures r == StartSequenceForSet(g.(sets := r.sets), 0)
  {
    var nps := NumbersShown(g.config.numbersPerSet);
    var generated := GenerateRandomSets(SetsToGenerate(g.config.totalRounds), nps, rnd);
    StartSequenceForSet(g.(sets := generated), 0)
  }

  /** `handleShowAnswer`: reveal the current set's sum; nothing happens when there is no current set. */
  function HandleShowAnswer(g: Game): (r: Game)
    ensures g.setIndex >= |g.sets| ==> r == g
    ensures g.setIndex < |g.sets| ==>
      r == g.(answer := Some(RowAnswer(g.sets[g.setIndex], g.config.numbersPerSet)), phase := Answer)
  {
    if g.setIndex >= |g.sets| then g
    else
      var res := RowAnswer(g.sets[g.setIndex], g.config.numbersPerSet);
      g.(answer := Some(res), phase := Answer)
  }

  /** How many scoreboard rows there are: `sets.slice(0, totalRounds).length`. */
  function RowsShown(g: Game): nat
  {
    Min(|g.sets|, Max(g.config.totalRounds, 0))
  }

  /** The scoreboard's reveals: row `idx` is revealed at `(idx + 1) * 800` ms. */
  function Reveals(rows: nat): (steps: seq<(nat, Action)>)
    ensures |steps| == rows
    ensures forall i :: 0 <= i < rows ==> steps[i] == ((i + 1) * 800, RevealRow)
  {
    seq(rows, i => ((i + 1) * 800, RevealRow))
  }

  /**
   * `startSummarySequence` as written: the reveal timeouts are NOT pushed to
   * the kept handles, so `clearTimers` cannot cancel them.
   */
  function StartSummarySequenceAsWritten(g: Game): (r: Game)
    ensures r == g.(phase := Summary, revealed := 0, clock := r.clock)
    ensures r.clock.pending == g.clock.pending + NewTimers(g.clock, Reveals(RowsShown(g)))
    ensures Valid(g.clock) ==> Valid(r.clock)
  {
    var reg := ScheduleAll(g.clock, g.timeouts, Reveals(RowsShown(g)));
    g.(phase := Summary, revealed := 0, clock := reg.clock)
  }

  /**
   * `startSummarySequence` with the reveal handles kept, so that leaving
   * the scoreboard cancels the reveals still to come.
   */
  function StartSummarySequence(g: Game): (r: Game)
    ensures r.phase == Summary && r.revealed == 0
    ensures r.clock.pending == g.clock.pending + NewTimers(g.clock, Reveals(RowsShown(g)))
    ensures r.timeouts == g.timeouts + NewIds(g.clock.nextId, RowsShown(g))
    ensures r == StartSummarySequenceAsWritten(g).(timeouts := r.timeouts)
    ensures Valid(g.clock) ==> Valid(r.clock)
  {
    var reg := ScheduleAll(g.clock, g.timeouts, Reveals(RowsShown(g)));
    g.(phase := Summary, revealed := 0, clock := reg.clock, timeouts := reg.timeouts)
  }

  /**
   * Which `startSummarySequence` a machine runs: the component's own, whose
   * reveal handles are never kept, or one that keeps them.
   */
  datatype Build = AsWritten | KeepReveals

  /** The scoreboard the build starts; the two differ only in the kept handles. */
  function StartSummary(g: Game, b: Build): (r: Game)
    ensures r == StartSummarySequenceAsWritten(g).(timeouts := r.timeouts)
    ensures b == AsWritten ==> r.timeouts == g.timeouts
    ensures b == KeepReveals ==> r.timeouts == g.timeouts + NewIds(g.clock.nextId, RowsShown(g))
  {
    match b
    case AsWritten => StartSummarySequenceAsWritten(g)
    case KeepReveals => StartSummarySequence(g)
  }

  /** `handleNextSet`: the next set, else the scoreboard (competition), else a fresh game (practice). */
  function HandleNextSet(g: Game, rnd: RandomSource, b: Build): (r: Game)
    // a round is left: its countdown, on the same sets
    ensures g.setIndex + 1 < g.config.totalRounds ==>
      && r.phase == GetReady && r.setIndex == g.setIndex + 1 && r.sets == g.sets
      && r.numberIndex == 0 && r.answer == None
    // competition over: the scoreboard from row 0, with one more pending callback per row
    ensures g.setIndex + 1 >= g.config.totalRounds && g.config.mode == End ==>
      && r.phase == Summary && r.revealed == 0 && r.sets == g.sets && r.setIndex == g.setIndex
      && |r.clock.pending| == |g.clock.pending| + RowsShown(g)
    // practice over: a fresh game on new valid sets, from set 0
    ensures g.setIndex + 1 >= g.config.totalRounds && g.config.mode == Each ==>
      && r.phase == GetReady && r.setIndex == 0 && r.numberIndex == 0
      && |r.sets| == SetsToGenerate(g.config.totalRounds)
      && forall i :: 0 <= i < |r.sets| ==> ValidSet(r.sets[i])
  {
    if g.setIndex + 1 < g.config.totalRounds then StartSequenceForSet(g, g.setIndex + 1)
    else if g.config.mode == End then StartSummary(g, b)
    else HandleStart(g, rnd)
  }

  /** `handleBackToSettings` (also the `openSettings` hook). */
  function HandleBackToSettings(g: Game): (r: Game)
    ensures r.phase == Settings && r.answer == None && r.numberIndex == 0 && r.revealed == 0
    ensures r.timeouts == [] && r.config == g.config && r.sets == g.sets
    ensures forall t :: t in r.clock.pending <==>
      t in g.clock.pending && t.id !in g.timeouts && g.interval != Some(t.id)
  {
    ClearTimers(g).(phase := Settings, answer := None, numberIndex := 0, revealed := 0)
  }

  /** The interval callback: advance the cursor, or stop on the last number. */
  function OnNextNumber(g: Game, numbersPerSet: int): (r: Game)
    ensures g.numberIndex + 1 < NumbersShown(numbersPerSet) ==>
      r == g.(numberIndex := g.numberIndex + 1)
    ensures g.numberIndex + 1 >= NumbersShown(numbersPerSet) ==>
      && r.phase == Waiting && r.interval == None && r.numberIndex == g.numberIndex
      && (forall t :: t in r.clock.pending <==> t in g.clock.pending && g.interval != Some(t.id))
  {
    var next := g.numberIndex + 1;
    if next >= NumbersShown(numbersPerSet) then
      var c := if g.interval.Some? then Cancel(g.clock, [g.interval.value]) else g.clock;
      g.(clock := c, interval := None, phase := Waiting)
    else
      g.(numberIndex := next)
  }

  /** What a fired callback does to the game. */
  function OnTimer(g: Game, a: Action): Game
  {
    match a
    case ShowText(s) => g.(readyText := s)
    case Buzz => g.(readyText := "")
    case BeginPlaying(nps, speedMs) =>
      var s := SetInterval(g.clock, TickPeriod(speedMs), NextNumber(nps));
      g.(phase := Playing, clock := s.clock, interval := Some(s.id))
    case NextNumber(nps) => OnNextNumber(g, nps)
    case RevealRow => g.(revealed := g.revealed + 1)
  }

  /** What the player (or the page's settings button, or time) can do. */
  datatype Event =
    | EditSpeed(ms: int)
    | FewerRounds
    | MoreRounds
    | FewerNumbers
    | MoreNumbers
    | ChooseMode(mode: RevealMode)
    | StartGame(rnd: RandomSource)
    | RevealAnswer
    | NextSet(rnd: RandomSource)
    | ReturnFromSummary
    | OpenSettings
    | Idle(dt: nat)
    | TimerFires

  /**
   * One event of the machine built as `b`; `Step(g, e, AsWritten)` is the
   * component. A control is usable only where the screen shows it; an
   * event anywhere else leaves the game unchanged.
   */
  function Step(g: Game, e: Event, b: Build): Game
  {
    match e
    case EditSpeed(ms) =>
      if g.phase == Settings then g.(config := g.config.(speedMs := ms)) else g
    case FewerRounds =>
      if g.phase == Settings then g.(config := g.config.(totalRounds := Max(1, g.config.totalRounds - 1))) else g
    case MoreRounds =>
      if g.phase == Settings then g.(config := g.config.(totalRounds := Min(50, g.config.totalRounds + 1))) else g
    case FewerNumbers =>
      if g.phase == Settings then g.(config := g.config.(numbersPerSet := Max(1, g.config.numbersPerSet - 1))) else g
    case MoreNumbers =>
      if g.phase == Settings then g.(config := g.config.(numbersPerSet := Min(20, g.config.numbersPerSet + 1))) else g
    case ChooseMode(m) =>
      if g.phase == Settings then g.(config := g.config.(mode := m)) else g
    case StartGame(rnd) =>
      if g.phase == Settings then HandleStart(g, rnd) else g
    case RevealAnswer =>
      if g.phase == Waiting && g.config.mode == Each then HandleShowAnswer(g) else g
    case NextSet(rnd) =>
      if (g.phase == Waiting && g.config.mode == End) || g.phase == Answer then HandleNextSet(g, rnd, b) else g
    case ReturnFromSummary =>
      if g.phase == Summary && g.revealed >= g.config.totalRounds then HandleBackToSettings(g) else g
    case OpenSettings => HandleBackToSettings(g)
    case Idle(dt) =>
      if QuietFor(g.clock, dt) then g.(clock := Wait(g.clock, dt)) else g
    case TimerFires =>
      if |g.clock.pending| == 0 then g
      else
        var f := Fire(g.clock);
        OnTimer(g.(clock := f.clock), f.timer.action)
  }

  /** A run of events from a given state. */
  function Run(g: Game, events: seq<Event>, b: Build): Game
    decreases |events|
  {
    if |events| == 0 then g else Run(Step(g, events[0], b), events[1..], b)
  }
}
