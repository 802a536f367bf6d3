/**
 * The draw engine of the raffle screen as an explicit state machine.
 *
 * The program keeps its state in React cells (two pools, the two values on
 * display, two spinning flags, the winner history, the banner flag) and
 * runs a draw as a chain of timer callbacks: an 80 ms prize interval, a
 * 500 ms pause, a 60 ms number interval, and an 8 s timeout that hides the
 * banner. A `State` holds the cells together with the callbacks still
 * pending; every callback and every click is one step function from
 * `State` to `State`. Which pending callback fires next, and what
 * `Math.random` returns, are parameters of the steps.
 */
module Sequencer {
  import opened RaffleTypes
  import opened Pools
  import Constants

  /** `prizeMaxIterations` and `numberMaxIterations`. */
  const PrizeMaxIterations: nat := 20
  const NumberMaxIterations: nat := 30

  /** Which callback of a draw is pending. */
  datatype Phase =
    | SpinningPrize(prizeCounter: nat)                    // the prize interval
    | Paused(finalPrize: string)                          // the 500 ms timeout
    | SpinningNumber(finalPrize: string, numberCounter: nat)  // the number interval

  /**
   * A draw in flight: the `prizes` and `numbers` its callbacks captured when
   * it was triggered, and its phase.
   */
  datatype Draw = Draw(prizeSnap: seq<string>, numberSnap: seq<int>, phase: Phase)

  /**
   * The state cells, the draws in flight (in trigger order) and the number
   * of banner-hiding timeouts not yet fired. (`showInfo` belongs to the
   * help dialog and is not part of the engine.)
   */
  datatype State = State(
    prizes: seq<string>,
    numbers: seq<int>,
    currentPrize: Option<string>,
    currentNumber: Option<int>,
    isSpinningPrize: bool,
    isSpinningNumber: bool,
    winners: seq<Winner>,
    showWinner: bool,
    draws: seq<Draw>,
    pendingHides: nat)

  /** The pools the engine starts from and returns to on a reset. */
  datatype Config = Config(prizes: seq<string>, numbers: seq<int>)

  /** `INITIAL_PRIZES` and the range built from `INITIAL_NUMBER_START` and `INITIAL_NUMBER_COUNT`. */
  function Configured(): Config {
    Config(Constants.InitialPrizes, Constants.InitialNumbers)
  }

  /** A configuration whose ticket numbers are distinct, as a range's are. */
  predicate ConfigOk(cfg: Config) {
    Distinct(cfg.numbers)
  }

  /** The state at mount time: configured pools, nothing on display, nothing pending. */
  function Init(cfg: Config): State {
    State(cfg.prizes, cfg.numbers, None, None, false, false, [], false, [], 0)
  }

  // ---------------------------------------------------------------------
  // Derived flags
  // ---------------------------------------------------------------------

  /** `isGameActive`. */
  predicate IsGameActive(s: State) {
    s.isSpinningPrize || s.isSpinningNumber
  }

  /** `isGameOver`. */
  predicate IsGameOver(s: State) {
    |s.prizes| == 0 || |s.numbers| == 0
  }

  /** The `disabled` condition of the draw button. */
  predicate ButtonDisabled(s: State) {
    IsGameActive(s) || IsGameOver(s) || s.showWinner
  }

  /** The early-return test at the top of `handleAutoSpin`, negated: the draw may start. */
  predicate SourceGuard(s: State) {
    !(|s.prizes| == 0 || |s.numbers| == 0 || s.isSpinningPrize || s.isSpinningNumber || s.showWinner)
  }

  /**
   * The guard the engine evidently intends: the program's test, and no draw
   * in flight. The program's own test lets a click through during the
   * pause between the two phases (see `PauseWindowAdmitsSecondDraw`).
   */
  predicate CanTrigger(s: State) {
    SourceGuard(s) && s.draws == []
  }

  // ---------------------------------------------------------------------
  // Steps
  // ---------------------------------------------------------------------

  /**
   * The body of `handleAutoSpin` past its guard: clear the display, raise
   * `isSpinningPrize`, and start the prize interval, whose callbacks
   * capture the pools as they are now.
   */
  function StartDraw(s: State): (r: State)
    ensures r.prizes == s.prizes && r.numbers == s.numbers && r.winners == s.winners
    ensures r.isSpinningPrize && !r.showWinner && r.currentPrize == None && r.currentNumber == None
    ensures r.isSpinningNumber == s.isSpinningNumber && r.pendingHides == s.pendingHides
    ensures |r.draws| == |s.draws| + 1 && r.draws[..|s.draws|] == s.draws
    ensures r.draws[|s.draws|] == Draw(s.prizes, s.numbers, SpinningPrize(0))
  {
    s.(showWinner := false, currentPrize := None, currentNumber := None,
       isSpinningPrize := true,
       draws := s.draws + [Draw(s.prizes, s.numbers, SpinningPrize(0))])
  }

  /** A click on the draw button, with the program's guard. */
  function TriggerAsWritten(s: State): (r: State)
    ensures r != s <==> SourceGuard(s)
    ensures r.prizes == s.prizes && r.numbers == s.numbers && r.winners == s.winners
    ensures SourceGuard(s) ==> r.isSpinningPrize && |r.draws| == |s.draws| + 1
  {
    if SourceGuard(s) then StartDraw(s) else s
  }

  /** A click on the draw button, with the corrected guard. */
  function Trigger(s: State): (r: State)
    ensures r != s <==> CanTrigger(s)
    ensures r.prizes == s.prizes && r.numbers == s.numbers && r.winners == s.winners
    ensures CanTrigger(s) ==> r.isSpinningPrize && r.draws == [Draw(s.prizes, s.numbers, SpinningPrize(0))]
  {
    if CanTrigger(s) then StartDraw(s) else s
  }

  /** Draw `t` is waiting for its prize interval and both random picks are valid indices. */
  predicate PrizeTickEnabled(s: State, t: nat, tickIndex: nat, finalIndex: nat) {
    && t < |s.draws| && s.draws[t].phase.SpinningPrize?
    && tickIndex < |s.draws[t].prizeSnap| && finalIndex < |s.draws[t].prizeSnap|
  }

  /**
   * One firing of the prize interval of draw `t`: publish a random prize of
   * the snapshot and count the tick; once the count exceeds
   * `PrizeMaxIterations`, stop the interval, publish the final pick, lower
   * `isSpinningPrize` and start the pause.
   */
  function PrizeTick(s: State, t: nat, tickIndex: nat, finalIndex: nat): (r: State)
    requires PrizeTickEnabled(s, t, tickIndex, finalIndex)
    ensures r.prizes == s.prizes && r.numbers == s.numbers && r.winners == s.winners
    ensures r.currentNumber == s.currentNumber && r.isSpinningNumber == s.isSpinningNumber
    ensures r.showWinner == s.showWinner && r.pendingHides == s.pendingHides
    ensures r.currentPrize.Some? && r.currentPrize.value in s.draws[t].prizeSnap
    ensures |r.draws| == |s.draws| && r.draws[..t] == s.draws[..t] && r.draws[t + 1..] == s.draws[t + 1..]
    ensures r.draws[t].prizeSnap == s.draws[t].prizeSnap && r.draws[t].numberSnap == s.draws[t].numberSnap
    ensures s.draws[t].phase.prizeCounter + 1 > PrizeMaxIterations ==>
      !r.isSpinningPrize && r.draws[t].phase == Paused(r.currentPrize.value)
    ensures s.draws[t].phase.prizeCounter + 1 <= PrizeMaxIterations ==>
      r.isSpinningPrize == s.isSpinningPrize && r.draws[t].phase == SpinningPrize(s.draws[t].phase.prizeCounter + 1)
  {
    var d := s.draws[t];
    var counter := d.phase.prizeCounter + 1;
    if counter > PrizeMaxIterations then
      var finalPrize := d.prizeSnap[finalIndex];
      s.(currentPrize := Some(finalPrize), isSpinningPrize := false,
         draws := s.draws[t := d.(phase := Paused(finalPrize))])
    else
      s.(currentPrize := Some(d.prizeSnap[tickIndex]),
         draws := s.draws[t := d.(phase := SpinningPrize(counter))])
  }

  /** Draw `t` is in its pause. */
  predicate PauseEnabled(s: State, t: nat) {
    t < |s.draws| && s.draws[t].phase.Paused?
  }

  /** The pause of draw `t` ends: raise `isSpinningNumber` and start the number interval. */
  function PauseElapsed(s: State, t: nat): (r: State)
    requires PauseEnabled(s, t)
    ensures r.prizes == s.prizes && r.numbers == s.numbers && r.winners == s.winners
    ensures r.currentPrize == s.currentPrize && r.currentNumber == s.currentNumber
    ensures r.isSpinningPrize == s.isSpinningPrize && r.showWinner == s.showWinner && r.pendingHides == s.pendingHides
    ensures r.isSpinningNumber && |r.draws| == |s.draws|
    ensures r.draws[t] == s.draws[t].(phase := SpinningNumber(s.draws[t].phase.finalPrize, 0))
    ensures r.draws[..t] == s.draws[..t] && r.draws[t + 1..] == s.draws[t + 1..]
  {
    var d := s.draws[t];
    s.(isSpinningNumber := true,
       draws := s.draws[t := d.(phase := SpinningNumber(d.phase.finalPrize, 0))])
  }

  /** Draw `t` is waiting for its number interval and both random picks are valid indices. */
  predicate NumberTickEnabled(s: State, t: nat, tickIndex: nat, finalIndex: nat) {
    && t < |s.draws| && s.draws[t].phase.SpinningNumber?
    && tickIndex < |s.draws[t].numberSnap| && finalIndex < |s.draws[t].numberSnap|
  }

  /**
   * One firing of the number interval of draw `t`: publish a random number
   * of the snapshot and count the tick; once the count exceeds
   * `NumberMaxIterations`, stop the interval, publish the final pick, lower
   * `isSpinningNumber` and commit the pair.
   */
  function NumberTick(s: State, t: nat, tickIndex: nat, finalIndex: nat): (r: State)
    requires NumberTickEnabled(s, t, tickIndex, finalIndex)
    ensures r.currentNumber.Some? && r.currentNumber.value in s.draws[t].numberSnap
    ensures r.currentPrize == s.currentPrize && r.isSpinningPrize == s.isSpinningPrize
    ensures s.draws[t].phase.numberCounter + 1 > NumberMaxIterations ==>
      && !r.isSpinningNumber && r.showWinner && r.pendingHides == s.pendingHides + 1
      && r.winners == [Winner(s.draws[t].phase.finalPrize, r.currentNumber.value)] + s.winners
      && r.prizes == RemoveFirst(s.prizes, s.draws[t].phase.finalPrize)
      && r.numbers == FilterOut(s.numbers, r.currentNumber.value)
      && r.draws == s.draws[..t] + s.draws[t + 1..]
    ensures s.draws[t].phase.numberCounter + 1 <= NumberMaxIterations ==>
      && r.prizes == s.prizes && r.numbers == s.numbers && r.winners == s.winners
      && r.isSpinningNumber == s.isSpinningNumber && r.showWinner == s.showWinner
      && r.pendingHides == s.pendingHides
      && |r.draws| == |s.draws| && r.draws[..t] == s.draws[..t] && r.draws[t + 1..] == s.draws[t + 1..]
      && r.draws[t] == s.draws[t].(phase := SpinningNumber(s.draws[t].phase.finalPrize, s.draws[t].phase.numberCounter + 1))
  {
    var d := s.draws[t];
    var counter := d.phase.numberCounter + 1;
    if counter > NumberMaxIterations then
      var finalNumber := d.numberSnap[finalIndex];
      Commit(s.(currentNumber := Some(finalNumber), isSpinningNumber := false,
                draws := s.draws[..t] + s.draws[t + 1..]),
             d.phase.finalPrize, finalNumber)
    else
      s.(currentNumber := Some(d.numberSnap[tickIndex]),
         draws := s.draws[t := d.(phase := SpinningNumber(d.phase.finalPrize, counter))])
  }

  /**
   * Registering the winner: prepend the pair to the history, take one
   * instance of the prize out of the current prize pool (none when it is
   * no longer there), filter the number out of the current number pool,
   * show the banner and start its hiding timeout.
   */
  function Commit(s: State, prize: string, number: int): (r: State)
    ensures |r.winners| == |s.winners| + 1 && r.winners[0] == Winner(prize, number)
    ensures r.winners[1..] == s.winners
    ensures prize in s.prizes ==>
      |r.prizes| == |s.prizes| - 1 && multiset(r.prizes) == multiset(s.prizes) - multiset{prize}
    ensures prize !in s.prizes ==> r.prizes == s.prizes
    ensures number !in r.numbers && multiset(r.numbers) == multiset(s.numbers)[number := 0]
    ensures r.showWinner && r.pendingHides == s.pendingHides + 1
    ensures r.(prizes := s.prizes, numbers := s.numbers, winners := s.winners,
               showWinner := s.showWinner, pendingHides := s.pendingHides) == s
  {
    s.(winners := [Winner(prize, number)] + s.winners,
       prizes := RemoveFirst(s.prizes, prize),
       numbers := FilterOut(s.numbers, number),
       showWinner := true,
       pendingHides := s.pendingHides + 1)
  }

  /** One banner-hiding timeout fires. */
  function HideBanner(s: State): (r: State)
    requires s.pendingHides > 0
    ensures !r.showWinner && r.pendingHides == s.pendingHides - 1
    ensures r.(showWinner := s.showWinner, pendingHides := s.pendingHides) == s
  {
    s.(showWinner := false, pendingHides := s.pendingHides - 1)
  }

  /**
   * `handleReset` once the user has confirmed: configured pools, empty
   * history, nothing on display. Pending callbacks and the spinning flags
   * are left as they are.
   */
  function Reset(s: State, cfg: Config): (r: State)
    ensures r.prizes == cfg.prizes && r.numbers == cfg.numbers && r.winners == []
    ensures r.currentPrize == None && r.currentNumber == None && !r.showWinner
    ensures r.isSpinningPrize == s.isSpinningPrize && r.isSpinningNumber == s.isSpinningNumber
    ensures r.draws == s.draws && r.pendingHides == s.pendingHides
  {
    s.(prizes := cfg.prizes, numbers := cfg.numbers,
       currentPrize := None, currentNumber := None, winners := [], showWinner := false)
  }

  // ---------------------------------------------------------------------
  // Events and runs
  // ---------------------------------------------------------------------

  /** Everything that can happen next: a click, a timer firing, a confirmed reset. */
  datatype Event =
    | Click
    | PrizeInterval(t: nat, tickIndex: nat, finalIndex: nat)
    | PauseTimeout(t: nat)
    | NumberInterval(t: nat, tickIndex: nat, finalIndex: nat)
    | HideTimeout
    | ResetConfirmed

  /** The event can happen in `s`: its callback is pending and its random picks are valid. */
  predicate Enabled(s: State, e: Event) {
    match e
    case Click => true
    case PrizeInterval(t, i, j) => PrizeTickEnabled(s, t, i, j)
    case PauseTimeout(t) => PauseEnabled(s, t)
    case NumberInterval(t, i, j) => NumberTickEnabled(s, t, i, j)
    case HideTimeout => s.pendingHides > 0
    case ResetConfirmed => true
  }

  /** The engine's step, with the corrected guard. */
  function Next(s: State, e: Event, cfg: Config): State
    requires Enabled(s, e)
  {
    match e
    case Click => Trigger(s)
    case PrizeInterval(t, i, j) => PrizeTick(s, t, i, j)
    case PauseTimeout(t) => PauseElapsed(s, t)
    case NumberInterval(t, i, j) => NumberTick(s, t, i, j)
    case HideTimeout => HideBanner(s)
    case ResetConfirmed => Reset(s, cfg)
  }

  /** The events in order from `s`, or `None` if one of them cannot happen when its turn comes. */
  function Run(s: State, events: seq<Event>, cfg: Config): Option<State>
    decreases |events|
  {
    if events == [] then Some(s)
    else if Enabled(s, events[0]) then Run(Next(s, events[0], cfg), events[1..], cfg)
    else None
  }

  /** The program's step: as `Next`, but a click passes the program's own guard. */
  function NextAsWritten(s: State, e: Event, cfg: Config): State
    requires Enabled(s, e)
  {
    if e.Click? then TriggerAsWritten(s) else Next(s, e, cfg)
  }

  /** `Run` for the program's step. */
  function RunAsWritten(s: State, events: seq<Event>, cfg: Config): Option<State>
    decreases |events|
  {
    if events == [] then Some(s)
    else if Enabled(s, events[0]) then RunAsWritten(NextAsWritten(s, events[0], cfg), events[1..], cfg)
    else None
  }

  /** Consecutive firings of draw `t`'s prize interval, one per random pick in `ticks`. */
  function PrizeEvents(t: nat, ticks: seq<nat>, finalIndex: nat): (es: seq<Event>)
    ensures |es| == |ticks|
    ensures forall k :: 0 <= k < |es| ==> es[k] == PrizeInterval(t, ticks[k], finalIndex)
  {
    if ticks == [] then [] else [PrizeInterval(t, ticks[0], finalIndex)] + PrizeEvents(t, ticks[1..], finalIndex)
  }

  /** Consecutive firings of draw `t`'s number interval, one per random pick in `ticks`. */
  function NumberEvents(t: nat, ticks: seq<nat>, finalIndex: nat): (es: seq<Event>)
    ensures |es| == |ticks|
    ensures forall k :: 0 <= k < |es| ==> es[k] == NumberInterval(t, ticks[k], finalIndex)
  {
    if ticks == [] then [] else [NumberInterval(t, ticks[0], finalIndex)] + NumberEvents(t, ticks[1..], finalIndex)
  }

  /** Every pick is a valid index into a pool of `n` elements. */
  predicate ValidPicks(ticks: seq<nat>, n: nat) {
    forall k :: 0 <= k < |ticks| ==> ticks[k] < n
  }

  /** `n` picks of the first element. */
  function Zeros(n: nat): (z: seq<nat>)
    ensures |z| == n && forall m: nat :: m > 0 ==> ValidPicks(z, m)
  {
    seq(n, _ => 0)
  }

  /** No event of the sequence is a click. */
  predicate NoClicks(events: seq<Event>) {
    forall k :: 0 <= k < |events| ==> !events[k].Click?
  }

  // ---------------------------------------------------------------------
  // The invariant
  // ---------------------------------------------------------------------

  /** The prizes of a history, as a multiset. */
  function PrizesWon(w: seq<Winner>): (m: multiset<string>)
    ensures |m| == |w|
  {
    if w == [] then multiset{} else multiset{w[0].premio} + PrizesWon(w[1..])
  }

  /** The numbers of a history, in history order. */
  function NumbersDrawn(w: seq<Winner>): (ns: seq<int>)
    ensures |ns| == |w|
    ensures forall k :: 0 <= k < |w| ==> ns[k] == w[k].numero
  {
    if w == [] then [] else [w[0].numero] + NumbersDrawn(w[1..])
  }

  /**
   * What a draw in flight needs from the state: its snapshots are non-empty
   * and still available in the current pools, and once its prize is fixed
   * that prize is one of its snapshot.
   */
  ghost predicate DrawLive(s: State, d: Draw) {
    && |d.prizeSnap| > 0 && |d.numberSnap| > 0
    && (forall p :: p in d.prizeSnap ==> p in s.prizes)
    && (forall n :: n in d.numberSnap ==> n in s.numbers)
    && (!d.phase.SpinningPrize? ==> d.phase.finalPrize in d.prizeSnap)
  }


  /**
   * The engine's invariant for configuration `cfg`: every configured prize
   * unit is either still in the pool or in the history, and so is every
   * configured number; at most one draw is in flight and it is live; each
   * spinning flag is raised exactly while that draw is in the matching
   * phase; the banner only shows when there is a winner to show.
   */
  ghost predicate Inv(s: State, cfg: Config) {
    && multiset(s.prizes) + PrizesWon(s.winners) == multiset(cfg.prizes)
    && multiset(s.numbers) + multiset(NumbersDrawn(s.winners)) == multiset(cfg.numbers)
    && |s.draws| <= 1
    && (|s.draws| == 1 ==> DrawLive(s, s.draws[0]))
    && (s.isSpinningPrize <==> |s.draws| == 1 && s.draws[0].phase.SpinningPrize?)
    && (s.isSpinningNumber <==> |s.draws| == 1 && s.draws[0].phase.SpinningNumber?)
    && (s.showWinner ==> |s.winners| > 0)
  }

  /** The start-up state satisfies the invariant. */
  lemma InitInv(cfg: Config)
    ensures Inv(Init(cfg), cfg)
  {
  }

  /**
   * Under the invariant, every number is held once at most, by the pool or
   * by the history.
   */
  lemma InvNumberCounts(s: State, cfg: Config)
    requires ConfigOk(cfg) && Inv(s, cfg)
    ensures forall n :: multiset(s.numbers)[n] + multiset(NumbersDrawn(s.winners))[n] <= 1
  {
    var c := multiset(cfg.numbers);
    var a, b := multiset(s.numbers), multiset(NumbersDrawn(s.winners));
    DistinctCounts(cfg.numbers);
    forall n ensures a[n] + b[n] <= 1 {
      assert a[n] + b[n] == c[n];
    }
  }

  /**
   * Under the invariant the number pool is duplicate-free, no number was
   * committed twice, and no committed number is back in the pool.
   */
  lemma InvNumbersDistinct(s: State, cfg: Config)
    requires ConfigOk(cfg) && Inv(s, cfg)
    ensures Distinct(s.numbers)
    ensures Distinct(NumbersDrawn(s.winners))
    ensures forall n :: n in s.numbers ==> n !in NumbersDrawn(s.winners)
  {
    var a, b := multiset(s.numbers), multiset(NumbersDrawn(s.winners));
    InvNumberCounts(s, cfg);
    forall x ensures a[x] <= 1 && b[x] <= 1 {
      assert a[x] + b[x] <= 1;
    }
    CountsDistinct(s.numbers);
    CountsDistinct(NumbersDrawn(s.winners));
    forall n | n in s.numbers ensures n !in NumbersDrawn(s.winners) {
      assert a[n] >= 1;
    }
  }

  /** A trigger accepted by the corrected guard keeps the invariant. */
  lemma TriggerKeepsInv(s: State, cfg: Config)
    requires Inv(s, cfg)
    ensures Inv(Trigger(s), cfg)
  {
  }

  /** A firing of the prize interval keeps the invariant. */
  lemma PrizeTickKeepsInv(s: State, t: nat, tickIndex: nat, finalIndex: nat, cfg: Config)
    requires Inv(s, cfg) && PrizeTickEnabled(s, t, tickIndex, finalIndex)
    ensures Inv(PrizeTick(s, t, tickIndex, finalIndex), cfg)
  {
    var d := s.draws[t];
    assert t == 0 && DrawLive(s, d);
    var r := PrizeTick(s, t, tickIndex, finalIndex);
    assert |r.draws| == 1 && r.draws[0].prizeSnap == d.prizeSnap && r.draws[0].numberSnap == d.numberSnap;
    assert r.prizes == s.prizes && r.numbers == s.numbers && r.winners == s.winners;
    if d.phase.prizeCounter + 1 > PrizeMaxIterations {
      assert r.draws[0].phase == Paused(d.prizeSnap[finalIndex]);
    } else {
      assert r.draws[0].phase == SpinningPrize(d.phase.prizeCounter + 1);
    }
    assert DrawLive(r, r.draws[0]);
  }

  /** The end of the pause keeps the invariant. */
  lemma PauseElapsedKeepsInv(s: State, t: nat, cfg: Config)
    requires Inv(s, cfg) && PauseEnabled(s, t)
    ensures Inv(PauseElapsed(s, t), cfg)
  {
    assert t == 0;
  }

  /**
   * Committing a prize present in the pool and a number the pool holds
   * once moves exactly one unit of each from the pools to the history.
   */
  lemma CommitConserves(s: State, prize: string, number: int)
    requires prize in s.prizes && multiset(s.numbers)[number] == 1
    ensures var r := Commit(s, prize, number);
      && multiset(r.prizes) + PrizesWon(r.winners) == multiset(s.prizes) + PrizesWon(s.winners)
      && multiset(r.numbers) + multiset(NumbersDrawn(r.winners))
         == multiset(s.numbers) + multiset(NumbersDrawn(s.winners))
  {
    var r := Commit(s, prize, number);
    assert multiset(r.prizes) + PrizesWon(r.winners) == multiset(s.prizes) + PrizesWon(s.winners) by {
      assert PrizesWon(r.winners) == multiset{prize} + PrizesWon(s.winners);
    }
    assert multiset(r.numbers) + multiset(NumbersDrawn(r.winners))
        == multiset(s.numbers) + multiset(NumbersDrawn(s.winners)) by {
      assert NumbersDrawn(r.winners) == [number] + NumbersDrawn(s.winners);
      assert multiset(s.numbers)[number := 0] + multiset{number} == multiset(s.numbers);
    }
  }

  /** The commit of the number phase keeps the invariant. */
  lemma CommitKeepsInv(s: State, t: nat, tickIndex: nat, finalIndex: nat, cfg: Config)
    requires ConfigOk(cfg) && Inv(s, cfg) && NumberTickEnabled(s, t, tickIndex, finalIndex)
    requires s.draws[t].phase.numberCounter + 1 > NumberMaxIterations
    ensures Inv(NumberTick(s, t, tickIndex, finalIndex), cfg)
  {
    var d := s.draws[t];
    var p := d.phase.finalPrize;
    var n := d.numberSnap[finalIndex];
    assert t == 0 && DrawLive(s, d);
    assert p in s.prizes;
    assert n in s.numbers;
    InvNumberCounts(s, cfg);
    assert multiset(s.numbers)[n] >= 1;
    var s' := s.(currentNumber := Some(n), isSpinningNumber := false, draws := []);
    assert s.draws[..t] + s.draws[t + 1..] == [];
    CommitConserves(s', p, n);
    var r := Commit(s', p, n);
    assert r == NumberTick(s, t, tickIndex, finalIndex);
    assert r.draws == [] && !r.isSpinningNumber && !r.isSpinningPrize && |r.winners| > 0;
  }

  /** A non-final firing of the number interval keeps the invariant. */
  lemma NumberTickKeepsInv(s: State, t: nat, tickIndex: nat, finalIndex: nat, cfg: Config)
    requires ConfigOk(cfg) && Inv(s, cfg) && NumberTickEnabled(s, t, tickIndex, finalIndex)
    ensures Inv(NumberTick(s, t, tickIndex, finalIndex), cfg)
  {
    if s.draws[t].phase.numberCounter + 1 > NumberMaxIterations {
      CommitKeepsInv(s, t, tickIndex, finalIndex, cfg);
    } else {
      assert t == 0;
    }
  }

  /** A confirmed reset keeps the invariant, even with a draw in flight. */
  lemma ResetKeepsInv(s: State, cfg: Config)
    requires Inv(s, cfg)
    ensures Inv(Reset(s, cfg), cfg)
  {
    var r := Reset(s, cfg);
    if |s.draws| == 1 {
      var d := s.draws[0];
      assert DrawLive(s, d);
      forall p | p in d.prizeSnap ensures p in r.prizes {
        assert p in s.prizes;
        assert multiset(s.prizes)[p] > 0;
        assert multiset(cfg.prizes)[p] > 0;
      }
      forall n | n in d.numberSnap ensures n in r.numbers {
        assert n in s.numbers;
        assert multiset(s.numbers)[n] > 0;
        assert multiset(cfg.numbers)[n] > 0;
      }
    }
  }

  /** Every step of the engine keeps the invariant. */
  lemma NextKeepsInv(s: State, e: Event, cfg: Config)
    requires ConfigOk(cfg) && Inv(s, cfg) && Enabled(s, e)
    ensures Inv(Next(s, e, cfg), cfg)
  {
    match e
    case Click => TriggerKeepsInv(s, cfg);
    case PrizeInterval(t, i, j) => PrizeTickKeepsInv(s, t, i, j, cfg);
    case PauseTimeout(t) => PauseElapsedKeepsInv(s, t, cfg);
    case NumberInterval(t, i, j) => NumberTickKeepsInv(s, t, i, j, cfg);
    case HideTimeout =>
    case ResetConfirmed => ResetKeepsInv(s, cfg);
  }

  /** Every state a run reaches from a state satisfying the invariant satisfies it. */
  lemma {:induction false} RunKeepsInv(s: State, events: seq<Event>, cfg: Config)
    requires ConfigOk(cfg) && Inv(s, cfg) && Run(s, events, cfg).Some?
    ensures Inv(Run(s, events, cfg).value, cfg)
    decreases |events|
  {
    if events != [] {
      NextKeepsInv(s, events[0], cfg);
      RunKeepsInv(Next(s, events[0], cfg), events[1..], cfg);
    }
  }

  /**
   * What holds in every state reachable from start-up: the two phases never
   * spin at once; the banner has a winner to show; pools and history
   * together account for every configured prize and number; the committed
   * numbers are pairwise distinct and none of them is back in the pool.
   */
  lemma ReachableSafety(events: seq<Event>, cfg: Config)
    requires ConfigOk(cfg) && Run(Init(cfg), events, cfg).Some?
    ensures var s := Run(Init(cfg), events, cfg).value;
      && !(s.isSpinningPrize && s.isSpinningNumber)
      && (s.showWinner ==> |s.winners| > 0)
      && |s.prizes| + |s.winners| == |cfg.prizes|
      && |s.numbers| + |s.winners| == |cfg.numbers|
      && Distinct(s.numbers)
      && (forall i, j :: 0 <= i < j < |s.winners| ==> s.winners[i].numero != s.winners[j].numero)
      && (forall k :: 0 <= k < |s.winners| ==> s.winners[k].numero !in s.numbers)
  {
    InitInv(cfg);
    RunKeepsInv(Init(cfg), events, cfg);
    var s := Run(Init(cfg), events, cfg).value;
    InvNumbersDistinct(s, cfg);
    assert |multiset(s.prizes) + PrizesWon(s.winners)| == |multiset(cfg.prizes)|;
    assert |multiset(s.numbers) + multiset(NumbersDrawn(s.winners))| == |multiset(cfg.numbers)|;
    var ns := NumbersDrawn(s.winners);
    forall i, j | 0 <= i < j < |s.winners| ensures s.winners[i].numero != s.winners[j].numero {
      assert ns[i] == s.winners[i].numero && ns[j] == s.winners[j].numero;
    }
    forall k | 0 <= k < |s.winners| ensures s.winners[k].numero !in s.numbers {
      assert ns[k] == s.winners[k].numero && ns[k] in ns;
    }
  }

  /** The configured pools satisfy `ConfigOk`, hold 28 prizes and 97 numbers, and the start-up state over them satisfies the invariant. */
  lemma ConfiguredFacts()
    ensures ConfigOk(Configured())
    ensures |Configured().prizes| == 28 && |Configured().numbers| == 97
    ensures Inv(Init(Configured()), Configured())
  {
    InitInv(Configured());
    Constants.InitialPrizesLength();
    Constants.InitialNumbersFacts();
  }

  // ---------------------------------------------------------------------
  // Single steps
  // ---------------------------------------------------------------------

  /**
   * The button is enabled exactly when the program's guard lets a click
   * through, and once a pool is empty no click starts a draw.
   */
  lemma ButtonMirrorsGuard(s: State)
    ensures IsGameOver(s) <==> s.prizes == [] || s.numbers == []
    ensures !ButtonDisabled(s) <==> !IsGameActive(s) && !IsGameOver(s) && !s.showWinner
    ensures !ButtonDisabled(s) <==> SourceGuard(s)
    ensures IsGameOver(s) ==> ButtonDisabled(s) && TriggerAsWritten(s) == s && Trigger(s) == s
  {
  }

  /**
   * A click changes the state exactly when its guard admits it, and an
   * admitted click clears the display, raises `isSpinningPrize` and starts
   * one draw over the current pools, leaving pools and history alone.
   */
  lemma TriggerEffect(s: State)
    ensures Trigger(s) != s <==> CanTrigger(s)
    ensures TriggerAsWritten(s) != s <==> SourceGuard(s)
    ensures CanTrigger(s) ==> Trigger(s) == TriggerAsWritten(s)
    ensures SourceGuard(s) ==>
      var r := TriggerAsWritten(s);
      && r.isSpinningPrize && !r.showWinner && r.currentPrize == None && r.currentNumber == None
      && r.draws == s.draws + [Draw(s.prizes, s.numbers, SpinningPrize(0))]
      && r.prizes == s.prizes && r.numbers == s.numbers && r.winners == s.winners
  {
    if SourceGuard(s) {
      assert |TriggerAsWritten(s).draws| == |s.draws| + 1;
    }
  }

  /**
   * The spinning flags and the banner move in the program's order: the
   * prize phase starts only on an admitted click; the number phase starts
   * only when a pause ends, and never while the prize phase spins; the
   * banner appears only when the number phase ends with a commit; a hiding
   * timeout, a reset and an admitted click take it down.
   */
  lemma StepOrdering(s: State, e: Event, cfg: Config)
    requires Inv(s, cfg) && Enabled(s, e)
    ensures var r := Next(s, e, cfg);
      && (!s.isSpinningPrize && r.isSpinningPrize ==> e.Click? && CanTrigger(s))
      && (!s.isSpinningNumber && r.isSpinningNumber ==> e.PauseTimeout? && !s.isSpinningPrize && !r.isSpinningPrize)
      && (!s.showWinner && r.showWinner ==>
            e.NumberInterval? && s.isSpinningNumber && !r.isSpinningNumber && |r.winners| == |s.winners| + 1)
      && (e.HideTimeout? || e.ResetConfirmed? || (e.Click? && CanTrigger(s)) ==> !r.showWinner)
  {
    match e
    case PauseTimeout(t) =>
      assert t == 0;
    case NumberInterval(t, i, j) =>
      assert t == 0;
    case _ =>
  }

  /**
   * A second reset changes nothing. With no draw in flight a reset returns
   * the engine to its start-up state, except for the banner-hiding timeouts
   * still pending, which it does not cancel.
   */
  lemma ResetRestores(s: State, cfg: Config)
    ensures Reset(Reset(s, cfg), cfg) == Reset(s, cfg)
    ensures Inv(s, cfg) && s.draws == [] ==> Reset(s, cfg) == Init(cfg).(pendingHides := s.pendingHides)
  {
  }

  /**
   * A reset in the middle of a draw does not stop it: the draw goes on with
   * the pools it captured, and its spinning flag stays up.
   */
  lemma ResetKeepsDrawInFlight(s: State, cfg: Config)
    requires Inv(s, cfg) && |s.draws| == 1
    ensures var r := Reset(s, cfg);
      && r.draws == s.draws && r.winners == [] && !r.showWinner
      && IsGameActive(r) == IsGameActive(s)
      && (s.draws[0].phase.SpinningPrize? ==> r.isSpinningPrize)
      && (s.draws[0].phase.SpinningNumber? ==> r.isSpinningNumber)
  {
  }

  // ---------------------------------------------------------------------
  // Phases
  // ---------------------------------------------------------------------

  /**
   * Consecutive firings of a draw's prize interval publish the random pick
   * of each firing and count them; the firing that takes the count past
   * `PrizeMaxIterations` (the 21st of a fresh draw) publishes the final pick
   * instead, lowers `isSpinningPrize` and starts the pause.
   */
  lemma {:induction false} PrizePhaseRun(s: State, t: nat, ticks: seq<nat>, finalIndex: nat, cfg: Config)
    requires t < |s.draws| && s.draws[t].phase.SpinningPrize?
    requires ticks != [] && s.draws[t].phase.prizeCounter + |ticks| <= PrizeMaxIterations + 1
    requires ValidPicks(ticks, |s.draws[t].prizeSnap|) && finalIndex < |s.draws[t].prizeSnap|
    ensures var d := s.draws[t];
      var n := d.phase.prizeCounter + |ticks|;
      Run(s, PrizeEvents(t, ticks, finalIndex), cfg) == Some(
        if n <= PrizeMaxIterations then
          s.(currentPrize := Some(d.prizeSnap[ticks[|ticks| - 1]]),
             draws := s.draws[t := d.(phase := SpinningPrize(n))])
        else
          s.(currentPrize := Some(d.prizeSnap[finalIndex]), isSpinningPrize := false,
             draws := s.draws[t := d.(phase := Paused(d.prizeSnap[finalIndex]))]))
    decreases |ticks|
  {
    var d := s.draws[t];
    PrizeRunHead(s, t, ticks, finalIndex, cfg);
    var s1 := PrizeTick(s, t, ticks[0], finalIndex);
    if |ticks| == 1 {
      assert PrizeEvents(t, ticks[1..], finalIndex) == [];
    } else {
      var d1 := s1.draws[t];
      assert d1 == d.(phase := SpinningPrize(d.phase.prizeCounter + 1));
      assert ticks[1..][|ticks| - 2] == ticks[|ticks| - 1];
      PrizePhaseRun(s1, t, ticks[1..], finalIndex, cfg);
      var n := d.phase.prizeCounter + |ticks|;
      if n <= PrizeMaxIterations {
        PrizeTickThenSet(s, t, ticks[0], finalIndex, Some(d.prizeSnap[ticks[|ticks| - 1]]), s.isSpinningPrize, SpinningPrize(n));
      } else {
        PrizeTickThenSet(s, t, ticks[0], finalIndex, Some(d.prizeSnap[finalIndex]), false, Paused(d.prizeSnap[finalIndex]));
      }
    }
  }

  /**
   * A non-final prize firing followed by overwriting the displayed prize,
   * the prize flag and the draw's phase is the overwrite alone.
   */
  lemma PrizeTickThenSet(s: State, t: nat, tickIndex: nat, finalIndex: nat,
                         shown: Option<string>, spinning: bool, ph: Phase)
    requires PrizeTickEnabled(s, t, tickIndex, finalIndex)
    requires s.draws[t].phase.prizeCounter + 1 <= PrizeMaxIterations
    ensures var s1 := PrizeTick(s, t, tickIndex, finalIndex);
      s1.(currentPrize := shown, isSpinningPrize := spinning, draws := s1.draws[t := s1.draws[t].(phase := ph)])
      == s.(currentPrize := shown, isSpinningPrize := spinning, draws := s.draws[t := s.draws[t].(phase := ph)])
  {
  }

  /** A run of prize firings starts with the first of them. */
  lemma PrizeRunHead(s: State, t: nat, ticks: seq<nat>, finalIndex: nat, cfg: Config)
    requires ticks != [] && PrizeTickEnabled(s, t, ticks[0], finalIndex)
    ensures Run(s, PrizeEvents(t, ticks, finalIndex), cfg)
         == Run(PrizeTick(s, t, ticks[0], finalIndex), PrizeEvents(t, ticks[1..], finalIndex), cfg)
  {
    assert PrizeEvents(t, ticks, finalIndex)[1..] == PrizeEvents(t, ticks[1..], finalIndex);
  }

  /**
   * Consecutive firings of a draw's number interval publish the random pick
   * of each firing and count them; the firing that takes the count past
   * `NumberMaxIterations` (the 31st) publishes the final pick, lowers
   * `isSpinningNumber`, retires the draw and commits its prize with that
   * number.
   */
  lemma {:induction false} NumberPhaseRun(s: State, t: nat, ticks: seq<nat>, finalIndex: nat, cfg: Config)
    requires t < |s.draws| && s.draws[t].phase.SpinningNumber?
    requires ticks != [] && s.draws[t].phase.numberCounter + |ticks| <= NumberMaxIterations + 1
    requires ValidPicks(ticks, |s.draws[t].numberSnap|) && finalIndex < |s.draws[t].numberSnap|
    ensures var d := s.draws[t];
      var n := d.phase.numberCounter + |ticks|;
      Run(s, NumberEvents(t, ticks, finalIndex), cfg) == Some(
        if n <= NumberMaxIterations then
          s.(currentNumber := Some(d.numberSnap[ticks[|ticks| - 1]]),
             draws := s.draws[t := d.(phase := SpinningNumber(d.phase.finalPrize, n))])
        else
          Commit(s.(currentNumber := Some(d.numberSnap[finalIndex]), isSpinningNumber := false,
                    draws := s.draws[..t] + s.draws[t + 1..]),
                 d.phase.finalPrize, d.numberSnap[finalIndex]))
    decreases |ticks|
  {
    var d := s.draws[t];
    NumberRunHead(s, t, ticks, finalIndex, cfg);
    var s1 := NumberTick(s, t, ticks[0], finalIndex);
    if |ticks| == 1 {
      assert NumberEvents(t, ticks[1..], finalIndex) == [];
    } else {
      var d1 := s1.draws[t];
      assert d1 == d.(phase := SpinningNumber(d.phase.finalPrize, d.phase.numberCounter + 1));
      assert ticks[1..][|ticks| - 2] == ticks[|ticks| - 1];
      NumberPhaseRun(s1, t, ticks[1..], finalIndex, cfg);
      var n := d.phase.numberCounter + |ticks|;
      if n <= NumberMaxIterations {
        var ph := SpinningNumber(d.phase.finalPrize, n);
        assert d1.(phase := ph) == d.(phase := ph);
        assert s1.draws[t := d1.(phase := ph)] == s.draws[t := d.(phase := ph)];
        NumberTickThenSet(s, t, ticks[0], finalIndex, Some(d.numberSnap[ticks[|ticks| - 1]]), s.draws[t := d.(phase := ph)]);
      } else {
        assert s1.draws[..t] + s1.draws[t + 1..] == s.draws[..t] + s.draws[t + 1..];
        var x := d.numberSnap[finalIndex];
        var rest := s.draws[..t] + s.draws[t + 1..];
        assert s1.(currentNumber := Some(x), isSpinningNumber := false, draws := rest)
            == s.(currentNumber := Some(x), isSpinningNumber := false, draws := rest);
      }
    }
  }

  /**
   * A non-final number firing followed by overwriting the displayed number
   * and the draws in flight is the overwrite alone.
   */
  lemma NumberTickThenSet(s: State, t: nat, tickIndex: nat, finalIndex: nat,
                          shown: Option<int>, ds: seq<Draw>)
    requires NumberTickEnabled(s, t, tickIndex, finalIndex)
    requires s.draws[t].phase.numberCounter + 1 <= NumberMaxIterations
    ensures NumberTick(s, t, tickIndex, finalIndex).(currentNumber := shown, draws := ds)
         == s.(currentNumber := shown, draws := ds)
  {
  }

  /** A run of number firings starts with the first of them. */
  lemma NumberRunHead(s: State, t: nat, ticks: seq<nat>, finalIndex: nat, cfg: Config)
    requires ticks != [] && NumberTickEnabled(s, t, ticks[0], finalIndex)
    ensures Run(s, NumberEvents(t, ticks, finalIndex), cfg)
         == Run(NumberTick(s, t, ticks[0], finalIndex), NumberEvents(t, ticks[1..], finalIndex), cfg)
  {
    assert NumberEvents(t, ticks, finalIndex)[1..] == NumberEvents(t, ticks[1..], finalIndex);
  }

  /**
   * Under the invariant, the commit ending a draw adds exactly one winner,
   * made of the draw's fixed prize and a number of its snapshot; it takes
   * one unit of that prize out of the prize pool and deletes exactly that
   * number from the number pool; and it leaves nothing in flight.
   */
  lemma CommitEffect(s: State, t: nat, tickIndex: nat, finalIndex: nat, cfg: Config)
    requires ConfigOk(cfg) && Inv(s, cfg) && NumberTickEnabled(s, t, tickIndex, finalIndex)
    requires s.draws[t].phase.numberCounter == NumberMaxIterations
    ensures var d := s.draws[t];
      var p, n := d.phase.finalPrize, d.numberSnap[finalIndex];
      var r := NumberTick(s, t, tickIndex, finalIndex);
      && r.winners == [Winner(p, n)] + s.winners
      && p in d.prizeSnap && n in d.numberSnap
      && |r.prizes| == |s.prizes| - 1 && multiset(r.prizes) == multiset(s.prizes) - multiset{p}
      && |r.numbers| == |s.numbers| - 1
      && (exists i :: 0 <= i < |s.numbers| && s.numbers[i] == n && r.numbers == s.numbers[..i] + s.numbers[i + 1..])
      && r.draws == [] && !IsGameActive(r) && r.showWinner && r.currentNumber == Some(n)
  {
    var d := s.draws[t];
    var p, n := d.phase.finalPrize, d.numberSnap[finalIndex];
    var r := NumberTick(s, t, tickIndex, finalIndex);
    assert t == 0 && DrawLive(s, d);
    assert p in s.prizes && n in s.numbers;
    assert s.draws[..t] + s.draws[t + 1..] == [];
    InvNumbersDistinct(s, cfg);
    var i := IndexOf(s.numbers, n);
    FilterOutDistinct(s.numbers, i);
    DistinctDelete(s.numbers, i);
    assert r.numbers == s.numbers[..i] + s.numbers[i + 1..];
  }

  // ---------------------------------------------------------------------
  // The pause window (as written)
  // ---------------------------------------------------------------------

  /** Running `a` and then `b` is running `a + b`. */
  lemma {:induction false} RunAsWrittenAppend(s: State, a: seq<Event>, b: seq<Event>, cfg: Config)
    ensures RunAsWritten(s, a + b, cfg) ==
      if RunAsWritten(s, a, cfg).Some? then RunAsWritten(RunAsWritten(s, a, cfg).value, b, cfg) else None
    decreases |a|
  {
    if a == [] {
      assert a + b == b;
    } else {
      assert (a + b)[0] == a[0] && (a + b)[1..] == a[1..] + b;
      if Enabled(s, a[0]) {
        RunAsWrittenAppend(NextAsWritten(s, a[0], cfg), a[1..], b, cfg);
      }
    }
  }

  /** Without clicks the two guards make no difference. */
  lemma {:induction false} RunsAgreeWithoutClicks(s: State, events: seq<Event>, cfg: Config)
    requires NoClicks(events)
    ensures RunAsWritten(s, events, cfg) == Run(s, events, cfg)
    decreases |events|
  {
    if events != [] && Enabled(s, events[0]) {
      RunsAgreeWithoutClicks(Next(s, events[0], cfg), events[1..], cfg);
    }
  }

  /** A click, the 21 firings of the prize interval, a second click, the end of the pause. */
  function SecondClickTrace(): (es: seq<Event>)
    ensures |es| == 24 && es[0] == Click && es[22] == Click && es[23] == PauseTimeout(0)
    ensures forall k :: 1 <= k <= 21 ==> es[k] == PrizeInterval(0, 0, 0)
  {
    [Click] + PrizeEvents(0, Zeros(PrizeMaxIterations + 1), 0) + [Click, PauseTimeout(0)]
  }

  /** The first draw's prize phase, run from an idle state: it ends in its pause. */
  lemma FirstPrizePhase(s: State, cfg: Config)
    requires SourceGuard(s) && s.draws == []
    ensures RunAsWritten(s, [Click] + PrizeEvents(0, Zeros(PrizeMaxIterations + 1), 0), cfg) ==
      Some(s.(showWinner := false, currentNumber := None, currentPrize := Some(s.prizes[0]),
              isSpinningPrize := false, draws := [Draw(s.prizes, s.numbers, Paused(s.prizes[0]))]))
  {
    var pe := PrizeEvents(0, Zeros(PrizeMaxIterations + 1), 0);
    var s1 := StartDraw(s);
    assert RunAsWritten(s, [Click], cfg) == Some(s1);
    RunAsWrittenAppend(s, [Click], pe, cfg);
    RunsAgreeWithoutClicks(s1, pe, cfg);
    PrizePhaseRun(s1, 0, Zeros(PrizeMaxIterations + 1), 0, cfg);
    var d := Draw(s.prizes, s.numbers, SpinningPrize(0));
    assert s1.draws == [d];
    assert [d][0 := d.(phase := Paused(s.prizes[0]))] == [Draw(s.prizes, s.numbers, Paused(s.prizes[0]))];
  }

  /**
   * The program's guard admits a second click during the pause between the
   * phases of a draw: every cell it tests is clear, and the button is
   * enabled, although a draw is in flight. When that pause ends, both
   * spinning flags are up at once.
   */
  lemma PauseWindowAdmitsSecondDraw(s: State, cfg: Config)
    requires SourceGuard(s) && s.draws == []
    ensures var m := RunAsWritten(s, [Click] + PrizeEvents(0, Zeros(PrizeMaxIterations + 1), 0), cfg);
      m.Some? && |m.value.draws| == 1 && SourceGuard(m.value) && !ButtonDisabled(m.value)
    ensures var r := RunAsWritten(s, SecondClickTrace(), cfg);
      && r.Some? && r.value.isSpinningPrize && r.value.isSpinningNumber && |r.value.draws| == 2
      && r.value.draws == [Draw(s.prizes, s.numbers, SpinningNumber(s.prizes[0], 0)),
                           Draw(s.prizes, s.numbers, SpinningPrize(0))]
  {
    FirstPrizePhase(s, cfg);
    SecondClickState(s, cfg);
  }

  /** The whole state `SecondClickTrace` reaches from an idle state. */
  lemma SecondClickState(s: State, cfg: Config)
    requires SourceGuard(s) && s.draws == []
    ensures RunAsWritten(s, SecondClickTrace(), cfg) ==
      Some(s.(showWinner := false, currentPrize := None, currentNumber := None,
              isSpinningPrize := true, isSpinningNumber := true,
              draws := [Draw(s.prizes, s.numbers, SpinningNumber(s.prizes[0], 0)),
                        Draw(s.prizes, s.numbers, SpinningPrize(0))]))
  {
    var pe := PrizeEvents(0, Zeros(PrizeMaxIterations + 1), 0);
    FirstPrizePhase(s, cfg);
    var m := RunAsWritten(s, [Click] + pe, cfg).value;
    assert SourceGuard(m);
    var m3 := StartDraw(m);
    assert TriggerAsWritten(m) == m3;
    assert m3.draws == [Draw(s.prizes, s.numbers, Paused(s.prizes[0])), Draw(s.prizes, s.numbers, SpinningPrize(0))];
    var r := PauseElapsed(m3, 0);
    assert RunAsWritten(m3, [PauseTimeout(0)], cfg) == Some(r);
    assert RunAsWritten(m, [Click, PauseTimeout(0)], cfg) == RunAsWritten(m3, [PauseTimeout(0)], cfg);
    assert r.draws == [Draw(s.prizes, s.numbers, SpinningNumber(s.prizes[0], 0)), Draw(s.prizes, s.numbers, SpinningPrize(0))];
    RunAsWrittenAppend(s, [Click] + pe, [Click, PauseTimeout(0)], cfg);
  }

  /**
   * What the second click leads to: each of the two draws commits the first
   * prize and the first number of the same snapshots, so one pair is
   * recorded twice. When that prize had one unit, the second removal finds
   * nothing and the prize pool keeps every other unit.
   */
  function DoubleCommitTrace(): seq<Event> {
    SecondClickTrace()
      + NumberEvents(0, Zeros(NumberMaxIterations + 1), 0)
      + (PrizeEvents(0, Zeros(PrizeMaxIterations + 1), 0)
         + [PauseTimeout(0)]
         + NumberEvents(0, Zeros(NumberMaxIterations + 1), 0))
  }

  /** The first draw's number phase, run after the second click: it commits the first pair. */
  lemma FirstNumberPhase(s: State, cfg: Config)
    requires SourceGuard(s) && s.draws == []
    ensures RunAsWritten(s, SecondClickTrace() + NumberEvents(0, Zeros(NumberMaxIterations + 1), 0), cfg) ==
      Some(Commit(s.(currentPrize := None, currentNumber := Some(s.numbers[0]), isSpinningPrize := true,
                     isSpinningNumber := false, showWinner := false,
                     draws := [Draw(s.prizes, s.numbers, SpinningPrize(0))]),
                  s.prizes[0], s.numbers[0]))
  {
    var ne := NumberEvents(0, Zeros(NumberMaxIterations + 1), 0);
    SecondClickState(s, cfg);
    var r := RunAsWritten(s, SecondClickTrace(), cfg).value;
    RunAsWrittenAppend(s, SecondClickTrace(), ne, cfg);
    RunsAgreeWithoutClicks(r, ne, cfg);
    NumberPhaseRun(r, 0, Zeros(NumberMaxIterations + 1), 0, cfg);
    var rest := [Draw(s.prizes, s.numbers, SpinningPrize(0))];
    assert r.draws[..0] + r.draws[1..] == rest;
    assert r.(currentNumber := Some(s.numbers[0]), isSpinningNumber := false, draws := rest)
        == s.(currentPrize := None, currentNumber := Some(s.numbers[0]), isSpinningPrize := true,
              isSpinningNumber := false, showWinner := false, draws := rest);
  }

  /**
   * A draw that has just been triggered, run through its 21 prize firings,
   * its pause and its 31 number firings, commits the first prize and the
   * first number of its snapshots.
   */
  lemma SecondDrawRun(a: State, cfg: Config)
    requires |a.draws| == 1 && a.draws[0].phase == SpinningPrize(0)
    requires |a.draws[0].prizeSnap| > 0 && |a.draws[0].numberSnap| > 0
    ensures var d := a.draws[0];
      var r := RunAsWritten(a, PrizeEvents(0, Zeros(PrizeMaxIterations + 1), 0) + [PauseTimeout(0)]
                               + NumberEvents(0, Zeros(NumberMaxIterations + 1), 0), cfg);
      && r.Some? && r.value.winners == [Winner(d.prizeSnap[0], d.numberSnap[0])] + a.winners
      && r.value.prizes == RemoveFirst(a.prizes, d.prizeSnap[0])
      && r.value.numbers == FilterOut(a.numbers, d.numberSnap[0])
      && r.value.draws == [] && !r.value.isSpinningPrize && !r.value.isSpinningNumber
  {
    var ne := NumberEvents(0, Zeros(NumberMaxIterations + 1), 0);
    var pe := PrizeEvents(0, Zeros(PrizeMaxIterations + 1), 0);
    RunsAgreeWithoutClicks(a, pe, cfg);
    PrizePhaseRun(a, 0, Zeros(PrizeMaxIterations + 1), 0, cfg);
    var b := Run(a, pe, cfg).value;
    var c := PauseElapsed(b, 0);
    assert RunAsWritten(b, [PauseTimeout(0)], cfg) == Some(c);
    RunsAgreeWithoutClicks(c, ne, cfg);
    NumberPhaseRun(c, 0, Zeros(NumberMaxIterations + 1), 0, cfg);
    assert c.draws[..0] + c.draws[1..] == [];
    RunAsWrittenAppend(a, pe, [PauseTimeout(0)], cfg);
    RunAsWrittenAppend(a, pe + [PauseTimeout(0)], ne, cfg);
  }

  /** The second draw, run to its commit. */
  lemma SecondDraw(s: State, cfg: Config)
    requires SourceGuard(s) && s.draws == []
    ensures var w := Winner(s.prizes[0], s.numbers[0]);
      var r := RunAsWritten(s, DoubleCommitTrace(), cfg);
      && r.Some? && r.value.winners == [w, w] + s.winners
      && r.value.prizes == RemoveFirst(RemoveFirst(s.prizes, s.prizes[0]), s.prizes[0])
      && r.value.numbers == FilterOut(FilterOut(s.numbers, s.numbers[0]), s.numbers[0])
      && r.value.draws == [] && !IsGameActive(r.value)
  {
    var ne := NumberEvents(0, Zeros(NumberMaxIterations + 1), 0);
    var pe := PrizeEvents(0, Zeros(PrizeMaxIterations + 1), 0);
    var head := SecondClickTrace() + ne;
    var tail := pe + [PauseTimeout(0)] + ne;
    var w := Winner(s.prizes[0], s.numbers[0]);
    var d := Draw(s.prizes, s.numbers, SpinningPrize(0));
    FirstNumberPhase(s, cfg);
    var a := RunAsWritten(s, head, cfg).value;
    assert a.draws == [d] && a.winners == [w] + s.winners;
    assert a.prizes == RemoveFirst(s.prizes, s.prizes[0]) && a.numbers == FilterOut(s.numbers, s.numbers[0]);
    SecondDrawRun(a, cfg);
    RunAsWrittenAppend(s, head, tail, cfg);
    assert [w, w] + s.winners == [w] + a.winners;
  }

  /**
   * When the doubly awarded prize had a single unit, the second removal
   * finds nothing: the prize pool ends one unit short, not two, and pools
   * and history no longer account for the configured prizes.
   */
  lemma DoubleAwardBreaksConservation(s: State, cfg: Config)
    requires SourceGuard(s) && s.draws == [] && multiset(s.prizes)[s.prizes[0]] == 1
    requires multiset(s.prizes) + PrizesWon(s.winners) == multiset(cfg.prizes)
    ensures var r := RunAsWritten(s, DoubleCommitTrace(), cfg);
      var w := Winner(s.prizes[0], s.numbers[0]);
      && r.Some? && r.value.winners == [w, w] + s.winners && r.value.prizes == s.prizes[1..]
      && |r.value.prizes| + |r.value.winners| == |cfg.prizes| + 1
      && !Inv(r.value, cfg)
  {
    SecondDraw(s, cfg);
    var r := RunAsWritten(s, DoubleCommitTrace(), cfg).value;
    RemoveSingleTwice(s.prizes);
    assert |multiset(s.prizes) + PrizesWon(s.winners)| == |cfg.prizes|;
    assert |multiset(r.prizes) + PrizesWon(r.winners)| == |cfg.prizes| + 1;
  }

  /**
   * From start-up, with a first prize of a single unit, the double award
   * records the first prize and the first number twice and leaves the
   * prize pool one unit short.
   */
  lemma DoubleAwardFromStart(cfg: Config)
    requires |cfg.prizes| > 0 && |cfg.numbers| > 0 && multiset(cfg.prizes)[cfg.prizes[0]] == 1
    ensures var r := RunAsWritten(Init(cfg), DoubleCommitTrace(), cfg);
      var w := Winner(cfg.prizes[0], cfg.numbers[0]);
      && r.Some? && r.value.winners == [w, w] && |r.value.prizes| == |cfg.prizes| - 1
      && !Inv(r.value, cfg)
  {
    DoubleAwardBreaksConservation(Init(cfg), cfg);
  }

  /**
   * The double award with the configured pools: the flight tickets, of
   * which there is one unit, go twice with ticket 901, leaving 27 prizes in
   * the pool for 2 awarded out of 28 configured.
   */
  lemma FlightTicketsAwardedTwice(s: State)
    requires s == Init(Configured())
    ensures var r := RunAsWritten(s, DoubleCommitTrace(), Configured());
      && r.Some?
      && r.value.winners == [Winner("Billetes de Avión", 901), Winner("Billetes de Avión", 901)]
      && multiset(s.prizes)["Billetes de Avión"] == 1
      && |r.value.prizes| == 27
      && !Inv(r.value, Configured())
  {
    Constants.FlightTicketsFirst();
    Constants.InitialPrizesLength();
    DoubleAwardFromStart(Configured());
  }

  /**
   * The corrected guard turns the second click away: after the pause only
   * the number phase spins, and the one draw in flight is the first.
   */
  lemma CorrectedGuardRejectsSecondClick(s: State, cfg: Config)
    requires CanTrigger(s)
    ensures var r := Run(s, SecondClickTrace(), cfg);
      && r.Some? && !r.value.isSpinningPrize && r.value.isSpinningNumber
      && r.value.draws == [Draw(s.prizes, s.numbers, SpinningNumber(s.prizes[0], 0))]
  {
    var pe := PrizeEvents(0, Zeros(PrizeMaxIterations + 1), 0);
    FirstPrizePhase(s, cfg);
    RunAsWrittenAppend(s, [Click], pe, cfg);
    var s1 := StartDraw(s);
    RunsAgreeWithoutClicks(s1, pe, cfg);
    var m := Run(s1, pe, cfg).value;
    assert !CanTrigger(m);
    RunAppend(s, [Click], pe, cfg);
    RunAppend(s, [Click] + pe, [Click, PauseTimeout(0)], cfg);
    assert Run(m, [Click, PauseTimeout(0)], cfg) == Some(PauseElapsed(m, 0));
  }

  /** Running `a` and then `b` is running `a + b`. */
  lemma {:induction false} RunAppend(s: State, a: seq<Event>, b: seq<Event>, cfg: Config)
    ensures Run(s, a + b, cfg) ==
      if Run(s, a, cfg).Some? then Run(Run(s, a, cfg).value, b, cfg) else None
    decreases |a|
  {
    if a == [] {
      assert a + b == b;
    } else {
      assert (a + b)[0] == a[0] && (a + b)[1..] == a[1..] + b;
      if Enabled(s, a[0]) {
        RunAppend(Next(s, a[0], cfg), a[1..], b, cfg);
      }
    }
  }
}
