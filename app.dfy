/**
 * The raffle screen as a mutable object: its state cells are fields, and
 * each click handler and timer callback is a method that updates them in
 * place. React applies the state updates one callback requests together,
 * when it next renders, so each such group is one simultaneous assignment
 * here; of two updates of the same cell the later wins (the final tick of
 * the prize interval publishes a random prize and then the final one, and
 * only the final one is ever seen). Each handler and callback is proved
 * to perform exactly the matching step of the engine and to keep the
 * engine's invariant for the configured pools; `FinishDraw`, the batch of
 * updates of the last number firing, is proved to perform its step, and
 * its caller keeps the invariant.
 */
module App {
  import opened RaffleTypes
  import opened Pools
  import opened Sequencer
  import Constants

  class Tombola {
    var prizes: seq<string>
    var numbers: seq<int>
    var currentPrize: Option<string>
    var currentNumber: Option<int>
    var isSpinningPrize: bool
    var isSpinningNumber: bool
    var winners: seq<Winner>
    var showWinner: bool
    /** The draws whose callbacks are still pending, in trigger order. */
    var draws: seq<Draw>
    /** The banner-hiding timeouts not yet fired. */
    var pendingHides: nat
    /** The pools the raffle starts from and returns to on a reset. */
    const cfg: Config

    /** The cells as an engine state. */
    function Cells(): State
      reads this
    {
      State(prizes, numbers, currentPrize, currentNumber, isSpinningPrize, isSpinningNumber,
            winners, showWinner, draws, pendingHides)
    }

    /** The engine's invariant for the raffle's pools. */
    ghost predicate Valid()
      reads this
    {
      ConfigOk(cfg) && Inv(Cells(), cfg)
    }

    /** The component's first render: the `useState` initial values. */
    constructor()
      ensures Valid() && cfg == Configured() && Cells() == Init(cfg)
    {
      var pools := Configured();
      cfg := pools;
      prizes, numbers := pools.prizes, pools.numbers;
      currentPrize, currentNumber, isSpinningPrize, isSpinningNumber := None, None, false, false;
      winners, showWinner, draws, pendingHides := [], false, [], 0;
      new;
      assert Cells() == Init(pools);
      ConfiguredFacts();
    }

    /**
     * `handleAutoSpin`: unless a pool is empty, a phase spins, the banner
     * shows or a draw is in flight, clear the display, raise
     * `isSpinningPrize` and start the prize interval over the current pools.
     */
    method HandleAutoSpin()
      requires Valid()
      modifies this
      ensures Valid() && Cells() == Trigger(old(Cells()))
    {
      ghost var before := Cells();
      if |prizes| == 0 || |numbers| == 0 || isSpinningPrize || isSpinningNumber || showWinner || draws != [] {
        return;
      }
      showWinner, currentPrize, currentNumber, isSpinningPrize, draws :=
        false, None, None, true, draws + [Draw(prizes, numbers, SpinningPrize(0))];
      assert Cells() == StartDraw(before);
      TriggerKeepsInv(before, cfg);
    }

    /**
     * One firing of draw `t`'s prize interval, with `tickIndex` and
     * `finalIndex` the two random picks of the callback.
     */
    method OnPrizeInterval(t: nat, tickIndex: nat, finalIndex: nat)
      requires Valid() && PrizeTickEnabled(Cells(), t, tickIndex, finalIndex)
      modifies this
      ensures Valid() && Cells() == PrizeTick(old(Cells()), t, tickIndex, finalIndex)
    {
      ghost var before := Cells();
      var d := draws[t];
      var randomPrize := d.prizeSnap[tickIndex];
      var prizeCounter := d.phase.prizeCounter + 1;
      if prizeCounter > PrizeMaxIterations {
        var finalPrize := d.prizeSnap[finalIndex];
        currentPrize, isSpinningPrize, draws := Some(finalPrize), false, draws[t := d.(phase := Paused(finalPrize))];
      } else {
        currentPrize, draws := Some(randomPrize), draws[t := d.(phase := SpinningPrize(prizeCounter))];
      }
      assert Cells() == PrizeTick(before, t, tickIndex, finalIndex);
      PrizeTickKeepsInv(before, t, tickIndex, finalIndex, cfg);
    }

    /** The 500 ms timeout of draw `t` fires: raise `isSpinningNumber` and start the number interval. */
    method OnPauseTimeout(t: nat)
      requires Valid() && PauseEnabled(Cells(), t)
      modifies this
      ensures Valid() && Cells() == PauseElapsed(old(Cells()), t)
    {
      ghost var before := Cells();
      var d := draws[t];
      isSpinningNumber, draws := true, draws[t := d.(phase := SpinningNumber(d.phase.finalPrize, 0))];
      assert Cells() == PauseElapsed(before, t);
      PauseElapsedKeepsInv(before, t, cfg);
    }

    /**
     * One firing of draw `t`'s number interval; the last one registers the
     * winner, removes one unit of the prize and the number from the pools,
     * shows the banner and schedules its hiding.
     */
    method OnNumberInterval(t: nat, tickIndex: nat, finalIndex: nat)
      requires Valid() && NumberTickEnabled(Cells(), t, tickIndex, finalIndex)
      modifies this
      ensures Valid() && Cells() == NumberTick(old(Cells()), t, tickIndex, finalIndex)
    {
      ghost var before := Cells();
      var d := draws[t];
      var randomNumber := d.numberSnap[tickIndex];
      var numberCounter := d.phase.numberCounter + 1;
      if numberCounter > NumberMaxIterations {
        FinishDraw(t, tickIndex, finalIndex);
        CommitKeepsInv(before, t, tickIndex, finalIndex, cfg);
      } else {
        currentNumber, draws := Some(randomNumber), draws[t := d.(phase := SpinningNumber(d.phase.finalPrize, numberCounter))];
        assert Cells() == NumberTick(before, t, tickIndex, finalIndex);
        NumberTickKeepsInv(before, t, tickIndex, finalIndex, cfg);
      }
    }

    /**
     * The last firing of draw `t`'s number interval: publish the final
     * number, lower `isSpinningNumber`, and register the winner: prepend the
     * pair to the history, remove one unit of the prize (none when it is
     * gone) and every copy of the number from the pools, show the banner and
     * schedule its hiding.
     */
    method FinishDraw(t: nat, tickIndex: nat, finalIndex: nat)
      requires NumberTickEnabled(Cells(), t, tickIndex, finalIndex)
      requires draws[t].phase.numberCounter + 1 > NumberMaxIterations
      modifies this
      ensures Cells() == NumberTick(old(Cells()), t, tickIndex, finalIndex)
    {
      ghost var before := Cells();
      var d := draws[t];
      var finalNumber := d.numberSnap[finalIndex];
      var finalPrize := d.phase.finalPrize;
      currentNumber, isSpinningNumber, draws, winners, prizes, numbers, showWinner, pendingHides :=
        Some(finalNumber), false, draws[..t] + draws[t + 1..],
        [Winner(finalPrize, finalNumber)] + winners,
        RemoveFirst(prizes, finalPrize),
        FilterOut(numbers, finalNumber),
        true, pendingHides + 1;
      assert Cells() == Commit(before.(currentNumber := Some(finalNumber), isSpinningNumber := false,
                                       draws := before.draws[..t] + before.draws[t + 1..]),
                               finalPrize, finalNumber);
    }

    /** One 8 s banner-hiding timeout fires. */
    method OnHideTimeout()
      requires Valid() && pendingHides > 0
      modifies this
      ensures Valid() && Cells() == HideBanner(old(Cells()))
    {
      ghost var before := Cells();
      showWinner, pendingHides := false, pendingHides - 1;
      assert Cells() == HideBanner(before);
      NextKeepsInv(before, HideTimeout, cfg);
    }

    /**
     * `handleReset`, where `confirmed` is the user's answer to the
     * confirmation dialog: on yes, configured pools, empty history, nothing
     * on display; the draw in flight, if any, is not stopped.
     */
    method HandleReset(confirmed: bool)
      requires Valid()
      modifies this
      ensures Valid()
      ensures Cells() == if confirmed then Reset(old(Cells()), cfg) else old(Cells())
    {
      ghost var before := Cells();
      if confirmed {
        prizes, numbers, currentPrize, currentNumber, winners, showWinner :=
          cfg.prizes, cfg.numbers, None, None, [], false;
        assert Cells() == Reset(before, cfg);
        ResetKeepsInv(before, cfg);
      }
    }

    /**
     * `isGameActive`. Under the invariant it holds exactly while a draw is in
     * flight and not in its pause: the pause is the one stretch of a draw the
     * program's guard does not see.
     */
    function IsGameActive(): (b: bool)
      reads this
      ensures Valid() ==> (b <==> draws != [] && !draws[0].phase.Paused?)
    {
      isSpinningPrize || isSpinningNumber
    }

    /** Whether the draw button is disabled. */
    function ButtonDisabled(): (b: bool)
      reads this
      ensures b <==> !SourceGuard(Cells())
    {
      IsGameActive() || |prizes| == 0 || |numbers| == 0 || showWinner
    }
  }
}
