# Tómbola draw engine

A Dafny model of the draw engine of the Fiesta raffle screen (`App.tsx`) and of
its initial configuration (`constants.ts`). It includes proofs about both.

The raffle keeps two pools:
- 28 prize units, flattened from a table of 12 named prizes;
- 97 ticket numbers, 901 to 997.

One click on the central button runs one draw, as a chain of timer callbacks:
1. An 80 ms prize interval shows random prizes. The firing that takes its counter past 20 fixes the final prize and lowers `isSpinningPrize`.
2. A 500 ms pause follows, after which `isSpinningNumber` goes up.
3. A 60 ms number interval shows random numbers. The firing that takes its counter past 30 fixes the final number and registers the winner:
   - the pair is prepended to the history;
   - one unit of the prize comes out of the prize pool;
   - every copy of the number comes out of the number pool;
   - the banner shows, and an 8 s timeout hides it again.

A confirmed reset puts back the configured pools, empties the history and clears the display.

The model has four modules:

- `RaffleTypes` (`types.dfy`): the `Winner` record without its id and timestamp, and `Option`.
- `Pools` (`pools.dfy`): the two pool updates.
  - `RemoveFirst` is `indexOf` followed by `splice` on a copy.
  - `FilterOut` is `filter(n => n !== x)`.
  - Their lemmas cover order, multiplicity and distinctness.
- `Constants` (`constants.ts`, in `constants.dfy`):
  - the prize table and its flattening;
  - the number range;
  - lemmas about the resulting pools.
- `Sequencer` (`sequencer.dfy`): the engine as a pure state machine.
  - A `State` holds the React cells. It also holds the draws whose callbacks are still pending (`draws`, each with the pools its closures captured and its phase) and the number of banner timeouts not yet fired.
  - Each click, callback and confirmed reset is a step function.
  - `Run` folds a sequence of `Event`s.
  - `Inv` is the invariant every reachable state keeps. Pools and history together account for every configured prize unit and number. At most one draw is in flight, and its snapshots are still in the pools. Each spinning flag is up exactly while that draw is in the matching phase.
- `App` (`app.dfy`): the component as a class `Tombola`.
  - The state cells are fields, and every handler and callback is a method that updates them in place.
  - Each handler and callback is proved to perform exactly the matching `Sequencer` step, and to keep `Inv` for the configured pools. `FinishDraw`, the last number firing's batch of updates, is proved to give exactly that step; its caller `OnNumberInterval` keeps `Inv`.
  - The updates one callback requests are applied together at the next render, so each group is one simultaneous assignment.

These inputs become parameters:
- `Math.random`: every random pick is a parameter (`tickIndex`, `finalIndex`), required to be a valid index into the captured pool. That is what `Math.floor(Math.random() * length)` yields on a non-empty pool.
- The timers: which pending callback fires next is the choice of event, or of method to call.
- `window.confirm`: its answer is the `confirmed` parameter of `HandleReset`.

The program's click guard (App.tsx:34) and the button's `disabled` condition (App.tsx:206) do not test for a draw in flight. During the 500 ms pause both spinning flags are down, so a second click starts a second draw over the same captured pools (see Findings).

The engine (`Next`, `Run`, `Tombola.HandleAutoSpin`) uses the corrected guard `CanTrigger`, which also requires no draw in flight. The guard as written is `SourceGuard`, stepped by `TriggerAsWritten`, `NextAsWritten` and `RunAsWritten`.

A confirmed reset does not cancel pending callbacks and leaves the spinning flags as they are (App.tsx:122-133), so a draw in flight goes on with the pools it captured (`ResetKeepsDrawInFlight`), and a hide timeout scheduled before the reset still fires.

## Model

| member | source | states |
|---|---|---|
| Pools.IndexOf | App.tsx:97 | the index is -1 exactly when the prize is absent; otherwise it holds the prize and no earlier index does |
| Pools.RemoveFirst | App.tsx:95-104 | an absent prize leaves the pool unchanged; a present one makes it one shorter, with exactly one unit of that prize fewer |
| Pools.RemoveFirstAt | App.tsx:97-101 | the unit removed is the first one; everything before and after it is kept in order |
| Pools.RemoveFirstKeepsDuplicates | App.tsx:96-101 | a prize present c >= 2 times is still present, c - 1 times; every other prize keeps its count |
| Pools.RemoveSingleTwice | App.tsx:97-103 | removing a single-unit first prize twice removes it once: the second removal finds nothing |
| Pools.FilterOut | App.tsx:106 | the number is gone; every other number keeps its multiplicity; the pool does not grow |
| Pools.FilterOutAbsent | App.tsx:106 | filtering out an absent number changes nothing |
| Pools.FilterOutDistinct | App.tsx:106 | on a duplicate-free pool, filtering out the element at i deletes exactly that element and keeps the rest in order |
| Pools.DistinctDelete | App.tsx:106 | deleting one element of a duplicate-free pool leaves a duplicate-free pool one shorter |
| Pools.DistinctCounts | App.tsx:16-18 | a duplicate-free pool holds each number at most once |
| Pools.CountsDistinct | App.tsx:16-18 | a pool holding each number at most once is duplicate-free |
| Constants.NumberRange | App.tsx:16-18 | the range has `count` elements: exactly the integers from start to start + count - 1, strictly ascending, with those endpoints |
| Constants.RangeMembers | App.tsx:17 | every integer of the range occurs in the generated array |
| Constants.Fill | constants.ts:18 | `Array(count).fill(name)` has `count` elements, each of them the name |
| Constants.FillFacts | constants.ts:18 | `Array(count).fill(name)` holds the name `count` times and nothing else |
| Constants.Flatten | constants.ts:18 | the `flatMap` over the table has one element per unit the table lists |
| Constants.FlattenOccurrences | constants.ts:18 | each name occurs in the flattened pool as many times as the table lists it |
| Constants.CountOfDistinct | constants.ts:2-15 | with distinct names, the units listed under a row's name are that row's count |
| Constants.CountOfAbsent | constants.ts:2-15 | a name no row carries has no units |
| Constants.FlattenBlock | constants.ts:18 | the flattening keeps table order: row k's copies follow all copies of the rows before it |
| Constants.PrizeConfigNamesDistinct | constants.ts:2-15 | the 12 prize names of `PrizeConfig` (`PRIZE_CONFIG`) are distinct |
| Constants.PrizeConfigCountOf | constants.ts:2-15 | each name's units are listed in one row |
| Constants.InitialPrizesLength | constants.ts:17-18 | `InitialPrizes` (`INITIAL_PRIZES`, the flattening of `PrizeConfig`) has 28 elements, the table's total count |
| Constants.InitialPrizesOccurrence | constants.ts:2-18 | each name occurs in `INITIAL_PRIZES` exactly as often as its row says |
| Constants.MochilaNine | constants.ts:7 | 'Mochila' occurs nine times in the initial pool |
| Constants.FlightTicketsFirst | constants.ts:3 | the initial pool starts with 'Billetes de Avión', which has one unit |
| Constants.InitialNumbersFacts | constants.ts:20-21 | the initial number pool is 901..997: 97 ascending, distinct numbers |
| Constants.UnprizedNumbers | constants.ts:17-21 | there are fewer prizes than tickets: 69 tickets win nothing |
| Sequencer.SourceGuard | App.tsx:34 | the negation of the handler's early-return test: both pools non-empty, neither phase spinning, no banner (definition; its relation to the button is `ButtonMirrorsGuard`) |
| Sequencer.CanTrigger | App.tsx:34 | the corrected guard: `SourceGuard` and no draw in flight (definition) |
| Sequencer.IsGameActive | App.tsx:137 | `isSpinningPrize || isSpinningNumber` (definition) |
| Sequencer.IsGameOver | App.tsx:138 | a pool is empty (definition; `ButtonMirrorsGuard` shows it disables the button and makes a click a no-op) |
| Sequencer.ButtonDisabled | App.tsx:206 | the button's `disabled` condition (definition; `ButtonMirrorsGuard` shows it is the negated guard) |
| Sequencer.StartDraw | App.tsx:36-48 | pools and history unchanged; display cleared, banner hidden, `isSpinningPrize` raised; `isSpinningNumber` and the pending hide timeouts kept; exactly one draw appended, capturing the current pools, in its first prize tick |
| Sequencer.TriggerAsWritten | App.tsx:34-48 | the program's click: it changes the state exactly when `SourceGuard` holds, never touches pools or history, and when admitted raises `isSpinningPrize` and adds one draw to those in flight |
| Sequencer.Trigger | App.tsx:34-48 | the corrected click: it changes the state exactly when `CanTrigger` holds, never touches pools or history, and when admitted raises `isSpinningPrize` with the new draw alone in flight |
| Sequencer.PrizeTick | App.tsx:48-61 | a prize firing changes only the displayed prize, the prize flag and its own draw; the prize shown is from the draw's snapshot; the firing that takes the counter past 20 lowers `isSpinningPrize` and moves the draw to its pause with the prize shown as final; earlier firings count one more tick |
| Sequencer.PauseElapsed | App.tsx:63-68 | the end of the pause changes only `isSpinningNumber`, now raised, and its own draw, now at number tick 0 with its final prize kept |
| Sequencer.NumberTick | App.tsx:70-112 | the number shown is from the draw's snapshot, and the displayed prize and `isSpinningPrize` are kept; the firing that takes the counter past 30 lowers `isSpinningNumber`, prepends the pair to the history, removes one unit of the prize and every copy of the number, shows the banner with one more hide pending and retires the draw; earlier firings change only the shown number and count one more tick, with no hide timeout added |
| Sequencer.HideBanner | App.tsx:112 | the banner is hidden, one hide timeout fewer is pending, nothing else changes |
| Sequencer.Reset | App.tsx:122-133 | configured pools, empty history, nothing displayed, no banner; the spinning flags, the draws in flight and the pending hide timeouts are kept |
| Sequencer.Commit | App.tsx:85-112 | exactly one winner, the committed pair, is prepended; one unit of the prize leaves the pool (none if absent); the number leaves the number pool; the banner shows with one more hide timeout; nothing else changes |
| Sequencer.PrizesWon | App.tsx:26 | one prize per history entry |
| Sequencer.NumbersDrawn | App.tsx:26 | the history's numbers, position by position |
| Sequencer.PrizeEvents | App.tsx:48 | the given number of prize-interval firings, with the given picks |
| Sequencer.NumberEvents | App.tsx:70 | the given number of number-interval firings, with the given picks |
| Sequencer.Zeros | App.tsx:49 | n picks of index 0, valid for any non-empty pool |
| Sequencer.SecondClickTrace | App.tsx:32-64 | a 24-event schedule: a click, 21 prize firings of draw 0 with pick 0, a click, the end of draw 0's pause |
| Sequencer.InitInv | App.tsx:13-28 | the mount-time state satisfies the invariant |
| Sequencer.InvNumberCounts | App.tsx:106 | under the invariant, each number is held at most once, by the pool or by the history |
| Sequencer.InvNumbersDistinct | App.tsx:106 | under the invariant, the number pool is duplicate-free, no number was committed twice, and no committed number is still in the pool |
| Sequencer.TriggerKeepsInv | App.tsx:32-42 | a click keeps the invariant (corrected guard) |
| Sequencer.PrizeTickKeepsInv | App.tsx:48-64 | a prize-interval firing keeps the invariant |
| Sequencer.PauseElapsedKeepsInv | App.tsx:63-70 | the end of the pause keeps the invariant |
| Sequencer.CommitConserves | App.tsx:92-106 | committing a present prize and a once-held number moves exactly one unit of each from the pools to the history |
| Sequencer.CommitKeepsInv | App.tsx:75-112 | the final number firing, with its commit, keeps the invariant |
| Sequencer.NumberTickKeepsInv | App.tsx:70-113 | every number-interval firing keeps the invariant |
| Sequencer.ResetKeepsInv | App.tsx:122-134 | a confirmed reset keeps the invariant, even with a draw in flight |
| Sequencer.NextKeepsInv | App.tsx:32-134 | every step keeps the invariant (corrected guard) |
| Sequencer.RunKeepsInv | App.tsx:32-134 | every state a run reaches keeps the invariant (corrected guard) |
| Sequencer.ReachableSafety | App.tsx:23-27 | in every state reachable under the corrected guard: the phases never spin at once; the banner only shows with a winner; pools plus history account for every configured prize and number; the committed numbers are distinct and none is back in the pool |
| Sequencer.ConfiguredFacts | App.tsx:13-18 | the configured pools have 28 prizes and 97 distinct numbers, and the mount-time state over them satisfies the invariant |
| Sequencer.ButtonMirrorsGuard | App.tsx:34 | the button is enabled exactly when the handler's guard lets a click through (App.tsx:138 and 206); a game over disables it and makes a click a no-op |
| Sequencer.TriggerEffect | App.tsx:34-46 | a click changes the state exactly when its guard admits it; an admitted one clears the display, raises `isSpinningPrize`, starts one draw over the current pools, and leaves pools and history alone |
| Sequencer.StepOrdering | App.tsx:42-112 | only an admitted click raises `isSpinningPrize`; only a pause's end raises `isSpinningNumber`, and never while the prize phase spins; only the number phase's final firing raises the banner, adding one winner; a hide timeout, a reset and an admitted click take the banner down (corrected guard) |
| Sequencer.ResetRestores | App.tsx:122-134 | a second reset changes nothing; with no draw in flight a reset gives the start-up state except that the hide timeouts still pending are kept: a reset within 8 s of a reveal leaves the App.tsx:112 timeout to fire |
| Sequencer.ResetKeepsDrawInFlight | App.tsx:122-134 | a reset does not stop a draw in flight: its snapshots, phase and spinning flag survive |
| Sequencer.PrizePhaseRun | App.tsx:44-64 | successive prize firings publish each pick and count it; the 21st of a fresh draw publishes the final pick, lowers `isSpinningPrize` and starts the pause |
| Sequencer.NumberPhaseRun | App.tsx:66-112 | successive number firings publish each pick and count it; the 31st publishes the final pick, lowers `isSpinningNumber`, retires the draw and commits its prize with that number |
| Sequencer.PrizeRunHead | App.tsx:48-53 | a run of prize firings begins with one `PrizeTick` |
| Sequencer.PrizeTickThenSet | App.tsx:48-53 | a non-final prize firing is undone by overwriting the displayed prize, the prize flag and the draw's phase: it touches nothing else |
| Sequencer.NumberRunHead | App.tsx:70-75 | a run of number firings begins with one `NumberTick` |
| Sequencer.NumberTickThenSet | App.tsx:70-75 | a non-final number firing is undone by overwriting the displayed number and the draws in flight: it touches nothing else |
| Sequencer.CommitEffect | App.tsx:79-112 | the commit adds exactly one winner: the draw's fixed prize, drawn from its prize snapshot, with a number from its number snapshot; one unit of that prize and exactly that number leave the pools; nothing is left in flight |
| Sequencer.RunAsWrittenAppend | App.tsx:32-134 | running a then b is running a + b (program's guard) |
| Sequencer.RunAppend | App.tsx:32-134 | running a then b is running a + b (corrected guard) |
| Sequencer.RunsAgreeWithoutClicks | App.tsx:34 | without clicks, the two guards give the same runs |
| Sequencer.FirstPrizePhase | App.tsx:32-64 | from an idle state, a click and 21 prize firings end in the pause, with the first prize fixed |
| Sequencer.PauseWindowAdmitsSecondDraw | App.tsx:34 | during the pause the draw is still in flight while the guard holds and the button is enabled; a second click then starts a second draw over the same snapshots, and when the pause ends both spinning flags are up |
| Sequencer.SecondClickState | App.tsx:32-64 | the whole state after the second click and the pause's end |
| Sequencer.FirstNumberPhase | App.tsx:66-112 | the first draw's 31 number firings then commit the first prize with the first number |
| Sequencer.SecondDrawRun | App.tsx:42-112 | a draw just triggered, run through its 21 prize firings, its pause and its 31 number firings, commits the first prize and first number of its snapshots and leaves nothing spinning or in flight |
| Sequencer.SecondDraw | App.tsx:32-112 | the second draw commits the same pair again: the history gains it twice, both removals apply and nothing stays in flight |
| Sequencer.DoubleAwardBreaksConservation | App.tsx:95-104 | when that prize had one unit, the pool loses one unit while the history gains two, so the invariant fails |
| Sequencer.DoubleAwardFromStart | App.tsx:13-112 | from start-up, with a single-unit first prize, the double award happens and leaves the prize pool one unit short |
| Sequencer.FlightTicketsAwardedTwice | App.tsx:34 | with the configured pools, 'Billetes de Avión' (one unit) goes twice with ticket 901, leaving 27 prizes for 2 awarded out of 28 |
| Sequencer.CorrectedGuardRejectsSecondClick | App.tsx:34 | with the corrected guard the second click is turned away: after the pause only the number phase spins, with the first draw alone in flight |
| App.Tombola.constructor | App.tsx:13-28 | the cells take their initial values: configured pools, nothing on display or in flight; the invariant holds |
| App.Tombola.HandleAutoSpin | App.tsx:32-46 | the cells become `Trigger` (corrected guard) of the old ones, and the invariant holds |
| App.Tombola.OnPrizeInterval | App.tsx:48-64 | the cells become `PrizeTick` of the old ones, and the invariant holds |
| App.Tombola.OnPauseTimeout | App.tsx:63-70 | the cells become `PauseElapsed` of the old ones, and the invariant holds |
| App.Tombola.OnNumberInterval | App.tsx:70-114 | the cells become `NumberTick` of the old ones, and the invariant holds |
| App.Tombola.FinishDraw | App.tsx:75-112 | the final number firing's updates give exactly `NumberTick` of the old cells |
| App.Tombola.OnHideTimeout | App.tsx:112 | the cells become `HideBanner` of the old ones, and the invariant holds |
| App.Tombola.HandleReset | App.tsx:122-134 | on confirmation the cells become `Reset` of the old ones; otherwise nothing changes; the invariant holds |
| App.Tombola.IsGameActive | App.tsx:137 | under the invariant, true exactly when a draw is in flight and not in its pause |
| App.Tombola.ButtonDisabled | App.tsx:206 | true exactly when the handler's guard would reject a click |

## Left out

- Rendering:
  - the JSX layout, `RaffleCard`, `WinnerBanner`, `HistoryList` and `InfoModal`, and their labels and icons;
  - the help dialog's `showInfo` cell.

  None of these affects the draw.
- Winner `id` (`Date.now()`) and `timestamp`: the clock is not modelled, so a winner is a prize and a number.
- The distribution of `Math.random`: picks are arbitrary valid indices, so nothing is claimed about fairness.
- Timer durations (80 ms, 500 ms, 60 ms, 8 s) and the resulting interleavings.
  - The model lets any pending callback fire next.
  - Every interleaving actual timing allows is therefore a run of the model, and the model also allows some that real timing would not.
- `useCallback` memoisation: the handler's closure is taken to see the cells as of the last render, which is what the dependency list provides.
- The intermediate states where the last firing of a phase publishes a random pick before the final one: the last prize firing (App.tsx:49-50, then 58-59) and the last number firing (App.tsx:71-72, then 80-81). In each, both updates are applied in one render, so only the final pick is ever on display.
- `SpinType` (types.ts) is declared, but the engine never uses it.
- Pools.FilterOut: its contract states membership and multiplicity, not order. Order is stated by `FilterOutDistinct` for the duplicate-free pools the engine keeps.
- App.Tombola.HandleAutoSpin: it implements the corrected guard `CanTrigger`, which adds "no draw in flight" to the test of App.tsx:34, so during the 500 ms pause it changes nothing where the program starts a second draw. The program's own guard is `Sequencer.TriggerAsWritten`; it is kept out of the class because it breaks `Inv` (`DoubleAwardBreaksConservation`).

## Findings

| source | as written | input that shows it | evidently intended | confidence | as-written member | corrected member |
|---|---|---|---|---|---|---|
| App.tsx:34 (with App.tsx:60-64 and App.tsx:206) | the guard tests the two spinning flags, the banner and the pools, but not whether a draw is in flight. In the 500 ms pause all of them are clear, the button is enabled, and a click starts a second draw over the same captured pools. Both flags are then up at once, the second draw can commit the same pair again, and a single-unit prize can be awarded twice while the pool loses it once | from start-up: a click, the 21 prize firings, a second click, then both draws to completion (`DoubleCommitTrace`) with pick 0 throughout. 'Billetes de Avión' goes twice with ticket 901, and 27 prizes remain for 2 awarded | no new draw starts while one is in flight | not executed | Sequencer.PauseWindowAdmitsSecondDraw, Sequencer.FlightTicketsAwardedTwice (over Sequencer.TriggerAsWritten) | Sequencer.CorrectedGuardRejectsSecondClick, Sequencer.ReachableSafety (over Sequencer.Trigger) |
