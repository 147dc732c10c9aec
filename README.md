# Stellar Sentinel rule layer in Dafny

A verified model of the rules of a browser arcade game. A turret at the centre of the screen
shoots meteorites that fly in from off screen. Destroyed meteorites drop energy fragments, which
the player pulls in with the pointer. Collecting enough fragments opens a card overlay, where the
player picks a perk. After 30 seconds a boss appears. The run ends when a meteorite reaches the
turret. The currency collected in a run buys permanent talents.

The model covers five parts of the program:

- **Difficulty** (`difficulty.dfy`, module `Difficulty`): the spawn interval, with its 350 ms
  floor, and the radius of the spawn circle.
- **Talents** (`talent_service.dfy`, module `Talents`): the talent table, loading the save
  field by field with fallbacks, saving, the purchase rule, currency and skin updates, and the
  bonus map. The service is a class whose field `stored` stands for the browser's save entry.
- **Cards** (`card_selection.dfy`, module `Cards`): which three perks the level-up overlay
  offers, and its two-click pick-then-confirm rule (class `CardSelection`).
- **The engine**, in five modules:
  - `EngineState`: the state of one session as a `World` value, and the invariant that holds
    between frames.
  - `EngineActions`: firing a volley and applying a perk, as functions.
  - `EngineTick`: one animation frame as the function `Tick`, pass by pass, in the order of
    the source.
  - `EngineLaws` and `FrameLaws`: what the passes and whole frames guarantee.
  - `GameEngine.Engine`: a class with one field per mutable ref of the component. Its methods
    work with loops, as the source does. Each method is proved to leave the fields exactly as
    the corresponding function says, so every law about `Tick`, `FireBullet` and `SelectPerk`
    also holds of the object.
- **App** (`app.dfy`, module `AppShell`): the screen state machine START → OPENING → PLAYING
  → GAMEOVER / TALENTS, the settings overlay, the three-skin cycle and the calls into the talent
  service. Class `App` holds the React state.

Parts of the program that Dafny cannot express are passed in as parameters:

- trigonometry, square roots, `atan2` and `Math.pow(x, 1.5)` are the function fields of a
  `Physics` value. `ValidPhysics` and `Euclidean` state the only facts about them the proofs
  use;
- every `Math.random()` draw of a frame is a field of a `Dice` value;
- the random shuffle of the card overlay is any permutation of the eligible perks.

Object identity of meteorites, which homing bullets rely on, is modelled by a unique id per
meteorite.

When several meteorites reach the turret in the same frame, the breach loop keeps running after
it has ended the game. It calls `onGameOver` once for each such meteorite, always with the same
stats object, and each call credits the run's fragments and cores, so a two-breach frame credits
them twice. The stats object is the engine's own: the bullet, death and fragment passes of the
same frame go on updating it after the calls, and the summary shows it as it stands at the end
of the frame. The summary can therefore show more fragments, cores, kills and damage than were
credited. The model follows the code:

- `Tick` returns one report per breaching meteorite (`FrameLaws.TickReports`);
- `AppShell.App.HandleFrame` credits each of them and keeps the end-of-frame stats for the
  summary;
- `FrameLaws.SummaryCoversReports` shows that those stats are at least what each report
  carried;
- `AppShell.RepeatedReports` gives the total credited.

Likewise the `fragmentBonus` talent is computed by the talent service but never read by the
engine: a normal meteorite always drops 4 fragments.

## Model

| member | source | states |
|---|---|---|
| Difficulty.SpawnInterval | services/DifficultyService.ts:15-22 | the spawn interval is never below the 350 ms floor |
| Difficulty.TimeFactorMonotone | services/DifficultyService.ts:17 | the time factor starts at 1 or more and strictly grows with survival time |
| Difficulty.SpawnIntervalNonIncreasingInTime | services/DifficultyService.ts:15-22 | a later survival time never gives a longer interval |
| Difficulty.SpawnIntervalDecreasesAboveFloor | services/DifficultyService.ts:15-22 | above the floor, a later survival time gives a strictly shorter interval |
| Difficulty.SpawnIntervalAtStart | services/DifficultyService.ts:15-22 | at time 0 the interval is max(350, 4500 / ((1 + spawnBoost) · perkMult)) |
| Difficulty.SpawnIntervalNonIncreasingInBoost | services/DifficultyService.ts:18-21 | a larger talent spawn boost never lengthens the interval |
| Difficulty.SpawnIntervalNonIncreasingInPerk | services/DifficultyService.ts:21 | a larger perk multiplier never lengthens the interval |
| Difficulty.SpawnCircleOffScreen | services/DifficultyService.ts:30-33 | the spawn radius is half the diagonal plus 150, and every point of the canvas lies strictly inside the spawn circle |
| Talents.FindNode | services/talentService.ts:82 | the node found carries the id and is in the table; none is found only when no node carries it |
| Talents.EveryTalentHasNode | services/talentService.ts:6-13 | every talent id has a node, so the unknown-id refusal cannot happen |
| Talents.GetState | services/talentService.ts:30-47 | a missing or unparsable save gives the initial state; otherwise each field falls back on its own (levels merged over zeros, totals to 0, skin to DEFAULT, a falsy version to 1) |
| Talents.SaveThenLoad | services/talentService.ts:49-59 | loading what was saved gives the state back, stamped with version 1 |
| Talents.Upgrade | services/talentService.ts:80-91 | a purchase succeeds exactly when the level is below max, the prerequisite is at least 1 and the fragments cover costPerLevel · (level + 1); it then pays exactly that, raises only that level by 1, and leaves cores and skin unchanged |
| Talents.UpgradeKeepsWithinMax | services/talentService.ts:83 | a purchase never takes a level above its node's maximum |
| Talents.UpgradesStayWithinBounds | services/talentService.ts:80-91 | over any sequence of purchase attempts, levels stay within their maxima and the balance stays non-negative |
| Talents.UpgradesOnlySpend | services/talentService.ts:80-91 | over any sequence of purchase attempts the balance never rises, levels never fall, and cores and skin do not change |
| Talents.BonusesLinear | services/talentService.ts:93-103 | each bonus is its talent's level times a fixed step (150, 2, 0.2, 1, 1.5, 20), so it is never negative |
| Talents.PurchaseRaisesOneBonus | services/talentService.ts:93-103 | a successful purchase raises its own bonus by one step and changes no other bonus |
| Talents.TalentService.SetSkin | services/talentService.ts:61-65 | the save now holds the new skin; levels and totals are unchanged |
| Talents.TalentService.ResetState | services/talentService.ts:67-71 | the save is gone and the initial state is returned |
| Talents.TalentService.AddCurrency | services/talentService.ts:73-78 | the totals rise by exactly the given fragments and cores; levels and skin are unchanged |
| Talents.TalentService.UpgradeTalent | services/talentService.ts:80-91 | the result is true exactly when the purchase rule allows it; on success the saved state is the purchased one, on refusal the save is untouched |
| Cards.KeepMembers | components/CardSelectionOverlay.tsx:26-27 | the filter keeps exactly the perks that are not owned one-time perks, and adds no repeats |
| Cards.EligibleExplicit | components/CardSelectionOverlay.tsx:26-27 | the pool is the four stacking perks plus each one-time perk not yet owned, in table order |
| Cards.EligibleLength | components/CardSelectionOverlay.tsx:26-27 | at least four perks are always eligible |
| Cards.EligiblePool | components/CardSelectionOverlay.tsx:25-28 | the pool has no repeats, holds exactly the table perks other than owned one-time perks, and always holds the four stacking perks |
| Cards.ShuffledPool | components/CardSelectionOverlay.tsx:28 | any shuffle of the pool has no repeats and holds only pool perks |
| Cards.PoolPrefix | components/CardSelectionOverlay.tsx:28 | the first three cards of a shuffle are three distinct pool perks |
| Cards.Offer | components/CardSelectionOverlay.tsx:25-29 | the overlay offers exactly three distinct perks, none of them an owned one-time perk |
| Cards.CardSelection.constructor | components/CardSelectionOverlay.tsx:22-29 | the overlay mounts with its offer and no pending card |
| Cards.CardSelection.HandleCardClick | components/CardSelectionOverlay.tsx:31-38 | a click on the pending card selects it; a click on any other card only makes it the pending card |
| Cards.CardSelection.ConfirmClick | components/CardSelectionOverlay.tsx:100-107 | a confirm button selects its card exactly when that card is pending |
| EngineState.InitialOk | components/GameEngine.tsx:51-99 | a freshly mounted engine satisfies the engine invariant and is running with no overlay |
| EngineActions.ShotCooldown | components/GameEngine.tsx:196-197 | the fire cooldown is never below 200 ms |
| EngineActions.FireRefused | components/GameEngine.tsx:193-199 | a click while the game is ended or paused, or within the cooldown, changes nothing |
| EngineActions.FireAdmitted | components/GameEngine.tsx:199-223 | an admitted click appends bulletsPerShot fresh bullets at the centre with the perk flags, counts them and stamps the fire time; nothing else changes |
| EngineActions.NoDoubleShot | components/GameEngine.tsx:197-223 | straight after an admitted shot a second click does not fire |
| EngineActions.ShotsSpaced | components/GameEngine.tsx:197-199 | an admitted shot comes at least 200 ms after the previous one |
| EngineActions.TwoCooldownCards | components/GameEngine.tsx:197 | a worked example of the cooldown law: without talents, two REDUCE_COOLDOWN cards give a 640 ms cooldown and none gives 1000 ms |
| EngineActions.WithPerkEffect | components/GameEngine.tsx:481-488 | each card changes exactly its own perk field by its step (+1 bullet, ×0.8 cooldown, +5 damage, +0.5 spawn rate), and a one-time card raises its flag and is recorded |
| EngineActions.WithPerkKeepsOkWhenNew | components/GameEngine.tsx:481-488 | a stacking card, or a one-time card not yet owned, keeps the perk record consistent |
| EngineActions.WithPerkKeepsOk | components/GameEngine.tsx:481-490 | any card the overlay can offer keeps the perk record consistent |
| EngineActions.OfferedOneTimerIsNew | components/GameEngine.tsx:485-490 | a one-time card on offer is one whose flag is still down |
| EngineActions.SelectNewPerkKeepsInv | components/GameEngine.tsx:481-489 | picking a card that is not an owned one-time perk keeps the engine invariant and closes the overlay |
| EngineActions.SelectPerkKeepsInv | components/GameEngine.tsx:481-490 | picking an offered card keeps the engine invariant and closes the overlay |
| EngineActions.FireKeepsInv | components/GameEngine.tsx:193-227 | firing keeps the engine invariant |
| EngineTick.BreachCount | components/GameEngine.tsx:299-301 | the number of meteorites inside the turret is 0 exactly when none is inside |
| EngineTick.Nearest | components/GameEngine.tsx:311-318 | the homing scan returns a live meteorite at least distance, the first such in list order, and none exactly when no meteorite is alive |
| EngineTick.IndexOfId | components/GameEngine.tsx:310 | the target lookup finds the first meteorite with the id, and none exactly when no meteorite has it |
| EngineTick.FirstHit | components/GameEngine.tsx:336-347 | the hit test returns the first live meteorite that strictly overlaps the bullet, and none exactly when none overlaps |
| EngineTick.Alive | components/GameEngine.tsx:361 | the filter keeps exactly the meteorites above 0 hp |
| EngineLaws.PausedTick | components/GameEngine.tsx:230-233 | a paused or ended game only records the timestamp and reports nothing |
| EngineLaws.FirstFrameTakesNoTime | components/GameEngine.tsx:234-237 | the first frame, with no timestamp recorded, advances neither clock |
| EngineLaws.IncomingOffScreen | components/GameEngine.tsx:256-257 | a spawned meteorite starts strictly outside the canvas, half the diagonal plus 150 from the centre |
| EngineLaws.SpawnStepEffect | components/GameEngine.tsx:254-268 | the normal spawn adds at most one meteorite (10 hp, radius 14 to 38, new id, not a boss), the first at 300 ms and later ones at least the spawn interval, hence 350 ms, apart |
| EngineLaws.BossStepEffect | components/GameEngine.tsx:271-285 | the boss (200 hp, radius 65) is added exactly when survival time has reached 30 s and no boss has come yet |
| EngineLaws.ClockOk | components/GameEngine.tsx:234-245 | the clock step never turns time back and keeps the invariant as far as the boss step |
| EngineLaws.SpawnStepOk | components/GameEngine.tsx:254-268 | the normal spawn keeps that invariant |
| EngineLaws.BossStepOk | components/GameEngine.tsx:271-285 | after the boss step the full invariant holds again |
| EngineLaws.SpawnedOk | components/GameEngine.tsx:234-285 | after the clock and the spawns the invariant holds, and the old meteorites form a prefix of the new list |
| EngineLaws.SpawnedFrame | components/GameEngine.tsx:234-285 | the spawn stages change only the clock, aim, spawn bookkeeping and meteorite list |
| EngineLaws.AdvanceWears | components/GameEngine.tsx:293-298 | a meteorite's frame costs 0.006 hp per ms exactly while it burns, loses nothing otherwise, and keeps its identity |
| EngineLaws.MeteoritePassShape | components/GameEngine.tsx:293-302 | the meteorite pass changes only the meteorites and the game-over flag, and keeps each meteorite's identity |
| EngineLaws.BreachEndsGame | components/GameEngine.tsx:299-301 | after the meteorite pass the game goes on exactly when no meteorite is inside the turret |
| EngineLaws.HomingTargetsLive | components/GameEngine.tsx:308-320 | after its homing step a bullet's target, if any, is a live meteorite of the list |
| EngineLaws.HomingRescans | components/GameEngine.tsx:309-320 | a homing bullet rescans when it has no target, its target is dead or its cooldown has run out, takes the nearest live meteorite and waits 150 ms; otherwise it keeps its target |
| EngineLaws.PlainBulletsFlyStraight | components/GameEngine.tsx:308 | a bullet without the homing perk ignores the meteorites |
| EngineLaws.BulletStepHitsOnce | components/GameEngine.tsx:334-348 | a bullet hits at most one meteorite, the first live overlapping one, which alone loses the damage, and is then spent; a bullet that misses changes nothing and stays exactly while within range |
| EngineLaws.StruckStatus | components/GameEngine.tsx:340-343 | a hit flashes the meteorite for 120 ms; ice slows it for 2 s, fire burns it for 3 s |
| EngineLaws.BulletFoldShape | components/GameEngine.tsx:304-349 | over the whole bullet pass no meteorite gains hp or changes identity, and damage only accumulates |
| EngineLaws.BulletPassShape | components/GameEngine.tsx:304-349 | the bullet pass changes only the bullets, the meteorites and the damage total |
| EngineLaws.DropsOf | components/GameEngine.tsx:355-357 | a normal meteorite drops 4 fragments; the boss drops 20 and then a core of radius 10 |
| EngineLaws.DeathFoldEffect | components/GameEngine.tsx:351-359 | the payout marks exactly the dying meteorites, counts each once, leaves their drops, and records a boss kill exactly when a boss dies |
| EngineLaws.DeathFoldMarks | components/GameEngine.tsx:352-353 | the payout appends every meteorite, marked when it dies |
| EngineLaws.DeathFoldCounts | components/GameEngine.tsx:353-357 | the payout adds one kill and the drops for each dying meteorite |
| EngineLaws.DeathFoldBoss | components/GameEngine.tsx:357 | a boss kill is recorded exactly when a dying boss is in the pass or one was recorded before |
| EngineLaws.MarkedNeverDies | components/GameEngine.tsx:352-353 | a marked meteorite is never paid out again |
| EngineLaws.NothingDiesTwice | components/GameEngine.tsx:351-359 | a payout over meteorites of which none is dying pays nothing |
| EngineLaws.AliveKeepsIdsApart | components/GameEngine.tsx:361 | removing the dead keeps ids distinct |
| EngineLaws.AliveOfMarked | components/GameEngine.tsx:361 | what survives the payout and the removal is live, unpaid and from the old list |
| EngineLaws.DeathPassOk | components/GameEngine.tsx:351-361 | after the death pass every meteorite is alive and unpaid, with distinct ids |
| EngineLaws.DeathPassFrame | components/GameEngine.tsx:351-361 | the death pass changes only meteorites, fragments, the kill count and the boss flag |
| EngineLaws.NextThresholdGrows | components/GameEngine.tsx:375 | floor(1.5·t) + 3 equals t + floor(t / 2) + 3, so it is at least t + 3 |
| EngineLaws.FragStepEffect | components/GameEngine.tsx:363-381 | a drifting fragment is caught exactly within the magnet range; a fragment on its way is collected within TURRET_RADIUS + 5; a core counts only as a core; a fragment counts once and advances the progress; at the threshold the progress resets to 0, the threshold becomes floor(1.5·t) + 3 and the overlay opens |
| EngineLaws.FragFoldProgress | components/GameEngine.tsx:373-376 | over the fragment pass 0 ≤ progress < threshold and threshold ≥ 5 hold, the threshold and both counters never fall, and a raised threshold means the overlay is open |
| EngineLaws.FragmentPassOk | components/GameEngine.tsx:362-382 | the fragment pass keeps the level-up bookkeeping, never lowers the counters, opens the overlay whenever the threshold rises, and changes only fragments, counters and level-up fields |
| FrameLaws.TickActive | components/GameEngine.tsx:229-385 | a running frame is spawns, meteorite pass, bullet pass, death pass and fragment pass in that order, with one report per breach |
| FrameLaws.TickKeepsInv | components/GameEngine.tsx:229-385 | every frame keeps the engine invariant, so no meteorite at or below 0 hp survives a frame |
| FrameLaws.TickReports | components/GameEngine.tsx:299-301 | a frame reports once per meteorite inside the turret, always with the stats as they stood at the start of the frame, and the game goes on exactly when nothing is reported |
| FrameLaws.SummaryCoversReports | components/GameEngine.tsx:299-379 | after a frame that calls onGameOver, the engine's stats hold at least the fragments, cores, kills and damage each call carried, and the same shot count |
| FrameLaws.LaterStagesCount | components/GameEngine.tsx:304-379 | the bullet, death and fragment passes only add to the counters |
| FrameLaws.GameOverIsFinal | components/GameEngine.tsx:230-233 | after a frame that ends the game, no later frame reports again |
| FrameLaws.BossFlagSticks | components/GameEngine.tsx:271-285 | the boss flag is never cleared, and after every frame it is set exactly when survival time has reached 30 s |
| FrameLaws.EarlyStagesAddNoBoss | components/GameEngine.tsx:271-285 | once the boss flag is set, the spawns bring no new boss |
| FrameLaws.LaterStagesAddNoBoss | components/GameEngine.tsx:293-361 | the passes after the spawns create no boss |
| FrameLaws.BossOnlyOnce | components/GameEngine.tsx:271-285 | once the boss has come, every boss in play is one that already existed |
| GameEngine.ServiceBonusesOk | components/GameEngine.tsx:46 | the bonuses read from the talent service at mount are never negative |
| GameEngine.Engine.constructor | components/GameEngine.tsx:43-99 | a mounted engine holds the initial state with the service's bonuses, and satisfies the invariant |
| GameEngine.Engine.FireBullet | components/GameEngine.tsx:193-227 | the object ends in the state EngineActions.FireBullet gives, and keeps the invariant |
| GameEngine.Engine.PushVolley | components/GameEngine.tsx:207-222 | the loop appends the volley of bulletsPerShot bullets and counts each one |
| GameEngine.Engine.SelectPerk | components/GameEngine.tsx:481-489 | the object ends in the state EngineActions.SelectPerk gives, with the overlay closed |
| GameEngine.Engine.ApplyPerk | components/GameEngine.tsx:482-488 | the perk record becomes EngineActions.WithPerk of the old one |
| GameEngine.Engine.Update | components/GameEngine.tsx:229-385 | the object ends in the state Tick gives, returns Tick's reports, and keeps the invariant |
| GameEngine.Engine.RunClock | components/GameEngine.tsx:234-245 | the clock, timestamp and aim step, returning the frame's delta |
| GameEngine.Engine.SpawnNormal | components/GameEngine.tsx:254-268 | the normal spawn leaves the spawn fields as SpawnStep gives |
| GameEngine.Engine.SpawnBoss | components/GameEngine.tsx:271-285 | the boss spawn leaves the boss fields as BossStep gives |
| GameEngine.Engine.AdvanceMeteorites | components/GameEngine.tsx:293-302 | every meteorite runs its frame, the game ends exactly on a breach, and one report of the current stats is made per breach |
| GameEngine.Engine.NearestLive | components/GameEngine.tsx:311-318 | the scan loop returns the nearest live meteorite, ties going to the first |
| GameEngine.Engine.Home | components/GameEngine.tsx:308-332 | the homing block of the bullet filter is HomingStep |
| GameEngine.Engine.FindHit | components/GameEngine.tsx:336-347 | the hit loop stops at the first live overlapping meteorite |
| GameEngine.Engine.StepBullet | components/GameEngine.tsx:305-348 | one bullet of the filter updates the kept bullets, meteorites and damage total as BulletStep gives |
| GameEngine.Engine.FlyBullets | components/GameEngine.tsx:304-349 | the bullet filter loop leaves bullets, meteorites and damage total as the bullet fold gives |
| GameEngine.Engine.ScatterShards | components/GameEngine.tsx:355-356 | the dying meteorite's fragments are appended in order |
| GameEngine.Engine.PayOut | components/GameEngine.tsx:352-358 | a dying meteorite is marked, counted and pays its drops (and the core for the boss); any other changes nothing |
| GameEngine.Engine.PayOutDeaths | components/GameEngine.tsx:351-359 | the payout loop leaves meteorites, fragments, kill count and boss flag as the death fold gives |
| GameEngine.Engine.LiveOnes | components/GameEngine.tsx:361 | the removal loop keeps exactly the live meteorites, in order |
| GameEngine.Engine.StepFragment | components/GameEngine.tsx:363-381 | one fragment of the filter updates the counters, progress, threshold and overlay flag as FragStep gives |
| GameEngine.Engine.CollectFragments | components/GameEngine.tsx:362-382 | the fragment filter loop leaves fragments, counters and level-up fields as the fragment fold gives |
| AppShell.SkinCycle | App.tsx:39-47 | three skin toggles restore the skin, and one or two never do |
| AppShell.MountOk | App.tsx:15-18 | a fresh page shows the start menu and is consistent |
| AppShell.ApplyKeepsOk | App.tsx:23-52 | every handler that can fire keeps the App state consistent: the summary always has stats, a run starts with none |
| AppShell.ApplyFollowsEdges | App.tsx:23-52 | every handler that can fire moves the screen along the flow chart START→OPENING→PLAYING→GAMEOVER, START/GAMEOVER→TALENTS→START, GAMEOVER→OPENING |
| AppShell.PlayingOnlyViaStartGame | App.tsx:34-37 | PLAYING is entered only by startGame from OPENING, with the last stats cleared |
| AppShell.FixedTargets | App.tsx:29-37 | the start sequence always enters OPENING, startGame always enters PLAYING, leaving the talents always enters START |
| AppShell.RenderGuards | App.tsx:171-174 | the summary is shown exactly on the game-over screen, with the stored stats, and exactly one screen is rendered |
| AppShell.LegalRunsStayOk | App.tsx:23-52 | any sequence of handlers, each fired while its element is on screen, keeps the App state consistent |
| AppShell.RepeatedReports | App.tsx:23-27 | n identical game-over reports carry n times the run's fragments and cores |
| AppShell.App.constructor | App.tsx:15-18 | a mounted App is on the start screen with the saved skin |
| AppShell.App.HandleGameOver | App.tsx:23-27 | the talent service is credited exactly the fragments and cores the stats hold at the call, the stats are kept and the summary is shown |
| AppShell.App.HandleFrame | App.tsx:23-27 | each onGameOver call of a frame is credited, so the total credited is the sum over the reports; after a reporting frame the summary holds the stats as they stand at the end of the frame |
| AppShell.App.HandleStartSequence | App.tsx:29-32 | the screen becomes OPENING |
| AppShell.App.StartGame | App.tsx:34-37 | the screen becomes PLAYING and the last stats are cleared |
| AppShell.App.ToggleSkin | App.tsx:39-47 | the next skin in the cycle is shown and saved, and the rest of the save is unchanged |
| AppShell.App.OpenTalents | App.tsx:155 | the screen becomes TALENTS |
| AppShell.App.LeaveTalents | App.tsx:174 | the screen becomes START |
| AppShell.App.OpenSettings | App.tsx:165 | the settings overlay opens |
| AppShell.App.CloseSettings | App.tsx:71 | the settings overlay closes |
| AppShell.App.HandleResetSave | App.tsx:49-52 | the save is removed and the page comes back as freshly mounted on the empty save |

## Left out

- Trigonometry, square roots, `atan2` and `Math.pow`: Dafny's reals have no such operations.
  They are the oracles of `Physics`, and `Euclidean` states the geometry `IncomingOffScreen`
  needs. The turret breach `sqrt(d²) < 29` is stated as `d² < 29²`, which is the same test.
- `Math.random()`: every draw of a frame is a field of `Dice`, and the card shuffle is any
  permutation. Card shuffling therefore makes no claim about the distribution.
- IEEE double rounding: all arithmetic is on exact reals and unbounded integers.
- Rendering and everything that only feeds it:
  - the `draw` function;
  - visual effects and the particle list;
  - bullet trails;
  - meteorite rotation, vertices and craters;
  - turret flash and recoil, screen shake;
  - theme colours;
  - the HUD state set at the end of `update`.
- Audio (`audioManager`), including its start-up in `handleStartSequence`.
- The boss warning banner and its 4-second `setTimeout`.
- `requestAnimationFrame` and the window listeners: each call of `Update` or `FireBullet` is
  one callback.
- The null-canvas early return of `fireBullet`: the canvas size is a parameter, so a canvas is
  always there.
- `localStorage` and JSON: the save is the abstract value `Stored`.
  - The `lastUpdated` clock reading is not saved.
  - The legacy key removed by `resetState` is not modelled.
  - Reloading the page after a reset is modelled as mounting App afresh on the empty save.
- Talents.GetState: saved levels are natural numbers. A hand-edited save with negative or
  non-numeric levels is not modelled.
- AppShell.App.HandleFrame: the stats App keeps are modelled as a value that is replaced by
  the end-of-frame stats once the frame's calls are done, not as a shared object. Writes to that
  object by later frames are not modelled; the engine is no longer rendered on the summary
  screen.
- Cards.CardSelection.ConfirmClick: only pointer clicks are modelled. The hidden confirm
  button of a card that is not pending ignores the pointer, but keyboard activation of it is not
  modelled.
- GameEngine.Engine.Update: requires that animation timestamps never decrease (`Monotone`), as
  `requestAnimationFrame` guarantees.
- GameEngine.Engine.SelectPerk: promises the engine invariant only when the card is not an
  owned one-time perk. The overlay never offers such a card (`Cards.Offer`, connected by
  `EngineActions.SelectPerkKeepsInv`).
- AppShell.Enabled: while the settings overlay is open, the start menu's buttons count as
  unreachable, because the overlay covers the whole page.
- The Gemini service, the bundled `public/index.js`, `main.js`, and the presentational
  components are not part of this model.
