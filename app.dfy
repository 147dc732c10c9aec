/**
 * The top-level screen state machine of App.tsx: which screen is shown, the stats of the last
 * run, the settings overlay, and the armour skin, together with the handlers that change them
 * and the calls they make into the talent service.
 *
 * A handler runs only when the element that calls it is on screen; `Enabled` states which
 * rendered element calls which handler, and `Render` states the render guards.
 */
module AppShell {
  import opened Types
  import Talents
  import EngineTick

  datatype Screen = Start | Opening | Playing | GameOver | TalentScreen

  /** The handlers of App.tsx, named after the element that fires them. */
  datatype Event =
    | StartSequence          // the start button, and the summary's restart button
    | StartGame              // the opening animation's `onComplete`
    | RunEnded(stats: GameStats)  // the engine's `onGameOver`
    | OpenTalents            // the research button, and the summary's talents button
    | LeaveTalents           // the talent tree's `onBack`
    | ToggleSkin             // the armour skin button
    | OpenSettings           // the settings button
    | CloseSettings          // the settings overlay's `onClose`
    | ResetSave              // the settings overlay's `onResetSave`

  /** App's React state. */
  datatype Shell = Shell(screen: Screen, lastStats: Option<GameStats>, showSettings: bool, skin: SkinId)

  /** What the page renders: one flag per guarded element, and the stats the summary shows. */
  datatype View = View(startMenu: bool, opening: bool, engine: bool, summary: Option<GameStats>,
                       talentTree: bool, settings: bool)

  /** `toggleSkin`'s choice: DEFAULT → SPRING_FESTIVAL → LGBT → DEFAULT. */
  function NextSkin(s: SkinId): SkinId {
    if s == Default then SpringFestival
    else if s == SpringFestival then Lgbt
    else Default
  }

  /** Three toggles restore the skin, and fewer never do. */
  lemma SkinCycle(s: SkinId)
    ensures NextSkin(NextSkin(NextSkin(s))) == s
    ensures NextSkin(s) != s && NextSkin(NextSkin(s)) != s
  {
  }

  /** A fresh page: the start screen, no stats, no settings, the saved skin. */
  function Mount(saved: TalentState): Shell {
    Shell(Start, None, false, saved.currentSkin)
  }

  /** The render guards. */
  function Render(a: Shell): View {
    View(a.screen == Start, a.screen == Opening, a.screen == Playing,
         if a.screen == GameOver then a.lastStats else None,
         a.screen == TalentScreen, a.showSettings)
  }

  /**
   * A handler can fire only while the element that calls it is rendered; the settings overlay
   * covers the whole page, so the start menu's buttons are out of reach while it is open.
   */
  predicate Enabled(a: Shell, e: Event) {
    var v := Render(a);
    var menu := v.startMenu && !v.settings;
    match e
    case StartSequence => menu || v.summary.Some?
    case StartGame => v.opening
    case RunEnded(_) => v.engine
    case OpenTalents => menu || v.summary.Some?
    case LeaveTalents => v.talentTree
    case ToggleSkin => menu
    case OpenSettings => menu
    case CloseSettings => v.settings
    case ResetSave => v.settings
  }

  /** The effect of a handler on App's state; `ResetSave` reloads the page onto a fresh save. */
  function Apply(a: Shell, e: Event): Shell {
    match e
    case StartSequence => a.(screen := Opening)
    case StartGame => a.(screen := Playing, lastStats := None)
    case RunEnded(stats) => a.(lastStats := Some(stats), screen := GameOver)
    case OpenTalents => a.(screen := TalentScreen)
    case LeaveTalents => a.(screen := Start)
    case ToggleSkin => a.(skin := NextSkin(a.skin))
    case OpenSettings => a.(showSettings := true)
    case CloseSettings => a.(showSettings := false)
    case ResetSave => Mount(Talents.InitialState)
  }

  /** The screen moves the interface offers, an independent statement of the flow chart. */
  predicate Edge(from: Screen, to: Screen) {
    || from == to
    || (from == Start && (to == Opening || to == TalentScreen))
    || (from == Opening && to == Playing)
    || (from == Playing && to == GameOver)
    || (from == GameOver && (to == Opening || to == TalentScreen))
    || (from == TalentScreen && to == Start)
  }

  /** What holds of App's state between handlers: a summary always has stats, a run starts clean. */
  predicate ShellOk(a: Shell) {
    && (a.screen == GameOver ==> a.lastStats.Some?)
    && (a.screen == Playing ==> a.lastStats.None?)
    && (a.showSettings ==> a.screen == Start)
  }

  lemma MountOk(saved: TalentState)
    ensures ShellOk(Mount(saved)) && Render(Mount(saved)).startMenu
  {
  }

  /** Every handler the page can fire keeps the state consistent. */
  lemma ApplyKeepsOk(a: Shell, e: Event)
    requires ShellOk(a) && Enabled(a, e)
    ensures ShellOk(Apply(a, e))
  {
  }

  /** Every enabled handler moves along the flow chart. */
  lemma ApplyFollowsEdges(a: Shell, e: Event)
    requires ShellOk(a) && Enabled(a, e)
    ensures Edge(a.screen, Apply(a, e).screen)
  {
  }

  /**
   * PLAYING is entered only by `startGame`, from the opening animation, and with the previous
   * run's stats cleared.
   */
  lemma PlayingOnlyViaStartGame(a: Shell, e: Event)
    requires Enabled(a, e) && a.screen != Playing && Apply(a, e).screen == Playing
    ensures e == StartGame && a.screen == Opening && Apply(a, e).lastStats.None?
  {
  }

  /** `handleStartSequence` always enters OPENING; leaving the talent tree always enters START. */
  lemma FixedTargets(a: Shell)
    ensures Apply(a, StartSequence).screen == Opening
    ensures Apply(a, LeaveTalents).screen == Start
    ensures Apply(a, StartGame).screen == Playing
  {
  }

  /**
   * The summary is rendered exactly on the game-over screen (never skipped for missing stats,
   * given the state invariant), shows the stored stats, and exactly one screen is rendered.
   */
  lemma RenderGuards(a: Shell)
    requires ShellOk(a)
    ensures Render(a).summary.Some? <==> a.screen == GameOver
    ensures Render(a).summary.Some? ==> Render(a).summary == a.lastStats
    ensures var v := Render(a);
      (if v.startMenu then 1 else 0) + (if v.opening then 1 else 0) + (if v.engine then 1 else 0)
      + (if v.summary.Some? then 1 else 0) + (if v.talentTree then 1 else 0) == 1
  {
  }

  /** A session: the handlers in the order they fire, each from the state the previous left. */
  function Run(a: Shell, es: seq<Event>): Shell
    decreases |es|
  {
    if |es| == 0 then a else Run(Apply(a, es[0]), es[1..])
  }

  /** Whether every handler of the session was enabled when it fired. */
  predicate Legal(a: Shell, es: seq<Event>)
    decreases |es|
  {
    |es| == 0 || (Enabled(a, es[0]) && Legal(Apply(a, es[0]), es[1..]))
  }

  /** From a fresh page, any legal session leaves a consistent state. */
  lemma {:induction false} LegalRunsStayOk(a: Shell, es: seq<Event>)
    requires ShellOk(a) && Legal(a, es)
    ensures ShellOk(Run(a, es))
    decreases |es|
  {
    if |es| > 0 {
      ApplyKeepsOk(a, es[0]);
      LegalRunsStayOk(Apply(a, es[0]), es[1..]);
    }
  }

  /** Total fragments and cores in the reports of one engine frame. */
  function FragmentsIn(reports: seq<GameStats>): nat
    decreases |reports|
  {
    if |reports| == 0 then 0 else FragmentsIn(reports[..|reports| - 1]) + reports[|reports| - 1].fragmentsCollected
  }

  function CoresIn(reports: seq<GameStats>): nat
    decreases |reports|
  {
    if |reports| == 0 then 0 else CoresIn(reports[..|reports| - 1]) + reports[|reports| - 1].coresCollected
  }

  /** n identical reports carry n times their fragments and cores. */
  lemma {:induction false} RepeatedReports(reports: seq<GameStats>, s: GameStats)
    requires forall k :: 0 <= k < |reports| ==> reports[k] == s
    ensures FragmentsIn(reports) == |reports| * s.fragmentsCollected
    ensures CoresIn(reports) == |reports| * s.coresCollected
    decreases |reports|
  {
    if |reports| > 0 {
      RepeatedReports(reports[..|reports| - 1], s);
    }
  }

  class App {
    var screen: Screen
    var lastStats: Option<GameStats>
    var showSettings: bool
    var skin: SkinId
    /** The module-level `talentService` singleton. */
    const talents: Talents.TalentService

    function State(): Shell
      reads this
    {
      Shell(screen, lastStats, showSettings, skin)
    }

    /** Mounting App: the skin is read from the save. */
    constructor (service: Talents.TalentService)
      ensures State() == Mount(service.State()) && talents == service
    {
      screen := Start;
      lastStats := None;
      showSettings := false;
      skin := service.State().currentSkin;
      talents := service;
    }

    /**
     * `handleGameOver`: credit the counters as they stand, keep the stats object, show the
     * summary.
     */
    method HandleGameOver(stats: GameStats)
      modifies this, talents
      ensures State() == Apply(old(State()), RunEnded(stats))
      ensures talents.State().totalFragments == old(talents.State()).totalFragments + stats.fragmentsCollected
      ensures talents.State().totalCores == old(talents.State()).totalCores + stats.coresCollected
      ensures talents.State().levels == old(talents.State()).levels
      ensures talents.State().currentSkin == old(talents.State()).currentSkin
    {
      talents.AddCurrency(stats.fragmentsCollected, stats.coresCollected);
      lastStats := Some(stats);
      screen := GameOver;
    }

    /**
     * The App side of one engine frame that ends the game. `onGameOver` is called once per
     * meteorite inside the turret, and each call credits the counters as they stand at that
     * moment. The stats App keeps are the engine's own object, which the bullet, death and
     * fragment passes go on updating for the rest of the frame, so the summary shows the
     * counters as they stand at the end of the frame.
     */
    method HandleFrame(frame: EngineTick.TickResult)
      modifies this, talents
      ensures |frame.reports| == 0 ==> State() == old(State())
      ensures |frame.reports| > 0 ==> State() == Apply(old(State()), RunEnded(frame.world.stats))
      ensures |frame.reports| > 0 ==> lastStats == Some(frame.world.stats)
      ensures talents.State().totalFragments == old(talents.State()).totalFragments + FragmentsIn(frame.reports)
      ensures talents.State().totalCores == old(talents.State()).totalCores + CoresIn(frame.reports)
      ensures talents.State().levels == old(talents.State()).levels
    {
      var reports := frame.reports;
      var i := 0;
      while i < |reports|
        invariant 0 <= i <= |reports|
        invariant i == 0 ==> State() == old(State())
        invariant i > 0 ==> State() == Apply(old(State()), RunEnded(reports[i - 1]))
        invariant talents.State().totalFragments == old(talents.State()).totalFragments + FragmentsIn(reports[..i])
        invariant talents.State().totalCores == old(talents.State()).totalCores + CoresIn(reports[..i])
        invariant talents.State().levels == old(talents.State()).levels
      {
        assert reports[..i + 1][..i] == reports[..i];
        HandleGameOver(reports[i]);
        i := i + 1;
      }
      assert reports[..i] == reports;
      if i > 0 {
        // the rest of the frame has written into the object `lastStats` refers to
        lastStats := Some(frame.world.stats);
      }
    }

    /** `handleStartSequence` (the audio start-up is not modelled). */
    method HandleStartSequence()
      modifies this`screen
      ensures State() == Apply(old(State()), Event.StartSequence)
    {
      screen := Opening;
    }

    /** `startGame`. */
    method StartGame()
      modifies this`screen, this`lastStats
      ensures State() == Apply(old(State()), Event.StartGame)
    {
      screen := Playing;
      lastStats := None;
    }

    /** `toggleSkin`: the next skin, shown and saved. */
    method ToggleSkin()
      modifies this`skin, talents
      ensures State() == Apply(old(State()), Event.ToggleSkin)
      ensures talents.State().currentSkin == skin
      ensures talents.State().levels == old(talents.State()).levels
      ensures talents.State().totalFragments == old(talents.State()).totalFragments
      ensures talents.State().totalCores == old(talents.State()).totalCores
    {
      var nextSkin := Default;
      if skin == Default {
        nextSkin := SpringFestival;
      } else if skin == SpringFestival {
        nextSkin := Lgbt;
      } else {
        nextSkin := Default;
      }
      skin := nextSkin;
      talents.SetSkin(nextSkin);
    }

    /** The talent buttons of the start screen and the summary. */
    method OpenTalents()
      modifies this`screen
      ensures State() == Apply(old(State()), Event.OpenTalents)
    {
      screen := TalentScreen;
    }

    /** The talent tree's `onBack`. */
    method LeaveTalents()
      modifies this`screen
      ensures State() == Apply(old(State()), Event.LeaveTalents)
    {
      screen := Start;
    }

    method OpenSettings()
      modifies this`showSettings
      ensures State() == Apply(old(State()), Event.OpenSettings)
    {
      showSettings := true;
    }

    method CloseSettings()
      modifies this`showSettings
      ensures State() == Apply(old(State()), Event.CloseSettings)
    {
      showSettings := false;
    }

    /** `handleResetSave`: forget the save, then reload, which mounts App afresh on the empty save. */
    method HandleResetSave()
      modifies this, talents
      ensures State() == Apply(old(State()), Event.ResetSave)
      ensures talents.stored == Talents.Absent && talents.State() == Talents.InitialState
    {
      var _ := talents.ResetState();
      screen := Start;
      lastStats := None;
      showSettings := false;
      skin := talents.State().currentSkin;
    }
  }
}
