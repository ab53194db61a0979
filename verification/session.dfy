/**
 * The game controller's state as a value, and each of its operations as a function
 * from the state before to the state after. The `Controller` module's `Game` class
 * performs the same operations in place; the lemmas here are about sequences of them.
 */
module Session {
  import opened Wrappers
  import Strings
  import Typewriter
  import Dialog

  /** The elements of the `screens` object, one per key. */
  datatype Screen =
    | IntroScreen | StartScreen | NameScreen | RoomScreen | DialogScreen
    | SadEndingScreen | HappyEndingScreen | GregoryScreen | BonusScene

  /** The screens in the `screens` object's key order. */
  const ScreenOrder: seq<Screen> :=
    [IntroScreen, StartScreen, NameScreen, RoomScreen, DialogScreen,
     SadEndingScreen, HappyEndingScreen, GregoryScreen, BonusScene]

  /** Every screen is visited by the loops over the `screens` object. */
  lemma ScreenOrderComplete()
    ensures forall sc :: sc in ScreenOrder
  {
    forall sc: Screen ensures sc in ScreenOrder {
      match sc
      case IntroScreen => assert ScreenOrder[0] == sc;
      case StartScreen => assert ScreenOrder[1] == sc;
      case NameScreen => assert ScreenOrder[2] == sc;
      case RoomScreen => assert ScreenOrder[3] == sc;
      case DialogScreen => assert ScreenOrder[4] == sc;
      case SadEndingScreen => assert ScreenOrder[5] == sc;
      case HappyEndingScreen => assert ScreenOrder[6] == sc;
      case GregoryScreen => assert ScreenOrder[7] == sc;
      case BonusScene => assert ScreenOrder[8] == sc;
    }
  }

  /** The key each screen is stored under. */
  function KeyOf(sc: Screen): string {
    match sc
    case IntroScreen => "intro"
    case StartScreen => "start"
    case NameScreen => "name"
    case RoomScreen => "room"
    case DialogScreen => "dialog"
    case SadEndingScreen => "sadEnding"
    case HappyEndingScreen => "happyEnding"
    case GregoryScreen => "gregory"
    case BonusScene => "bonusScene"
  }

  /** `screens[name]`: the screen stored under a key, if there is one. */
  function ScreenNamed(name: string): Option<Screen> {
    if name == "intro" then Some(IntroScreen)
    else if name == "start" then Some(StartScreen)
    else if name == "name" then Some(NameScreen)
    else if name == "room" then Some(RoomScreen)
    else if name == "dialog" then Some(DialogScreen)
    else if name == "sadEnding" then Some(SadEndingScreen)
    else if name == "happyEnding" then Some(HappyEndingScreen)
    else if name == "gregory" then Some(GregoryScreen)
    else if name == "bonusScene" then Some(BonusScene)
    else None
  }

  /** The question the choice modal asks. */
  function ChoiceQuestion(playerName: string): (q: string)
    ensures |playerName| <= |q| && q[..|playerName|] == playerName
  {
    playerName + ", will you be my Valentine?"
  }

  /** The screens carrying the `active` class: at most one shows at a time. */
  predicate AtMostOneActive(active: set<Screen>) {
    forall a, b :: a in active && b in active ==> a == b
  }

  /**
   * `gameState`, `currentDialogIndex`, `dialogMode`, the set of screens whose element
   * has the `active` class, the dialog text element and the choice modal.
   */
  datatype State = State(
    playerName: string,
    currentScreen: Screen,
    dialogStep: int,
    gregoryFound: bool,
    dialogIndex: nat,
    mode: Dialog.Mode,
    active: set<Screen>,
    dialogText: string,
    choiceModal: bool,
    choiceQuestion: string)

  /** What every operation keeps: one screen active at most, the dialog index within its script. */
  ghost predicate Inv(s: State) {
    && AtMostOneActive(s.active)
    && s.dialogIndex <= Dialog.Length(s.mode)
  }

  /** The state the script's top-level declarations create (no screen active yet). */
  function InitialState(): (s: State)
    ensures Inv(s) && s.active == {} && s.currentScreen == StartScreen
  {
    State("", StartScreen, 0, false, 0, Dialog.Initial, {}, "", false, "")
  }

  /** `switchScreen` called with the key of a screen: that screen alone shows and becomes current. */
  function SwitchTo(s: State, sc: Screen): (r: State)
    ensures r.active == {sc} && r.currentScreen == sc
    ensures r == s.(active := r.active, currentScreen := r.currentScreen)
    ensures Inv(s) ==> Inv(r)
  {
    s.(active := {sc}, currentScreen := sc)
  }

  /**
   * `switchScreen` with any key: every screen is hidden; a key of the `screens` object
   * shows its screen and makes it current, any other key leaves none showing and the
   * current screen as it was.
   */
  function SwitchScreen(s: State, name: string): (r: State)
    ensures AtMostOneActive(r.active)
    ensures ScreenNamed(name).Some? ==> r.active == {ScreenNamed(name).value} && r.currentScreen == ScreenNamed(name).value
    ensures ScreenNamed(name).None? ==> r.active == {} && r.currentScreen == s.currentScreen
    ensures r == s.(active := r.active, currentScreen := r.currentScreen)
  {
    match ScreenNamed(name)
    case Some(sc) => SwitchTo(s, sc)
    case None => s.(active := {})
  }

  /** Each screen is found under its own key and no other: keys and screens correspond one to one. */
  lemma ScreenKeys(sc: Screen, name: string)
    ensures ScreenNamed(KeyOf(sc)) == Some(sc)
    ensures ScreenNamed(name) == Some(sc) <==> name == KeyOf(sc)
  {
  }

  /** The handlers' calls with a literal key are `SwitchTo` the screen under that key. */
  lemma SwitchScreenByKey(s: State, sc: Screen)
    ensures SwitchScreen(s, KeyOf(sc)) == SwitchTo(s, sc)
  {
    ScreenKeys(sc, KeyOf(sc));
  }

  /** `startGame` (the audio it stops is in the `Audio` module). */
  function StartGame(s: State): (r: State)
    ensures Inv(s) ==> Inv(r)
    ensures r.currentScreen == NameScreen && r.active == {NameScreen}
    ensures r == s.(active := r.active, currentScreen := r.currentScreen)
  {
    SwitchTo(s, NameScreen)
  }

  /** `submitName`: a blank name changes nothing; otherwise the trimmed name is stored and the room shown. */
  function SubmitName(s: State, raw: string): (r: State)
    ensures Strings.AllSpace(raw) ==> r == s
    ensures !Strings.AllSpace(raw) ==> r.playerName == Strings.Trim(raw) && r.currentScreen == RoomScreen && r.active == {RoomScreen}
    ensures r == s.(playerName := r.playerName, active := r.active, currentScreen := r.currentScreen)
    ensures Inv(s) ==> Inv(r)
  {
    Strings.TrimEmptyIff(raw);
    var name := Strings.Trim(raw);
    if name == "" then s else SwitchTo(s.(playerName := name), RoomScreen)
  }

  /**
   * `showNextDialog`: while the mode's script has a line at the index, the line is typed
   * (name substituted) and the index advances by one; afterwards the mode's exit is taken.
   */
  function ShowNext(s: State): (r: State)
    ensures r.mode == s.mode && r.playerName == s.playerName && r.gregoryFound == s.gregoryFound
    ensures r.dialogIndex == Dialog.NextIndex(s.mode, s.dialogIndex)
    ensures s.dialogIndex < Dialog.Length(s.mode) ==>
      && r.dialogText == Typewriter.ReplaceName(Dialog.Script(s.mode)[s.dialogIndex], s.playerName)
      && r == s.(dialogText := r.dialogText, dialogIndex := s.dialogIndex + 1)
    ensures Inv(s) ==> Inv(r)
  {
    match Dialog.NextStep(s.mode, s.dialogIndex)
    case Reveal(line) =>
      s.(dialogText := Typewriter.ReplaceName(line, s.playerName), dialogIndex := s.dialogIndex + 1)
    case Leave(exit) =>
      match exit
      case ToChoice => s.(choiceModal := true, choiceQuestion := ChoiceQuestion(s.playerName))
      case ToHappyEnding => SwitchTo(s, HappyEndingScreen)
      case ToSadEnding => SwitchTo(s, SadEndingScreen)
  }

  /**
   * `startDialog`: the dialog screen alone shows, with the first line of the mode's
   * script typed (name substituted) and the index past it; the mode is left as it is.
   */
  function StartDialog(s: State): (r: State)
    ensures r.currentScreen == DialogScreen && r.active == {DialogScreen} && r.dialogIndex == 1
    ensures r.dialogText == Typewriter.ReplaceName(Dialog.Script(s.mode)[0], s.playerName)
    ensures r == s.(currentScreen := r.currentScreen, active := r.active, dialogIndex := r.dialogIndex, dialogText := r.dialogText)
    ensures Inv(r)
  {
    ShowNext(SwitchTo(s, DialogScreen).(dialogIndex := 0))
  }

  /** `handleObjectClick`: Imms opens the dialog, Gregory sets the Easter-egg flag, the rest only show things. */
  function ClickObject(s: State, id: string): (r: State)
    ensures id == "imms" ==> r == StartDialog(s)
    ensures id != "imms" ==> r == s.(gregoryFound := r.gregoryFound)
    ensures r.gregoryFound == (s.gregoryFound || id == "gregory")
    ensures Inv(s) ==> Inv(r)
  {
    if id == "imms" then StartDialog(s)
    else if id == "gregory" then s.(gregoryFound := true)
    else s
  }

  /** A click on Yes: the modal closes and the yes-response script begins with its first line. */
  function ChooseYes(s: State): (r: State)
    ensures r.mode == Dialog.YesResponse && r.dialogIndex == 1 && !r.choiceModal
    ensures r.dialogText == Typewriter.ReplaceName(Dialog.YesScript[0], s.playerName)
    ensures r == s.(mode := r.mode, dialogIndex := r.dialogIndex, choiceModal := r.choiceModal, dialogText := r.dialogText)
    ensures Inv(s) ==> Inv(r)
  {
    ShowNext(s.(choiceModal := false, dialogIndex := 0, mode := Dialog.YesResponse))
  }

  /** A click on No: the modal closes and the no-response script begins with its first line. */
  function ChooseNo(s: State): (r: State)
    ensures r.mode == Dialog.NoResponse && r.dialogIndex == 1 && !r.choiceModal
    ensures r.dialogText == Typewriter.ReplaceName(Dialog.NoScript[0], s.playerName)
    ensures r == s.(mode := r.mode, dialogIndex := r.dialogIndex, choiceModal := r.choiceModal, dialogText := r.dialogText)
    ensures Inv(s) ==> Inv(r)
  {
    ShowNext(s.(choiceModal := false, dialogIndex := 0, mode := Dialog.NoResponse))
  }

  /** The session fields `restartGame` and `closeGame` both clear. */
  function ClearSession(s: State): (r: State)
    ensures r.playerName == "" && r.currentScreen == StartScreen && r.dialogStep == 0 && !r.gregoryFound && r.dialogIndex == 0
    ensures r == s.(playerName := r.playerName, currentScreen := r.currentScreen, dialogStep := r.dialogStep,
                    gregoryFound := r.gregoryFound, dialogIndex := r.dialogIndex)
  {
    s.(playerName := "", currentScreen := StartScreen, dialogStep := 0, gregoryFound := false, dialogIndex := 0)
  }

  /** `restartGame` as the source writes it: the dialog mode survives the reset. */
  function RestartAsWritten(s: State): (r: State)
    ensures r.mode == s.mode
    ensures r.playerName == "" && !r.gregoryFound && r.dialogIndex == 0 && r.dialogStep == 0
    ensures r.currentScreen == StartScreen && r.active == {StartScreen}
    ensures r == s.(playerName := r.playerName, gregoryFound := r.gregoryFound, dialogIndex := r.dialogIndex,
                    dialogStep := r.dialogStep, currentScreen := r.currentScreen, active := r.active)
    ensures Inv(s) ==> Inv(r)
  {
    SwitchTo(ClearSession(s), StartScreen)
  }

  /** `restartGame` as intended: the dialog mode is reset with the rest of the session. */
  function Restart(s: State): (r: State)
    ensures r.mode == Dialog.Initial
    ensures r.playerName == "" && !r.gregoryFound && r.dialogIndex == 0 && r.dialogStep == 0
    ensures r.currentScreen == StartScreen && r.active == {StartScreen}
    ensures r == s.(playerName := r.playerName, gregoryFound := r.gregoryFound, dialogIndex := r.dialogIndex,
                    dialogStep := r.dialogStep, currentScreen := r.currentScreen, active := r.active, mode := r.mode)
    ensures Inv(s) ==> Inv(r)
  {
    SwitchTo(ClearSession(s).(mode := Dialog.Initial), StartScreen)
  }

  /**
   * `closeGame`: the session and the dialog mode are reset, the choice modal hidden and
   * the intro made the active screen, while `currentScreen` is set to "start".
   */
  function Close(s: State): (r: State)
    ensures r.mode == Dialog.Initial && !r.choiceModal
    ensures r.playerName == "" && !r.gregoryFound && r.dialogIndex == 0 && r.dialogStep == 0
    ensures r.currentScreen == StartScreen && r.active == {IntroScreen}
    ensures r == s.(playerName := r.playerName, gregoryFound := r.gregoryFound, dialogIndex := r.dialogIndex,
                    dialogStep := r.dialogStep, currentScreen := r.currentScreen, active := r.active, mode := r.mode,
                    choiceModal := r.choiceModal)
    ensures Inv(s) ==> Inv(r)
  {
    ClearSession(s).(mode := Dialog.Initial, active := {IntroScreen}, choiceModal := false)
  }

  /**
   * The branch at the end of the happy timeline: the bonus scene if Gregory was found,
   * else `restartGame` as written.
   */
  function EndHappyTimeline(s: State): (r: State)
    ensures Inv(s) ==> Inv(r)
  {
    if s.gregoryFound then SwitchTo(s, BonusScene) else RestartAsWritten(s)
  }

  /** The inputs and timeline ends that drive the controller. */
  datatype Event =
    | StartButton
    | NameEntered(raw: string)
    | ObjectClicked(id: string)
    | ContinueClicked
    | YesClicked
    | NoClicked
    | HappyTimelineEnded
    | SadTimelineEnded
    | BonusTimelineEnded
    | CloseClicked

  /** The timeline ends that end in `restartGame` (as written), and the window's close button. */
  predicate Resets(e: Event) {
    e.SadTimelineEnded? || e.BonusTimelineEnded? || e.CloseClicked?
  }

  /** One event, handled as the page handles it (the resets are `restartGame` as written). */
  function Apply(s: State, e: Event): (r: State)
    ensures Inv(s) ==> Inv(r)
  {
    match e
    case StartButton => StartGame(s)
    case NameEntered(raw) => SubmitName(s, raw)
    case ObjectClicked(id) => ClickObject(s, id)
    case ContinueClicked => ShowNext(s)
    case YesClicked => ChooseYes(s)
    case NoClicked => ChooseNo(s)
    case HappyTimelineEnded => EndHappyTimeline(s)
    case SadTimelineEnded => RestartAsWritten(s)
    case BonusTimelineEnded => RestartAsWritten(s)
    case CloseClicked => Close(s)
  }

  function Run(s: State, es: seq<Event>): State
    decreases |es|
  {
    if es == [] then s else Run(Apply(s, es[0]), es[1..])
  }

  function Continues(n: nat): (es: seq<Event>)
    ensures |es| == n && forall i :: 0 <= i < n ==> es[i] == ContinueClicked
  {
    seq(n, i => ContinueClicked)
  }

  lemma {:induction false} RunAppend(s: State, a: seq<Event>, b: seq<Event>)
    ensures Run(s, a + b) == Run(Run(s, a), b)
    decreases |a|
  {
    if a == [] {
      assert a + b == b;
    } else {
      assert (a + b)[0] == a[0] && (a + b)[1..] == a[1..] + b;
      RunAppend(Apply(s, a[0]), a[1..], b);
    }
  }

  /** No sequence of operations breaks the invariant; in particular the dialog index never passes its script's end. */
  lemma {:induction false} RunKeepsInv(s: State, es: seq<Event>)
    requires Inv(s)
    ensures Inv(Run(s, es))
    decreases |es|
  {
    if es != [] {
      RunKeepsInv(Apply(s, es[0]), es[1..]);
    }
  }

  /** `n` advances within the script show the next `n` lines in order, one index step each. */
  lemma {:induction false} RunContinues(s: State, n: nat)
    requires s.dialogIndex + n <= Dialog.Length(s.mode)
    ensures Run(s, Continues(n)) == s.(
      dialogIndex := s.dialogIndex + n,
      dialogText := if n == 0 then s.dialogText
                    else Typewriter.ReplaceName(Dialog.Script(s.mode)[s.dialogIndex + n - 1], s.playerName))
    decreases n
  {
    if n > 0 {
      var t := ShowNext(s);
      assert Continues(n)[1..] == Continues(n - 1);
      RunContinues(t, n - 1);
    }
  }

  /**
   * From index 0, `|script|` advances reveal the whole script and take no exit; the next
   * advance takes the mode's exit: the choice modal, the happy ending or the sad ending.
   */
  lemma ScriptThenExit(s: State)
    requires Inv(s) && s.dialogIndex == 0
    ensures var t := Run(s, Continues(Dialog.Length(s.mode)));
      && t.dialogIndex == Dialog.Length(s.mode)
      && t.active == s.active && t.choiceModal == s.choiceModal
    ensures var t := Run(s, Continues(Dialog.Length(s.mode)));
      var u := ShowNext(t);
      && (s.mode == Dialog.Initial ==> u.choiceModal && u.choiceQuestion == ChoiceQuestion(s.playerName) && u.active == s.active)
      && (s.mode == Dialog.YesResponse ==> u.currentScreen == HappyEndingScreen && u.active == {HappyEndingScreen})
      && (s.mode == Dialog.NoResponse ==> u.currentScreen == SadEndingScreen && u.active == {SadEndingScreen})
  {
    var n := Dialog.Length(s.mode);
    RunContinues(s, n);
    var t := Run(s, Continues(n));
    assert t.active == s.active && t.mode == s.mode && t.dialogIndex == n && t.playerName == s.playerName;
    ShowNextExit(t);
  }

  /** The Easter-egg flag becomes set only by a click on Gregory. */
  lemma {:induction false} GregoryOnlyByClick(s: State, es: seq<Event>)
    requires !s.gregoryFound && Run(s, es).gregoryFound
    ensures ObjectClicked("gregory") in es
    decreases |es|
  {
    var t := Apply(s, es[0]);
    if es[0] != ObjectClicked("gregory") {
      assert !t.gregoryFound;
      GregoryOnlyByClick(t, es[1..]);
    }
  }

  /** Once set, the Easter-egg flag survives everything but a reset. */
  lemma {:induction false} GregoryKept(s: State, es: seq<Event>)
    requires s.gregoryFound && forall i :: 0 <= i < |es| ==> !Resets(es[i])
    ensures Run(s, es).gregoryFound
    decreases |es|
  {
    if es != [] {
      GregoryKept(Apply(s, es[0]), es[1..]);
    }
  }

  /** The happy timeline goes to the bonus scene exactly when Gregory was found, and otherwise restarts. */
  lemma HappyEndBranch(s: State)
    ensures EndHappyTimeline(s).currentScreen == BonusScene <==> s.gregoryFound
    ensures s.gregoryFound ==> EndHappyTimeline(s) == SwitchTo(s, BonusScene)
    ensures !s.gregoryFound ==> EndHappyTimeline(s) == RestartAsWritten(s) && Apply(s, HappyTimelineEnded) == RestartAsWritten(s)
  {
  }

  /** Without a reset along the way, the flag ends up set exactly when Gregory is clicked. */
  lemma {:induction false} GregoryFoundIff(s: State, es: seq<Event>)
    requires !s.gregoryFound && forall i :: 0 <= i < |es| ==> !Resets(es[i])
    ensures Run(s, es).gregoryFound <==> ObjectClicked("gregory") in es
    decreases |es|
  {
    if es != [] {
      var t := Apply(s, es[0]);
      if es[0] == ObjectClicked("gregory") {
        GregoryKept(t, es[1..]);
      } else {
        assert !t.gregoryFound;
        GregoryFoundIff(t, es[1..]);
        assert ObjectClicked("gregory") in es <==> ObjectClicked("gregory") in es[1..] by {
          assert es == [es[0]] + es[1..];
        }
      }
    }
  }

  /**
   * Starting without the flag and with no reset along the way, the happy timeline ends
   * in the bonus scene exactly when Gregory was clicked at some point before.
   */
  lemma EasterEggDecidesEnding(s: State, es: seq<Event>)
    requires Inv(s) && !s.gregoryFound && forall i :: 0 <= i < |es| ==> !Resets(es[i])
    ensures Run(s, es + [HappyTimelineEnded]).currentScreen == BonusScene <==> ObjectClicked("gregory") in es
  {
    var t := Run(s, es);
    RunAppend(s, es, [HappyTimelineEnded]);
    assert Run(t, [HappyTimelineEnded]) == EndHappyTimeline(t);
    RunKeepsInv(s, es);
    HappyEndBranch(t);
    GregoryFoundIff(s, es);
  }

  /** Each reset, applied twice, is the same as applied once. */
  lemma ResetsIdempotent(s: State)
    ensures Restart(Restart(s)) == Restart(s)
    ensures RestartAsWritten(RestartAsWritten(s)) == RestartAsWritten(s)
    ensures Close(Close(s)) == Close(s)
  {
  }

  /**
   * The two resets clear the same session fields; `closeGame` also clears the dialog mode
   * and the choice modal, and leaves the intro screen active instead of the start screen.
   */
  lemma ResetsCompared(s: State)
    ensures Close(s) == Restart(s).(active := {IntroScreen}, choiceModal := false)
    ensures RestartAsWritten(s) == Restart(s).(mode := s.mode)
  {
  }

  /** The first lines of the initial and the yes-response scripts differ whatever the name. */
  lemma FirstLinesDiffer(name: string)
    ensures Typewriter.ReplaceName(Dialog.YesScript[0], name) != Typewriter.ReplaceName(Dialog.InitialScript[0], name)
  {
    var yes, initial := Dialog.YesScript[0], Dialog.InitialScript[0];
    assert yes[0] == 'R' && initial[0] == 'H';
  }

  /** The replay prefix: start, enter a name, click Imms. */
  function Replay(name: string): seq<Event> {
    [StartButton, NameEntered(name), ObjectClicked("imms")]
  }

  lemma RunReplay(s: State, name: string)
    ensures Run(s, Replay(name)) == ClickObject(SubmitName(StartGame(s), name), "imms")
  {
    var es := Replay(name);
    var s1 := StartGame(s);
    var s2 := SubmitName(s1, name);
    var s3 := ClickObject(s2, "imms");
    assert Run(s, es) == Run(s1, es[1..]);
    assert es[1..] == [NameEntered(name), ObjectClicked("imms")];
    assert Run(s1, es[1..]) == Run(s2, es[2..]);
    assert es[2..] == [ObjectClicked("imms")];
    assert Run(s2, es[2..]) == Run(s3, []);
  }

  /**
   * As written, a second play-through after the happy ending opens Imms' dialog with
   * the yes-response script instead of the initial one.
   */
  lemma ReplayAfterRestartAsWritten(s: State, name: string)
    requires Inv(s) && s.mode == Dialog.YesResponse && !Strings.AllSpace(name)
    ensures var t := Run(RestartAsWritten(s), Replay(name));
      && t.mode == Dialog.YesResponse
      && t.dialogText == Typewriter.ReplaceName(Dialog.YesScript[0], Strings.Trim(name))
      && t.dialogText != Typewriter.ReplaceName(Dialog.InitialScript[0], Strings.Trim(name))
  {
    RunReplay(RestartAsWritten(s), name);
    FirstLinesDiffer(Strings.Trim(name));
  }

  /** With the intended reset, every play-through opens with the initial script's first line. */
  lemma ReplayAfterRestart(s: State, name: string)
    requires Inv(s) && !Strings.AllSpace(name)
    ensures var t := Run(Restart(s), Replay(name));
      && t.mode == Dialog.Initial
      && t.dialogText == Typewriter.ReplaceName(Dialog.InitialScript[0], Strings.Trim(name))
  {
    RunReplay(Restart(s), name);
  }

  /**
   * A whole play-through without the Easter egg: enter a name, open Imms' dialog, read
   * the four lines, answer Yes, read the three replies; the question names the player,
   * the happy ending follows, and its timeline ends back on the start screen with the
   * session cleared but the yes-response mode kept, so that the next play-through
   * opens Imms' dialog with the yes-response line.
   */
  lemma PlayThroughWithoutEasterEgg(s: State, name: string)
    requires Inv(s) && s.mode == Dialog.Initial && !s.gregoryFound && !Strings.AllSpace(name)
    ensures var s3 := Run(s, Replay(name));
      var s5 := Run(s3, Continues(4));
      var s8 := Run(s5, [YesClicked] + Continues(3));
      var s9 := Apply(s8, HappyTimelineEnded);
      && s5.choiceModal && s5.choiceQuestion == ChoiceQuestion(Strings.Trim(name))
      && s8.currentScreen == HappyEndingScreen
      && s9.currentScreen == StartScreen && s9.playerName == "" && !s9.gregoryFound
      && s9.dialogIndex == 0 && s9.mode == Dialog.YesResponse
      && Run(s9, Replay(name)).dialogText == Typewriter.ReplaceName(Dialog.YesScript[0], Strings.Trim(name))
  {
    RunReplay(s, name);
    var s1 := StartGame(s);
    var s2 := SubmitName(s1, name);
    assert Inv(s2) && s2.mode == Dialog.Initial && !s2.gregoryFound && s2.playerName == Strings.Trim(name);
    var s3 := ClickObject(s2, "imms");
    assert s3 == Run(s, Replay(name));
    assert s3.mode == Dialog.Initial && s3.dialogIndex == 1 && Inv(s3);
    assert s3.playerName == Strings.Trim(name) && !s3.gregoryFound;
    var s5 := Continue4(s3);
    var s8 := YesThenReplies(s5);
    HappyEndBranch(s8);
    ReplayAfterRestartAsWritten(s8, name);
  }

  /**
   * Once the mode's script is exhausted, an advance takes the mode's exit: the choice
   * modal with the player's question, the happy ending or the sad ending.
   */
  lemma ShowNextExit(s: State)
    requires s.dialogIndex >= Dialog.Length(s.mode)
    ensures s.mode == Dialog.Initial ==>
      ShowNext(s) == s.(choiceModal := true, choiceQuestion := ChoiceQuestion(s.playerName))
    ensures s.mode == Dialog.YesResponse ==> ShowNext(s) == SwitchTo(s, HappyEndingScreen)
    ensures s.mode == Dialog.NoResponse ==> ShowNext(s) == SwitchTo(s, SadEndingScreen)
  {
  }

  /** A click on Yes runs `ChooseYes`. */
  lemma ApplyYes(s: State)
    ensures Apply(s, YesClicked) == ChooseYes(s)
  {
  }

  /** Running `e` and then `es` is applying `e` and running `es` from there. */
  lemma RunCons(s: State, e: Event, es: seq<Event>)
    ensures Run(s, [e] + es) == Run(Apply(s, e), es)
  {
    assert ([e] + es)[1..] == es;
  }

  /** One more advance after `n` advances. */
  lemma RunSnocContinue(s: State, n: nat)
    ensures Run(s, Continues(n + 1)) == ShowNext(Run(s, Continues(n)))
  {
    assert Continues(n + 1) == Continues(n) + [ContinueClicked];
    RunAppend(s, Continues(n), [ContinueClicked]);
  }

  /** From the first line of the initial script, four advances reach the question. */
  lemma Continue4(s3: State) returns (s5: State)
    requires Inv(s3) && s3.mode == Dialog.Initial && s3.dialogIndex == 1
    ensures s5 == Run(s3, Continues(4)) && Inv(s5) && s5.mode == Dialog.Initial
    ensures s5.choiceModal && s5.choiceQuestion == ChoiceQuestion(s3.playerName)
    ensures s5.playerName == s3.playerName && s5.gregoryFound == s3.gregoryFound
  {
    RunSnocContinue(s3, 3);
    RunContinues(s3, 3);
    RunKeepsInv(s3, Continues(3));
    var s4 := Run(s3, Continues(3));
    assert s4.dialogIndex == 4 && s4.mode == Dialog.Initial && s4.playerName == s3.playerName;
    s5 := ShowNext(s4);
    ShowNextExit(s4);
  }

  /** Answering Yes and reading the three replies reaches the happy ending. */
  lemma YesThenReplies(s5: State) returns (s8: State)
    requires Inv(s5)
    ensures s8 == Run(s5, [YesClicked] + Continues(3)) && Inv(s8)
    ensures s8.currentScreen == HappyEndingScreen && s8.mode == Dialog.YesResponse
    ensures s8.playerName == s5.playerName && s8.gregoryFound == s5.gregoryFound
  {
    var s6 := ChooseYes(s5);
    ApplyYes(s5);
    RunCons(s5, YesClicked, Continues(3));
    RunSnocContinue(s6, 2);
    RunContinues(s6, 2);
    RunKeepsInv(s6, Continues(2));
    var s7 := Run(s6, Continues(2));
    assert s7.dialogIndex == 3 && s7.mode == Dialog.YesResponse && s7.playerName == s5.playerName;
    s8 := ShowNext(s7);
    ShowNextExit(s7);
  }
}
