/**
 * The game controller as the page runs it: module-level variables updated in place by
 * the event handlers. Every handler is specified by the `Session` function for the same
 * operation, applied to the state before the call, together with what it does to the
 * audio cues; the properties of whole play-throughs are proved in `Session`.
 */
module Controller {
  import opened Wrappers
  import Strings
  import Typewriter
  import Dialog
  import Audio
  import Session

  /** The cues after a dialog exit: the heartbeat before the question, the celebration music before the happy ending. */
  function ExitCues(e: Dialog.Exit, cues: map<Audio.CueId, Audio.Cue>, muted: bool): map<Audio.CueId, Audio.Cue> {
    match e
    case ToChoice => Audio.Play(Audio.StopAll(cues), Audio.Heartbeat, muted)
    case ToHappyEnding => Audio.Play(Audio.StopAll(cues), Audio.CelebrationMusic, muted)
    case ToSadEnding => cues
  }

  /**
   * The resets settle the audio: a second `restartGame` leaves the cues as the first
   * left them, and so does a second `closeGame`.
   */
  lemma ResetsKeepAudio(cues: map<Audio.CueId, Audio.Cue>, muted: bool)
    ensures var once := Audio.Play(Audio.StopAll(cues), Audio.StartJazz, muted);
      Audio.Play(Audio.StopAll(once), Audio.StartJazz, muted) == once
    ensures Audio.HaltAll(Audio.HaltAll(cues)) == Audio.HaltAll(cues)
  {
  }

  class Game {
    var playerName: string
    var currentScreen: Session.Screen
    var dialogStep: int
    var gregoryFound: bool
    var currentDialogIndex: nat
    var dialogMode: Dialog.Mode
    /** The screens whose element carries the `active` class. */
    var active: set<Session.Screen>
    var choiceModalActive: bool
    var choiceQuestion: string
    /** The dialog text element the typewriter writes into. */
    const dialogText: Typewriter.TextSink
    const audio: Audio.Deck

    /** The controller's variables as a `Session.State` value. */
    ghost function State(): Session.State
      reads this, dialogText
    {
      Session.State(playerName, currentScreen, dialogStep, gregoryFound, currentDialogIndex,
                    dialogMode, active, dialogText.content, choiceModalActive, choiceQuestion)
    }

    ghost predicate Valid()
      reads this, dialogText, audio
    {
      Session.Inv(State()) && audio.Valid()
    }

    /** The top-level declarations: an empty session, no screen active, the cues the page provides. */
    constructor (present: map<Audio.CueId, Audio.Cue>)
      ensures Valid()
      ensures State() == Session.InitialState()
      ensures audio.cues == present && !audio.isMuted && audio.pausedAudio == None
    {
      playerName, currentScreen, dialogStep, gregoryFound := "", Session.StartScreen, 0, false;
      currentDialogIndex, dialogMode := 0, Dialog.Initial;
      active := {};
      choiceModalActive, choiceQuestion := false, "";
      dialogText := new Typewriter.TextSink();
      audio := new Audio.Deck(present);
    }

    /** Removes the `active` class from every screen, one screen at a time. */
    method DeactivateScreens()
      modifies this`active
      ensures active == {}
    {
      var a := active;
      for i := 0 to |Session.ScreenOrder|
        invariant a <= active
        invariant forall sc :: sc in a ==> sc !in Session.ScreenOrder[..i]
      {
        a := a - {Session.ScreenOrder[i]};
      }
      assert Session.ScreenOrder[..|Session.ScreenOrder|] == Session.ScreenOrder;
      Session.ScreenOrderComplete();
      active := a;
    }

    /** The screen reset of `closeGame`: every screen hidden, then the intro made active. */
    method ShowIntroOnly()
      modifies this`active
      ensures active == {Session.IntroScreen}
    {
      DeactivateScreens();
      active := active + {Session.IntroScreen};
    }

    /**
     * `switchScreen`: every screen hidden, then the screen stored under the key shown and
     * recorded as current when there is one.
     */
    method SwitchScreen(name: string)
      modifies this`active, this`currentScreen
      ensures State() == Session.SwitchScreen(old(State()), name)
    {
      DeactivateScreens();
      match Session.ScreenNamed(name)
      case Some(sc) =>
        active := active + {sc};
        currentScreen := sc;
      case None =>
    }

    /** `switchScreen` called with the key of a screen, as every handler calls it. */
    method ShowScreen(sc: Session.Screen)
      requires Valid()
      modifies this`active, this`currentScreen
      ensures Valid()
      ensures State() == Session.SwitchTo(old(State()), sc)
    {
      Session.SwitchScreenByKey(State(), sc);
      SwitchScreen(Session.KeyOf(sc));
    }

    /** `startGame`: the music stops and the name screen shows. */
    method StartGame()
      requires Valid()
      modifies this, audio
      ensures Valid()
      ensures State() == Session.StartGame(old(State()))
      ensures audio.cues == Audio.StopAll(old(audio.cues))
      ensures audio.isMuted == old(audio.isMuted) && audio.pausedAudio == old(audio.pausedAudio)
    {
      audio.StopAllAudio();
      ShowScreen(Session.NameScreen);
    }

    /**
     * `submitName`: a blank name (after trimming) changes nothing; otherwise the trimmed
     * name is stored, the room shows and the main jazz starts.
     */
    method SubmitName(raw: string)
      requires Valid()
      modifies this, audio
      ensures Valid()
      ensures State() == Session.SubmitName(old(State()), raw)
      ensures audio.cues == if Strings.AllSpace(raw) then old(audio.cues)
                            else Audio.Play(old(audio.cues), Audio.MainJazz, audio.isMuted)
      ensures audio.isMuted == old(audio.isMuted) && audio.pausedAudio == old(audio.pausedAudio)
    {
      Strings.TrimEmptyIff(raw);
      var name := Strings.Trim(raw);
      if name == "" {
        return;
      }
      playerName := name;
      audio.PlayAudio(Audio.MainJazz);
      ShowScreen(Session.RoomScreen);
    }

    /** `showChoiceModal`: the heartbeat replaces the music and the question, naming the player, shows. */
    method ShowChoiceModal()
      requires Valid()
      modifies this, audio
      ensures Valid()
      ensures State() == old(State()).(choiceModal := true, choiceQuestion := Session.ChoiceQuestion(playerName))
      ensures audio.cues == ExitCues(Dialog.ToChoice, old(audio.cues), audio.isMuted)
      ensures audio.isMuted == old(audio.isMuted) && audio.pausedAudio == old(audio.pausedAudio)
    {
      audio.StopAllAudio();
      audio.PlayAudio(Audio.Heartbeat);
      choiceQuestion := Session.ChoiceQuestion(playerName);
      choiceModalActive := true;
    }

    /** `proceedToHappyEnding`: the celebration music replaces the rest and the happy ending shows. */
    method ProceedToHappyEnding()
      requires Valid()
      modifies this, audio
      ensures Valid()
      ensures State() == Session.SwitchTo(old(State()), Session.HappyEndingScreen)
      ensures audio.cues == ExitCues(Dialog.ToHappyEnding, old(audio.cues), audio.isMuted)
      ensures audio.isMuted == old(audio.isMuted) && audio.pausedAudio == old(audio.pausedAudio)
    {
      audio.StopAllAudio();
      audio.PlayAudio(Audio.CelebrationMusic);
      ShowScreen(Session.HappyEndingScreen);
    }

    /** `proceedToSadEnding`: the sad ending shows; the sad jazz keeps playing. */
    method ProceedToSadEnding()
      requires Valid()
      modifies this
      ensures Valid()
      ensures State() == Session.SwitchTo(old(State()), Session.SadEndingScreen)
    {
      ShowScreen(Session.SadEndingScreen);
    }

    /**
     * `showNextDialog`: the current mode's next line is typed with the player's name and
     * the index advances; once the lines run out the mode's exit is taken.
     */
    method ShowNextDialog() returns (frames: seq<string>)
      requires Valid()
      modifies this, dialogText, audio
      ensures Valid()
      ensures State() == Session.ShowNext(old(State()))
      ensures match Dialog.NextStep(old(dialogMode), old(currentDialogIndex))
              case Reveal(line) =>
                Typewriter.TypedOut(old(dialogText.history), dialogText.history, frames, Typewriter.ReplaceName(line, old(playerName)))
              case Leave(_) => frames == [] && dialogText.history == old(dialogText.history)
      ensures audio.cues == match Dialog.NextStep(old(dialogMode), old(currentDialogIndex))
                            case Reveal(_) => old(audio.cues)
                            case Leave(exit) => ExitCues(exit, old(audio.cues), audio.isMuted)
      ensures audio.isMuted == old(audio.isMuted) && audio.pausedAudio == old(audio.pausedAudio)
    {
      var messages := Dialog.Script(dialogMode);
      if currentDialogIndex < |messages| {
        frames := Typewriter.TypeWriter(dialogText, messages[currentDialogIndex], playerName);
        currentDialogIndex := currentDialogIndex + 1;
      } else {
        frames := [];
        if dialogMode == Dialog.Initial {
          ShowChoiceModal();
        } else if dialogMode == Dialog.YesResponse {
          ProceedToHappyEnding();
        } else {
          ProceedToSadEnding();
        }
      }
    }

    /** `startDialog`: the dialog screen shows from its first line. */
    method StartDialog() returns (frames: seq<string>)
      requires Valid()
      modifies this, dialogText, audio
      ensures Valid()
      ensures State() == Session.StartDialog(old(State()))
      ensures Typewriter.TypedOut(old(dialogText.history), dialogText.history, frames,
                                  Typewriter.ReplaceName(Dialog.Script(old(dialogMode))[0], old(playerName)))
      ensures audio.cues == old(audio.cues)
      ensures audio.isMuted == old(audio.isMuted) && audio.pausedAudio == old(audio.pausedAudio)
    {
      ShowScreen(Session.DialogScreen);
      currentDialogIndex := 0;
      frames := ShowNextDialog();
    }

    /**
     * `handleObjectClick`: Imms opens the dialog; Gregory sets the Easter-egg flag and
     * pauses the music, remembering the cue it paused; other objects change no state.
     */
    method HandleObjectClick(id: string) returns (frames: seq<string>)
      requires Valid()
      modifies this, dialogText, audio
      ensures Valid()
      ensures State() == Session.ClickObject(old(State()), id)
      ensures id == "imms" ==> Typewriter.TypedOut(old(dialogText.history), dialogText.history, frames,
                                                   Typewriter.ReplaceName(Dialog.Script(old(dialogMode))[0], old(playerName)))
      ensures id != "imms" ==> frames == [] && dialogText.history == old(dialogText.history)
      ensures id == "gregory" ==>
        && audio.cues == Audio.PauseMusic(old(audio.cues))
        && audio.pausedAudio == Audio.LastPlaying(old(audio.cues), Audio.CueOrder)
      ensures id != "gregory" ==> audio.cues == old(audio.cues) && audio.pausedAudio == old(audio.pausedAudio)
      ensures audio.isMuted == old(audio.isMuted)
    {
      frames := [];
      if id == "imms" {
        frames := StartDialog();
      } else if id == "gregory" {
        gregoryFound := true;
        audio.PauseCurrentAudio();
      }
    }

    /** A click on Yes: the modal closes, the main jazz restarts and the yes-response script begins. */
    method HandleYesChoice() returns (frames: seq<string>)
      requires Valid()
      modifies this, dialogText, audio
      ensures Valid()
      ensures State() == Session.ChooseYes(old(State()))
      ensures Typewriter.TypedOut(old(dialogText.history), dialogText.history, frames,
                                  Typewriter.ReplaceName(Dialog.YesScript[0], old(playerName)))
      ensures audio.cues == Audio.Play(Audio.StopAll(old(audio.cues)), Audio.MainJazz, audio.isMuted)
      ensures audio.isMuted == old(audio.isMuted) && audio.pausedAudio == old(audio.pausedAudio)
    {
      choiceModalActive := false;
      audio.StopAllAudio();
      audio.PlayAudio(Audio.MainJazz);
      currentDialogIndex := 0;
      dialogMode := Dialog.YesResponse;
      assert Dialog.NextStep(dialogMode, currentDialogIndex) == Dialog.Reveal(Dialog.YesScript[0]);
      frames := ShowNextDialog();
    }

    /** A click on No: the modal closes, the sad jazz starts and the no-response script begins. */
    method HandleNoChoice() returns (frames: seq<string>)
      requires Valid()
      modifies this, dialogText, audio
      ensures Valid()
      ensures State() == Session.ChooseNo(old(State()))
      ensures Typewriter.TypedOut(old(dialogText.history), dialogText.history, frames,
                                  Typewriter.ReplaceName(Dialog.NoScript[0], old(playerName)))
      ensures audio.cues == Audio.Play(Audio.StopAll(old(audio.cues)), Audio.SadJazz, audio.isMuted)
      ensures audio.isMuted == old(audio.isMuted) && audio.pausedAudio == old(audio.pausedAudio)
    {
      choiceModalActive := false;
      audio.StopAllAudio();
      audio.PlayAudio(Audio.SadJazz);
      currentDialogIndex := 0;
      dialogMode := Dialog.NoResponse;
      assert Dialog.NextStep(dialogMode, currentDialogIndex) == Dialog.Reveal(Dialog.NoScript[0]);
      frames := ShowNextDialog();
    }

    /** The session fields `restartGame` and `closeGame` both clear. */
    method ClearSession()
      modifies this`playerName, this`currentScreen, this`dialogStep, this`gregoryFound, this`currentDialogIndex
      ensures State() == Session.ClearSession(old(State()))
    {
      playerName, currentScreen, dialogStep, gregoryFound := "", Session.StartScreen, 0, false;
      currentDialogIndex := 0;
    }

    /**
     * `restartGame` as intended: the music stops, the session and the dialog mode are
     * reset, the start screen shows and the start jazz plays.
     */
    method RestartGame()
      requires Valid()
      modifies this, audio
      ensures Valid()
      ensures State() == Session.Restart(old(State()))
      ensures audio.cues == Audio.Play(Audio.StopAll(old(audio.cues)), Audio.StartJazz, audio.isMuted)
      ensures audio.isMuted == old(audio.isMuted) && audio.pausedAudio == old(audio.pausedAudio)
    {
      audio.StopAllAudio();
      ClearSession();
      dialogMode := Dialog.Initial;
      ShowScreen(Session.StartScreen);
      audio.PlayAudio(Audio.StartJazz);
    }

    /** `restartGame` as written: like `RestartGame`, but the dialog mode is left as it was. */
    method RestartGameAsWritten()
      requires Valid()
      modifies this, audio
      ensures Valid()
      ensures State() == Session.RestartAsWritten(old(State()))
      ensures audio.cues == Audio.Play(Audio.StopAll(old(audio.cues)), Audio.StartJazz, audio.isMuted)
      ensures audio.isMuted == old(audio.isMuted) && audio.pausedAudio == old(audio.pausedAudio)
    {
      audio.StopAllAudio();
      ClearSession();
      ShowScreen(Session.StartScreen);
      audio.PlayAudio(Audio.StartJazz);
    }

    /**
     * The end of the happy timeline: the bonus scene when Gregory was found, otherwise
     * `restartGame` as written.
     */
    method FinishHappyTimeline()
      requires Valid()
      modifies this, audio
      ensures Valid()
      ensures State() == Session.EndHappyTimeline(old(State()))
      ensures audio.cues == if old(gregoryFound) then old(audio.cues)
                            else Audio.Play(Audio.StopAll(old(audio.cues)), Audio.StartJazz, audio.isMuted)
      ensures audio.isMuted == old(audio.isMuted) && audio.pausedAudio == old(audio.pausedAudio)
    {
      if gregoryFound {
        ShowScreen(Session.BonusScene);
      } else {
        RestartGameAsWritten();
      }
    }

    /**
     * `closeGame`: every cue, the click included, stops; the session, the dialog mode and
     * the remembered cue are cleared; only the intro screen stays active and the choice
     * modal closes.
     */
    method CloseGame()
      requires Valid()
      modifies this, audio
      ensures Valid()
      ensures State() == Session.Close(old(State()))
      ensures audio.cues == Audio.HaltAll(old(audio.cues))
      ensures audio.isMuted == old(audio.isMuted) && audio.pausedAudio == None
    {
      audio.HaltEverything();
      ClearSession();
      dialogMode := Dialog.Initial;
      ShowIntroOnly();
      choiceModalActive := false;
    }
  }
}
