# Valentine's Game: a Dafny model of the game controller

The Valentine's Game is a browser game in one script, `script.js`. The player:

1. enters a name;
2. clicks objects in a room;
3. reads Imms' dialog line by line;
4. answers a question with Yes or No;
5. sees a happy or a sad ending.

On the happy path, an Easter egg found by clicking Gregory the grasshopper adds a bonus scene. A small desktop around the game also offers a file explorer over a constant folder tree.

The script's core is a single-threaded controller over module-level variables. This project models that controller with the page abstracted away. Screens are the values of a datatype, one per key of the `screens` object, and the page's `active` classes are the set of active screens. Text elements are strings. Audio elements are records with a paused flag, a volume in percent and a position.

- `Strings`: `String.prototype.trim` (ECMAScript whitespace) and `Array.prototype.join`.
- `Typewriter`: the `{{NAME}}` substitution and the two typewriter loops. The name is the replacement string of `String.prototype.replace`, so its `$$`, `$&`, `` $` `` and `$'` patterns expand as ECMAScript's GetSubstitution prescribes; a name without `$` is inserted as entered. Each loop writes into a text sink one character per iteration, which stands for one timer tick.
- `Dialog`: the three dialog modes and their constant scripts. It defines the next step of an advance (reveal a line, or take the mode's exit) and proves where a run of advances ends.
- `Audio`: the audio registry (`Deck`) with `isMuted` and `pausedAudio`. It holds `stopAllAudio`, `pauseCurrentAudio`, `resumePausedAudio`, `playAudio`, `toggleMute` and the stop loop of `closeGame`. The click sound is left alone by every loop except the last.
- `Session`: the controller's variables as one value. Each handler is a function from the state before to the state after. The lemmas cover sequences of events (`Apply`, `Run`): the Easter egg, the resets, the dialog exits and a whole play-through. The events run `restartGame` as written, which keeps the dialog mode (see Findings); `Session.Restart` is the intended reset, kept beside it.
- `Controller`: the class `Game`, whose methods update the variables in place. Each method is specified by the `Session` function for the same handler, together with its effect on the audio cues.
- `Explorer`: the folder tree, the path stack `currentPath`, the traversal in `renderFileExplorer`, folder clicks, `navigateBack`, the file path built by `openFile`, and `getFileIcon`.

`closeGame` sets `gameState.currentScreen` to `"start"` but makes the intro screen the active one. The model keeps this as written: after `Session.Close`, `currentScreen` is the start screen while the intro is the only active screen.

## Model

| member | source | states |
|---|---|---|
| Strings.TrimStartShape | script.js:309 | leading-whitespace removal drops exactly a whitespace prefix and leaves a result that does not start with whitespace |
| Strings.TrimEndShape | script.js:309 | trailing-whitespace removal drops exactly a whitespace suffix and leaves a result that does not end with whitespace |
| Strings.TrimHasNoOuterSpace | script.js:309 | a trimmed name is empty or starts and ends with a non-whitespace character |
| Strings.TrimIsInfix | script.js:309 | a trimmed name is a contiguous piece of the input with only whitespace before and after it |
| Strings.TrimEmptyIff | script.js:309-311 | the trimmed input is empty exactly when the input is all whitespace (the rejected names of `submitName`) |
| Strings.TrimStartFixed | script.js:309 | removing leading whitespace a second time changes nothing |
| Strings.TrimEndFixed | script.js:309 | removing trailing whitespace a second time changes nothing |
| Strings.TrimIdempotent | script.js:309 | trimming is idempotent |
| Strings.Trim | script.js:309 | trimming never makes the name longer |
| Strings.Join | script.js:1350 | a join of segments starts with the first segment and ends with the last |
| Strings.JoinEmpty | script.js:1350-1351 | with a non-empty separator, a join is empty exactly for no segments or one empty segment |
| Typewriter.Substitution | script.js:229 | the replacement for one match expands `$$`, `$&`, `` $` `` and `$'` in the name; a name without `$` is inserted as it is |
| Typewriter.ReplaceName | script.js:229 | a text whose first character is not `{` keeps that first character after substitution |
| Typewriter.ReplaceNameNoPlaceholder | script.js:229 | a text without `{{NAME}}` is left unchanged by the substitution, whatever the name |
| Typewriter.PlaceholderHasNoBorder | script.js:229 | no proper non-empty prefix of `{{NAME}}` can run into another `{{NAME}}`, so occurrences never overlap |
| Typewriter.ReplaceFirst | script.js:229 | the first occurrence after placeholder-free text is replaced by the name's substitution, with the whole text before it as `` $` `` and the whole text after it as `$'` |
| Typewriter.LiteralNameIgnoresContext | script.js:229 | for a name without `$`, the result does not depend on the text around a match |
| Typewriter.ReplaceNameSplice | script.js:229 | for a name without `$`, every occurrence is replaced by the name: substitution distributes over the text before and after a placeholder |
| Typewriter.ReplaceNameExample | script.js:229 | `"Hey {{NAME}}"` becomes `"Hey "` followed by the name's substitution, with `"Hey "` before the match and nothing after it |
| Typewriter.ReplaceNamePatterns | script.js:229 | for the names `$&`, `$$`, `` $` ``, `$'` and `$1`, `"Hey {{NAME}}"` is typed as `"Hey {{NAME}}"`, `"Hey $"`, `"Hey Hey "`, `"Hey "` and `"Hey $1"` |
| Typewriter.Reveal | script.js:226-241 | the values written to the sink, recorded in its history, are the cleared text and then one more character per iteration: write `k` is the first `k` characters, and the final content is the whole text (for empty text, a single empty write) |
| Typewriter.TypeWriter | script.js:224-243 | the sink ends holding the text with every `{{NAME}}` replaced as `replace` does with the player name; its history gains exactly the prefixes of that text, from the empty one to the whole, one more character per tick |
| Typewriter.TypeWriterSlow | script.js:245-261 | the sink ends holding the text verbatim; its history gains the cleared text and then the next character of the text per tick |
| Dialog.Script | script.js:33-50 | the script a mode selects has `Length` lines: four for the initial script, three each for the yes and no scripts |
| Dialog.NextStep | script.js:482-506 | an advance reveals the line at the index exactly when the index is below the script length; otherwise it takes the mode's exit (choice modal, happy ending, sad ending) |
| Dialog.NextIndex | script.js:482-491 | an advance raises the index by one exactly when it reveals a line and leaves it when it takes the exit, so it never passes the script length |
| Dialog.StepsReachExit | script.js:470-507 | from index `i`, the advances reveal the rest of the script in order and the next one takes the exit: the exit comes after exactly `len - i` reveals |
| Dialog.StepsAfterExhaustion | script.js:496-506 | once the script is exhausted, every further advance takes the same exit |
| Audio.Position | script.js:10-17 | each cue has a position in the registry's key order |
| Audio.CueOrderComplete | script.js:10-17 | the key order lists every cue |
| Audio.LastPlayingSpec | script.js:141-150 | the cue `pauseCurrentAudio` remembers is a playing music cue after which no music cue in key order plays; it is absent exactly when nothing plays |
| Audio.LastPlayingStep | script.js:144-148 | scanning one more key: it becomes the remembered cue if it plays, otherwise the answer so far stands |
| Audio.PauseSilences | script.js:141-150 | after the pause no music cue plays; the remembered cue was playing; if none is remembered, nothing was playing |
| Audio.VolumesFollowMuteKept | script.js:187-211 | `toggleMute` puts every music cue at 0 or 60 per the mute state; playing, stopping and pausing keep that agreement |
| Audio.Deck.constructor | script.js:10-17 | the registry starts with the page's cues, unmuted and with no remembered cue |
| Audio.Deck.StopAllAudio | script.js:131-139 | every music cue is paused and rewound; the click sound is untouched |
| Audio.Deck.PauseCurrentAudio | script.js:141-150 | every music cue is paused with its position kept, and the last playing cue in key order is remembered |
| Audio.Deck.ResumePausedAudio | script.js:152-156 | the remembered cue plays on from its position if it is paused; nothing else changes |
| Audio.Deck.PlayAudio | script.js:158-177 | the cue is rewound, set to 0 or 60 per the mute state, and started |
| Audio.Deck.ToggleMute | script.js:187-211 | the mute state flips and every music cue follows it (0 or 60); the click sound keeps its volume |
| Audio.Deck.HaltEverything | script.js:1076-1091 | every cue, the click sound included, is paused and rewound, and the remembered cue is cleared |
| Explorer.GetFileIcon | script.js:1326-1331 | the audio, video and image categories get their icons; any other category, and only such, gets the document icon |
| Explorer.Resolve | script.js:1281-1286 | a path that resolves to an entry starts with "My Files" |
| Explorer.ItemIcon | script.js:1300 | the folder icon marks exactly the folders of the listing |
| Explorer.ParentOfDirectory | script.js:1333-1338 | dropping the last segment of a directory path leaves a directory path |
| Explorer.ResolveChild | script.js:1281-1286 | pushing a listed child's name resolves to that child |
| Explorer.FilePath | script.js:1350-1351 | the path of an opened file ends with the file's name |
| Explorer.FilePathIsJoin | script.js:1350-1351 | the opened file's path is the segments after the root followed by the file name, joined with `/` |
| Explorer.FilePathExamples | script.js:1350-1351 | a file at the root has its bare name; one in `images` is `images/<name>` |
| Explorer.Explorer.constructor | script.js:1244 | the path starts empty |
| Explorer.Explorer.OpenMyFiles | script.js:1246-1249 | the path becomes the root, a directory |
| Explorer.Explorer.OpenMusic | script.js:1251-1254 | the path becomes the audio folder, a directory |
| Explorer.Explorer.OpenPhotos | script.js:1256-1259 | the path becomes the images folder, a directory |
| Explorer.Explorer.OpenVideos | script.js:1261-1264 | the path becomes the videos folder, a directory |
| Explorer.Explorer.BackDisabled | script.js:1278 | the back button is disabled exactly at the root and before any window has opened |
| Explorer.Explorer.CurrentDirectory | script.js:1280-1286 | the traversal loop reaches the entry the path resolves to |
| Explorer.Explorer.NavigateBack | script.js:1333-1338 | the last segment is popped exactly when the back button is enabled (more than one segment), so a non-empty path never empties and always names a directory |
| Explorer.Explorer.ClickItem | script.js:1307-1316 | a folder click pushes the folder's name and keeps the path a directory; a file click leaves the path and opens the file at the constructed path |
| Session.InitialState | script.js:2-30 | the initial session satisfies the controller invariant |
| Session.ScreenKeys | script.js:20-30 | each screen is found under its own key and under no other key |
| Session.ChoiceQuestion | script.js:525 | the question opens with the player's name |
| Session.SwitchTo | script.js:213-222 | switching to a screen makes it the only active screen and the current one; nothing else changes |
| Session.SwitchScreen | script.js:213-222 | at most one screen is active afterwards; a key of the `screens` object makes its screen the active and current one; any other key leaves no screen active and the current screen unchanged; nothing else changes |
| Session.SwitchScreenByKey | script.js:213-222 | `switchScreen` with a screen's own key is the switch to that screen |
| Session.StartGame | script.js:283-286 | the name screen becomes current; nothing else changes |
| Session.SubmitName | script.js:307-331 | an all-whitespace name changes nothing; otherwise the trimmed name is stored and the room becomes current |
| Session.ShowNext | script.js:470-507 | a reveal shows the mode's line at the index with the name substituted and raises the index by one; mode, name and the Easter-egg flag never change; the invariant is kept |
| Session.StartDialog | script.js:464-468 | the dialog screen alone shows and is current; the mode's first line is typed with the name substituted and the index moves past it; nothing else changes |
| Session.ClickObject | script.js:345-362 | a click on Imms is `StartDialog`; the Easter-egg flag becomes set exactly by a click on Gregory; objects other than Imms change nothing else |
| Session.ChooseYes | script.js:546-556 | the modal closes, the mode becomes yes-response and its first line is typed with the name (index 1); nothing else changes |
| Session.ChooseNo | script.js:568-582 | the modal closes, the mode becomes no-response and its first line is typed with the name (index 1); nothing else changes |
| Session.ClearSession | script.js:814-818 | the name, current screen, dialog step, Easter-egg flag and index are reset; nothing else changes |
| Session.RestartAsWritten | script.js:809-893 | as written: name, dialog step, Easter-egg flag and index are reset and the start screen shows; the dialog mode, the dialog text, the modal and its question are kept |
| Session.Restart | script.js:809-893 | as intended (not what the page runs): the same reset, and the dialog mode returns to initial |
| Session.Close | script.js:1084-1126 | name, step, flag, index and mode are reset; `currentScreen` is "start" while only the intro screen is active; the choice modal closes; the dialog text and the question are kept |
| Session.EndHappyTimeline | script.js:672-678 | the end of the happy timeline (bonus scene, or `restartGame` as written) keeps the invariant |
| Session.Apply | script.js:283-893 | every handler keeps the controller invariant; the timeline ends run `restartGame` as written |
| Session.RunAppend | script.js:470-507 | running two event sequences one after the other is running their concatenation |
| Session.RunKeepsInv | script.js:470-507 | every sequence of events keeps the invariant (at most one screen active, index within its script) |
| Session.RunContinues | script.js:470-491 | `n` advances within the script reveal the next `n` lines in order and raise the index by `n` |
| Session.ScriptThenExit | script.js:470-507 | from index 0, `len` advances reveal the whole script without leaving; the next one opens the choice modal with the player's question, or shows the happy or sad ending |
| Session.GregoryOnlyByClick | script.js:355-358 | the Easter-egg flag becomes set only if a Gregory click is among the events |
| Session.GregoryKept | script.js:809-893 | once set, the flag stays set until a restart or close |
| Session.HappyEndBranch | script.js:672-678 | the happy timeline ends in the bonus scene exactly when Gregory was found, with nothing else changed; otherwise it runs `restartGame` as written |
| Session.GregoryFoundIff | script.js:355-358 | without resets in between, the flag is set exactly when a Gregory click is among the events |
| Session.EasterEggDecidesEnding | script.js:672-678 | without resets, the happy timeline ends in the bonus scene exactly when Gregory was clicked at some point before |
| Session.ResetsIdempotent | script.js:809-893 | restart (as written and as intended) and close are idempotent |
| Session.ResetsCompared | script.js:1084-1126 | close is the intended restart with only the intro active and the modal closed; the as-written restart is the intended one with the old mode kept |
| Session.FirstLinesDiffer | script.js:33-43 | the first yes-response line differs from the first initial line for every player name |
| Session.RunReplay | script.js:283-349 | start, name entry and a click on Imms compose as the three handlers |
| Session.ReplayAfterRestartAsWritten | script.js:809-893 | as written, a new play-through after the yes branch opens Imms' dialog with the yes-response line instead of the initial one |
| Session.ReplayAfterRestart | script.js:809-893 | with the intended reset, a new play-through opens with the initial script's first line |
| Session.PlayThroughWithoutEasterEgg | script.js:283-678 | name, Imms, four advances: the question names the player; Yes and three advances reach the happy ending; without the Easter egg its end restarts to the start screen with the session cleared but the yes-response mode kept, so the next play-through opens with the yes-response line |
| Session.ShowNextExit | script.js:495-506 | once the script is exhausted, an advance opens the choice modal with the player's question (initial), shows the happy ending (yes) or the sad ending (no) |
| Session.Continue4 | script.js:470-528 | from the first initial line, four advances open the choice modal with the player's question |
| Session.YesThenReplies | script.js:546-566 | Yes and three advances reach the happy ending in yes-response mode |
| Controller.Game.constructor | script.js:2-30 | the controller starts in the initial session with the page's cues |
| Controller.Game.DeactivateScreens | script.js:215 | no screen stays active |
| Controller.Game.ShowIntroOnly | script.js:1098-1120 | every screen loses its flag, then only the intro is active |
| Controller.Game.SwitchScreen | script.js:213-222 | performs `Session.SwitchScreen` in place |
| Controller.Game.ShowScreen | script.js:213-222 | `switchScreen` with a screen's key performs `Session.SwitchTo` that screen and keeps the invariant |
| Controller.Game.StartGame | script.js:283-286 | performs `Session.StartGame` and stops the music |
| Controller.Game.SubmitName | script.js:307-331 | performs `Session.SubmitName`; an accepted name starts the main jazz |
| Controller.Game.ShowChoiceModal | script.js:516-528 | the heartbeat replaces the music; the question naming the player shows in the open modal |
| Controller.Game.ProceedToHappyEnding | script.js:558-566 | the celebration music replaces the rest and the happy ending shows |
| Controller.Game.ProceedToSadEnding | script.js:584-589 | the sad ending shows; the music is left playing |
| Controller.Game.ShowNextDialog | script.js:470-507 | performs `Session.ShowNext`; on a reveal the dialog text's history gains the substituted line prefix by prefix, one character per tick, and on an exit it is untouched; the audio changes only at the choice and happy exits |
| Controller.Game.StartDialog | script.js:464-468 | performs `Session.StartDialog`, typing the mode's first line prefix by prefix; the audio is untouched |
| Controller.Game.HandleObjectClick | script.js:345-377 | performs `Session.ClickObject`; an Imms click types the mode's first line prefix by prefix, other clicks leave the dialog text's history alone; a Gregory click pauses the music and remembers the last playing cue |
| Controller.Game.HandleYesChoice | script.js:546-556 | performs `Session.ChooseYes`, typing the first yes-response line prefix by prefix, with the main jazz restarted |
| Controller.Game.HandleNoChoice | script.js:568-582 | performs `Session.ChooseNo`, typing the first no-response line prefix by prefix, with the sad jazz started |
| Controller.ResetsKeepAudio | script.js:809-893 | a second restart leaves the cues as the first left them, and so does a second close |
| Controller.Game.ClearSession | script.js:814-818 | performs `Session.ClearSession`: name, current screen, dialog step, Easter-egg flag and index reset |
| Controller.Game.RestartGame | script.js:809-893 | as intended (not what the page runs): performs `Session.Restart`: music stopped, session and dialog mode reset, start screen, start jazz |
| Controller.Game.RestartGameAsWritten | script.js:809-893 | performs `Session.RestartAsWritten`: the same, with the dialog mode kept |
| Controller.Game.FinishHappyTimeline | script.js:672-678 | performs `Session.EndHappyTimeline`: the bonus scene if Gregory was found, else `restartGame` as written |
| Controller.Game.CloseGame | script.js:1072-1126 | performs `Session.Close`; every cue halts and the remembered cue is cleared |

## Left out

- Rendering: element lookups, `classList` fades, overlays, `innerHTML`, the breadcrumb and title text, the name input's value and error class, the sad character image swap, and the item elements of the file listing (only the icon each item gets is kept, `Explorer.ItemIcon`). Only the screens' `active` flags, the dialog text, the choice modal and its question are kept.
- Timers: the tick delay of the typewriter, the 500 ms delays before `playAudio` in `submitName` and `restartGame`, and the nested `setTimeout` chains of the intro, happy, sad and bonus timelines. A delayed play is modelled as happening at the end of its handler. A timeline is modelled only by its final step (`HappyTimelineEnded`, `SadTimelineEnded`, `BonusTimelineEnded`).
- Asynchrony: `showNextDialog` awaits the typewriter and hides the continue button meanwhile. The model treats an advance as atomic (type the whole line, then raise the index), so interleaved clicks during typing are not modelled.
- Media: `play()` promises and their rejection, autoplay unlocking, the Gregory video overlay and its `onended`, the media viewer and its audio player (floating-point progress and seek). A started cue is recorded as not paused.
- `playButtonSound`, `updateSongDisplay` and the music-player panel with its collapse timer: they are UI-only.
- The taskbar clock: it reads `Date`.
- The `init*` listener wiring. The input events are the `Session.Event` values instead.
- Audio.Deck.PlayAudio: the key-name lookup for the song display is not modelled, and cue volumes are integer percent (60 or 0) rather than 0.6 and 0.
- Character model: strings are sequences of Unicode scalar values, not UTF-16 code units; the whitespace set is ECMAScript's WhiteSpace and LineTerminator with the Unicode space separators as listed in `Strings.IsSpace`.
- Explorer.Explorer.ClickItem: its precondition lists only items the current folder shows, since the page only renders those; what `openFile` does with the file (the viewer) is not modelled, only the path it constructs.
- Screens the page does not know: `switchScreen` is modelled for any name, but the JavaScript object's inherited keys (such as `"constructor"`) are not treated as screens.

## Findings

| source | as written | input that shows it | evidently intended | confidence | as-written member | corrected member |
|---|---|---|---|---|---|---|
| script.js:809-893 | `restartGame` resets the session fields and `currentDialogIndex` but not `dialogMode` (contrast `closeGame` at script.js:1090) | answer Yes, let the happy timeline end without the Easter egg, then enter a name and click Imms: the dialog opens with "Really?! Oh my gosh, …!" instead of "Hey …" | the dialog mode returns to `'initial'` with the rest of the session | not executed | Session.ReplayAfterRestartAsWritten | Session.ReplayAfterRestart |
