/**
 * The dialog sequencer's pure part: three constant scripts selected by the dialog
 * mode, and the decision an advance makes from the current mode and index.
 */
module Dialog {
  import Typewriter

  datatype Mode = Initial | YesResponse | NoResponse

  /** Where a mode's script leads once every line has been shown. */
  datatype Exit = ToChoice | ToHappyEnding | ToSadEnding

  /** What one advance does: reveal a line, or leave the dialog. */
  datatype Step = Reveal(line: string) | Leave(exit: Exit)

  /** Lines are templates: `Typewriter.Placeholder` marks where the player's name goes. */
  const InitialScript: seq<string> := [
    "Hey " + Typewriter.Placeholder + "... I've been wanting to tell you something for a while now...",
    "Every moment we spend together makes my heart skip a beat.",
    "You're the most amazing person I've ever met, and I can't imagine my days without you.",
    "So... I have an important question to ask you..."
  ]

  const YesScript: seq<string> := [
    "Really?! Oh my gosh, " + Typewriter.Placeholder + "!",
    "You have no idea how happy you've made me!",
    "I have something special for you..."
  ]

  const NoScript: seq<string> := [
    "Oh... I see...",
    "I understand, " + Typewriter.Placeholder + "...",
    "I guess this is goodbye then..."
  ]

  /** How many lines a mode's script has. */
  function Length(m: Mode): nat {
    if m == Initial then 4 else 3
  }

  /** The script the mode selects (the initial script unless the mode is a response). */
  function Script(m: Mode): (r: seq<string>)
    ensures |r| == Length(m)
  {
    match m
    case Initial => InitialScript
    case YesResponse => YesScript
    case NoResponse => NoScript
  }

  /** The mode-specific terminal exit. */
  function ExitOf(m: Mode): Exit {
    match m
    case Initial => ToChoice
    case YesResponse => ToHappyEnding
    case NoResponse => ToSadEnding
  }

  /** One advance at index `i`: the line at `i` while one remains, else the exit. */
  function NextStep(m: Mode, i: nat): (r: Step)
    ensures r.Reveal? <==> i < Length(m)
    ensures r.Reveal? ==> r.line == Script(m)[i]
    ensures r.Leave? ==> r.exit == ExitOf(m)
  {
    if i < Length(m) then Reveal(Script(m)[i]) else Leave(ExitOf(m))
  }

  /** The index after one advance: one more after a reveal, unchanged after leaving. */
  function NextIndex(m: Mode, i: nat): (j: nat)
    ensures NextStep(m, i).Reveal? ==> j == i + 1
    ensures NextStep(m, i).Leave? ==> j == i
    ensures i <= Length(m) ==> j <= Length(m)
  {
    if i < Length(m) then i + 1 else i
  }

  /** The steps taken by `n` successive advances from index `i`. */
  function Steps(m: Mode, i: nat, n: nat): seq<Step>
    decreases n
  {
    if n == 0 then [] else [NextStep(m, i)] + Steps(m, NextIndex(m, i), n - 1)
  }

  function Reveals(lines: seq<string>): (r: seq<Step>)
    ensures |r| == |lines|
    ensures forall k :: 0 <= k < |lines| ==> r[k] == Reveal(lines[k])
  {
    seq(|lines|, k requires 0 <= k < |lines| => Reveal(lines[k]))
  }

  /** Revealing a non-empty list of lines is revealing its head, then its tail. */
  lemma RevealsCons(lines: seq<string>)
    requires |lines| > 0
    ensures Reveals(lines) == [Reveal(lines[0])] + Reveals(lines[1..])
  {
  }

  /**
   * From index `i`, the advances reveal the rest of the script in order and the one
   * after that leaves through the mode's exit: the exit comes after exactly
   * `Length(m) - i` reveals, never sooner and never later.
   */
  lemma {:induction false} StepsReachExit(m: Mode, i: nat)
    requires i <= Length(m)
    ensures Steps(m, i, Length(m) - i + 1) == Reveals(Script(m)[i..]) + [Leave(ExitOf(m))]
    decreases Length(m) - i
  {
    var s := Script(m);
    if i < |s| {
      StepsReachExit(m, i + 1);
      RevealsCons(s[i..]);
      assert s[i..][1..] == s[i + 1..];
    } else {
      assert Steps(m, i, 1) == [Leave(ExitOf(m))];
    }
  }

  /** Once the script is exhausted every further advance leaves through the same exit. */
  lemma {:induction false} StepsAfterExhaustion(m: Mode, n: nat)
    ensures forall k :: 0 <= k < |Steps(m, Length(m), n)| ==> Steps(m, Length(m), n)[k] == Leave(ExitOf(m))
    ensures |Steps(m, Length(m), n)| == n
    decreases n
  {
    if n > 0 {
      StepsAfterExhaustion(m, n - 1);
    }
  }
}
