/**
 * The typewriter: text is revealed into a text sink (an element's `textContent`)
 * one character per timer tick. `TypeWriter` first substitutes the player name for
 * every `{{NAME}}` placeholder; `TypeWriterSlow` reveals its text verbatim. The tick
 * delay is not modelled: each loop iteration is one tick.
 */
module Typewriter {

  const Placeholder: string := "{{NAME}}"

  /** The placeholder occurs in `t` starting at position `i`. */
  predicate PlaceholderAt(t: string, i: int) {
    0 <= i && i + |Placeholder| <= |t| && t[i..i + |Placeholder|] == Placeholder
  }

  ghost predicate ContainsPlaceholder(t: string) {
    exists i :: PlaceholderAt(t, i)
  }

  /**
   * The text one match is replaced by when `name` is the replacement string of
   * `String.prototype.replace` (GetSubstitution in ECMAScript): `$$` stands for `$`,
   * `$&` for the matched placeholder, `` $` `` for the whole text before the match and
   * `$'` for the whole text after it. The pattern has no capture groups, so `$1`, `$<`
   * and every other `$` are kept as written. A name without `$` is inserted verbatim.
   */
  function Substitution(name: string, before: string, after: string): (r: string)
    ensures '$' !in name ==> r == name
    decreases |name|
  {
    if |name| == 0 then ""
    else if name[0] == '$' && |name| >= 2 && name[1] == '$' then "$" + Substitution(name[2..], before, after)
    else if name[0] == '$' && |name| >= 2 && name[1] == '&' then Placeholder + Substitution(name[2..], before, after)
    else if name[0] == '$' && |name| >= 2 && name[1] == '`' then before + Substitution(name[2..], before, after)
    else if name[0] == '$' && |name| >= 2 && name[1] == '\'' then after + Substitution(name[2..], before, after)
    else [name[0]] + Substitution(name[1..], before, after)
  }

  /**
   * The scan of `text.replace(/\{\{NAME\}\}/g, name)` over the rest `text` of the
   * original text, `done` being the part already scanned: each non-overlapping
   * occurrence, left to right, is replaced by its `Substitution`.
   */
  function ReplaceFrom(done: string, text: string, name: string): string
    decreases |text|
  {
    if |text| == 0 then ""
    else if Placeholder <= text then
      Substitution(name, done, text[|Placeholder|..]) + ReplaceFrom(done + Placeholder, text[|Placeholder|..], name)
    else [text[0]] + ReplaceFrom(done + [text[0]], text[1..], name)
  }

  /**
   * `text.replace(/\{\{NAME\}\}/g, name)`. A text that does not start with the
   * placeholder's `{` keeps its first character.
   */
  function ReplaceName(text: string, name: string): (r: string)
    ensures |text| > 0 && text[0] != '{' ==> |r| > 0 && r[0] == text[0]
  {
    ReplaceFrom("", text, name)
  }

  /** Proof helper: a text that begins with the placeholder has it at position 0. */
  lemma PlaceholderAtStart(t: string)
    ensures Placeholder <= t ==> PlaceholderAt(t, 0)
  {
  }

  /** Text without a placeholder is revealed unchanged, whatever the name. */
  lemma {:induction false} ReplaceNameNoPlaceholder(done: string, text: string, name: string)
    requires !ContainsPlaceholder(text)
    ensures ReplaceFrom(done, text, name) == text
    decreases |text|
  {
    if |text| > 0 {
      PlaceholderAtStart(text);
      assert !(Placeholder <= text);
      forall i | PlaceholderAt(text[1..], i) ensures PlaceholderAt(text, i + 1) {
        assert text[1..][i..i + |Placeholder|] == text[i + 1..i + 1 + |Placeholder|];
      }
      ReplaceNameNoPlaceholder(done + [text[0]], text[1..], name);
    }
  }

  /** No proper suffix of the placeholder is also a prefix of it. */
  lemma PlaceholderHasNoBorder(x: string, rest: string)
    requires 0 < |x| < |Placeholder| && Placeholder <= rest
    ensures !(Placeholder <= x + rest)
  {
    var w, k := x + rest, |x|;
    assert Placeholder == ['{', '{', 'N', 'A', 'M', 'E', '}', '}'];
    if k == 1 {
      // The placeholder starting at 1 puts '{' where the placeholder has 'N'.
      assert w[2] == rest[1] == '{' != Placeholder[2];
    } else {
      // The placeholder starting at k puts '{' where the placeholder has no '{'.
      assert w[k] == rest[0] == '{' != Placeholder[k];
    }
  }

  /**
   * Scanning `x + Placeholder + y` for a non-empty `x` without the placeholder moves
   * past `x`'s first character, which is copied unchanged.
   */
  lemma ScanFirstChar(done: string, x: string, y: string, name: string)
    requires |x| > 0 && !ContainsPlaceholder(x)
    ensures !ContainsPlaceholder(x[1..])
    ensures ReplaceFrom(done, x + Placeholder + y, name)
         == [x[0]] + ReplaceFrom(done + [x[0]], x[1..] + Placeholder + y, name)
  {
    var t := x + Placeholder + y;
    PlaceholderAtStart(x);
    if |x| >= |Placeholder| {
      assert t[..|Placeholder|] == x[..|Placeholder|];
    } else {
      assert t == x + (Placeholder + y);
      PlaceholderHasNoBorder(x, Placeholder + y);
    }
    assert !(Placeholder <= t);
    assert t[1..] == x[1..] + Placeholder + y;
    forall i | PlaceholderAt(x[1..], i) ensures PlaceholderAt(x, i + 1) {
      assert x[1..][i..i + |Placeholder|] == x[i + 1..i + 1 + |Placeholder|];
    }
  }

  /**
   * The first occurrence of the placeholder, after a text `x` without one, is replaced
   * by the substitution for the name with everything before it (`done + x`) and
   * everything after it (`y`): no occurrence can straddle its left border.
   */
  lemma {:induction false} ReplaceFirst(done: string, x: string, y: string, name: string)
    requires !ContainsPlaceholder(x)
    ensures ReplaceFrom(done, x + Placeholder + y, name)
         == x + Substitution(name, done + x, y) + ReplaceFrom(done + x + Placeholder, y, name)
    decreases |x|
  {
    if |x| == 0 {
      var t := x + Placeholder + y;
      assert t == Placeholder + y && done + x == done;
      assert t[|Placeholder|..] == y;
    } else {
      var x', d' := x[1..], done + [x[0]];
      ScanFirstChar(done, x, y, name);
      ReplaceFirst(d', x', y, name);
      assert d' + x' == done + x;
      assert d' + x' + Placeholder == done + x + Placeholder;
      var sub, rest := Substitution(name, done + x, y), ReplaceFrom(done + x + Placeholder, y, name);
      assert ReplaceFrom(done, x + Placeholder + y, name) == [x[0]] + (x' + sub + rest);
      AppendAssoc([x[0]], x', sub, rest);
      assert [x[0]] + x' == x;
    }
  }

  lemma AppendAssoc(a: string, b: string, c: string, d: string)
    ensures a + (b + c + d) == a + b + c + d
  {
  }

  /** For a name without `$` the text already scanned makes no difference. */
  lemma {:induction false} LiteralNameIgnoresContext(d: string, e: string, text: string, name: string)
    requires '$' !in name
    ensures ReplaceFrom(d, text, name) == ReplaceFrom(e, text, name)
    decreases |text|
  {
    if |text| > 0 {
      if Placeholder <= text {
        LiteralNameIgnoresContext(d + Placeholder, e + Placeholder, text[|Placeholder|..], name);
      } else {
        LiteralNameIgnoresContext(d + [text[0]], e + [text[0]], text[1..], name);
      }
    }
  }

  /**
   * For a name without `$`, every occurrence is replaced by the name itself:
   * the substitution distributes over the text before and after any placeholder.
   */
  lemma {:induction false} ReplaceNameSplice(done: string, x: string, y: string, name: string)
    requires '$' !in name
    ensures ReplaceFrom(done, x + Placeholder + y, name) == ReplaceFrom(done, x, name) + name + ReplaceFrom(done, y, name)
    decreases |x|
  {
    var t := x + Placeholder + y;
    if |x| == 0 {
      assert t == Placeholder + y;
      assert t[|Placeholder|..] == y;
      LiteralNameIgnoresContext(done + Placeholder, done, y, name);
      assert ReplaceFrom(done, t, name) == name + ReplaceFrom(done, y, name);
      assert ReplaceFrom(done, x, name) == "";
    } else if Placeholder <= x {
      var x', d' := x[|Placeholder|..], done + Placeholder;
      assert Placeholder <= t;
      assert t[|Placeholder|..] == x' + Placeholder + y;
      ReplaceNameSplice(d', x', y, name);
      LiteralNameIgnoresContext(d', done, y, name);
      assert ReplaceFrom(done, t, name) == name + ReplaceFrom(d', x' + Placeholder + y, name);
      assert ReplaceFrom(done, x, name) == name + ReplaceFrom(d', x', name);
      AppendAssoc(name, ReplaceFrom(d', x', name), name, ReplaceFrom(done, y, name));
    } else {
      var x', d' := x[1..], done + [x[0]];
      if |x| >= |Placeholder| {
        assert t[..|Placeholder|] == x[..|Placeholder|];
      } else {
        assert t == x + (Placeholder + y);
        PlaceholderHasNoBorder(x, Placeholder + y);
      }
      assert !(Placeholder <= t);
      assert t[1..] == x' + Placeholder + y;
      ReplaceNameSplice(d', x', y, name);
      LiteralNameIgnoresContext(d', done, y, name);
      assert ReplaceFrom(done, t, name) == [x[0]] + ReplaceFrom(d', x' + Placeholder + y, name);
      assert ReplaceFrom(done, x, name) == [x[0]] + ReplaceFrom(d', x', name);
      AppendAssoc([x[0]], ReplaceFrom(d', x', name), name, ReplaceFrom(done, y, name));
    }
  }

  /**
   * The worked example: "Hey {{NAME}}" reads "Hey " followed by the substitution for
   * the name, in which `` $` `` stands for "Hey " and `$'` for nothing.
   */
  lemma ReplaceNameExample(name: string)
    ensures ReplaceName("Hey " + Placeholder, name) == "Hey " + Substitution(name, "Hey ", "")
  {
    forall i ensures !PlaceholderAt("Hey ", i) {
    }
    ReplaceFirst("", "Hey ", "", name);
    assert "Hey " + Placeholder + "" == "Hey " + Placeholder;
    assert "" + "Hey " == "Hey ";
  }

  /** Names that are replacement patterns: typed as the pattern expands, not as entered. */
  lemma ReplaceNamePatterns()
    ensures ReplaceName("Hey " + Placeholder, "$&") == "Hey " + Placeholder
    ensures ReplaceName("Hey " + Placeholder, "$$") == "Hey $"
    ensures ReplaceName("Hey " + Placeholder, "$`") == "Hey Hey "
    ensures ReplaceName("Hey " + Placeholder, "$'") == "Hey "
    ensures ReplaceName("Hey " + Placeholder, "$1") == "Hey $1"
  {
    ReplaceNameExample("$&");
    assert Substitution("$&", "Hey ", "") == Placeholder;
    ReplaceNameExample("$$");
    assert Substitution("$$", "Hey ", "") == "$";
    ReplaceNameExample("$`");
    assert Substitution("$`", "Hey ", "") == "Hey ";
    assert "Hey " + "Hey " == "Hey Hey ";
    ReplaceNameExample("$'");
    assert Substitution("$'", "Hey ", "") == "";
    ReplaceNameExample("$1");
    assert Substitution("$1", "Hey ", "") == "$1" by {
      assert Substitution("1", "Hey ", "") == "1";
    }
  }

  /**
   * A DOM element whose `textContent` the typewriter writes. `history` records every
   * value written to it, in order, so that what a reader saw over time can be stated.
   */
  class TextSink {
    var content: string
    ghost var history: seq<string>

    constructor ()
      ensures content == "" && history == [""]
    {
      content := "";
      history := [""];
    }

    /** An assignment to `textContent`. */
    method Write(text: string)
      modifies this
      ensures content == text && history == old(history) + [text]
    {
      content := text;
      history := history + [text];
    }
  }

  /**
   * The tick loop shared by both typewriters: clear the sink, then append one
   * character per tick. `frames` are the values written to the sink, the cleared one
   * first, so `|frames| - 1` is the number of ticks.
   */
  method Reveal(sink: TextSink, text: string) returns (frames: seq<string>)
    modifies sink
    ensures sink.content == text
    ensures sink.history == old(sink.history) + frames
    ensures |frames| == |text| + 1
    ensures forall k :: 0 <= k < |frames| ==> frames[k] == text[..k]
  {
    sink.Write("");
    frames := [sink.content];
    var i := 0;
    while i < |text|
      invariant 0 <= i <= |text|
      invariant sink.content == text[..i]
      invariant sink.history == old(sink.history) + frames
      invariant |frames| == i + 1
      invariant forall k :: 0 <= k < |frames| ==> frames[k] == text[..k]
    {
      sink.Write(sink.content + [text[i]]);
      assert text[..i + 1] == text[..i] + [text[i]];
      i := i + 1;
      frames := frames + [sink.content];
    }
  }

  /**
   * What a reader of the sink saw while `text` was typed: its history gained exactly
   * `frames`, the prefixes of `text` from the empty one to the whole text, in order.
   */
  ghost predicate TypedOut(before: seq<string>, after: seq<string>, frames: seq<string>, text: string) {
    && after == before + frames
    && |frames| == |text| + 1
    && forall k :: 0 <= k < |frames| ==> frames[k] == text[..k]
  }

  /** `typeWriter`: reveals `text` with every placeholder replaced by the player name. */
  method TypeWriter(sink: TextSink, text: string, playerName: string) returns (frames: seq<string>)
    modifies sink
    ensures sink.content == ReplaceName(text, playerName)
    ensures sink.history == old(sink.history) + frames
    ensures TypedOut(old(sink.history), sink.history, frames, ReplaceName(text, playerName))
    ensures |frames| == |ReplaceName(text, playerName)| + 1 && frames[0] == ""
    ensures forall k :: 0 < k < |frames| ==> frames[k] == frames[k - 1] + [sink.content[k - 1]]
  {
    var processed := ReplaceName(text, playerName);
    frames := Reveal(sink, processed);
    forall k | 0 < k < |frames| ensures frames[k] == frames[k - 1] + [sink.content[k - 1]] {
      assert processed[..k] == processed[..k - 1] + [processed[k - 1]];
    }
  }

  /** `typeWriterSlow`: reveals `text` verbatim, with no substitution. */
  method TypeWriterSlow(sink: TextSink, text: string) returns (frames: seq<string>)
    modifies sink
    ensures sink.content == text
    ensures sink.history == old(sink.history) + frames
    ensures |frames| == |text| + 1 && frames[0] == ""
    ensures forall k :: 0 < k < |frames| ==> frames[k] == frames[k - 1] + [text[k - 1]]
  {
    frames := Reveal(sink, text);
    forall k | 0 < k < |frames| ensures frames[k] == frames[k - 1] + [text[k - 1]] {
      assert text[..k] == text[..k - 1] + [text[k - 1]];
    }
  }
}
