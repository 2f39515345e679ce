/** The pure string builders of src/llm_client.py: the tagged prompt, the
    chat-history transcript, the concatenation of a streamed reply, the
    window of recent history, and the filter applied to suggestion
    replies.  The model calls themselves are not part of this model. */
module LlmClient {
  import opened Wrappers
  import opened PyStr

  /** `HISTORY_LENGTH` (src/config.py:9). */
  const HistoryLength: nat := 5

  /** A chat message `{"role": ..., "content": ...}`. */
  datatype Message = Message(role: string, content: string)

  /** One keyword argument of `build_prompt`: its name and its contents,
      `None` for Python's `None`. */
  datatype Arg = Arg(name: string, contents: Option<string>)

  /** `if contents:` for a string or `None`. */
  predicate Given(a: Arg) {
    a.contents.Some? && a.contents.value != []
  }

  /** `f"<{name}>\n{contents}\n</{name}>"`. */
  function Tag(name: string, contents: string): string {
    "<" + name + ">\n" + contents + "\n</" + name + ">"
  }

  /** The tags of the arguments with truthy contents, in argument order. */
  function Tags(args: seq<Arg>): seq<string>
    decreases |args|
  {
    if args == [] then []
    else
      (if Given(args[0]) then [Tag(args[0].name, args[0].contents.value)] else [])
      + Tags(args[1..])
  }

  /** `build_prompt(**kwargs)` (lines 43-50). */
  function BuildPrompt(args: seq<Arg>): string {
    Join(Tags(args), "\n")
  }

  /** A tag opens with `<` and closes with `>`. */
  lemma TagEdges(name: string, contents: string)
    ensures var t := Tag(name, contents); |t| >= 7 && t[0] == '<' && t[|t| - 1] == '>'
  {
  }

  lemma {:induction false} TagsAppend(a: seq<Arg>, b: seq<Arg>)
    ensures Tags(a + b) == Tags(a) + Tags(b)
    decreases |a|
  {
    if a == [] {
      assert a + b == b;
    } else {
      assert (a + b)[0] == a[0] && (a + b)[1..] == a[1..] + b;
      TagsAppend(a[1..], b);
    }
  }

  lemma {:induction false} TagsNone(args: seq<Arg>)
    ensures Tags(args) == [] <==> forall i :: 0 <= i < |args| ==> !Given(args[i])
    decreases |args|
  {
    if args != [] {
      TagsNone(args[1..]);
      if !Given(args[0]) {
        forall i | 0 <= i < |args[1..]| ensures args[1..][i] == args[i + 1] { }
      }
    }
  }

  /** Opens with `<` and closes with `>`. */
  predicate Bracketed(t: string) {
    t != [] && t[0] == '<' && t[|t| - 1] == '>'
  }

  lemma {:induction false} TagsBracketed(args: seq<Arg>)
    ensures forall i :: 0 <= i < |Tags(args)| ==> Bracketed(Tags(args)[i])
    decreases |args|
  {
    if args != [] {
      TagsBracketed(args[1..]);
      TagEdges(args[0].name, args[0].contents.GetOr([]));
    }
  }

  /** The prompt is empty exactly when no argument has truthy contents. */
  lemma BuildPromptEmpty(args: seq<Arg>)
    ensures BuildPrompt(args) == [] <==> forall i :: 0 <= i < |args| ==> !Given(args[i])
  {
    TagsNone(args);
    var ts := Tags(args);
    if ts != [] {
      TagsBracketed(args);
      JoinNonEmpty(ts, "\n");
    }
  }

  /** A non-empty prompt starts with `<` and ends with `>`: there is no
      leading or trailing newline. */
  lemma BuildPromptEdges(args: seq<Arg>)
    ensures var r := BuildPrompt(args); r != [] ==> r[0] == '<' && r[|r| - 1] == '>'
  {
    var ts := Tags(args);
    if ts != [] {
      TagsBracketed(args);
      assert Bracketed(ts[0]) && Bracketed(ts[|ts| - 1]);
      JoinEnds(ts, "\n");
      var r := BuildPrompt(args);
      assert r[0] == r[..|ts[0]|][0];
      assert r[|r| - 1] == r[|r| - |ts[|ts| - 1]|..][|ts[|ts| - 1]| - 1];
    }
  }

  /** One argument renders as its tag when its contents are truthy, and as
      nothing otherwise. */
  lemma BuildPromptOne(a: Arg)
    ensures BuildPrompt([a]) == if Given(a) then Tag(a.name, a.contents.value) else []
  {
    assert [a][1..] == [];
    assert Tags([a]) == (if Given(a) then [Tag(a.name, a.contents.value)] else []) + [];
  }

  /** The prompt of two argument lists is the two prompts, with one newline
      between them when both are non-empty. */
  lemma BuildPromptAppend(a: seq<Arg>, b: seq<Arg>)
    ensures BuildPrompt(a + b) ==
              if BuildPrompt(a) == [] then BuildPrompt(b)
              else if BuildPrompt(b) == [] then BuildPrompt(a)
              else BuildPrompt(a) + "\n" + BuildPrompt(b)
  {
    TagsAppend(a, b);
    var ta, tb := Tags(a), Tags(b);
    PromptTags(a);
    PromptTags(b);
    if ta == [] {
      assert ta + tb == tb;
    } else if tb == [] {
      assert ta + tb == ta;
    } else {
      JoinAppend(ta, tb, "\n");
    }
  }

  /** The prompt is empty exactly when there are no tags. */
  lemma PromptTags(args: seq<Arg>)
    ensures BuildPrompt(args) == [] <==> Tags(args) == []
  {
    BuildPromptEmpty(args);
    TagsNone(args);
  }

  // ---------------------------------------------------------------------
  // history_to_text (lines 53-55)
  // ---------------------------------------------------------------------

  /** `f"[{h['role']}]: {h['content']}"`. */
  function HistoryLine(m: Message): string {
    "[" + m.role + "]: " + m.content
  }

  function HistoryLines(h: seq<Message>): (lines: seq<string>)
    ensures |lines| == |h|
    ensures forall i :: 0 <= i < |h| ==> lines[i] == HistoryLine(h[i])
  {
    seq(|h|, i requires 0 <= i < |h| => HistoryLine(h[i]))
  }

  /** `history_to_text(chat_history)`. */
  function HistoryToText(h: seq<Message>): string {
    Join(HistoryLines(h), "\n")
  }

  /** An empty history gives `""`; any other starts with `[`. */
  lemma HistoryEmpty(h: seq<Message>)
    ensures var t := HistoryToText(h); (t == []) == (h == []) && (t != [] ==> t[0] == '[')
  {
    if h != [] {
      var lines := HistoryLines(h);
      JoinEnds(lines, "\n");
      var t := HistoryToText(h);
      assert t[0] == t[..|lines[0]|][0] == lines[0][0];
    }
  }

  lemma HistoryLinesAppend(a: seq<Message>, b: seq<Message>)
    ensures HistoryLines(a + b) == HistoryLines(a) + HistoryLines(b)
  {
  }

  /** The transcript of two non-empty histories is the two transcripts on
      consecutive lines. */
  lemma HistoryAppend(a: seq<Message>, b: seq<Message>)
    requires a != [] && b != []
    ensures HistoryToText(a + b) == HistoryToText(a) + "\n" + HistoryToText(b)
  {
    HistoryLinesAppend(a, b);
    JoinAppend(HistoryLines(a), HistoryLines(b), "\n");
  }

  /** Roles and contents on one line each. */
  predicate OneLine(m: Message) {
    '\n' !in m.role && '\n' !in m.content
  }

  /** When no message spans several lines, splitting the transcript at
      newlines gives back one line per message. */
  lemma HistorySplitsBack(h: seq<Message>)
    requires h != []
    requires forall i :: 0 <= i < |h| ==> OneLine(h[i])
    ensures Split(HistoryToText(h), '\n') == HistoryLines(h)
  {
    var lines := HistoryLines(h);
    forall i | 0 <= i < |lines|
      ensures '\n' !in lines[i]
    {
      assert lines[i] == "[" + h[i].role + "]: " + h[i].content;
    }
    JoinThenSplit(lines, '\n');
  }

  // ---------------------------------------------------------------------
  // generator_to_string (lines 148-150)
  // ---------------------------------------------------------------------

  /** One item a generator yields: a `str`, or anything else. */
  datatype Chunk = Text(s: string) | Other

  /** `"".join(chunk for chunk in gen if isinstance(chunk, str))`. */
  function GeneratorToString(gen: seq<Chunk>): string
    decreases |gen|
  {
    if gen == [] then []
    else (if gen[0].Text? then gen[0].s else []) + GeneratorToString(gen[1..])
  }

  /** The string of a stream split in two is the two strings. */
  lemma {:induction false} GeneratorAppend(a: seq<Chunk>, b: seq<Chunk>)
    ensures GeneratorToString(a + b) == GeneratorToString(a) + GeneratorToString(b)
    decreases |a|
  {
    if a == [] {
      assert a + b == b;
    } else {
      assert (a + b)[0] == a[0] && (a + b)[1..] == a[1..] + b;
      GeneratorAppend(a[1..], b);
    }
  }

  /** A text chunk contributes exactly its text, any other chunk nothing. */
  lemma GeneratorSingle(c: Chunk)
    ensures GeneratorToString([c]) == if c.Text? then c.s else []
  {
    assert [c][1..] == [];
  }

  /** Dropping a non-`str` chunk anywhere does not change the string. */
  lemma GeneratorSkipsOther(a: seq<Chunk>, b: seq<Chunk>)
    ensures GeneratorToString(a + [Other] + b) == GeneratorToString(a + b)
  {
    GeneratorAppend(a + [Other], b);
    GeneratorAppend(a, [Other]);
    GeneratorSingle(Other);
    GeneratorAppend(a, b);
  }

  // ---------------------------------------------------------------------
  // build_question_prompt (lines 97-100, 115-120)
  // ---------------------------------------------------------------------

  /** Lines 97-98: the older messages and the last `HISTORY_LENGTH`.  The
      two always make up the whole history, not only when it is longer
      than the window. */
  function HistorySplit(m: seq<Message>): (r: (seq<Message>, seq<Message>))
    ensures r.0 + r.1 == m
    ensures |r.1| == if |m| < HistoryLength then |m| else HistoryLength
    ensures |m| <= HistoryLength ==> r.0 == []
  {
    var n := |m|;
    var older := if n > HistoryLength then m[..n - HistoryLength] else [];
    var recent := if n > 0 then m[if n > HistoryLength then n - HistoryLength else 0..] else [];
    assert older + recent == m;
    (older, recent)
  }

  /** Line 100: the transcript of the recent messages, `None` when there
      are none. */
  function RecentHistoryText(m: seq<Message>): (r: Option<string>)
    ensures r.None? <==> m == []
    ensures r.Some? ==> r.value == HistoryToText(HistorySplit(m).1)
  {
    var recent := HistorySplit(m).1;
    if recent != [] then Some(HistoryToText(recent)) else None
  }

  /** Lines 115-120 with the instructions as a parameter: they come from
      the configuration (`get_instructions` or the fixed extraction
      instructions). */
  function BuildQuestionPrompt(m: seq<Message>, question: string, instructions: string): string {
    BuildPrompt([Arg("instructions", Some(instructions)),
                 Arg("recent_messages", RecentHistoryText(m)),
                 Arg("question", Some(question))])
  }

  /** With no messages the `recent_messages` tag is left out. */
  lemma QuestionPromptNoHistory(question: string, instructions: string)
    ensures BuildQuestionPrompt([], question, instructions) ==
              BuildPrompt([Arg("instructions", Some(instructions)), Arg("question", Some(question))])
  {
    var i, r, q := Arg("instructions", Some(instructions)), Arg("recent_messages", None), Arg("question", Some(question));
    assert [i, r, q] == [i] + [r] + [q];
    assert [i, q] == [i] + [q];
    BuildPromptAppend([i] + [r], [q]);
    BuildPromptAppend([i], [r]);
    BuildPromptAppend([i], [q]);
    BuildPromptOne(r);
  }

  /** With messages, instructions and a question, the prompt is the three
      tags on consecutive lines, the middle one holding the last five
      messages. */
  lemma QuestionPromptFull(m: seq<Message>, question: string, instructions: string)
    requires m != [] && question != [] && instructions != []
    ensures BuildQuestionPrompt(m, question, instructions) ==
              Tag("instructions", instructions) + "\n" +
              Tag("recent_messages", HistoryToText(HistorySplit(m).1)) + "\n" +
              Tag("question", question)
  {
    var h := HistoryToText(HistorySplit(m).1);
    HistoryEmpty(HistorySplit(m).1);
    var i, r, q := Arg("instructions", Some(instructions)), Arg("recent_messages", Some(h)), Arg("question", Some(question));
    assert [i, r, q] == [i] + [r] + [q];
    BuildPromptAppend([i] + [r], [q]);
    BuildPromptAppend([i], [r]);
    BuildPromptOne(i);
    BuildPromptOne(r);
    BuildPromptOne(q);
  }

  // ---------------------------------------------------------------------
  // generate_adaptive_suggestions, after the model call (lines 228-234)
  // ---------------------------------------------------------------------

  /** The trimmed reply, or `None` when it is `"NONE"` in any case or
      shorter than ten characters. */
  function FilterSuggestions(reply: string): (r: Option<string>)
    ensures r.None? <==> |Strip(reply)| < 10
    ensures r.Some? ==> r.value == Strip(reply)
  {
    var s := Strip(reply);
    if Upper(s) == "NONE" || |s| < 10 then None else Some(s)
  }

  /** A kept reply has no whitespace at either end and passes the filter
      unchanged a second time. */
  lemma FilterIdempotent(reply: string)
    requires FilterSuggestions(reply).Some?
    ensures var s := FilterSuggestions(reply).value;
            && !IsSpace(s[0]) && !IsSpace(s[|s| - 1])
            && FilterSuggestions(s) == Some(s)
  {
    var s := FilterSuggestions(reply).value;
    StripNoEdges(s);
  }
}
