/** streamlit_app.py: sanitising the user's message before it is shown and
    sent, reading the state of the first interaction, and resetting the
    conversation. */
module App {
  import opened Wrappers
  import opened Json
  import opened PyStr
  import opened Session
  import UiHelpers
  import SessionHelpers

  // ---------------------------------------------------------------------
  // process_user_message (lines 266-273)
  // ---------------------------------------------------------------------

  /** Lines 271-272: `$` is escaped for markdown and `'` is dropped. */
  function EscapeMarkdown(m: string): (r: string)
    ensures '\'' !in r
  {
    ReplaceChar(ReplaceChar(m, '$', "\\$"), '\'', "")
  }

  /** Each `$` adds one character and each `'` removes one; every other
      character but `\` occurs as often as before. */
  lemma EscapeCounts(m: string, x: char)
    ensures |EscapeMarkdown(m)| == |m| + Count(m, '$') - Count(m, '\'')
    ensures x != '$' && x != '\'' && x != '\\' ==> Count(EscapeMarkdown(m), x) == Count(m, x)
  {
    var d := ReplaceChar(m, '$', "\\$");
    ReplaceCharKeepsOthers(m, '$', "\\$", '\'');
    if x != '$' && x != '\'' && x != '\\' {
      ReplaceCharKeepsOthers(m, '$', "\\$", x);
      ReplaceCharKeepsOthers(d, '\'', "", x);
    }
  }

  /** Reading `\$` back as `$`. */
  function UnescapeDollar(s: string): string
    decreases |s|
  {
    if |s| >= 2 && s[0] == '\\' && s[1] == '$' then "$" + UnescapeDollar(s[2..])
    else if s == [] then []
    else [s[0]] + UnescapeDollar(s[1..])
  }

  /** Escaping loses nothing on a message without `'` or `\`: reading the
      escapes back gives the message. */
  lemma EscapeRoundTrip(m: string)
    requires '\'' !in m && '\\' !in m
    ensures UnescapeDollar(EscapeMarkdown(m)) == m
  {
    var d := ReplaceChar(m, '$', "\\$");
    UnescapeEscaped(m);
    ReplaceCharAbsent(m, '$', "\\$", '\'');
    DropAbsent(d, '\'');
  }

  lemma {:induction false} UnescapeEscaped(m: string)
    requires '\\' !in m
    ensures UnescapeDollar(ReplaceChar(m, '$', "\\$")) == m
    decreases |m|
  {
    if m != [] {
      var rest := ReplaceChar(m[1..], '$', "\\$");
      UnescapeEscaped(m[1..]);
      if m[0] == '$' {
        var d := "\\$" + rest;
        assert d[2..] == rest;
      } else {
        var d := [m[0]] + rest;
        assert d[1..] == rest;
      }
      assert m == [m[0]] + m[1..];
    }
  }

  /** Removing a character that is not there changes nothing. */
  lemma {:induction false} DropAbsent(s: string, c: char)
    requires c !in s
    ensures ReplaceChar(s, c, "") == s
    decreases |s|
  {
    if s != [] {
      DropAbsent(s[1..], c);
      assert s == [s[0]] + s[1..];
    }
  }

  /** `process_user_message(message)`: the pills or draft are combined with
      the message first, so their text is escaped as well. */
  function ProcessUserMessage(s: State, message: string): (r: Result<UiHelpers.Combined, AppError>)
    ensures r.Success? ==> '\'' !in r.value.text
    ensures r.Success? <==> UiHelpers.CombinePillsWithUserInput(s, message).Success?
    ensures r.Success? ==>
              var c := UiHelpers.CombinePillsWithUserInput(s, message).value;
              r.value == UiHelpers.Combined(EscapeMarkdown(c.text), c.state)
  {
    var c :- UiHelpers.CombinePillsWithUserInput(s, message);
    Success(UiHelpers.Combined(EscapeMarkdown(c.text), c.state))
  }

  // ---------------------------------------------------------------------
  // check_user_interaction (lines 99-106)
  // ---------------------------------------------------------------------

  /** The four values `check_user_interaction` returns. */
  datatype Interaction = Interaction(justAsked: Json, clickedSuggestion: Json,
                                     firstInteraction: Json, hasHistory: bool)

  /** `key in st.session_state and st.session_state.key`: `False` when the
      key is absent, its value otherwise. */
  function PresentAnd(v: Option<Json>): (r: Json)
    ensures Truthy(r) <==> v.Some? && Truthy(v.value)
  {
    match v
    case None => Bool(false)
    case Some(x) => x
  }

  /** Lines 101-106.  Python's `or` returns one of its operands. */
  function CheckUserInteraction(s: State): (r: Interaction)
    ensures Truthy(r.justAsked) <==> s.initialQuestion.Some? && Truthy(s.initialQuestion.value)
    ensures Truthy(r.clickedSuggestion) <==> s.selectedSuggestion.Some? && Truthy(s.selectedSuggestion.value)
    ensures Truthy(r.firstInteraction) <==> Truthy(r.justAsked) || Truthy(r.clickedSuggestion)
    ensures r.firstInteraction == r.justAsked || r.firstInteraction == r.clickedSuggestion
    ensures r.hasHistory <==> s.messages.Some? && s.messages.value != []
  {
    var asked := PresentAnd(s.initialQuestion);
    var clicked := PresentAnd(s.selectedSuggestion);
    var first := if Truthy(asked) then asked else clicked;
    Interaction(asked, clicked, first, s.messages.Some? && |s.messages.value| > 0)
  }

  /** Whatever the setup of the session does, the interaction reads the same:
      `initialize_app_session_state` never touches the three keys read here. */
  lemma InitKeepsInteraction(s: State, source: Option<string>)
    ensures CheckUserInteraction(SessionHelpers.InitializeAppSessionState(s, source)) == CheckUserInteraction(s)
  {
    SessionHelpers.InitTouchesOnlyItsKeys(s, source);
  }

  // ---------------------------------------------------------------------
  // clear_conversation (lines 92-96)
  // ---------------------------------------------------------------------

  /** The chat is emptied and both first-interaction keys are set to `None`;
      no other key changes. */
  function ClearConversation(s: State): (r: State)
    ensures r.messages == Some([])
    ensures r.initialQuestion == Some(Null) && r.selectedSuggestion == Some(Null)
    ensures r.(messages := s.messages, initialQuestion := s.initialQuestion,
               selectedSuggestion := s.selectedSuggestion) == s
  {
    s.(messages := Some([]), initialQuestion := Some(Null), selectedSuggestion := Some(Null))
  }

  /** After a reset the interaction reads as none at all: each flag is the
      stored `None`, and there is no history. */
  lemma ClearedHasNoInteraction(s: State)
    ensures CheckUserInteraction(ClearConversation(s)) == Interaction(Null, Null, Null, false)
  {
  }
}
