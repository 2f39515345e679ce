/** src/session_helpers.py: setting up the session's keys, and folding the
    data of one answered question into the CV record. */
module SessionHelpers {
  import opened Wrappers
  import opened Json
  import opened LlmClient
  import opened Session
  import DataUtils
  import Schema

  // ---------------------------------------------------------------------
  // initialize_app_session_state (lines 10-31)
  // ---------------------------------------------------------------------

  /** Lines 16-31, with the `source` query parameter as `source`.  Each key
      is set only when absent; the timestamp starts at the epoch. */
  function InitializeAppSessionState(s: State, source: Option<string>): (r: State)
    ensures r.prevQuestionTimestamp.Some? && r.selectedPillSuggestions.Some?
    ensures r.draftMessageText.Some? && r.entrySourceTracked.Some?
    ensures s.prevQuestionTimestamp.Some? ==> r.prevQuestionTimestamp == s.prevQuestionTimestamp
    ensures s.selectedPillSuggestions.Some? ==> r.selectedPillSuggestions == s.selectedPillSuggestions
    ensures s.draftMessageText.Some? ==> r.draftMessageText == s.draftMessageText
    ensures s.entrySourceTracked.Some? ==>
              r.entrySourceTracked == s.entrySourceTracked && r.entrySource == s.entrySource
    ensures s.entrySourceTracked.None? ==>
              r.entrySourceTracked == Some(true) && r.entrySource == Some(source.GetOr("direct"))
  {
    var s1 := if s.prevQuestionTimestamp.None? then s.(prevQuestionTimestamp := Some(0)) else s;
    var s2 := if s1.selectedPillSuggestions.None? then s1.(selectedPillSuggestions := Some([])) else s1;
    var s3 := if s2.draftMessageText.None? then s2.(draftMessageText := Some("")) else s2;
    if s3.entrySourceTracked.None? then
      s3.(entrySource := Some(source.GetOr("direct")), entrySourceTracked := Some(true))
    else s3
  }

  /** No other key changes. */
  lemma InitTouchesOnlyItsKeys(s: State, source: Option<string>)
    ensures var r := InitializeAppSessionState(s, source);
            r.(prevQuestionTimestamp := s.prevQuestionTimestamp,
               selectedPillSuggestions := s.selectedPillSuggestions,
               draftMessageText := s.draftMessageText,
               entrySourceTracked := s.entrySourceTracked,
               entrySource := s.entrySource) == s
  {
  }

  /** A second call, with any query parameter, changes nothing. */
  lemma InitIdempotent(s: State, source: Option<string>, source': Option<string>)
    ensures var r := InitializeAppSessionState(s, source);
            InitializeAppSessionState(r, source') == r
  {
    var r := InitializeAppSessionState(s, source);
    InitTouchesOnlyItsKeys(r, source');
  }

  // ---------------------------------------------------------------------
  // extract_and_save_json_data (lines 35-70)
  // ---------------------------------------------------------------------

  /** Line 50: the last exchange as the question of the extraction prompt. */
  function ExchangeText(m: seq<Message>): string
    requires |m| >= 3
  {
    "Spørsmål: " + m[|m| - 3].content + "\nSvar: " + m[|m| - 2].content
  }

  /** Lines 48-56: the text of the model's reply to the extraction prompt.
      `reply` stands for the model, giving the stream it returns for a
      prompt; `instructions` for the fixed extraction instructions. */
  function ReplyText(m: seq<Message>, reply: string -> seq<Chunk>, instructions: string): string
    requires |m| >= 3
  {
    GeneratorToString(reply(BuildQuestionPrompt(m, ExchangeText(m), instructions)))
  }

  /** Lines 59-67: on the first questions of a CV not uploaded, store the
      name and date of birth of the reply and stop asking, or keep asking
      when they cannot be read. */
  function PersonaliaStep(s: State, jsonStr: string, decode: DataUtils.Decoder): (r: State)
    ensures r.cvDict == s.cvDict
    ensures r.(personaliaName := s.personaliaName, personaliaDob := s.personaliaDob,
               initialCvQuestions := s.initialCvQuestions) == s
  {
    if s.initialCvQuestions.GetOr(false) && !s.cvUploaded.GetOr(false) then
      match DataUtils.ExtractPersonalia(jsonStr, decode)
      case Success(p) =>
        s.(personaliaName := Some(p.name), personaliaDob := Some(p.dob), initialCvQuestions := Some(false))
      case Failure(_) =>
        s.(initialCvQuestions := Some(true))
    else s
  }

  /** `extract_and_save_json_data(client)`. */
  function ExtractAndSaveJsonData(s: State, reply: string -> seq<Chunk>, instructions: string,
                                  decode: DataUtils.Decoder): (r: Result<State, AppError>)
    ensures !s.cvMode.GetOr(false) ==> r == Success(s)
    ensures s.cvMode.GetOr(false) && s.messages.None? ==> r == Failure(MissingKey("messages"))
    ensures s.messages.Some? && |s.messages.value| < 3 ==> r == Success(s)
    ensures r.Success? && r.value != s ==>
              s.cvMode.GetOr(false) && s.messages.Some? && |s.messages.value| >= 3
  {
    if !s.cvMode.GetOr(false) then Success(s)
    else if s.messages.None? then Failure(MissingKey("messages"))
    else if |s.messages.value| < 3 then Success(s)
    else
      var jsonStr := ReplyText(s.messages.value, reply, instructions);
      var s1 := PersonaliaStep(s, jsonStr, decode);
      match DataUtils.SaveJsonStrToDict(s1.cvDict, jsonStr, decode)
      case Success(cv) => Success(s1.(cvDict := Some(cv)))
      case Failure(e) => Failure(MergeFailed(e))
  }

  /** A state that passes the guard of line 41. */
  predicate Extracting(s: State) {
    s.cvMode.GetOr(false) && s.messages.Some? && |s.messages.value| >= 3
  }

  /** Line 70 runs whatever the personalia step did: the record becomes the
      merge of the reply into the record as it was (or the schema), and an
      undecodable reply leaves it as it was.  This states the formula of
      line 70; `ExtractTouchesOnlyItsKeys` is the frame around it. */
  lemma ExtractMerges(s: State, reply: string -> seq<Chunk>, instructions: string, decode: DataUtils.Decoder)
    requires Extracting(s)
    ensures var jsonStr := ReplyText(s.messages.value, reply, instructions);
            var saved := DataUtils.SaveJsonStrToDict(s.cvDict, jsonStr, decode);
            var r := ExtractAndSaveJsonData(s, reply, instructions, decode);
            && (saved.Success? <==> r.Success?)
            && (r.Success? ==> r.value.cvDict == Some(saved.value))
            && (decode(jsonStr).None? ==> r.Success? && r.value.cvDict == Some(s.cvDict.GetOr(Schema.CvSchema)))
  {
  }

  /** Only the record and the three personalia keys can change. */
  lemma ExtractTouchesOnlyItsKeys(s: State, reply: string -> seq<Chunk>, instructions: string,
                                  decode: DataUtils.Decoder)
    requires ExtractAndSaveJsonData(s, reply, instructions, decode).Success?
    ensures var r := ExtractAndSaveJsonData(s, reply, instructions, decode).value;
            r.(cvDict := s.cvDict, personaliaName := s.personaliaName,
               personaliaDob := s.personaliaDob, initialCvQuestions := s.initialCvQuestions) == s
  {
    if Extracting(s) {
      var jsonStr := ReplyText(s.messages.value, reply, instructions);
      var s1 := PersonaliaStep(s, jsonStr, decode);
      assert ExtractAndSaveJsonData(s, reply, instructions, decode).value.cvDict.Some?;
      assert ExtractAndSaveJsonData(s, reply, instructions, decode).value ==
               s1.(cvDict := ExtractAndSaveJsonData(s, reply, instructions, decode).value.cvDict);
    }
  }

  /** Lines 59-67 in the outcome: outside the first questions of a typed CV
      the personalia keys stay; otherwise a readable reply stores the name
      and date of birth and ends the first questions, and an unreadable one
      keeps them going with the stored values untouched.  This states the
      formula of lines 59-67; `ExtractTouchesOnlyItsKeys` is the frame
      around it. */
  lemma ExtractPersonaliaOutcome(s: State, reply: string -> seq<Chunk>, instructions: string,
                                 decode: DataUtils.Decoder)
    requires Extracting(s)
    requires ExtractAndSaveJsonData(s, reply, instructions, decode).Success?
    ensures var jsonStr := ReplyText(s.messages.value, reply, instructions);
            var p := DataUtils.ExtractPersonalia(jsonStr, decode);
            var r := ExtractAndSaveJsonData(s, reply, instructions, decode).value;
            && (!(s.initialCvQuestions.GetOr(false) && !s.cvUploaded.GetOr(false)) ==>
                  r.personaliaName == s.personaliaName && r.personaliaDob == s.personaliaDob &&
                  r.initialCvQuestions == s.initialCvQuestions)
            && (s.initialCvQuestions.GetOr(false) && !s.cvUploaded.GetOr(false) && p.Success? ==>
                  r.personaliaName == Some(p.value.name) && r.personaliaDob == Some(p.value.dob) &&
                  r.initialCvQuestions == Some(false))
            && (s.initialCvQuestions.GetOr(false) && !s.cvUploaded.GetOr(false) && p.Failure? ==>
                  r.personaliaName == s.personaliaName && r.personaliaDob == s.personaliaDob &&
                  r.initialCvQuestions == Some(true))
  {
  }
}
