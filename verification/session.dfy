/** The keys of `st.session_state` the modelled code reads and writes, as
    one immutable record.  A key that is not in the session is `None`. */
module Session {
  import opened Wrappers
  import opened Json
  import opened LlmClient
  import DeepUpdate

  datatype State = State(
    /** `CV_mode`: the user is building a CV. */
    cvMode: Option<bool>,
    /** `CV_uploaded`: the CV came from an uploaded file. */
    cvUploaded: Option<bool>,
    /** `initial_CV_questions`: the name and date of birth are still asked for. */
    initialCvQuestions: Option<bool>,
    /** `messages`: the chat so far. */
    messages: Option<seq<Message>>,
    /** `CV_dict`: the CV record. */
    cvDict: Option<Json>,
    /** `personalia_name` and `personalia_dob`. */
    personaliaName: Option<Json>,
    personaliaDob: Option<Json>,
    /** `prev_question_timestamp`, as seconds since the epoch. */
    prevQuestionTimestamp: Option<int>,
    /** `selected_pill_suggestions` and `selected_suggestions`. */
    selectedPillSuggestions: Option<seq<string>>,
    selectedSuggestions: Option<seq<string>>,
    /** `draft_message_text`. */
    draftMessageText: Option<string>,
    /** `entry_source_tracked`, and `metrics["entry_source"]`. */
    entrySourceTracked: Option<bool>,
    entrySource: Option<string>,
    /** `initial_question` and `selected_suggestion`. */
    initialQuestion: Option<Json>,
    selectedSuggestion: Option<Json>)

  /** What a step can raise. */
  datatype AppError =
    /** Attribute access `st.session_state.<key>` on a missing key. */
    | MissingKey(key: string)
    /** `deep_update` raised while folding a reply into the record. */
    | MergeFailed(cause: DeepUpdate.MergeError)
}
