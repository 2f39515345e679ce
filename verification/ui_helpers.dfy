/** src/ui_helpers.py: selecting suggestion pills, and prefixing the user's
    message with the selection. */
module UiHelpers {
  import opened Wrappers
  import opened PyStr
  import opened Session

  // ---------------------------------------------------------------------
  // The select/deselect toggle (lines 55-58 and 248-251)
  // ---------------------------------------------------------------------

  /** Position of the first `x` in `xs`. */
  function FirstIndex(xs: seq<string>, x: string): (i: nat)
    requires x in xs
    ensures i < |xs| && xs[i] == x
    ensures forall j :: 0 <= j < i ==> xs[j] != x
    decreases |xs|
  {
    if xs[0] == x then 0 else 1 + FirstIndex(xs[1..], x)
  }

  /** `xs.remove(x)`: the first occurrence goes, everything else stays in
      order. */
  function Remove(xs: seq<string>, x: string): (r: seq<string>)
    requires x in xs
    ensures |r| == |xs| - 1
    ensures multiset(r) == multiset(xs) - multiset{x}
    ensures exists i :: 0 <= i < |xs| && xs[i] == x && x !in xs[..i] && r == xs[..i] + xs[i + 1..]
  {
    var i := FirstIndex(xs, x);
    assert xs == xs[..i] + [xs[i]] + xs[i + 1..];
    assert x !in xs[..i];
    xs[..i] + xs[i + 1..]
  }

  /** A click on suggestion `x`: deselect it if selected, select it
      otherwise. */
  function Toggle(sel: seq<string>, x: string): seq<string> {
    if x in sel then Remove(sel, x) else sel + [x]
  }

  /** No suggestion is selected twice. */
  predicate NoDup(xs: seq<string>) {
    forall i, j :: 0 <= i < j < |xs| ==> xs[i] != xs[j]
  }

  lemma MultisetNoDup(xs: seq<string>, x: string)
    requires NoDup(xs) && x in xs
    ensures multiset(xs)[x] == 1
  {
    var i := FirstIndex(xs, x);
    assert xs == xs[..i] + [x] + xs[i + 1..];
    assert x !in xs[..i] && x !in xs[i + 1..];
  }

  /** Toggling changes `x`'s membership and no other suggestion's; a
      selection without repeats keeps none. */
  lemma ToggleMembership(sel: seq<string>, x: string, y: string)
    requires NoDup(sel)
    ensures x in Toggle(sel, x) <==> x !in sel
    ensures y != x ==> (y in Toggle(sel, x) <==> y in sel)
    ensures NoDup(Toggle(sel, x))
  {
    var t := Toggle(sel, x);
    if x in sel {
      MultisetNoDup(sel, x);
      assert multiset(t)[x] == 0;
      assert y != x ==> multiset(t)[y] == multiset(sel)[y];
      RemoveNoDup(sel, x);
    } else {
      assert y in t <==> y in sel || y == x;
    }
  }

  lemma RemoveNoDup(sel: seq<string>, x: string)
    requires NoDup(sel) && x in sel
    ensures NoDup(Remove(sel, x))
  {
    var i := FirstIndex(sel, x);
    var t := Remove(sel, x);
    assert t == sel[..i] + sel[i + 1..];
    forall a, b | 0 <= a < b < |t|
      ensures t[a] != t[b]
    {
      var a', b' := if a < i then a else a + 1, if b < i then b else b + 1;
      assert t[a] == sel[a'] && t[b] == sel[b'];
    }
  }

  /** Selecting a suggestion and clicking it again restores the selection. */
  lemma ToggleTwiceAbsent(sel: seq<string>, x: string)
    requires x !in sel
    ensures Toggle(Toggle(sel, x), x) == sel
  {
    var t := sel + [x];
    assert FirstIndex(t, x) == |sel| by {
      FirstIndexIs(t, x, |sel|);
    }
    assert t[..|sel|] == sel;
  }

  lemma FirstIndexIs(xs: seq<string>, x: string, i: nat)
    requires i < |xs| && xs[i] == x
    requires forall j :: 0 <= j < i ==> xs[j] != x
    ensures FirstIndex(xs, x) == i
    decreases i
  {
    if i > 0 {
      FirstIndexIs(xs[1..], x, i - 1);
    }
  }

  /** Deselecting a suggestion and clicking it again keeps the same
      suggestions selected, the clicked one moved to the end. */
  lemma ToggleTwicePresent(sel: seq<string>, x: string)
    requires NoDup(sel) && x in sel
    ensures var t := Toggle(Toggle(sel, x), x);
            multiset(t) == multiset(sel) && t[|t| - 1] == x
  {
    ToggleMembership(sel, x, x);
    MultisetNoDup(sel, x);
  }

  /** Lines 232-234 and 248-251: the selection starts empty, then the
      clicked suggestion is toggled. */
  function ClickSuggestion(s: State, x: string): (r: State)
    ensures r.selectedSuggestions == Some(Toggle(s.selectedSuggestions.GetOr([]), x))
    ensures r.(selectedSuggestions := s.selectedSuggestions) == s
  {
    s.(selectedSuggestions := Some(Toggle(s.selectedSuggestions.GetOr([]), x)))
  }

  /** Line 254, reached when no suggestion is clicked: the pills are the
      selection. */
  function ShareSelection(s: State): (r: State)
    ensures r.selectedPillSuggestions == r.selectedSuggestions == Some(s.selectedSuggestions.GetOr([]))
    ensures r.(selectedSuggestions := s.selectedSuggestions, selectedPillSuggestions := s.selectedPillSuggestions) == s
  {
    var sel := s.selectedSuggestions.GetOr([]);
    s.(selectedSuggestions := Some(sel), selectedPillSuggestions := Some(sel))
  }

  // ---------------------------------------------------------------------
  // combine_pills_with_user_input (lines 156-179)
  // ---------------------------------------------------------------------

  /** The combined message and the session after it. */
  datatype Combined = Combined(text: string, state: State)

  /** `"\n" + user_message if user_message else ""`. */
  function Tail(message: string): string {
    if message != [] then "\n" + message else ""
  }

  /** Lines 165-179. */
  function CombinePillsWithUserInput(s: State, message: string): (r: Result<Combined, AppError>)
    ensures s.selectedPillSuggestions.None? ==> r == Failure(MissingKey("selected_pill_suggestions"))
    ensures s.selectedPillSuggestions == Some([]) ==> r == Success(Combined(message, s))
    ensures r.Success? && s.selectedPillSuggestions != Some([]) ==>
              r.value.state.selectedPillSuggestions == Some([]) &&
              r.value.state.selectedSuggestions == Some([]) &&
              r.value.state.draftMessageText == Some("")
  {
    if s.selectedPillSuggestions.None? then Failure(MissingKey("selected_pill_suggestions"))
    else
      var pills := s.selectedPillSuggestions.value;
      if pills == [] then Success(Combined(message, s))
      else
        var draft := s.draftMessageText.GetOr("");
        var combined := if draft != [] then draft + Tail(message) else Join(pills, "\n") + Tail(message);
        Success(Combined(combined, s.(selectedPillSuggestions := Some([]), selectedSuggestions := Some([]),
                                      draftMessageText := Some(""))))
  }

  /** With a selection, the message comes after the draft when there is
      one and after the pills otherwise, on a line of its own when
      non-empty; only the three selection keys change.  This is the formula
      of lines 165-178 itself; `CombineSplitsBack` and `CombineTwice` are
      the properties it has. */
  lemma CombineText(s: State, message: string)
    requires s.selectedPillSuggestions.Some? && s.selectedPillSuggestions.value != []
    ensures var r := CombinePillsWithUserInput(s, message);
            var draft := s.draftMessageText.GetOr("");
            && r.Success?
            && r.value.text == (if draft != [] then draft else Join(s.selectedPillSuggestions.value, "\n"))
                               + Tail(message)
            && r.value.state.(selectedPillSuggestions := s.selectedPillSuggestions,
                              selectedSuggestions := s.selectedSuggestions,
                              draftMessageText := s.draftMessageText) == s
  {
  }

  /** After combining, the selection is gone: an immediate second call
      passes its message through and changes nothing. */
  lemma CombineTwice(s: State, message: string, next: string)
    requires CombinePillsWithUserInput(s, message).Success?
    ensures var s' := CombinePillsWithUserInput(s, message).value.state;
            CombinePillsWithUserInput(s', next) == Success(Combined(next, s'))
  {
  }

  /** Without a draft, splitting the combined text at newlines gives back
      the pills and then the message, when none of them spans lines. */
  lemma CombineSplitsBack(s: State, message: string)
    requires s.selectedPillSuggestions.Some? && s.selectedPillSuggestions.value != []
    requires s.draftMessageText.GetOr("") == []
    requires forall i :: 0 <= i < |s.selectedPillSuggestions.value| ==> '\n' !in s.selectedPillSuggestions.value[i]
    requires '\n' !in message
    ensures var pills := s.selectedPillSuggestions.value;
            Split(CombinePillsWithUserInput(s, message).value.text, '\n') ==
              if message != [] then pills + [message] else pills
  {
    CombineText(s, message);
    PillsThenMessage(s.selectedPillSuggestions.value, message);
  }

  lemma PillsThenMessage(pills: seq<string>, message: string)
    requires pills != []
    requires forall i :: 0 <= i < |pills| ==> '\n' !in pills[i]
    requires '\n' !in message
    ensures Split(Join(pills, "\n") + Tail(message), '\n') ==
              if message != [] then pills + [message] else pills
  {
    var all := if message != [] then pills + [message] else pills;
    JoinTail(pills, message);
    SnocOneLine(pills, message);
    JoinThenSplit(all, '\n');
  }

  /** The pills' join followed by the message's line is the join of both. */
  lemma JoinTail(pills: seq<string>, message: string)
    requires pills != []
    ensures Join(pills, "\n") + Tail(message) ==
              Join(if message != [] then pills + [message] else pills, "\n")
  {
    var j := Join(pills, "\n");
    if message != [] {
      JoinAppend(pills, [message], "\n");
      assert Join([message], "\n") == message;
      assert j + "\n" + message == j + Tail(message);
    } else {
      assert j + "" == j;
    }
  }

  lemma SnocOneLine(pills: seq<string>, message: string)
    requires forall i :: 0 <= i < |pills| ==> '\n' !in pills[i]
    requires '\n' !in message
    ensures var all := if message != [] then pills + [message] else pills;
            forall i :: 0 <= i < |all| ==> '\n' !in all[i]
  {
  }
}
