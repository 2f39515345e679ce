/** `deep_update` (src/data_utils.py:10-62): folds one decoded JSON fragment
    into the CV record.  Dicts merge key by key, lists are reconciled against
    their last entry only, every other pairing is overwritten by the fragment.
    The exceptions the Python code raises part-way are `Failure`s; nothing is
    claimed about the record on that path. */
module DeepUpdate {
  import opened Wrappers
  import opened Json

  datatype MergeError =
    /** `original[-1][key]` on a dict without `key` (line 50). */
    | KeyError(key: string)
    /** `key in original[-1]` or `original[-1][key]` on a last entry that is
        not a dict (line 50). */
    | TypeError
    /** `v.items()` on a fragment entry that is a list (line 49). */
    | AttributeError

  /** The shape every list keeps under merging: it never gets shorter and
      every entry before its old last entry stays as it was. */
  predicate Grows(before: seq<Json>, after: seq<Json>) {
    && |before| <= |after|
    && forall i :: 0 <= i < |before| - 1 ==> after[i] == before[i]
  }

  /** `v in xs` for a list `xs`. */
  predicate Contains(xs: seq<Json>, v: Json) {
    exists i :: 0 <= i < |xs| && PyEq(xs[i], v)
  }

  function Merge(original: Json, newData: Json): (r: Result<Json, MergeError>)
    ensures !(original.Obj? && newData.Obj?) && !(original.Arr? && newData.Arr?) ==>
              r == Success(newData)
    ensures r.Success? && original.Obj? && newData.Obj? ==> r.value.Obj?
    ensures r.Success? && original.Arr? && newData.Arr? ==>
              r.value.Arr? && Grows(original.items, r.value.items)
    decreases newData, 0
  {
    if original.Obj? && newData.Obj? then
      var fs :- MergeFields(original.fields, newData.fields);
      Success(Obj(fs))
    else if original.Arr? && newData.Arr? then
      var xs :- MergeItems(original.items, newData.items);
      Success(Arr(xs))
    else
      Success(newData)
  }

  /** Lines 23-27: the fragment's keys in their order. */
  function MergeFields(original: seq<Field>, newData: seq<Field>): Result<seq<Field>, MergeError>
    decreases newData, 0
  {
    if newData == [] then Success(original)
    else
      var updated :- MergeKey(original, newData[0]);
      MergeFields(updated, newData[1..])
  }

  /** Lines 24-27 for one key: merge into an existing value, or insert. */
  function MergeKey(original: seq<Field>, f: Field): Result<seq<Field>, MergeError>
    decreases f.val, 1
  {
    match Lookup(original, f.key)
    case Some(o) =>
      var m :- Merge(o, f.val);
      Success(Put(original, f.key, m))
    case None =>
      Success(Put(original, f.key, f.val))
  }

  /** One key of a dict merge fails exactly when the key is shared and its
      recursive merge fails; otherwise the key ends up holding the fragment
      value (new key) or the recursive merge (shared key), every other key
      keeps its value, and the key set grows by at most this key. */
  lemma MergeKeySpec(original: seq<Field>, f: Field)
    ensures var r := MergeKey(original, f);
            && (r.Failure? <==>
                  Lookup(original, f.key).Some? && Merge(Lookup(original, f.key).value, f.val).Failure?)
            && (r.Success? ==>
                  && Lookup(r.value, f.key).Some?
                  && (Lookup(original, f.key).None? ==> Lookup(r.value, f.key) == Some(f.val))
                  && (Lookup(original, f.key).Some? ==>
                        Merge(Lookup(original, f.key).value, f.val) == Success(Lookup(r.value, f.key).value))
                  && (forall k :: k != f.key ==> Lookup(r.value, k) == Lookup(original, k))
                  && Keys(original) <= Keys(r.value)
                  && (forall k :: k in Keys(r.value) <==> k in Keys(original) || k == f.key))
  {
  }

  /** Lines 32-57: the fragment's entries in their order. */
  function MergeItems(original: seq<Json>, newData: seq<Json>): (r: Result<seq<Json>, MergeError>)
    ensures r.Success? ==> Grows(original, r.value)
    decreases newData, 0
  {
    if newData == [] then Success(original)
    else
      var step :- MergeItem(original, newData[0]);
      MergeItems(step, newData[1..])
  }

  /** One fragment entry `v` (lines 38-57). */
  function MergeItem(original: seq<Json>, v: Json): (r: Result<seq<Json>, MergeError>)
    ensures r.Success? ==> Grows(original, r.value)
    ensures original == [] ==> r == Success([v])
    ensures IsPrimitive(v) ==> r.Success? && Contains(r.value, v)
    ensures v.Arr? && original != [] ==> r == Failure(AttributeError)
    ensures v == Obj([]) && original != [] ==> r == Success(original)
    ensures v.Obj? && v.fields != [] && original != [] && !original[|original| - 1].Obj? ==>
              r == Failure(TypeError)
    decreases v, 2
  {
    if IsPrimitive(v) then
      if Contains(original, v) then Success(original)
      else
        var r := original + [v];
        assert PyEq(r[|original|], v);
        assert original == [] ==> r == [v];
        Success(r)
    else if |original| == 0 then
      Success([v])
    else if v.Arr? then
      Failure(AttributeError)
    else
      MergeEntry(original, v, 0)
  }

  /** The condition of line 50, `key in last and last[key] == "" or
      last[key] == value`, evaluated the way Python groups it:
      `(key in last and last[key] == "") or last[key] == value`. */
  function Line50(last: Json, key: string, value: Json): (r: Result<bool, MergeError>)
    ensures r.Failure? <==> !last.Obj? || key !in Keys(last.fields)
    ensures r == Success(true) <==>
              && last.Obj? && key in Keys(last.fields)
              && var cur := Lookup(last.fields, key).value;
                 PyEq(cur, Str("")) || PyEq(cur, value)
    // lines 52-53 would need a false condition with `key` missing
    ensures r == Success(false) ==> last.Obj? && key in Keys(last.fields)
  {
    if !last.Obj? then Failure(TypeError)
    else
      var cur := Lookup(last.fields, key);
      if cur.Some? && PyEq(cur.value, Str("")) then Success(true)
      else if cur.None? then Failure(KeyError(key))
      else Success(PyEq(cur.value, value))
  }

  /** Lines 49-57 for the `i`-th key of the fragment entry `v`: fill the
      last entry with all of `v`, or append `v`.  There is no branch for
      lines 52-53: reaching them needs the condition false with `key`
      missing, which the last postcondition of `Line50` rules out. */
  function EntryStep(original: seq<Json>, v: Json, i: nat): (r: Result<seq<Json>, MergeError>)
    requires v.Obj? && i < |v.fields| && |original| > 0
    ensures r.Success? ==> |r.value| > 0 && Grows(original, r.value)
    ensures !original[|original| - 1].Obj? ==> r == Failure(TypeError)
    decreases v, 1, 0
  {
    var n := |original|;
    var fill :- Line50(original[n - 1], v.fields[i].key, v.fields[i].val);
    if fill then
      var merged :- Merge(original[n - 1], v);
      Success(original[..n - 1] + [merged])
    else
      Success(original + [v])
  }

  /** The key loop of lines 49-57 from the `i`-th key on.  It does not stop
      after an append, so later keys compare against the appended entry. */
  function MergeEntry(original: seq<Json>, v: Json, i: nat): (r: Result<seq<Json>, MergeError>)
    requires v.Obj? && i <= |v.fields| && |original| > 0
    ensures r.Success? ==> Grows(original, r.value)
    ensures i < |v.fields| && !original[|original| - 1].Obj? ==> r == Failure(TypeError)
    decreases v, 1, |v.fields| - i + 1
  {
    if i == |v.fields| then Success(original)
    else
      var next :- EntryStep(original, v, i);
      MergeEntry(next, v, i + 1)
  }
}
