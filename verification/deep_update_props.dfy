/** Properties of `deep_update` (src/data_utils.py:10-62) over the model in
    module DeepUpdate. */
module DeepUpdateProps {
  import opened Wrappers
  import opened Json
  import opened DeepUpdate

  // ---------------------------------------------------------------------
  // Dict against dict (lines 22-28)
  // ---------------------------------------------------------------------

  /** Every key shared by record and fragment merges without raising. */
  predicate SharedKeysMerge(a: seq<Field>, b: seq<Field>) {
    forall i :: 0 <= i < |b| && Lookup(a, b[i].key).Some? ==>
      Merge(Lookup(a, b[i].key).value, b[i].val).Success?
  }

  lemma SharedKeysStep(a: seq<Field>, a1: seq<Field>, b: seq<Field>)
    requires UniqueKeys(b) && b != []
    requires MergeKey(a, b[0]) == Success(a1)
    ensures SharedKeysMerge(a, b) <==> SharedKeysMerge(a1, b[1..])
  {
    KeysTail(b);
    var rest := b[1..];
    forall i | 1 <= i < |b|
      ensures b[i] == rest[i - 1]
      ensures Lookup(a1, b[i].key) == Lookup(a, b[i].key)
    {
      assert b[i] == rest[i - 1];
      assert rest[i - 1].key in Keys(rest);
    }
    if SharedKeysMerge(a1, rest) {
      forall i | 0 <= i < |b| && Lookup(a, b[i].key).Some?
        ensures Merge(Lookup(a, b[i].key).value, b[i].val).Success?
      {
        if i > 0 {
          assert Lookup(a1, rest[i - 1].key).Some?;
        }
      }
    }
    if SharedKeysMerge(a, b) {
      forall j | 0 <= j < |rest| && Lookup(a1, rest[j].key).Some?
        ensures Merge(Lookup(a1, rest[j].key).value, rest[j].val).Success?
      {
        assert rest[j] == b[j + 1];
      }
    }
  }

  lemma {:induction false} MergeFieldsSucceeds(a: seq<Field>, b: seq<Field>)
    requires UniqueKeys(b)
    ensures MergeFields(a, b).Success? <==> SharedKeysMerge(a, b)
    decreases |b|
  {
    if b != [] {
      KeysTail(b);
      var step := MergeKey(a, b[0]);
      if step.Failure? {
        assert MergeFields(a, b).Failure?;
        assert Lookup(a, b[0].key).Some? && Merge(Lookup(a, b[0].key).value, b[0].val).Failure?;
      } else {
        var a1 := step.value;
        assert MergeFields(a, b) == MergeFields(a1, b[1..]);
        MergeFieldsSucceeds(a1, b[1..]);
        SharedKeysStep(a, a1, b);
      }
    }
  }

  lemma {:induction false} MergeFieldsKeys(a: seq<Field>, b: seq<Field>)
    requires MergeFields(a, b).Success?
    ensures Keys(a) <= Keys(MergeFields(a, b).value)
    ensures forall k :: k in Keys(MergeFields(a, b).value) <==> k in Keys(a) || k in Keys(b)
    decreases |b|
  {
    if b != [] {
      KeysTail(b);
      MergeKeySpec(a, b[0]);
      var a1 := MergeKey(a, b[0]).value;
      assert MergeFields(a, b) == MergeFields(a1, b[1..]);
      MergeFieldsKeys(a1, b[1..]);
    }
  }

  /** A successful dict merge is its first key's merge followed by the
      rest. */
  lemma MergeFieldsUnfold(a: seq<Field>, b: seq<Field>)
    requires b != [] && MergeFields(a, b).Success?
    ensures MergeKey(a, b[0]).Success?
    ensures MergeFields(a, b) == MergeFields(MergeKey(a, b[0]).value, b[1..])
  {
  }

  /** Record keys the fragment lacks keep their value. */
  lemma {:induction false} MergeFieldsOther(a: seq<Field>, b: seq<Field>, k: string)
    requires MergeFields(a, b).Success? && k !in Keys(b)
    ensures Lookup(MergeFields(a, b).value, k) == Lookup(a, k)
    decreases |b|
  {
    if b != [] {
      KeysTail(b);
      MergeFieldsOther(MergeKey(a, b[0]).value, b[1..], k);
    }
  }

  /** What a dict merge leaves at the fragment entry `f`'s key in `r`: the
      fragment value when the record `a` lacks the key, and the recursive
      merge when it has it. */
  predicate KeyMerged(a: seq<Field>, r: seq<Field>, f: Field) {
    && (Lookup(a, f.key).None? ==> Lookup(r, f.key) == Some(f.val))
    && (Lookup(a, f.key).Some? ==>
          Lookup(r, f.key).Some? &&
          Merge(Lookup(a, f.key).value, f.val) == Success(Lookup(r, f.key).value))
  }

  lemma KeyMergedAgree(a: seq<Field>, r: seq<Field>, r': seq<Field>, f: Field)
    requires Lookup(r, f.key) == Lookup(r', f.key)
    ensures KeyMerged(a, r, f) == KeyMerged(a, r', f)
  {
  }

  lemma KeyMergedAfter(a: seq<Field>, a1: seq<Field>, r: seq<Field>, f: Field, g: Field)
    requires MergeKey(a, g) == Success(a1) && f.key != g.key
    requires KeyMerged(a1, r, f)
    ensures KeyMerged(a, r, f)
  {
    assert Lookup(a1, f.key) == Lookup(a, f.key);
  }

  /** The first fragment key is inserted verbatim or holds the recursive
      merge. */
  lemma MergeFieldsFirst(a: seq<Field>, b: seq<Field>)
    requires UniqueKeys(b) && MergeFields(a, b).Success? && b != []
    ensures KeyMerged(a, MergeFields(a, b).value, b[0])
  {
    KeysTail(b);
    var a1 := MergeKey(a, b[0]).value;
    var rest := b[1..];
    assert MergeFields(a, b) == MergeFields(a1, rest);
    var r := MergeFields(a1, rest).value;
    MergeFieldsOther(a1, rest, b[0].key);
    assert KeyMerged(a, a1, b[0]);
    KeyMergedAgree(a, r, a1, b[0]);
  }

  /** The `i`-th fragment key is inserted verbatim or holds the recursive
      merge. */
  lemma {:induction false} MergeFieldsAt(a: seq<Field>, b: seq<Field>, i: nat)
    requires UniqueKeys(b) && MergeFields(a, b).Success? && i < |b|
    ensures KeyMerged(a, MergeFields(a, b).value, b[i])
    decreases i, 1
  {
    if i == 0 {
      MergeFieldsFirst(a, b);
    } else {
      MergeFieldsLater(a, b, i);
    }
  }

  lemma {:induction false} MergeFieldsLater(a: seq<Field>, b: seq<Field>, i: nat)
    requires UniqueKeys(b) && MergeFields(a, b).Success? && 0 < i < |b|
    ensures KeyMerged(a, MergeFields(a, b).value, b[i])
    decreases i, 0
  {
    MergeFieldsUnfold(a, b);
    var a1 := MergeKey(a, b[0]).value;
    var rest := b[1..];
    KeysTail(b);
    assert b[i] == rest[i - 1];
    assert b[i].key != b[0].key;
    var r := MergeFields(a1, rest).value;
    assert KeyMerged(a1, r, b[i]) by {
      MergeFieldsAt(a1, rest, i - 1);
    }
    KeyMergedAfter(a, a1, r, b[i], b[0]);
  }

  lemma MergeFieldsValues(a: seq<Field>, b: seq<Field>)
    requires UniqueKeys(b) && MergeFields(a, b).Success?
    ensures var r := MergeFields(a, b).value;
            && (forall k :: k !in Keys(b) ==> Lookup(r, k) == Lookup(a, k))
            && (forall i :: 0 <= i < |b| && Lookup(a, b[i].key).None? ==>
                  Lookup(r, b[i].key) == Some(b[i].val))
            && (forall i :: 0 <= i < |b| && Lookup(a, b[i].key).Some? ==>
                  Lookup(r, b[i].key).Some? &&
                  Merge(Lookup(a, b[i].key).value, b[i].val) == Success(Lookup(r, b[i].key).value))
  {
    var r := MergeFields(a, b).value;
    forall k | k !in Keys(b) ensures Lookup(r, k) == Lookup(a, k) {
      MergeFieldsOther(a, b, k);
    }
    forall i | 0 <= i < |b|
      ensures Lookup(a, b[i].key).None? ==> Lookup(r, b[i].key) == Some(b[i].val)
      ensures Lookup(a, b[i].key).Some? ==>
                Lookup(r, b[i].key).Some? &&
                Merge(Lookup(a, b[i].key).value, b[i].val) == Success(Lookup(r, b[i].key).value)
    {
      MergeFieldsAt(a, b, i);
    }
  }

  /** Dict merge, key by key (lines 22-28): record keys the fragment lacks
      keep their value, fragment keys the record lacks are inserted verbatim,
      shared keys hold the recursive merge; the record's keys keep their order
      and new ones follow.  The merge fails exactly when a shared key's merge
      does. */
  lemma DictMergeKeywise(a: seq<Field>, b: seq<Field>)
    requires UniqueKeys(b)
    ensures Merge(Obj(a), Obj(b)).Success? <==> SharedKeysMerge(a, b)
    ensures Merge(Obj(a), Obj(b)).Success? ==>
              var r := Merge(Obj(a), Obj(b)).value.fields;
              && Keys(a) <= Keys(r)
              && (forall k :: k in Keys(r) <==> k in Keys(a) || k in Keys(b))
              && (forall k :: k !in Keys(b) ==> Lookup(r, k) == Lookup(a, k))
              && (forall i :: 0 <= i < |b| && Lookup(a, b[i].key).None? ==>
                    Lookup(r, b[i].key) == Some(b[i].val))
              && (forall i :: 0 <= i < |b| && Lookup(a, b[i].key).Some? ==>
                    Lookup(r, b[i].key).Some? &&
                    Merge(Lookup(a, b[i].key).value, b[i].val) == Success(Lookup(r, b[i].key).value))
  {
    MergeFieldsSucceeds(a, b);
    if MergeFields(a, b).Success? {
      MergeFieldsKeys(a, b);
      MergeFieldsValues(a, b);
    }
  }

  // ---------------------------------------------------------------------
  // Flat list entries (lines 49-57)
  // ---------------------------------------------------------------------

  /** `d.update(v)`: every entry of `v` assigned into `d` in order; the
      reference for what a dict merge does when the fragment is flat. */
  function Update(d: seq<Field>, v: seq<Field>): seq<Field>
    decreases |v|
  {
    if v == [] then d else Update(Put(d, v[0].key, v[0].val), v[1..])
  }

  /** After `d.update(v)`, keys outside `v` keep their value in `d`. */
  lemma {:induction false} UpdateLookupOther(d: seq<Field>, v: seq<Field>, k: string)
    requires k !in Keys(v)
    ensures Lookup(Update(d, v), k) == Lookup(d, k)
    decreases |v|
  {
    if v != [] {
      KeysTail(v);
      UpdateLookupOther(Put(d, v[0].key, v[0].val), v[1..], k);
    }
  }

  /** After `d.update(v)`, with `v` a dict, each key of `v` maps to its value
      there and every other key to its value in `d`. */
  lemma {:induction false} UpdateLookup(d: seq<Field>, v: seq<Field>)
    requires UniqueKeys(v)
    ensures forall j :: 0 <= j < |v| ==> Lookup(Update(d, v), v[j].key) == Some(v[j].val)
    ensures forall k :: k !in Keys(v) ==> Lookup(Update(d, v), k) == Lookup(d, k)
    decreases |v|
  {
    forall k | k !in Keys(v) ensures Lookup(Update(d, v), k) == Lookup(d, k) {
      UpdateLookupOther(d, v, k);
    }
    if v != [] {
      KeysTail(v);
      var d1 := Put(d, v[0].key, v[0].val);
      UpdateLookup(d1, v[1..]);
      UpdateLookupOther(d1, v[1..], v[0].key);
      forall j | 0 < j < |v|
        ensures Lookup(Update(d, v), v[j].key) == Some(v[j].val)
      {
        assert v[j] == v[1..][j - 1];
      }
    }
  }

  /** A flat fragment dict overwrites or inserts each of its keys. */
  lemma {:induction false} MergeFieldsFlat(d: seq<Field>, v: seq<Field>)
    requires FlatFields(v)
    ensures MergeFields(d, v) == Success(Update(d, v))
    decreases |v|
  {
    if v != [] {
      assert MergeKey(d, v[0]) == Success(Put(d, v[0].key, v[0].val));
      assert FlatFields(v[1..]) by {
        forall j | 0 <= j < |v[1..]| ensures IsPrimitive(v[1..][j].val) {
          assert v[1..][j] == v[j + 1];
        }
      }
      MergeFieldsFlat(Put(d, v[0].key, v[0].val), v[1..]);
    }
  }

  /** Updating a dict with entries it already holds changes nothing. */
  lemma {:induction false} UpdateHeld(d: seq<Field>, v: seq<Field>)
    requires forall j :: 0 <= j < |v| ==> Lookup(d, v[j].key) == Some(v[j].val)
    ensures Update(d, v) == d
    decreases |v|
  {
    if v != [] {
      assert Put(d, v[0].key, v[0].val) == d;
      assert forall j :: 0 <= j < |v[1..]| ==> v[1..][j] == v[j + 1];
      UpdateHeld(d, v[1..]);
    }
  }

  /** Once the last entry holds every pair of a flat fragment entry, the
      remaining keys of the entry leave the list as it is. */
  lemma {:induction false} EntryHeldIsStable(original: seq<Json>, v: seq<Field>, i: nat)
    requires |original| > 0 && i <= |v|
    requires UniqueKeys(v) && FlatFields(v)
    requires original[|original| - 1].Obj?
    requires forall j :: 0 <= j < |v| ==>
               Lookup(original[|original| - 1].fields, v[j].key) == Some(v[j].val)
    ensures MergeEntry(original, Obj(v), i) == Success(original)
    decreases |v| - i
  {
    if i < |v| {
      var n := |original|;
      var last := original[n - 1];
      assert Line50(last, v[i].key, v[i].val) == Success(true);
      HeldMergeIsSame(last, v);
      assert original[..n - 1] + [last] == original;
      assert EntryStep(original, Obj(v), i) == Success(original);
      EntryHeldIsStable(original, v, i + 1);
    }
  }

  /** Merging a flat dict whose pairs are all held changes nothing. */
  lemma HeldMergeIsSame(last: Json, v: seq<Field>)
    requires last.Obj? && FlatFields(v)
    requires forall j :: 0 <= j < |v| ==> Lookup(last.fields, v[j].key) == Some(v[j].val)
    ensures Merge(last, Obj(v)) == Success(last)
  {
    MergeFieldsFlat(last.fields, v);
    UpdateHeld(last.fields, v);
  }

  /** The fill case of lines 50-51 for a flat fragment entry. */
  lemma FlatEntryFills(original: seq<Json>, v: seq<Field>)
    requires |original| > 0 && v != []
    requires UniqueKeys(v) && FlatFields(v)
    requires Line50(original[|original| - 1], v[0].key, v[0].val) == Success(true)
    ensures var n := |original|;
            MergeItem(original, Obj(v)) ==
              Success(original[..n - 1] + [Obj(Update(original[n - 1].fields, v))])
  {
    var n := |original|;
    var last := original[n - 1];
    MergeFieldsFlat(last.fields, v);
    UpdateLookup(last.fields, v);
    var filled := original[..n - 1] + [Obj(Update(last.fields, v))];
    assert filled[|filled| - 1] == Obj(Update(last.fields, v));
    EntryHeldIsStable(filled, v, 1);
    assert Merge(last, Obj(v)) == Success(Obj(Update(last.fields, v)));
    assert EntryStep(original, Obj(v), 0) == Success(filled);
    assert MergeEntry(original, Obj(v), 0) == MergeEntry(filled, Obj(v), 1);
  }

  /** The append case of lines 54-57 for a flat fragment entry. */
  lemma FlatEntryAppends(original: seq<Json>, v: seq<Field>)
    requires |original| > 0 && v != []
    requires UniqueKeys(v) && FlatFields(v)
    requires Line50(original[|original| - 1], v[0].key, v[0].val) == Success(false)
    ensures MergeItem(original, Obj(v)) == Success(original + [Obj(v)])
  {
    var appended := original + [Obj(v)];
    assert appended[|appended| - 1] == Obj(v);
    EntryHeldIsStable(appended, v, 1);
    assert EntryStep(original, Obj(v), 0) == Success(appended);
    assert MergeEntry(original, Obj(v), 0) == MergeEntry(appended, Obj(v), 1);
  }

  /** For a flat fragment entry with unique keys, only its FIRST key decides
      what happens (lines 49-57): a last entry that is not a dict raises
      `TypeError`; a first key the last entry lacks raises `KeyError` (the
      `elif` of lines 52-53 is never reached); a first key whose value there
      is `""` or equal to the fragment's fills the last entry with the whole
      fragment entry, overwriting its other fields, and the length is
      unchanged; otherwise the fragment entry is appended and every old entry
      stays as it was.  An empty fragment entry changes nothing. */
  lemma FlatEntryFirstKeyDecides(original: seq<Json>, v: seq<Field>)
    requires |original| > 0
    requires UniqueKeys(v) && FlatFields(v)
    ensures var n := |original|;
            var last := original[n - 1];
            MergeItem(original, Obj(v)) ==
              if v == [] then Success(original)
              else if !last.Obj? then Failure(TypeError)
              else if v[0].key !in Keys(last.fields) then Failure(KeyError(v[0].key))
              else
                var cur := Lookup(last.fields, v[0].key).value;
                if PyEq(cur, Str("")) || PyEq(cur, v[0].val) then
                  Success(original[..n - 1] + [Obj(Update(last.fields, v))])
                else
                  Success(original + [Obj(v)])
  {
    var n := |original|;
    var last := original[n - 1];
    if v != [] && !(last.Obj? && v[0].key in Keys(last.fields)) {
      var e := Line50(last, v[0].key, v[0].val);
      assert e.Failure?;
      assert EntryStep(original, Obj(v), 0) == Failure(e.error);
      assert MergeEntry(original, Obj(v), 0) == Failure(e.error);
    }
    if v != [] && last.Obj? && v[0].key in Keys(last.fields) {
      var cur := Lookup(last.fields, v[0].key).value;
      if PyEq(cur, Str("")) || PyEq(cur, v[0].val) {
        FlatEntryFills(original, v);
      } else {
        FlatEntryAppends(original, v);
      }
    }
  }

  // ---------------------------------------------------------------------
  // Lists of primitives (lines 40-43)
  // ---------------------------------------------------------------------

  predicate AllPrimitive(ys: seq<Json>) {
    forall j :: 0 <= j < |ys| ==> IsPrimitive(ys[j])
  }

  lemma ContainsExtends(xs: seq<Json>, zs: seq<Json>, v: Json)
    requires |xs| <= |zs| && zs[..|xs|] == xs
    requires Contains(xs, v)
    ensures Contains(zs, v)
  {
    var i :| 0 <= i < |xs| && PyEq(xs[i], v);
    assert zs[i] == xs[i];
  }

  /** One fragment value (lines 40-43): appended unless already present. */
  function PrimitiveStep(xs: seq<Json>, y: Json): seq<Json> {
    if Contains(xs, y) then xs else xs + [y]
  }

  lemma PrimitiveTail(ys: seq<Json>)
    requires AllPrimitive(ys) && ys != []
    ensures AllPrimitive(ys[1..])
  {
    forall j | 0 <= j < |ys[1..]| ensures IsPrimitive(ys[1..][j]) {
      assert ys[1..][j] == ys[j + 1];
    }
  }

  lemma PrimitiveItemsStep(xs: seq<Json>, ys: seq<Json>)
    requires AllPrimitive(ys) && ys != []
    ensures MergeItems(xs, ys) == MergeItems(PrimitiveStep(xs, ys[0]), ys[1..])
  {
    assert MergeItem(xs, ys[0]) == Success(PrimitiveStep(xs, ys[0]));
  }

  /** The record's list stays a prefix and each appended value comes from
      the fragment and was not in the list before it. */
  lemma {:induction false} PrimitiveItemsPrefix(xs: seq<Json>, ys: seq<Json>)
    requires AllPrimitive(ys)
    ensures MergeItems(xs, ys).Success?
    ensures var zs := MergeItems(xs, ys).value;
            && |xs| <= |zs| && zs[..|xs|] == xs
            && (forall k :: |xs| <= k < |zs| ==> zs[k] in ys && !Contains(zs[..k], zs[k]))
    decreases |ys|
  {
    if ys != [] {
      var step := PrimitiveStep(xs, ys[0]);
      PrimitiveItemsStep(xs, ys);
      PrimitiveTail(ys);
      PrimitiveItemsPrefix(step, ys[1..]);
      var zs := MergeItems(step, ys[1..]).value;
      assert zs[..|xs|] == step[..|xs|] == xs;
      forall k | |xs| <= k < |zs| ensures zs[k] in ys && !Contains(zs[..k], zs[k]) {
        if k >= |step| {
          assert zs[k] in ys[1..];
        } else {
          assert k == |xs| && zs[k] == ys[0] && zs[..k] == xs;
        }
      }
    }
  }

  /** Every fragment value ends up in the list, up to Python equality. */
  lemma {:induction false} PrimitiveItemsCover(xs: seq<Json>, ys: seq<Json>)
    requires AllPrimitive(ys)
    ensures MergeItems(xs, ys).Success?
    ensures forall j :: 0 <= j < |ys| ==> Contains(MergeItems(xs, ys).value, ys[j])
    decreases |ys|
  {
    if ys != [] {
      var step := PrimitiveStep(xs, ys[0]);
      PrimitiveItemsStep(xs, ys);
      PrimitiveTail(ys);
      PrimitiveItemsCover(step, ys[1..]);
      PrimitiveItemsPrefix(step, ys[1..]);
      var zs := MergeItems(step, ys[1..]).value;
      assert Contains(step, ys[0]) by {
        if !Contains(xs, ys[0]) {
          assert step[|xs|] == ys[0];
          assert PyEq(ys[0], ys[0]);
        }
      }
      ContainsExtends(step, zs, ys[0]);
      forall j | 0 <= j < |ys| ensures Contains(zs, ys[j]) {
        if j > 0 {
          assert ys[j] == ys[1..][j - 1];
        }
      }
    }
  }

  /** When every fragment value is already present the list is unchanged. */
  lemma {:induction false} PrimitiveItemsPresent(xs: seq<Json>, ys: seq<Json>)
    requires AllPrimitive(ys)
    requires forall j :: 0 <= j < |ys| ==> Contains(xs, ys[j])
    ensures MergeItems(xs, ys) == Success(xs)
    decreases |ys|
  {
    if ys != [] {
      PrimitiveItemsStep(xs, ys);
      PrimitiveTail(ys);
      assert PrimitiveStep(xs, ys[0]) == xs;
      assert forall j :: 0 <= j < |ys[1..]| ==> ys[1..][j] == ys[j + 1];
      PrimitiveItemsPresent(xs, ys[1..]);
    }
  }

  /** A fragment list of primitives is a set-like union: the record's list
      is kept as a prefix, every fragment value ends up in the result (up to
      Python equality), and each appended value comes from the fragment and
      was not in the list before it.  When every fragment value is already
      present the list is unchanged. */
  lemma PrimitiveItemsUnion(xs: seq<Json>, ys: seq<Json>)
    requires AllPrimitive(ys)
    ensures MergeItems(xs, ys).Success?
    ensures var zs := MergeItems(xs, ys).value;
            && |xs| <= |zs| && zs[..|xs|] == xs
            && (forall j :: 0 <= j < |ys| ==> Contains(zs, ys[j]))
            && (forall k :: |xs| <= k < |zs| ==> zs[k] in ys && !Contains(zs[..k], zs[k]))
            && ((forall j :: 0 <= j < |ys| ==> Contains(xs, ys[j])) ==> zs == xs)
  {
    PrimitiveItemsPrefix(xs, ys);
    PrimitiveItemsCover(xs, ys);
    if forall j :: 0 <= j < |ys| ==> Contains(xs, ys[j]) {
      PrimitiveItemsPresent(xs, ys);
    }
  }

  // ---------------------------------------------------------------------
  // Idempotence
  // ---------------------------------------------------------------------

  /** Only list entries can raise, so a fragment without lists always
      merges. */
  lemma {:induction false} ListFreeMerges(x: Json, f: Json)
    requires ListFree(f)
    ensures Merge(x, f).Success?
    decreases f, 1
  {
    if x.Obj? && f.Obj? {
      ListFreeFieldsMerge(x.fields, f.fields);
    }
  }

  lemma {:induction false} ListFreeFieldsMerge(a: seq<Field>, b: seq<Field>)
    requires forall i :: 0 <= i < |b| ==> ListFree(b[i].val)
    ensures MergeFields(a, b).Success?
    decreases b, 0
  {
    if b != [] {
      var o := Lookup(a, b[0].key);
      if o.Some? {
        ListFreeMerges(o.value, b[0].val);
      }
      assert MergeKey(a, b[0]).Success?;
      var a1 := MergeKey(a, b[0]).value;
      var rest := b[1..];
      assert forall i :: 0 <= i < |rest| ==> ListFree(rest[i].val) by {
        forall i | 0 <= i < |rest| ensures ListFree(rest[i].val) {
          assert rest[i] == b[i + 1];
        }
      }
      ListFreeFieldsMerge(a1, rest);
      assert MergeFields(a, b) == MergeFields(a1, rest);
    }
  }

  /** Merging fragment fields whose merge into the record's values is a
      no-op leaves the record's fields as they are. */
  lemma {:induction false} FieldsNoop(d: seq<Field>, v: seq<Field>)
    requires forall j :: 0 <= j < |v| ==>
               Lookup(d, v[j].key).Some? &&
               Merge(Lookup(d, v[j].key).value, v[j].val) == Success(Lookup(d, v[j].key).value)
    ensures MergeFields(d, v) == Success(d)
    decreases |v|
  {
    if v != [] {
      assert MergeKey(d, v[0]) == Success(d);
      assert forall j :: 0 <= j < |v[1..]| ==> v[1..][j] == v[j + 1];
      FieldsNoop(d, v[1..]);
    }
  }

  /** A list-free value merged into itself is unchanged. */
  lemma {:induction false} MergeSelf(x: Json)
    requires WF(x) && ListFree(x)
    ensures Merge(x, x) == Success(x)
    decreases x
  {
    if x.Obj? {
      var fs := x.fields;
      forall j | 0 <= j < |fs|
        ensures Lookup(fs, fs[j].key) == Some(fs[j].val)
        ensures Merge(fs[j].val, fs[j].val) == Success(fs[j].val)
      {
        MergeSelf(fs[j].val);
      }
      FieldsNoop(fs, fs);
    }
  }

  /** Sending the same list-free fragment twice has the effect of sending it
      once, whatever the record holds. */
  lemma {:induction false} MergeIdempotent(x: Json, f: Json)
    requires WF(f) && ListFree(f)
    ensures Merge(x, f).Success?
    ensures Merge(Merge(x, f).value, f) == Merge(x, f)
    decreases f
  {
    ListFreeMerges(x, f);
    if x.Obj? && f.Obj? {
      var a := x.fields;
      var b := f.fields;
      var rs := MergeFields(a, b).value;
      MergeFieldsValues(a, b);
      forall j | 0 <= j < |b|
        ensures Lookup(rs, b[j].key).Some?
        ensures Merge(Lookup(rs, b[j].key).value, b[j].val) == Success(Lookup(rs, b[j].key).value)
      {
        match Lookup(a, b[j].key)
        case Some(o) => MergeIdempotent(o, b[j].val);
        case None => MergeSelf(b[j].val);
      }
      FieldsNoop(rs, b);
    } else {
      MergeSelf(f);
    }
  }

  const E1: Json := Obj([Field("a", Str("1"))])
  const E2: Json := Obj([Field("a", Str("2"))])

  /** Two entries that disagree on their first key never fill each other. */
  lemma EntriesDisagree()
    ensures Line50(E1, "a", Str("2")) == Success(false)
    ensures Line50(E2, "a", Str("1")) == Success(false)
    ensures E1.fields[0] == Field("a", Str("1")) && E2.fields[0] == Field("a", Str("2"))
  {
    assert Lookup(E1.fields, "a") == Some(Str("1"));
    assert Lookup(E2.fields, "a") == Some(Str("2"));
  }

  /** The first time, `[E1, E2]` lands in an empty list as it is. */
  lemma ListFragmentFirst()
    ensures Merge(Arr([]), Arr([E1, E2])) == Success(Arr([E1, E2]))
  {
    EntriesDisagree();
    assert [E1] + [E2] == [E1, E2];
    assert MergeEntry([E1, E2], E2, 1) == Success([E1, E2]);
    assert MergeEntry([E1], E2, 0) == Success([E1, E2]);
    assert MergeItems([E1], [E2]) == Success([E1, E2]);
    assert MergeItems([], [E1, E2]) == Success([E1, E2]);
  }

  /** The second time, both entries are appended again. */
  lemma ListFragmentSecond()
    ensures Merge(Arr([E1, E2]), Arr([E1, E2])) == Success(Arr([E1, E2, E1, E2]))
  {
    EntriesDisagree();
    assert [E1, E2] + [E1] == [E1, E2, E1];
    assert [E1, E2, E1] + [E2] == [E1, E2, E1, E2];
    assert MergeEntry([E1, E2, E1], E1, 1) == Success([E1, E2, E1]);
    assert MergeEntry([E1, E2], E1, 0) == Success([E1, E2, E1]);
    assert MergeEntry([E1, E2, E1, E2], E2, 1) == Success([E1, E2, E1, E2]);
    assert MergeEntry([E1, E2, E1], E2, 0) == Success([E1, E2, E1, E2]);
    assert MergeItems([E1, E2, E1], [E2]) == Success([E1, E2, E1, E2]);
    assert MergeItems([E1, E2], [E1, E2]) == Success([E1, E2, E1, E2]);
  }

  /** Idempotence needs the fragment to be list-free: a two-entry list that
      lands in an empty record list is appended again, entry by entry, when
      the same fragment arrives a second time. */
  lemma ListFragmentNotIdempotent()
    ensures var f := Arr([E1, E2]);
            && Merge(Arr([]), f) == Success(f)
            && Merge(f, f) == Success(Arr([E1, E2, E1, E2]))
            && Merge(f, f) != Success(f)
  {
    ListFragmentFirst();
    ListFragmentSecond();
  }

  // ---------------------------------------------------------------------
  // Well-formedness
  // ---------------------------------------------------------------------

  predicate AllWF(xs: seq<Json>) {
    forall i :: 0 <= i < |xs| ==> WF(xs[i])
  }

  predicate FieldsWF(fs: seq<Field>) {
    UniqueKeys(fs) && forall i :: 0 <= i < |fs| ==> WF(fs[i].val)
  }

  /** Merging a well-formed fragment into a well-formed record yields a
      well-formed record: no dict at any depth ends up with a key twice. */
  lemma {:induction false} MergeWF(x: Json, f: Json)
    requires WF(x) && WF(f) && Merge(x, f).Success?
    ensures WF(Merge(x, f).value)
    decreases f, 0
  {
    if x.Obj? && f.Obj? {
      MergeFieldsWF(x.fields, f.fields);
    } else if x.Arr? && f.Arr? {
      MergeItemsWF(x.items, f.items);
    }
  }

  lemma {:induction false} MergeFieldsWF(a: seq<Field>, b: seq<Field>)
    requires FieldsWF(a) && FieldsWF(b) && MergeFields(a, b).Success?
    ensures FieldsWF(MergeFields(a, b).value)
    decreases b, 0
  {
    if b != [] {
      KeysTail(b);
      var o := Lookup(a, b[0].key);
      var m := if o.Some? then Merge(o.value, b[0].val).value else b[0].val;
      if o.Some? {
        assert Field(b[0].key, o.value) in a;
        MergeWF(o.value, b[0].val);
      }
      var a1 := MergeKey(a, b[0]).value;
      assert a1 == Put(a, b[0].key, m);
      assert FieldsWF(a1);
      var rest := b[1..];
      assert FieldsWF(rest) by {
        forall i | 0 <= i < |rest| ensures WF(rest[i].val) {
          assert rest[i] == b[i + 1];
        }
      }
      MergeFieldsWF(a1, rest);
    }
  }

  lemma {:induction false} MergeItemsWF(xs: seq<Json>, ys: seq<Json>)
    requires AllWF(xs) && AllWF(ys) && MergeItems(xs, ys).Success?
    ensures AllWF(MergeItems(xs, ys).value)
    decreases ys, 0
  {
    if ys != [] {
      MergeItemWF(xs, ys[0]);
      var step := MergeItem(xs, ys[0]).value;
      var rest := ys[1..];
      assert AllWF(rest) by {
        forall i | 0 <= i < |rest| ensures WF(rest[i]) {
          assert rest[i] == ys[i + 1];
        }
      }
      MergeItemsWF(step, rest);
    }
  }

  lemma {:induction false} MergeItemWF(xs: seq<Json>, v: Json)
    requires AllWF(xs) && WF(v) && MergeItem(xs, v).Success?
    ensures AllWF(MergeItem(xs, v).value)
    decreases v, 2
  {
    if !IsPrimitive(v) && |xs| > 0 && !v.Arr? {
      MergeEntryWF(xs, v, 0);
    }
  }

  lemma {:induction false} MergeEntryWF(xs: seq<Json>, v: Json, i: nat)
    requires v.Obj? && i <= |v.fields| && |xs| > 0
    requires AllWF(xs) && WF(v) && MergeEntry(xs, v, i).Success?
    ensures AllWF(MergeEntry(xs, v, i).value)
    decreases v, 1, |v.fields| - i + 1
  {
    if i < |v.fields| {
      EntryStepWF(xs, v, i);
      MergeEntryWF(EntryStep(xs, v, i).value, v, i + 1);
    }
  }

  lemma EntryStepWF(xs: seq<Json>, v: Json, i: nat)
    requires v.Obj? && i < |v.fields| && |xs| > 0
    requires AllWF(xs) && WF(v) && EntryStep(xs, v, i).Success?
    ensures AllWF(EntryStep(xs, v, i).value)
    decreases v, 1, 0
  {
    var n := |xs|;
    if Line50(xs[n - 1], v.fields[i].key, v.fields[i].val).value {
      MergeWF(xs[n - 1], v);
      ReplaceLastWF(xs, Merge(xs[n - 1], v).value);
    } else {
      AppendWF(xs, v);
    }
  }

  lemma ReplaceLastWF(xs: seq<Json>, m: Json)
    requires |xs| > 0 && AllWF(xs) && WF(m)
    ensures AllWF(xs[..|xs| - 1] + [m])
  {
    var next := xs[..|xs| - 1] + [m];
    forall k | 0 <= k < |next| ensures WF(next[k]) {
      if k < |xs| - 1 {
        assert next[k] == xs[k];
      }
    }
  }

  lemma AppendWF(xs: seq<Json>, v: Json)
    requires AllWF(xs) && WF(v)
    ensures AllWF(xs + [v])
  {
    var next := xs + [v];
    forall k | 0 <= k < |next| ensures WF(next[k]) {
      if k < |xs| {
        assert next[k] == xs[k];
      }
    }
  }
}
