/** `calculate_cv_completion` and its inner `count_fields`
    (src/data_utils.py:129-189): the share of the CV's fields that hold a
    value.  `count_fields` is only ever called with `is_required=True`, so
    that parameter is not modelled. */
module Completion {
  import opened Json
  import opened PyStr

  /** A `(total, filled)` pair of `count_fields`. */
  datatype Counts = Counts(total: nat, filled: nat)
  {
    function Plus(o: Counts): Counts {
      Counts(total + o.total, filled + o.filled)
    }

    predicate Sound() {
      filled <= total
    }
  }

  /** Empty lists under these keys are not counted (line 166). */
  predicate OptionalList(key: string) {
    key == "Sertifikater" || key == "Annet"
  }

  /** `s.strip()` is truthy: by the contract of `Strip`, exactly when `s`
      is not all whitespace. */
  predicate NonBlank(s: string) {
    !AllSpace(s)
  }

  lemma NonBlankIsStrip(s: string)
    ensures NonBlank(s) <==> Strip(s) != []
  {
  }

  /** `value and str(value).strip()` for a primitive (line 171): a string
      counts when it is not all whitespace, a number when it is non-zero, a
      boolean when it is `True`, `None` never. */
  predicate Filled(v: Json) {
    Truthy(v) && (v.Str? ==> NonBlank(v.s))
  }

  /** Lines 144-172: the fields of a dict, summed. */
  function CountDict(fs: seq<Field>): (c: Counts)
    ensures c.Sound()
    decreases fs, 0
  {
    if fs == [] then Counts(0, 0)
    else CountValue(fs[0].key, fs[0].val).Plus(CountDict(fs[1..]))
  }

  /** Lines 145-172: one dict value under `key`. */
  function CountValue(key: string, v: Json): (c: Counts)
    ensures c.Sound()
    ensures IsPrimitive(v) ==> c == Counts(1, if Filled(v) then 1 else 0)
    ensures v == Arr([]) ==> c == Counts(if OptionalList(key) then 0 else 1, 0)
    decreases v, 1
  {
    match v
    case Obj(fs) => CountDict(fs)
    case Arr(xs) =>
      if |xs| > 0 then CountListItems(xs)
      else Counts(if OptionalList(key) then 0 else 1, 0)
    case _ => Counts(1, if Filled(v) then 1 else 0)
  }

  /** Lines 154-163: the entries of a non-empty list value, summed. */
  function CountListItems(xs: seq<Json>): (c: Counts)
    ensures c.Sound()
    decreases xs, 0
  {
    if xs == [] then Counts(0, 0)
    else CountItem(xs[0]).Plus(CountListItems(xs[1..]))
  }

  /** Lines 155-163: a dict entry is counted field by field, a string entry
      is one field, anything else in a list is ignored. */
  function CountItem(x: Json): (c: Counts)
    ensures c.Sound()
    ensures x.Str? ==> c == Counts(1, if NonBlank(x.s) then 1 else 0)
    ensures !x.Str? && !x.Obj? ==> c == Counts(0, 0)
    decreases x, 1
  {
    match x
    case Obj(fs) => CountDict(fs)
    case Str(s) => Counts(1, if NonBlank(s) then 1 else 0)
    case _ => Counts(0, 0)
  }

  /** `count_fields(data)` (lines 138-179): a dict field by field, a list
      entry by entry, anything else nothing. */
  function CountFields(data: Json): (c: Counts)
    ensures c.Sound()
    ensures !data.Obj? && !data.Arr? ==> c == Counts(0, 0)
    decreases data, 0
  {
    match data
    case Obj(fs) => CountDict(fs)
    case Arr(xs) => CountEach(xs)
    case _ => Counts(0, 0)
  }

  /** Lines 173-177. */
  function CountEach(xs: seq<Json>): (c: Counts)
    ensures c.Sound()
    decreases xs
  {
    if xs == [] then Counts(0, 0)
    else CountFields(xs[0]).Plus(CountEach(xs[1..]))
  }

  /** `calculate_cv_completion(cv_dict)` (lines 181-189), with the float
      division as a real one. */
  function Score(cv: Json): (r: real)
    ensures 0.0 <= r <= 1.0
    ensures r == 1.0 <==>
              Truthy(cv) && CountFields(cv).total > 0 &&
              CountFields(cv).filled == CountFields(cv).total
    ensures !Truthy(cv) || CountFields(cv).filled == 0 ==> r == 0.0
  {
    if !Truthy(cv) then 0.0
    else
      var c := CountFields(cv);
      if c.total == 0 then 0.0
      else
        RatioBounds(c.filled, c.total);
        c.filled as real / c.total as real
  }

  lemma RatioBounds(f: nat, t: nat)
    requires 0 < t && f <= t
    ensures 0.0 <= f as real / t as real <= 1.0
    ensures f as real / t as real == 1.0 <==> f == t
    ensures f == 0 ==> f as real / t as real == 0.0
  {
    var q := f as real / t as real;
    var tr := t as real;
    assert q * tr == f as real;
    assert (q - 1.0) * tr == f as real - tr;
    if f < t {
      assert (q - 1.0) * tr < 0.0;
    }
  }

  // ---------------------------------------------------------------------
  // A reference for "every counted field is filled"
  // ---------------------------------------------------------------------

  /** No field that `count_fields` counts is left empty: every primitive is
      filled, every empty list is one of the optional ones, every string in
      a list is not blank, and the same for every dict inside. */
  predicate NoGapValue(key: string, v: Json)
    decreases v, 1
  {
    match v
    case Obj(fs) => NoGapDict(fs)
    case Arr(xs) =>
      if |xs| > 0 then forall i :: 0 <= i < |xs| ==> NoGapItem(xs[i])
      else OptionalList(key)
    case _ => Filled(v)
  }

  predicate NoGapDict(fs: seq<Field>)
    decreases fs, 0
  {
    forall i :: 0 <= i < |fs| ==> NoGapValue(fs[i].key, fs[i].val)
  }

  predicate NoGapItem(x: Json)
    decreases x, 1
  {
    match x
    case Obj(fs) => NoGapDict(fs)
    case Str(s) => NonBlank(s)
    case _ => true
  }

  predicate Complete(cv: Json)
    decreases cv
  {
    match cv
    case Obj(fs) => NoGapDict(fs)
    case Arr(xs) => forall i :: 0 <= i < |xs| ==> Complete(xs[i])
    case _ => true
  }

  /** Two sound counts add up to a full one exactly when both are full. */
  lemma PlusFull(a: Counts, b: Counts)
    requires a.Sound() && b.Sound()
    ensures a.Plus(b).filled == a.Plus(b).total <==> a.filled == a.total && b.filled == b.total
  {
  }

  lemma {:induction false} CountDictFull(fs: seq<Field>)
    ensures CountDict(fs).filled == CountDict(fs).total <==> NoGapDict(fs)
    decreases fs, 0
  {
    if fs != [] {
      CountValueFull(fs[0].key, fs[0].val);
      CountDictFull(fs[1..]);
      PlusFull(CountValue(fs[0].key, fs[0].val), CountDict(fs[1..]));
      assert forall i :: 1 <= i < |fs| ==> fs[i] == fs[1..][i - 1];
    }
  }

  lemma {:induction false} CountValueFull(key: string, v: Json)
    ensures CountValue(key, v).filled == CountValue(key, v).total <==> NoGapValue(key, v)
    decreases v, 1
  {
    match v
    case Obj(fs) => CountDictFull(fs);
    case Arr(xs) =>
      if |xs| > 0 {
        CountListItemsFull(xs);
      }
    case _ =>
  }

  lemma {:induction false} CountListItemsFull(xs: seq<Json>)
    ensures CountListItems(xs).filled == CountListItems(xs).total <==>
              forall i :: 0 <= i < |xs| ==> NoGapItem(xs[i])
    decreases xs, 0
  {
    if xs != [] {
      var head := CountItem(xs[0]);
      var tail := CountListItems(xs[1..]);
      assert CountListItems(xs) == head.Plus(tail);
      CountItemFull(xs[0]);
      CountListItemsFull(xs[1..]);
      PlusFull(head, tail);
      NoGapItemsCons(xs);
    }
  }

  lemma NoGapItemsCons(xs: seq<Json>)
    requires xs != []
    ensures (forall i :: 0 <= i < |xs| ==> NoGapItem(xs[i])) <==>
            NoGapItem(xs[0]) && forall i :: 0 <= i < |xs[1..]| ==> NoGapItem(xs[1..][i])
  {
    assert forall i :: 1 <= i < |xs| ==> xs[i] == xs[1..][i - 1];
  }

  lemma {:induction false} CountItemFull(x: Json)
    ensures CountItem(x).filled == CountItem(x).total <==> NoGapItem(x)
    decreases x, 1
  {
    if x.Obj? {
      CountDictFull(x.fields);
    }
  }

  lemma {:induction false} CountFieldsFull(cv: Json)
    ensures CountFields(cv).filled == CountFields(cv).total <==> Complete(cv)
    decreases cv, 0
  {
    match cv
    case Obj(fs) => CountDictFull(fs);
    case Arr(xs) => CountEachFull(xs);
    case _ =>
  }

  lemma CompleteCons(xs: seq<Json>)
    requires xs != []
    ensures (forall i :: 0 <= i < |xs| ==> Complete(xs[i])) <==>
            Complete(xs[0]) && forall i :: 0 <= i < |xs[1..]| ==> Complete(xs[1..][i])
  {
    assert forall i :: 1 <= i < |xs| ==> xs[i] == xs[1..][i - 1];
  }

  lemma {:induction false} CountEachFull(xs: seq<Json>)
    ensures CountEach(xs).filled == CountEach(xs).total <==>
              forall i :: 0 <= i < |xs| ==> Complete(xs[i])
    decreases xs
  {
    if xs != [] {
      var head := CountFields(xs[0]);
      var tail := CountEach(xs[1..]);
      assert CountEach(xs) == head.Plus(tail);
      CountFieldsFull(xs[0]);
      CountEachFull(xs[1..]);
      PlusFull(head, tail);
      CompleteCons(xs);
    }
  }

  /** The score is 1.0 exactly when the record is non-empty, has at least
      one counted field, and leaves no counted field empty. */
  lemma ScoreFull(cv: Json)
    ensures Score(cv) == 1.0 <==> Truthy(cv) && CountFields(cv).total > 0 && Complete(cv)
  {
    CountFieldsFull(cv);
  }

  // ---------------------------------------------------------------------
  // Composition
  // ---------------------------------------------------------------------

  /** Counting a dict is additive over its entries, so the order in which
      Python walks them does not matter. */
  lemma {:induction false} CountDictAppend(a: seq<Field>, b: seq<Field>)
    ensures CountDict(a + b) == CountDict(a).Plus(CountDict(b))
    decreases |a|
  {
    if a == [] {
      assert a + b == b;
    } else {
      var ab := a + b;
      assert ab[0] == a[0] && ab[1..] == a[1..] + b;
      assert CountDict(ab) == CountValue(a[0].key, a[0].val).Plus(CountDict(a[1..] + b));
      CountDictAppend(a[1..], b);
    }
  }

  lemma CountDictSingle(f: Field)
    ensures CountDict([f]) == CountValue(f.key, f.val)
  {
    assert [f][1..] == [];
  }

  /** Counting `a`, then one entry, then `b`. */
  lemma CountDictSplit(a: seq<Field>, f: Field, b: seq<Field>)
    ensures CountDict(a + [f] + b) == CountDict(a).Plus(CountValue(f.key, f.val)).Plus(CountDict(b))
  {
    CountDictAppend(a + [f], b);
    CountDictAppend(a, [f]);
    CountDictSingle(f);
  }

  /** A list value with one entry counts as that entry. */
  lemma OneEntryList(key: string, o: Json)
    ensures CountValue(key, Arr([o])) == CountItem(o)
  {
    NonEmptyListValue(key, [o]);
    SingleItem(o);
  }

  lemma NonEmptyListValue(key: string, xs: seq<Json>)
    requires xs != []
    ensures CountValue(key, Arr(xs)) == CountListItems(xs)
  {
  }

  lemma SingleItem(o: Json)
    ensures CountListItems([o]) == CountItem(o)
  {
    var c := CountItem(o);
    assert [o][1..] == [];
    assert c.Plus(Counts(0, 0)) == c;
  }

  lemma CountCons(f: Field, rest: seq<Field>)
    ensures CountDict([f] + rest) == CountValue(f.key, f.val).Plus(CountDict(rest))
  {
    assert ([f] + rest)[0] == f && ([f] + rest)[1..] == rest;
  }

  /** An empty optional list adds nothing to either count. */
  lemma OptionalEmptyListNeutral(a: seq<Field>, key: string, b: seq<Field>)
    requires OptionalList(key)
    ensures CountDict(a + [Field(key, Arr([]))] + b) == CountDict(a + b)
  {
    var f := Field(key, Arr([]));
    var ca := CountDict(a);
    var cb := CountDict(b);
    CountDictSplit(a, f, b);
    assert CountValue(f.key, f.val) == Counts(0, 0);
    assert ca.Plus(Counts(0, 0)) == ca;
    CountDictAppend(a, b);
    assert CountDict(a + b) == ca.Plus(cb);
  }

  /** Filling one empty primitive field of a dict (a blank string replaced
      by a non-blank one) adds one filled field and keeps the total. */
  lemma FillFieldAddsOne(a: seq<Field>, key: string, blank: string, text: string, b: seq<Field>)
    requires !NonBlank(blank) && NonBlank(text)
    ensures var before := CountDict(a + [Field(key, Str(blank))] + b);
            var after := CountDict(a + [Field(key, Str(text))] + b);
            after.total == before.total && after.filled == before.filled + 1
  {
    var ca := CountDict(a);
    var cb := CountDict(b);
    CountDictSplit(a, Field(key, Str(blank)), b);
    CountDictSplit(a, Field(key, Str(text)), b);
    assert !Filled(Str(blank)) && Filled(Str(text));
    assert CountValue(key, Str(blank)) == Counts(1, 0);
    assert CountValue(key, Str(text)) == Counts(1, 1);
    var before := ca.Plus(Counts(1, 0)).Plus(cb);
    var after := ca.Plus(Counts(1, 1)).Plus(cb);
    assert after.total == before.total == ca.total + 1 + cb.total;
    assert after.filled == ca.filled + 1 + cb.filled == before.filled + 1;
  }
}
