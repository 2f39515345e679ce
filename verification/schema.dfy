/** `CV_SCHEMA` (src/schemas.py:4-77): the empty CV record the session
    starts from.  Every leaf is the empty string; sections that hold several
    entries are lists with one blank entry, except two optional lists that
    start empty. */
module Schema {
  import opened Json
  import opened Completion

  /** Lines 5-11. */
  const PersonaliaFields: seq<Field> := [
    Field("Navn", Str("")),
    Field("Fødselsdato", Str("")),
    Field("Epost", Str("")),
    Field("Telefonnummer", Str("")),
    Field("Adresse", Str(""))]

  /** Lines 13-18. */
  const UtdanningEntry: seq<Field> := [
    Field("Grad", Str("")),
    Field("Trinn/Ferdig_år", Str("")),
    Field("Skole", Str("")),
    Field("Ytterligere_informasjon", Str(""))]

  /** Lines 22-27. */
  const StillingEntry: seq<Field> := [
    Field("Tittel", Str("")),
    Field("Firma", Str("")),
    Field("Periode", Str("")),
    Field("Beskrivelse", Str(""))]

  /** Lines 30-34. */
  const DugnadEntry: seq<Field> := [
    Field("Oppdrag", Str("")),
    Field("Periode", Str("")),
    Field("Beskrivelse", Str(""))]

  /** Lines 39-43. */
  const KompetanseEntry: seq<Field> := [
    Field("Ferdighet", Str("")),
    Field("Nivå", Str("")),
    Field("Beskrivelse", Str(""))]

  /** Lines 46-49. */
  const SpraakEntry: seq<Field> := [
    Field("Språk", Str("")),
    Field("Nivå", Str(""))]

  /** Lines 55-58. */
  const InteresseEntry: seq<Field> := [
    Field("Interesse/Hobby", Str("")),
    Field("Beskrivelse", Str(""))]

  /** Lines 63-66. */
  const JobbonskeEntry: seq<Field> := [
    Field("Jobbønske", Str("")),
    Field("Begrunnelse", Str(""))]

  /** Lines 70-75. */
  const ReferanseEntry: seq<Field> := [
    Field("Navn", Str("")),
    Field("Stilling", Str("")),
    Field("Firma", Str("")),
    Field("Kontaktinformasjon", Str(""))]

  const Arbeidserfaring: seq<Field> := [
    Field("Stillinger", Arr([Obj(StillingEntry)])),
    Field("Dugnad", Arr([Obj(DugnadEntry)]))]

  const Ferdigheter: seq<Field> := [
    Field("Ferdigheter_og_kompetanser", Arr([Obj(KompetanseEntry)])),
    Field("Språk", Arr([Obj(SpraakEntry)])),
    Field("Sertifikater", Arr([])),
    Field("Annet", Arr([]))]

  const FremtidigeMaal: seq<Field> := [
    Field("Fremtidsutsikter_og_mål", Str("")),
    Field("Jobbønsker", Arr([Obj(JobbonskeEntry)]))]

  const SchemaFields: seq<Field> := [
    Field("Personalia", Obj(PersonaliaFields)),
    Field("Utdanning", Arr([Obj(UtdanningEntry)])),
    Field("Arbeidserfaring", Obj(Arbeidserfaring)),
    Field("Ferdigheter", Obj(Ferdigheter)),
    Field("Interesser_og_hobbyer", Arr([Obj(InteresseEntry)])),
    Field("Fremtidige_mål", Obj(FremtidigeMaal)),
    Field("Referanser", Arr([Obj(ReferanseEntry)]))]

  const CvSchema: Json := Obj(SchemaFields)

  /** The seven sections, in order. */
  lemma SchemaSections()
    ensures CvSchema.Obj?
    ensures Keys(SchemaFields) ==
              ["Personalia", "Utdanning", "Arbeidserfaring", "Ferdigheter",
               "Interesser_og_hobbyer", "Fremtidige_mål", "Referanser"]
  {
  }

  /** Every value of the dict is the empty string. */
  predicate AllBlank(fs: seq<Field>)
    decreases |fs|
  {
    fs == [] || (fs[0].val == Str("") && AllBlank(fs[1..]))
  }

  /** A dict of blank strings counts one unfilled field per key. */
  lemma {:induction false} BlankCounts(fs: seq<Field>)
    requires AllBlank(fs)
    ensures CountDict(fs) == Counts(|fs|, 0)
    decreases |fs|
  {
    if fs != [] {
      assert CountValue(fs[0].key, fs[0].val) == Counts(1, 0);
      BlankCounts(fs[1..]);
    }
  }

  /** A list holding one blank entry counts the entry's fields. */
  lemma BlankListCounts(key: string, fs: seq<Field>)
    requires AllBlank(fs)
    ensures CountValue(key, Arr([Obj(fs)])) == Counts(|fs|, 0)
  {
    OneEntryList(key, Obj(fs));
    BlankCounts(fs);
  }

  /** A dict value of blank strings counts its fields. */
  lemma BlankDictCounts(key: string, fs: seq<Field>)
    requires AllBlank(fs)
    ensures CountValue(key, Obj(fs)) == Counts(|fs|, 0)
  {
    BlankCounts(fs);
  }

  /** One step from the back of a dict whose fields are all unfilled. */
  lemma UnfilledSuffix(fs: seq<Field>, i: nat, t: nat, rest: nat)
    requires i < |fs|
    requires CountValue(fs[i].key, fs[i].val) == Counts(t, 0)
    requires CountDict(fs[i + 1..]) == Counts(rest, 0)
    ensures CountDict(fs[i..]) == Counts(t + rest, 0)
  {
    assert fs[i..][0] == fs[i] && fs[i..][1..] == fs[i + 1..];
  }

  lemma ArbeidserfaringCounts()
    ensures CountDict(Arbeidserfaring) == Counts(7, 0)
  {
    var a := Arbeidserfaring;
    BlankListCounts("Dugnad", DugnadEntry);
    BlankListCounts("Stillinger", StillingEntry);
    assert a[2..] == [];
    UnfilledSuffix(a, 1, 3, 0);
    UnfilledSuffix(a, 0, 4, 3);
    assert a[0..] == a;
  }

  /** A dict of two fields counts as the sum of its two values. */
  lemma CountTwo(fs: seq<Field>)
    requires |fs| == 2
    ensures CountDict(fs) == CountValue(fs[0].key, fs[0].val).Plus(CountValue(fs[1].key, fs[1].val))
  {
    assert fs[1..][1..] == [];
    assert CountDict(fs[1..]) == CountValue(fs[1].key, fs[1].val).Plus(Counts(0, 0));
  }

  /** A dict of four fields counts as the sum of its four values. */
  lemma CountFour(fs: seq<Field>)
    requires |fs| == 4
    ensures CountDict(fs) ==
              CountValue(fs[0].key, fs[0].val).Plus(
              CountValue(fs[1].key, fs[1].val).Plus(
              CountValue(fs[2].key, fs[2].val).Plus(
              CountValue(fs[3].key, fs[3].val))))
  {
    CountTwo(fs[2..]);
    assert CountDict(fs[1..]) == CountValue(fs[1].key, fs[1].val).Plus(CountDict(fs[2..])) by {
      assert fs[1..][1..] == fs[2..];
    }
  }

  /** The two optional lists count nothing. */
  lemma FerdigheterCounts()
    ensures CountDict(Ferdigheter) == Counts(5, 0)
  {
    var f := Ferdigheter;
    BlankListCounts(f[0].key, KompetanseEntry);
    BlankListCounts(f[1].key, SpraakEntry);
    assert CountValue(f[2].key, f[2].val) == Counts(0, 0);
    assert CountValue(f[3].key, f[3].val) == Counts(0, 0);
    CountFour(f);
  }

  lemma FremtidigeMaalCounts()
    ensures CountDict(FremtidigeMaal) == Counts(3, 0)
  {
    var m := FremtidigeMaal;
    BlankListCounts("Jobbønsker", JobbonskeEntry);
    assert m[2..] == [];
    UnfilledSuffix(m, 1, 2, 0);
    UnfilledSuffix(m, 0, 1, 2);
    assert m[0..] == m;
  }

  /** Each section counts its blank fields. */
  lemma FirstSectionCounts()
    ensures CountValue("Personalia", Obj(PersonaliaFields)) == Counts(5, 0)
    ensures CountValue("Utdanning", Arr([Obj(UtdanningEntry)])) == Counts(4, 0)
    ensures CountValue("Arbeidserfaring", Obj(Arbeidserfaring)) == Counts(7, 0)
  {
    BlankDictCounts("Personalia", PersonaliaFields);
    BlankListCounts("Utdanning", UtdanningEntry);
    ArbeidserfaringCounts();
  }

  lemma LastSectionCounts()
    ensures CountValue("Ferdigheter", Obj(Ferdigheter)) == Counts(5, 0)
    ensures CountValue("Interesser_og_hobbyer", Arr([Obj(InteresseEntry)])) == Counts(2, 0)
    ensures CountValue("Fremtidige_mål", Obj(FremtidigeMaal)) == Counts(3, 0)
    ensures CountValue("Referanser", Arr([Obj(ReferanseEntry)])) == Counts(4, 0)
  {
    FerdigheterCounts();
    BlankListCounts("Interesser_og_hobbyer", InteresseEntry);
    FremtidigeMaalCounts();
    BlankListCounts("Referanser", ReferanseEntry);
  }

  /** A dict of seven fields counts as the sum of its seven values. */
  lemma {:induction false} CountSeven(fs: seq<Field>)
    requires |fs| == 7
    ensures CountDict(fs) ==
              CountValue(fs[0].key, fs[0].val).Plus(
              CountValue(fs[1].key, fs[1].val).Plus(
              CountValue(fs[2].key, fs[2].val).Plus(
              CountValue(fs[3].key, fs[3].val).Plus(
              CountValue(fs[4].key, fs[4].val).Plus(
              CountValue(fs[5].key, fs[5].val).Plus(
              CountValue(fs[6].key, fs[6].val)))))))
  {
    assert fs[6..][1..] == [];
    assert CountDict(fs[6..]) == CountValue(fs[6].key, fs[6].val).Plus(Counts(0, 0));
    assert CountDict(fs[5..]) == CountValue(fs[5].key, fs[5].val).Plus(CountDict(fs[6..])) by {
      assert fs[5..][1..] == fs[6..];
    }
    assert CountDict(fs[4..]) == CountValue(fs[4].key, fs[4].val).Plus(CountDict(fs[5..])) by {
      assert fs[4..][1..] == fs[5..];
    }
    assert CountDict(fs[3..]) == CountValue(fs[3].key, fs[3].val).Plus(CountDict(fs[4..])) by {
      assert fs[3..][1..] == fs[4..];
    }
    assert CountDict(fs[2..]) == CountValue(fs[2].key, fs[2].val).Plus(CountDict(fs[3..])) by {
      assert fs[2..][1..] == fs[3..];
    }
    assert CountDict(fs[1..]) == CountValue(fs[1].key, fs[1].val).Plus(CountDict(fs[2..])) by {
      assert fs[1..][1..] == fs[2..];
    }
  }

  /** The empty record counts 30 fields, none of them filled. */
  lemma SchemaCounts()
    ensures CountFields(CvSchema) == Counts(30, 0)
  {
    CountSeven(SchemaFields);
    FirstSectionCounts();
    LastSectionCounts();
  }

  /** So the completion score of a fresh session is 0. */
  lemma SchemaScore()
    ensures Score(CvSchema) == 0.0
  {
    SchemaCounts();
  }

  // ---------------------------------------------------------------------
  // The shape of the schema
  // ---------------------------------------------------------------------

  /** A list holding exactly one entry, a dict of blank strings. */
  predicate TemplateList(xs: seq<Json>) {
    |xs| == 1 && xs[0].Obj? && AllBlank(xs[0].fields)
  }

  /** The value under `key` is `""` if a scalar; if a list, it is empty
      exactly when the key names an optional list, and a template list
      otherwise; if a dict, its values are shaped in turn. */
  predicate Shaped(key: string, j: Json)
    decreases j
  {
    match j
    case Str(s) => s == []
    case Arr(xs) => (xs == [] <==> OptionalList(key)) && (xs == [] || TemplateList(xs))
    case Obj(fs) => forall i :: 0 <= i < |fs| ==> Shaped(fs[i].key, fs[i].val)
    case _ => false
  }

  /** Each value of a blank dict is `""`. */
  lemma {:induction false} AllBlankAt(fs: seq<Field>, i: nat)
    requires AllBlank(fs) && i < |fs|
    ensures fs[i].val == Str("")
    decreases i
  {
    if i > 0 {
      AllBlankAt(fs[1..], i - 1);
    }
  }

  lemma BlankShaped(fs: seq<Field>)
    requires AllBlank(fs)
    ensures forall key :: Shaped(key, Obj(fs))
  {
    forall i | 0 <= i < |fs|
      ensures Shaped(fs[i].key, fs[i].val)
    {
      AllBlankAt(fs, i);
    }
  }

  lemma ArbeidserfaringShaped()
    ensures Shaped("Arbeidserfaring", Obj(Arbeidserfaring))
  {
    var fs := Arbeidserfaring;
    assert Shaped(fs[0].key, fs[0].val) by { assert AllBlank(StillingEntry); }
    assert Shaped(fs[1].key, fs[1].val) by { assert AllBlank(DugnadEntry); }
  }

  lemma FerdigheterShaped()
    ensures Shaped("Ferdigheter", Obj(Ferdigheter))
  {
    var fs := Ferdigheter;
    assert Shaped(fs[0].key, fs[0].val) by { assert AllBlank(KompetanseEntry); }
    assert Shaped(fs[1].key, fs[1].val) by { assert AllBlank(SpraakEntry); }
    assert Shaped(fs[2].key, fs[2].val) && Shaped(fs[3].key, fs[3].val);
  }

  lemma FremtidigeMaalShaped()
    ensures Shaped("Fremtidige_mål", Obj(FremtidigeMaal))
  {
    var fs := FremtidigeMaal;
    assert Shaped(fs[0].key, fs[0].val);
    assert Shaped(fs[1].key, fs[1].val) by { assert AllBlank(JobbonskeEntry); }
  }

  /** Every scalar of the schema is `""`; every list but two holds one
      blank flat entry. */
  lemma SchemaShaped()
    ensures forall key :: Shaped(key, CvSchema)
  {
    FirstSectionsShaped();
    LastSectionsShaped();
  }

  lemma FirstSectionsShaped()
    ensures forall i :: 0 <= i < 4 ==> Shaped(SchemaFields[i].key, SchemaFields[i].val)
  {
    var fs := SchemaFields;
    assert Shaped(fs[0].key, fs[0].val) by { BlankShaped(PersonaliaFields); }
    assert Shaped(fs[1].key, fs[1].val) by { assert AllBlank(UtdanningEntry); }
    assert Shaped(fs[2].key, fs[2].val) by { ArbeidserfaringShaped(); }
    assert Shaped(fs[3].key, fs[3].val) by { FerdigheterShaped(); }
  }

  lemma LastSectionsShaped()
    ensures forall i :: 4 <= i < 7 ==> Shaped(SchemaFields[i].key, SchemaFields[i].val)
  {
    var fs := SchemaFields;
    assert Shaped(fs[4].key, fs[4].val) by { assert AllBlank(InteresseEntry); }
    assert Shaped(fs[5].key, fs[5].val) by { FremtidigeMaalShaped(); }
    assert Shaped(fs[6].key, fs[6].val) by { assert AllBlank(ReferanseEntry); }
  }
}


