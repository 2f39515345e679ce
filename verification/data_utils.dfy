/** The helpers of src/data_utils.py around `deep_update`: folding a decoded
    reply into the session's CV record, reading the personalia out of a
    reply, and turning a markdown bullet list into a list of examples. */
module DataUtils {
  import opened Wrappers
  import opened Json
  import opened PyStr
  import DeepUpdate
  import DeepUpdateProps
  import Schema

  /** `json.loads`: the decoded value, or `None` where it raises
      `JSONDecodeError`. */
  type Decoder = string -> Option<Json>

  // ---------------------------------------------------------------------
  // save_json_str_to_dict (lines 65-79)
  // ---------------------------------------------------------------------

  /** The record `CV_dict` holds after one reply.  `cv` is its value before,
      `None` when the session has none yet, in which case it starts as the
      schema.  Text that does not decode leaves the record as it was; a
      merge that raises propagates, and nothing is claimed about the record
      then. */
  function SaveJsonStrToDict(cv: Option<Json>, jsonStr: string, decode: Decoder)
    : (r: Result<Json, DeepUpdate.MergeError>)
    ensures decode(jsonStr).None? ==> r == Success(cv.GetOr(Schema.CvSchema))
    ensures decode(jsonStr).Some? && !decode(jsonStr).value.Obj? && !decode(jsonStr).value.Arr? ==>
              r == Success(decode(jsonStr).value)
    ensures cv.GetOr(Schema.CvSchema).Obj? && decode(jsonStr).Some? && !decode(jsonStr).value.Obj? ==>
              r == Success(decode(jsonStr).value)
    ensures r.Success? && cv.GetOr(Schema.CvSchema).Obj? &&
              decode(jsonStr).Some? && decode(jsonStr).value.Obj? ==>
              r.value.Obj?
  {
    var base := cv.GetOr(Schema.CvSchema);
    match decode(jsonStr)
    case None => Success(base)
    case Some(d) => DeepUpdate.Merge(base, d)
  }

  /** On a fresh session a dict reply keeps the seven schema sections, and
      every section the reply does not mention stays the blank template. */
  lemma FreshRecordKeepsSections(jsonStr: string, decode: Decoder, k: string)
    requires decode(jsonStr).Some? && decode(jsonStr).value.Obj?
    requires UniqueKeys(decode(jsonStr).value.fields)
    requires SaveJsonStrToDict(None, jsonStr, decode).Success?
    ensures var r := SaveJsonStrToDict(None, jsonStr, decode).value;
            && r.Obj?
            && Keys(Schema.SchemaFields) <= Keys(r.fields)
            && (k !in Keys(decode(jsonStr).value.fields) ==>
                  Lookup(r.fields, k) == Lookup(Schema.SchemaFields, k))
  {
    var d := decode(jsonStr).value;
    DeepUpdateProps.DictMergeKeywise(Schema.SchemaFields, d.fields);
  }

  // ---------------------------------------------------------------------
  // extract_personalia_from_json (lines 82-102)
  // ---------------------------------------------------------------------

  /** The exceptions lines 94-100 can raise. */
  datatype PersonaliaError =
    /** `json.loads` rejects the text (line 94). */
    | DecodeError
    /** A dict without the subscripted key (lines 95-96). */
    | KeyError(key: string)
    /** Subscripting a value that is not a dict (lines 95-96). */
    | TypeError
    /** Name or date of birth equal to `""` (lines 99-100). */
    | ValueError

  datatype Personalia = Personalia(name: Json, dob: Json)

  /** `j[key]` for a string key. */
  function Subscript(j: Json, key: string): (r: Result<Json, PersonaliaError>)
    ensures r.Success? <==> j.Obj? && key in Keys(j.fields)
    ensures r.Success? ==> Field(key, r.value) in j.fields
    ensures !j.Obj? ==> r == Failure(TypeError)
    ensures j.Obj? && key !in Keys(j.fields) ==> r == Failure(KeyError(key))
  {
    if !j.Obj? then Failure(TypeError)
    else
      match Lookup(j.fields, key)
      case Some(v) => Success(v)
      case None => Failure(KeyError(key))
  }

  /** `d[k1][k2]` as a plain partial lookup, with no account of which
      exception a miss raises. */
  function Path(d: Json, k1: string, k2: string): Option<Json> {
    if d.Obj? && Lookup(d.fields, k1).Some? && Lookup(d.fields, k1).value.Obj? then
      Lookup(Lookup(d.fields, k1).value.fields, k2)
    else None
  }

  /** Python's `x == ""` holds only for the empty string itself. */
  lemma PyEqEmpty(x: Json)
    ensures PyEq(x, Str("")) <==> x == Str("")
  {
  }

  /** The name and date of birth of a reply, or the exception Python raises.
      It succeeds exactly when both `["Personalia"]["Navn"]` and
      `["Personalia"]["Fødselsdato"]` exist and neither is the empty string;
      a whitespace-only value passes. */
  function ExtractPersonalia(jsonStr: string, decode: Decoder): (r: Result<Personalia, PersonaliaError>)
    ensures decode(jsonStr).None? ==> r == Failure(DecodeError)
    ensures r.Success? <==>
              && decode(jsonStr).Some?
              && var d := decode(jsonStr).value;
                 && Path(d, "Personalia", "Navn").Some?
                 && Path(d, "Personalia", "Fødselsdato").Some?
                 && Path(d, "Personalia", "Navn").value != Str("")
                 && Path(d, "Personalia", "Fødselsdato").value != Str("")
    ensures r.Success? ==>
              var d := decode(jsonStr).value;
              r.value == Personalia(Path(d, "Personalia", "Navn").value,
                                    Path(d, "Personalia", "Fødselsdato").value)
    ensures r == Failure(ValueError) ==>
              var d := decode(jsonStr).value;
              Path(d, "Personalia", "Navn").Some? && Path(d, "Personalia", "Fødselsdato").Some?
  {
    var d :- match decode(jsonStr) case Some(d) => Success(d) case None => Failure(DecodeError);
    var p :- Subscript(d, "Personalia");
    var name :- Subscript(p, "Navn");
    var dob :- Subscript(p, "Fødselsdato");
    PyEqEmpty(name);
    PyEqEmpty(dob);
    if PyEq(name, Str("")) || PyEq(dob, Str("")) then Failure(ValueError)
    else Success(Personalia(name, dob))
  }

  // ---------------------------------------------------------------------
  // parse_examples_to_list (lines 105-126)
  // ---------------------------------------------------------------------

  /** Lines 120-124 for one line: a line that, trimmed, starts with `"- "`
      or `"* "` gives its trimmed text after the marker; any other line
      gives nothing.  The text is never empty and has no whitespace at
      either end. */
  function BulletText(line: string): (r: Option<string>)
    ensures r.Some? <==> Marked(Strip(line))
    ensures Marked(Strip(line)) ==> r == Some(Strip(Strip(line)[2..]))
    ensures r.Some? ==> r.value != [] && Strip(r.value) == r.value
  {
    var l := Strip(line);
    if Marked(l) then
      MarkedText(l);
      Some(Strip(l[2..]))
    else None
  }

  /** `l.startswith('- ') or l.startswith('* ')`. */
  predicate Marked(l: string) {
    StartsWith(l, "- ") || StartsWith(l, "* ")
  }

  /** A trimmed marked line has text after its marker. */
  lemma MarkedText(l: string)
    requires Marked(l) && !IsSpace(l[|l| - 1])
    ensures |l| >= 3
    ensures var t := Strip(l[2..]); t != [] && Strip(t) == t
  {
    assert l[1] == l[..2][1] == ' ';
    var rest := l[2..];
    assert rest[|rest| - 1] == l[|l| - 1];
    StripNoEdges(Strip(rest));
  }

  /** The bullet texts of `lines`, in order. */
  function BulletTexts(lines: seq<string>): seq<string>
    decreases |lines|
  {
    if lines == [] then []
    else
      var n := |lines|;
      BulletTexts(lines[..n - 1]) + match BulletText(lines[n - 1]) case Some(t) => [t] case None => []
  }

  /** One more line of the loop adds that line's bullet text, if any. */
  lemma BulletTextsPrefix(lines: seq<string>, i: nat)
    requires i < |lines|
    ensures BulletTexts(lines[..i + 1]) ==
              BulletTexts(lines[..i]) + match BulletText(lines[i]) case Some(t) => [t] case None => []
  {
    assert lines[..i + 1][..i] == lines[..i];
  }

  /** A non-empty string with no whitespace at either end. */
  predicate Trimmed(x: string) {
    x != [] && Strip(x) == x
  }

  /** Every bullet text is trimmed and non-empty. */
  lemma {:induction false} BulletTextsTrimmed(lines: seq<string>)
    ensures forall k :: 0 <= k < |BulletTexts(lines)| ==> Trimmed(BulletTexts(lines)[k])
    decreases |lines|
  {
    if lines != [] {
      var n := |lines|;
      var front := BulletTexts(lines[..n - 1]);
      BulletTextsTrimmed(lines[..n - 1]);
      match BulletText(lines[n - 1]) {
        case Some(t) =>
          TrimmedSnoc(front, t);
        case None =>
          assert BulletTexts(lines) == front + [];
          assert front + [] == front;
      }
    }
  }

  lemma TrimmedSnoc(xs: seq<string>, t: string)
    requires forall k :: 0 <= k < |xs| ==> Trimmed(xs[k])
    requires Trimmed(t)
    ensures forall k :: 0 <= k < |xs + [t]| ==> Trimmed((xs + [t])[k])
  {
  }

  /** What `parse_examples_to_list` returns. */
  function ParseExamples(md: string): seq<string> {
    if md == [] then [] else BulletTexts(Split(Strip(md), '\n'))
  }

  /** Lines 114-126: the loop over the lines of the trimmed text. */
  method ParseExamplesToList(md: string) returns (examples: seq<string>)
    ensures examples == ParseExamples(md)
    ensures forall i :: 0 <= i < |examples| ==> examples[i] != [] && Strip(examples[i]) == examples[i]
    ensures md == [] ==> examples == []
  {
    if md == [] {
      return [];
    }
    var lines := Split(Strip(md), '\n');
    examples := [];
    var i := 0;
    while i < |lines|
      invariant 0 <= i <= |lines|
      invariant examples == BulletTexts(lines[..i])
    {
      var t := BulletText(lines[i]);
      BulletTextsPrefix(lines, i);
      match t {
        case Some(x) => examples := examples + [x];
        case None =>
      }
      i := i + 1;
    }
    assert lines[..|lines|] == lines;
    BulletTextsTrimmed(lines);
  }

  /** A bullet list written one `"- "` line per item. */
  function RenderBullets(items: seq<string>): string {
    Join(DashLines(items), "\n")
  }

  /** Items that survive a round trip: non-empty, already trimmed, one line. */
  predicate CleanItem(x: string) {
    x != [] && !IsSpace(x[0]) && !IsSpace(x[|x| - 1]) && '\n' !in x
  }

  lemma BulletLine(x: string)
    requires CleanItem(x)
    ensures BulletText("- " + x) == Some(x)
  {
    var l := "- " + x;
    DashLine(x);
    StripNoEdges(l);
    StripNoEdges(x);
    MarkedBullet(l, l);
  }

  /** The pieces of `"- " + x`. */
  lemma DashLine(x: string)
    requires x != []
    ensures var l := "- " + x;
            && l[0] == '-' && l[|l| - 1] == x[|x| - 1]
            && Marked(l) && l[2..] == x
  {
    var l := "- " + x;
    assert l[..2] == "- ";
  }

  /** `BulletText` of a line whose trimmed form is the marked line `l`. */
  lemma MarkedBullet(line: string, l: string)
    requires Strip(line) == l && Marked(l)
    ensures BulletText(line) == Some(Strip(l[2..]))
  {
  }

  /** The lines `"- " + x` of the items. */
  function DashLines(xs: seq<string>): (lines: seq<string>)
    ensures |lines| == |xs|
    ensures forall i :: 0 <= i < |xs| ==> lines[i] == "- " + xs[i]
  {
    seq(|xs|, i requires 0 <= i < |xs| => "- " + xs[i])
  }

  lemma {:induction false} BulletLines(xs: seq<string>)
    requires forall i :: 0 <= i < |xs| ==> CleanItem(xs[i])
    ensures BulletTexts(DashLines(xs)) == xs
    decreases |xs|
  {
    if xs != [] {
      var lines := DashLines(xs);
      var n := |xs|;
      var front := xs[..n - 1];
      assert lines[..n - 1] == DashLines(front);
      BulletLines(front);
      BulletLine(xs[n - 1]);
      BulletTextsStep(lines, xs[n - 1]);
      LastSplit(xs);
    }
  }

  lemma LastSplit<T>(xs: seq<T>)
    requires xs != []
    ensures xs == xs[..|xs| - 1] + [xs[|xs| - 1]]
  {
  }

  /** The last line contributes its bullet text. */
  lemma BulletTextsStep(lines: seq<string>, t: string)
    requires lines != [] && BulletText(lines[|lines| - 1]) == Some(t)
    ensures BulletTexts(lines) == BulletTexts(lines[..|lines| - 1]) + [t]
  {
  }

  /** Parsing a rendered list of clean items gives the items back. */
  lemma ParseRendered(items: seq<string>)
    requires forall i :: 0 <= i < |items| ==> CleanItem(items[i])
    ensures ParseExamples(RenderBullets(items)) == items
  {
    if items != [] {
      RenderedSplit(items);
      BulletLines(items);
    }
  }

  /** The trimmed rendering splits back into its dash lines. */
  lemma RenderedSplit(items: seq<string>)
    requires items != []
    requires forall i :: 0 <= i < |items| ==> CleanItem(items[i])
    ensures Split(Strip(RenderBullets(items)), '\n') == DashLines(items)
  {
    RenderedEdges(items);
    StripNoEdges(RenderBullets(items));
    DashLinesOneLine(items);
    JoinThenSplit(DashLines(items), '\n');
  }

  /** A rendered non-empty list starts with a dash and ends with the last
      character of its last item. */
  lemma RenderedEdges(items: seq<string>)
    requires items != [] && CleanItem(items[0]) && CleanItem(items[|items| - 1])
    ensures var md := RenderBullets(items);
            md != [] && !IsSpace(md[0]) && !IsSpace(md[|md| - 1])
  {
    var lines := DashLines(items);
    var md := RenderBullets(items);
    JoinEnds(lines, "\n");
    var x := items[|items| - 1];
    DashLine(items[0]);
    var last := lines[|lines| - 1];
    DashLine(x);
    assert md[0] == lines[0][0];
    assert md[|md| - 1] == last[|last| - 1];
  }

  lemma DashLinesOneLine(xs: seq<string>)
    requires forall i :: 0 <= i < |xs| ==> CleanItem(xs[i])
    ensures forall i :: 0 <= i < |xs| ==> '\n' !in DashLines(xs)[i]
  {
    forall i | 0 <= i < |xs|
      ensures '\n' !in DashLines(xs)[i]
    {
      assert DashLines(xs)[i] == "- " + xs[i];
    }
  }
}
