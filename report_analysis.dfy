/**
 * `lambda_handler`, `patient_summary_prompt` and `patient_bio_makers_prompt`
 * of lambda/medical-report-analysis/lambda_function.py.
 *
 * `json.loads` of the request body and `str()` of a non-string JSON value
 * are parameters (library code); Gemini is reached through `CallGemini`
 * with the HTTP exchange as a parameter. The instruction prose of the two
 * prompts is a parameter too: the model fixes the text between the values
 * the prompts embed, not the wording of the instructions around them.
 */
module ReportAnalysis {
  import opened Wrappers
  import opened LambdaEvents
  import opened Gemini

  // ---------------------------------------------------------------------------
  // Python semantics of the values the handler touches

  /** The truth value of a decoded JSON value. */
  predicate Truthy(j: Json) {
    match j
    case JNull => false
    case JBool(b) => b
    case JNum(n) => n != 0
    case JStr(s) => s != ""
    case JArr(items) => items != []
    case JObj(fields) => fields != map[]
  }

  /** `type(j).__name__` */
  function TypeName(j: Json): string {
    match j
    case JNull => "NoneType"
    case JBool(_) => "bool"
    case JNum(_) => "int"
    case JStr(_) => "str"
    case JArr(_) => "list"
    case JObj(_) => "dict"
  }

  /** `j.get(key, default)`: only a dict has `get`. */
  function Get(j: Json, key: string, default: Json): (r: Result<Json, string>)
    ensures j.JObj? <==> r.Ok?
    ensures j.JObj? ==> r.value == (if key in j.fields then j.fields[key] else default)
  {
    if j.JObj? then Ok(if key in j.fields then j.fields[key] else default)
    else Err("'" + TypeName(j) + "' object has no attribute 'get'")
  }

  /** `str(KeyError(key))` */
  function KeyErrorMessage(key: string): string {
    "'" + key + "'"
  }

  /** `j[key]` with a string key, or `str(e)` of the exception it raises. */
  function Lookup(j: Json, key: string): (r: Result<Json, string>)
    ensures r.Ok? <==> j.JObj? && key in j.fields
    ensures r.Ok? ==> r.value == j.fields[key]
    ensures j.JObj? && key !in j.fields ==> r == Err(KeyErrorMessage(key))
  {
    match j
    case JObj(fields) => if key in fields then Ok(fields[key]) else Err(KeyErrorMessage(key))
    case JArr(_) => Err("list indices must be integers or slices, not str")
    case JStr(_) => Err("string indices must be integers, not 'str'")
    case _ => Err("'" + TypeName(j) + "' object is not subscriptable")
  }

  /** `f"{j}"`: a string as it is, any other value as `str()` renders it. */
  function Format(j: Json, show: Json -> string): (t: string)
    ensures j.JStr? ==> t == j.s
  {
    if j.JStr? then j.s else show(j)
  }

  // ---------------------------------------------------------------------------
  // The prompt templates

  /**
   * An f-string whose holes are all written `${...}`, so that a `$` precedes
   * each value: `parts[0] + "$" + values[0] + parts[1] + "$" + ...`.
   */
  function Fill(parts: seq<string>, values: seq<string>): string
    requires |parts| == |values| + 1
    decreases |values|
  {
    if values == [] then parts[0]
    else parts[0] + "$" + values[0] + Fill(parts[1..], values[1..])
  }

  /** Where hole `i` starts in the filled text. */
  function Offset(parts: seq<string>, values: seq<string>, i: nat): nat
    requires |parts| == |values| + 1 && i < |values|
    decreases i
  {
    if i == 0 then |parts[0]| + 1
    else |parts[0]| + 1 + |values[0]| + Offset(parts[1..], values[1..], i - 1)
  }

  /** Each value sits verbatim in its hole. */
  lemma {:induction false} FillEmbeds(parts: seq<string>, values: seq<string>, i: nat)
    requires |parts| == |values| + 1 && i < |values|
    ensures Offset(parts, values, i) + |values[i]| <= |Fill(parts, values)|
    ensures Fill(parts, values)[Offset(parts, values, i)..Offset(parts, values, i) + |values[i]|] == values[i]
    decreases i
  {
    var rest := Fill(parts[1..], values[1..]);
    var head := parts[0] + "$" + values[0];
    assert Fill(parts, values) == head + rest;
    if i == 0 {
      assert (head + rest)[|parts[0]| + 1..|head|] == values[0];
    } else {
      FillEmbeds(parts[1..], values[1..], i - 1);
      var o := Offset(parts[1..], values[1..], i - 1);
      assert values[1..][i - 1] == values[i];
      assert (head + rest)[|head| + o..|head| + o + |values[i]|] == rest[o..o + |values[i]|];
    }
  }

  /** The filled text and the lengths of the values determine the values. */
  lemma FillInjective(parts: seq<string>, v: seq<string>, w: seq<string>)
    requires |parts| == |v| + 1 && |v| == |w|
    requires forall i :: 0 <= i < |v| ==> |v[i]| == |w[i]|
    requires Fill(parts, v) == Fill(parts, w)
    ensures v == w
  {
    forall i | 0 <= i < |v| ensures v[i] == w[i] {
      FillEmbeds(parts, v, i);
      FillEmbeds(parts, w, i);
      OffsetSameLengths(parts, v, w, i);
    }
  }

  lemma {:induction false} OffsetSameLengths(parts: seq<string>, v: seq<string>, w: seq<string>, i: nat)
    requires |parts| == |v| + 1 && |v| == |w| && i < |v|
    requires forall k :: 0 <= k < |v| ==> |v[k]| == |w[k]|
    ensures Offset(parts, v, i) == Offset(parts, w, i)
    decreases i
  {
    if i > 0 {
      assert |v[0]| == |w[0]|;
      assert forall k :: 0 <= k < |v[1..]| ==> v[1..][k] == v[k + 1] && w[1..][k] == w[k + 1];
      OffsetSameLengths(parts[1..], v[1..], w[1..], i - 1);
    }
  }

  /**
   * A prompt template: six fixed parts around five holes, the part after the
   * fourth value (the weight) opening with `kg`.
   */
  predicate Template(parts: seq<string>) {
    |parts| == 6 && |parts[4]| >= 2 && parts[4][..2] == "kg"
  }

  /** `v` is written in `p` at offset `o`, right after a `$`. */
  predicate Embeds(p: string, o: int, v: string) {
    0 < o && o + |v| <= |p| && p[o - 1] == '$' && p[o..o + |v|] == v
  }

  /** `p` continues with `kg` at offset `o`. */
  predicate KilogramsAt(p: string, o: int) {
    0 <= o && o + 2 <= |p| && p[o..o + 2] == "kg"
  }

  /**
   * In a prompt built from a template, every value sits verbatim right after
   * a `$`, and the weight is followed by `kg`.
   */
  lemma TemplateEmbeds(parts: seq<string>, values: seq<string>, i: nat)
    requires Template(parts) && |values| == 5 && i < 5
    ensures Embeds(Fill(parts, values), Offset(parts, values, i), values[i])
    ensures KilogramsAt(Fill(parts, values), Offset(parts, values, 3) + |values[3]|)
  {
    FillEmbeds(parts, values, i);
    DollarBeforeHole(parts, values, i);
    HoleFollowedBy(parts, values, 3);
    var o := Offset(parts, values, 3) + |values[3]|;
    var f := Fill(parts, values);
    assert f[o..o + 2] == f[o..o + |parts[4]|][..2];
  }

  /**
   * The instruction prose of the two prompts, whose wording is not
   * modelled: what each prompt writes before the report's `$` and what it
   * writes after the symptoms.
   */
  datatype Prose = Prose(summaryOpening: string, summaryClosing: string,
                         biomarkerOpening: string, biomarkerClosing: string)

  /** The parts of `patient_summary_prompt` around its five values. */
  function SummaryParts(prose: Prose): (parts: seq<string>)
    ensures Template(parts)
  {
    var parts := [
      prose.summaryOpening,
      "\n\n[FORM DATA]:\nAge: ",
      "\nGender: ",
      "\nWeight: ",
      "kg" + "\nRecent Symptoms: ",
      prose.summaryClosing];
    assert parts[4][..2] == "kg";
    parts
  }

  /** The parts of `patient_bio_makers_prompt` around its five values. */
  function BiomarkerParts(prose: Prose): (parts: seq<string>)
    ensures Template(parts)
  {
    var parts := [
      prose.biomarkerOpening,
      "\n\n[FORM DATA]: Key-value " + "pairs with patient " + "demographic and " +
        "lifestyle information." + "\nAge: ",
      "\nGender: ",
      "\nWeight: ",
      "kg" + "\nRecent Symptoms: ",
      prose.biomarkerClosing];
    assert parts[4][..2] == "kg";
    parts
  }

  /**
   * The five values both prompts embed, in order: the report, then the
   * patient's age, gender, weight and symptoms; the first missing field is
   * the `KeyError`.
   */
  function PromptValues(report: Json, details: Json, show: Json -> string): (r: Result<seq<string>, string>)
    ensures r.Ok? <==> details.JObj? && "age" in details.fields && "gender" in details.fields &&
                       "weight" in details.fields && "symptoms" in details.fields
    ensures r.Ok? ==> r.value == [Format(report, show), Format(details.fields["age"], show),
                                  Format(details.fields["gender"], show), Format(details.fields["weight"], show),
                                  Format(details.fields["symptoms"], show)]
    ensures details.JObj? && "age" !in details.fields ==> r == Err(KeyErrorMessage("age"))
    ensures details.JObj? && "age" in details.fields && "gender" !in details.fields ==> r == Err(KeyErrorMessage("gender"))
    ensures details.JObj? && "age" in details.fields && "gender" in details.fields && "weight" !in details.fields ==>
      r == Err(KeyErrorMessage("weight"))
    ensures (details.JObj? && "age" in details.fields && "gender" in details.fields &&
             "weight" in details.fields && "symptoms" !in details.fields) ==>
      r == Err(KeyErrorMessage("symptoms"))
  {
    var age :- Lookup(details, "age");
    var gender :- Lookup(details, "gender");
    var weight :- Lookup(details, "weight");
    var symptoms :- Lookup(details, "symptoms");
    Ok([Format(report, show), Format(age, show), Format(gender, show), Format(weight, show), Format(symptoms, show)])
  }

  /** `patient_summary_prompt(report_content, patient_details)` */
  function SummaryPrompt(prose: Prose, report: Json, details: Json, show: Json -> string): Result<string, string> {
    var values :- PromptValues(report, details, show);
    Ok(Fill(SummaryParts(prose), values))
  }

  /** `patient_bio_makers_prompt(report_content, patient_details)` */
  function BiomarkerPrompt(prose: Prose, report: Json, details: Json, show: Json -> string): Result<string, string> {
    var values :- PromptValues(report, details, show);
    Ok(Fill(BiomarkerParts(prose), values))
  }

  /** Both prompts fail together, with the same `KeyError`. */
  lemma PromptsFailTogether(prose: Prose, report: Json, details: Json, show: Json -> string)
    ensures SummaryPrompt(prose, report, details, show).Ok? <==> PromptValues(report, details, show).Ok?
    ensures BiomarkerPrompt(prose, report, details, show).Ok? <==> PromptValues(report, details, show).Ok?
    ensures PromptValues(report, details, show).Err? ==>
      SummaryPrompt(prose, report, details, show) == BiomarkerPrompt(prose, report, details, show)
  {
  }

  /**
   * The summary prompt writes each of the five values `v` verbatim after a
   * `$`, and the weight is followed by `kg`.
   */
  lemma SummaryEmbedsInputs(prose: Prose, report: Json, details: Json, show: Json -> string, v: seq<string>, i: nat)
    requires PromptValues(report, details, show) == Ok(v) && i < 5
    ensures SummaryPrompt(prose, report, details, show).Ok?
    ensures Embeds(SummaryPrompt(prose, report, details, show).value, Offset(SummaryParts(prose), v, i), v[i])
    ensures KilogramsAt(SummaryPrompt(prose, report, details, show).value, Offset(SummaryParts(prose), v, 3) + |v[3]|)
  {
    TemplateEmbeds(SummaryParts(prose), v, i);
  }

  /**
   * The biomarker prompt writes each of the five values `v` verbatim after a
   * `$`, and the weight is followed by `kg`.
   */
  lemma BiomarkerEmbedsInputs(prose: Prose, report: Json, details: Json, show: Json -> string, v: seq<string>, i: nat)
    requires PromptValues(report, details, show) == Ok(v) && i < 5
    ensures BiomarkerPrompt(prose, report, details, show).Ok?
    ensures Embeds(BiomarkerPrompt(prose, report, details, show).value, Offset(BiomarkerParts(prose), v, i), v[i])
    ensures KilogramsAt(BiomarkerPrompt(prose, report, details, show).value, Offset(BiomarkerParts(prose), v, 3) + |v[3]|)
  {
    TemplateEmbeds(BiomarkerParts(prose), v, i);
  }

  /** Each hole is preceded by the `$` of its `${...}`. */
  lemma {:induction false} DollarBeforeHole(parts: seq<string>, values: seq<string>, i: nat)
    requires |parts| == |values| + 1 && i < |values|
    ensures 0 < Offset(parts, values, i) <= |Fill(parts, values)|
    ensures Fill(parts, values)[Offset(parts, values, i) - 1] == '$'
    decreases i
  {
    var rest := Fill(parts[1..], values[1..]);
    var head := parts[0] + "$" + values[0];
    assert Fill(parts, values) == head + rest;
    if i == 0 {
      assert (head + rest)[|parts[0]|] == '$';
    } else {
      DollarBeforeHole(parts[1..], values[1..], i - 1);
      var o := Offset(parts[1..], values[1..], i - 1);
      assert (head + rest)[|head| + o - 1] == rest[o - 1];
    }
  }

  /** The text after hole `i` starts with part `i + 1`. */
  lemma {:induction false} HoleFollowedBy(parts: seq<string>, values: seq<string>, i: nat)
    requires |parts| == |values| + 1 && i < |values|
    ensures Offset(parts, values, i) + |values[i]| + |parts[i + 1]| <= |Fill(parts, values)|
    ensures var o := Offset(parts, values, i) + |values[i]|;
      Fill(parts, values)[o..o + |parts[i + 1]|] == parts[i + 1]
    decreases i
  {
    var rest := Fill(parts[1..], values[1..]);
    var head := parts[0] + "$" + values[0];
    assert Fill(parts, values) == head + rest;
    if i == 0 {
      StartsWithPart(parts[1..], values[1..]);
      assert (head + rest)[|head|..|head| + |parts[1]|] == rest[..|parts[1]|];
    } else {
      HoleFollowedBy(parts[1..], values[1..], i - 1);
      var o := Offset(parts[1..], values[1..], i - 1) + |values[1..][i - 1]|;
      assert values[1..][i - 1] == values[i] && parts[1..][i] == parts[i + 1];
      assert (head + rest)[|head| + o..|head| + o + |parts[i + 1]|] == rest[o..o + |parts[i + 1]|];
    }
  }

  lemma StartsWithPart(parts: seq<string>, values: seq<string>)
    requires |parts| == |values| + 1
    ensures |parts[0]| <= |Fill(parts, values)| && Fill(parts, values)[..|parts[0]|] == parts[0]
  {
    if values != [] {
      var rest := Fill(parts[1..], values[1..]);
      assert Fill(parts, values) == parts[0] + ("$" + values[0] + rest);
    }
  }

  // ---------------------------------------------------------------------------
  // The handler

  const MissingInput: string := "Missing report_content or patient_details"

  /**
   * A reply body: empty, the JSON text of `{"error": message}`, or the JSON
   * text of the two analyses (`json.dumps` kept symbolic).
   */
  datatype Body =
    | Blank
    | ErrorObject(message: string)
    | Analysis(patientSummary: Answer, patientBiomakersTrends: Answer)

  /** The reply; the CORS headers are not modelled. */
  datatype Reply = Reply(statusCode: int, body: Body)

  /** `json.loads(event.get("body", "{}"))` */
  function RequestBody(e: Event, parse: string -> Result<Json, string>): Result<Json, string> {
    if e.body.None? then Ok(JObj(map[])) else parse(e.body.value)
  }

  /** The `try` block: a reply, or `str(e)` of the first exception raised. */
  function Routed(prose: Prose, e: Event, parse: string -> Result<Json, string>,
                  post: Json -> Result<Json, string>, show: Json -> string): Result<Reply, string>
  {
    var body :- RequestBody(e, parse);
    var report :- Get(body, "report_content", JStr(""));
    var details :- Get(body, "patient_details", JObj(map[]));
    if !Truthy(report) || !Truthy(details) then Ok(Reply(400, ErrorObject(MissingInput)))
    else
      var summaryPrompt :- SummaryPrompt(prose, report, details, show);
      var summary :- CallGemini(summaryPrompt, post);
      var biomarkerPrompt :- BiomarkerPrompt(prose, report, details, show);
      var trends :- CallGemini(biomarkerPrompt, post);
      Ok(Reply(200, Analysis(summary, trends)))
  }

  /** `lambda_handler(event, context)`. */
  function Handle(prose: Prose, e: Event, parse: string -> Result<Json, string>,
                  post: Json -> Result<Json, string>, show: Json -> string): (r: Reply)
    ensures IsPreflight(e) ==> r == Reply(200, Blank)
    ensures r.statusCode in {200, 400, 500}
    ensures r.statusCode == 400 ==> r.body == ErrorObject(MissingInput)
    ensures r.statusCode == 500 ==> r.body.ErrorObject?
    ensures r.statusCode == 200 && !IsPreflight(e) ==> r.body.Analysis?
  {
    if IsPreflight(e) then Reply(200, Blank)
    else
      match Routed(prose, e, parse, post, show)
      case Ok(reply) => reply
      case Err(m) => Reply(500, ErrorObject(m))
  }

  /** The request fields, when the body decodes to an object. */
  predicate Fields(e: Event, parse: string -> Result<Json, string>, report: Json, details: Json) {
    match RequestBody(e, parse)
    case Ok(JObj(f)) =>
      report == (if "report_content" in f then f["report_content"] else JStr("")) &&
      details == (if "patient_details" in f then f["patient_details"] else JObj(map[]))
    case _ => false
  }

  /**
   * A preflight, and a request whose `report_content` or `patient_details`
   * is missing or empty, are answered without calling Gemini: the reply is the
   * same whatever Gemini would answer, and the latter is a 400.
   */
  lemma GeminiNotCalled(prose: Prose, e: Event, parse: string -> Result<Json, string>, show: Json -> string,
                        post1: Json -> Result<Json, string>, post2: Json -> Result<Json, string>,
                        report: Json, details: Json)
    requires IsPreflight(e) || (Fields(e, parse, report, details) && (!Truthy(report) || !Truthy(details)))
    ensures Handle(prose, e, parse, post1, show) == Handle(prose, e, parse, post2, show)
    ensures !IsPreflight(e) ==> Handle(prose, e, parse, post1, show) == Reply(400, ErrorObject(MissingInput))
  {
  }

  /** The 400 reply is given exactly for a missing or empty input. */
  lemma BadRequestExactly(prose: Prose, e: Event, parse: string -> Result<Json, string>, post: Json -> Result<Json, string>,
                          show: Json -> string)
    requires !IsPreflight(e)
    ensures Handle(prose, e, parse, post, show).statusCode == 400 <==>
      exists report, details :: Fields(e, parse, report, details) && (!Truthy(report) || !Truthy(details))
  {
    var r := Handle(prose, e, parse, post, show);
    match RequestBody(e, parse)
    case Ok(JObj(f)) =>
      var report := if "report_content" in f then f["report_content"] else JStr("");
      var details := if "patient_details" in f then f["patient_details"] else JObj(map[]);
      assert Fields(e, parse, report, details);
    case _ =>
  }

  /**
   * A 200 reply to a request holds the Gemini answer to the summary prompt
   * and then the one to the biomarker prompt, both built from the request.
   */
  lemma AnalysisReply(prose: Prose, e: Event, parse: string -> Result<Json, string>, post: Json -> Result<Json, string>,
                      show: Json -> string, report: Json, details: Json)
    requires !IsPreflight(e) && Fields(e, parse, report, details)
    requires Handle(prose, e, parse, post, show).statusCode == 200
    ensures Truthy(report) && Truthy(details)
    ensures SummaryPrompt(prose, report, details, show).Ok? && BiomarkerPrompt(prose, report, details, show).Ok?
    ensures CallGemini(SummaryPrompt(prose, report, details, show).value, post).Ok?
    ensures CallGemini(BiomarkerPrompt(prose, report, details, show).value, post).Ok?
    ensures Handle(prose, e, parse, post, show).body ==
      Analysis(CallGemini(SummaryPrompt(prose, report, details, show).value, post).value,
               CallGemini(BiomarkerPrompt(prose, report, details, show).value, post).value)
  {
  }

  /**
   * Every exception is a 500 with its message: an undecodable body, a body
   * that is not an object, a missing patient field, a failed Gemini call.
   */
  lemma ErrorReplies(prose: Prose, e: Event, parse: string -> Result<Json, string>, post: Json -> Result<Json, string>,
                     show: Json -> string, report: Json, details: Json)
    requires !IsPreflight(e)
    ensures e.body.Some? && parse(e.body.value).Err? ==>
      Handle(prose, e, parse, post, show) == Reply(500, ErrorObject(parse(e.body.value).error))
    ensures e.body.Some? && parse(e.body.value).Ok? && !parse(e.body.value).value.JObj? ==>
      Handle(prose, e, parse, post, show) ==
        Reply(500, ErrorObject("'" + TypeName(parse(e.body.value).value) + "' object has no attribute 'get'"))
    ensures (Fields(e, parse, report, details) && Truthy(report) && Truthy(details) &&
             details.JObj? && "age" !in details.fields) ==>
      Handle(prose, e, parse, post, show) == Reply(500, ErrorObject(KeyErrorMessage("age")))
    ensures (Fields(e, parse, report, details) && Truthy(report) && Truthy(details) &&
             SummaryPrompt(prose, report, details, show).Ok? &&
             post(Request(SummaryPrompt(prose, report, details, show).value)).Err?) ==>
      Handle(prose, e, parse, post, show) ==
        Reply(500, ErrorObject(post(Request(SummaryPrompt(prose, report, details, show).value)).error))
  {
  }

}
