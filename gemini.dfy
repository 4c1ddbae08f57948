/**
 * `call_gemini` of lambda/medical-report-analysis/lambda_function.py: the
 * request it posts and the way it reads the answer out of the reply.
 *
 * JSON values are a datatype; the HTTP post, `raise_for_status` and
 * `resp.json()` together are one parameter that yields the decoded reply or
 * `str(e)` of the exception raised.
 */
module Gemini {
  import opened Wrappers

  /** A decoded JSON value (numbers are integers here). */
  datatype Json =
    | JNull
    | JBool(b: bool)
    | JNum(n: int)
    | JStr(s: string)
    | JArr(items: seq<Json>)
    | JObj(fields: map<string, Json>)

  /** One subscript of a path: `[key]` with a string key, or `[0]`. */
  datatype Step = Key(key: string) | First

  /**
   * `j[key]` or `j[0]` as Python evaluates it on decoded JSON, `None` where
   * Python raises (a missing key, an empty list or string, a subscript the
   * value's type does not support; an object's keys are strings, so `[0]`
   * on it is a `KeyError`).
   */
  function Subscript(j: Json, step: Step): (r: Option<Json>)
    ensures r.Some? && step.Key? ==> j.JObj? && step.key in j.fields && r.value == j.fields[step.key]
    ensures r.Some? && step.First? ==> (j.JArr? && j.items != [] && r.value == j.items[0]) ||
                                       (j.JStr? && j.s != [] && r.value == JStr([j.s[0]]))
  {
    match step
    case Key(k) =>
      if j.JObj? && k in j.fields then Some(j.fields[k]) else None
    case First =>
      match j
      case JArr(items) => if items != [] then Some(items[0]) else None
      case JStr(s) => if s != [] then Some(JStr([s[0]])) else None
      case _ => None
  }

  /** The value at `path` inside `j`, or `None` when a subscript raises. */
  function Follow(j: Json, path: seq<Step>): Option<Json>
    decreases |path|
  {
    if path == [] then Some(j)
    else
      var next :- Subscript(j, path[0]);
      Follow(next, path[1..])
  }

  /** The smallest JSON value holding `leaf` at `path`. */
  function Nest(path: seq<Step>, leaf: Json): Json
    decreases |path|
  {
    if path == [] then leaf
    else
      match path[0]
      case Key(k) => JObj(map[k := Nest(path[1..], leaf)])
      case First => JArr([Nest(path[1..], leaf)])
  }

  /** Reading back what was nested returns it. */
  lemma {:induction false} FollowNest(path: seq<Step>, leaf: Json)
    ensures Follow(Nest(path, leaf), path) == Some(leaf)
    decreases |path|
  {
    if path != [] {
      FollowNest(path[1..], leaf);
    }
  }

  /** Prefixing a path: the rest is followed from where the prefix leads. */
  lemma {:induction false} FollowAppend(j: Json, p: seq<Step>, q: seq<Step>)
    ensures Follow(j, p + q) == (match Follow(j, p) case Some(v) => Follow(v, q) case None => None)
    decreases |p|
  {
    if p == [] {
      assert p + q == q;
    } else {
      assert (p + q)[0] == p[0] && (p + q)[1..] == p[1..] + q;
      match Subscript(j, p[0])
      case Some(next) => FollowAppend(next, p[1..], q);
      case None =>
    }
  }

  /** `["contents"][0]["parts"][0]["text"]` of the request body. */
  const RequestPath: seq<Step> := [Key("contents"), First, Key("parts"), First, Key("text")]

  /** `["candidates"][0]["content"]["parts"][0]["text"]` of the reply. */
  const ReplyPath: seq<Step> := [Key("candidates"), First, Key("content"), Key("parts"), First, Key("text")]

  /** `{"contents": [{"parts": [{"text": prompt}]}]}` */
  function Request(prompt: string): (body: Json)
    ensures Follow(body, RequestPath) == Some(JStr(prompt))
  {
    FollowNest(RequestPath, JStr(prompt));
    Nest(RequestPath, JStr(prompt))
  }

  /** The body posts are made with determines the prompt. */
  lemma RequestInjective(p: string, q: string)
    requires Request(p) == Request(q)
    ensures p == q
  {
    assert Follow(Request(p), RequestPath) == Some(JStr(p));
  }

  /**
   * What `call_gemini` returns: the value at the reply path, or the JSON text
   * of the whole reply (`json.dumps(data)`, kept symbolic).
   */
  datatype Answer = Extracted(value: Json) | Dumped(data: Json)

  /** `call_gemini(prompt)`, with `post` standing for the HTTP exchange. */
  function CallGemini(prompt: string, post: Json -> Result<Json, string>): (r: Result<Answer, string>)
    ensures post(Request(prompt)).Err? ==> r == Err(post(Request(prompt)).error)
    ensures post(Request(prompt)).Ok? ==> r.Ok?
  {
    var data :- post(Request(prompt));
    match Follow(data, ReplyPath)
    case Some(v) => Ok(Extracted(v))
    case None => Ok(Dumped(data))
  }

  /**
   * A reply carrying a value at the reply path yields that value; any other
   * reply yields the dump of the whole reply.
   */
  lemma AnswerOf(prompt: string, post: Json -> Result<Json, string>, data: Json)
    requires post(Request(prompt)) == Ok(data)
    ensures Follow(data, ReplyPath).Some? ==> CallGemini(prompt, post) == Ok(Extracted(Follow(data, ReplyPath).value))
    ensures Follow(data, ReplyPath).None? ==> CallGemini(prompt, post) == Ok(Dumped(data))
  {
  }

  /** A reply whose first candidate's first part has text `t` yields `t`. */
  lemma CandidateText(prompt: string, post: Json -> Result<Json, string>, t: string)
    requires post(Request(prompt)) == Ok(Nest(ReplyPath, JStr(t)))
    ensures CallGemini(prompt, post) == Ok(Extracted(JStr(t)))
  {
    FollowNest(ReplyPath, JStr(t));
  }

  /** A reply with no candidates falls back to the dump. */
  lemma NoCandidates(prompt: string, post: Json -> Result<Json, string>)
    requires post(Request(prompt)) == Ok(JObj(map["candidates" := JArr([])]))
    ensures CallGemini(prompt, post) == Ok(Dumped(JObj(map["candidates" := JArr([])])))
  {
    var data := JObj(map["candidates" := JArr([])]);
    FollowAppend(data, ReplyPath[..2], ReplyPath[2..]);
    assert ReplyPath[..2] + ReplyPath[2..] == ReplyPath;
    assert Follow(data, ReplyPath[..2]) == None by {
      assert ReplyPath[..2] == [Key("candidates"), First];
      FollowAppend(data, [Key("candidates")], [First]);
    }
  }
}
