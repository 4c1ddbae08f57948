/**
 * The `Chatbot` component of web/src/components/chatbot.tsx: a transcript
 * that only grows, a text input and a loading flag. `handleSendMessage` is
 * split at its `await`: `Send` makes the updates before the request and
 * returns the body posted, `Complete` takes the request's outcome.
 */
module Chat {
  import opened Wrappers
  import opened Strings
  import opened Gemini

  /**
   * A transcript entry. The bot's text is whatever the reply held at the
   * read path, so it is a JSON value; a user's text is a string. Ids and
   * timestamps are clock readings and are not part of the model.
   */
  datatype Message = Message(text: Json, isUser: bool)

  /** The entry `handleSendMessage` appends for the typed text, untrimmed. */
  function UserMessage(inputText: string): Message {
    Message(JStr(inputText), true)
  }

  const NoReply: string :=
    "Sorry, I could not" + " generate a respo" + "nse."

  const ErrorReply: string :=
    "Sorry, there was an " + "error processing you" + "r message. Please ch" +
    "eck your API key and" + " try again."

  /** The prompt text before the report summary. */
  const ChatOpening: string :=
    "You are " + "a profes" + "sional m" + "edical a" + "ssistant" + " AI. You" +
    "r task i" + "s to car" + "efully a" + "nalyze p" + "atient d" + "etails a" +
    "nd answe" + "r medica" + "l questi" + "ons accu" + "rately a" + "nd clear" +
    "ly, usin" + "g eviden" + "ce-based" + " reasoni" + "ng.\nPati" + "ent Deta" +
    "ils: "

  /** The prompt text between the summary and the question. */
  const QuestionLabel: string :=
    "\nPatient" + " Questio" + "n: "

  /** The prompt text after the question. */
  const ChatClosing: string :=
    "\n\nInstru" + "ctions:\n" + "- Provid" + "e clear," + " concise" + " answers" +
    ".\n- If u" + "ncertain" + ", indica" + "te that " + "more tes" + "ts or do" +
    "ctor con" + "sultatio" + "n is nee" + "ded.\n- D" + "o not gi" + "ve perso" +
    "nal medi" + "cal diag" + "nosis; o" + "nly prov" + "ide guid" + "ance or " +
    "explanat" + "ions.\n- " + "Use simp" + "le langu" + "age unde" + "rstandab" +
    "le by a " + "patient " + "or careg" + "iver.\n\nA" + "nswer:"

  /**
   * `whole` is `a + b + c + d + e`, each part recoverable by slicing at the
   * lengths of the parts before it.
   */
  predicate Layout(whole: string, a: string, b: string, c: string, d: string, e: string) {
    && |whole| == |a| + |b| + |c| + |d| + |e|
    && whole[..|a|] == a
    && whole[|a|..|a| + |b|] == b
    && whole[|a| + |b|..|a| + |b| + |c|] == c
    && whole[|a| + |b| + |c|..|whole| - |e|] == d
    && whole[|whole| - |e|..] == e
  }

  lemma FiveParts(a: string, b: string, c: string, d: string, e: string)
    ensures Layout(a + b + c + d + e, a, b, c, d, e)
  {
    var w := a + b + c + d + e;
    assert w == (((a + b) + c) + d) + e;
  }

  /**
   * The template literal sent as the prompt: the summary and the question
   * appear verbatim, each at a fixed place inside the instruction text.
   */
  function ChatPrompt(summary: string, question: string): (prompt: string)
    ensures Layout(prompt, ChatOpening, summary, QuestionLabel, question, ChatClosing)
  {
    FiveParts(ChatOpening, summary, QuestionLabel, question, ChatClosing);
    ChatOpening + summary + QuestionLabel + question + ChatClosing
  }

  /** For one report summary, different questions give different prompts. */
  lemma ChatPromptInjective(summary: string, q1: string, q2: string)
    requires ChatPrompt(summary, q1) == ChatPrompt(summary, q2)
    ensures q1 == q2
  {
    var p := ChatPrompt(summary, q1);
    LayoutDetermines(p, ChatOpening, summary, QuestionLabel, q1, q2, ChatClosing);
  }

  /** Two layouts of one string over the same outer parts share their fourth part. */
  lemma LayoutDetermines(w: string, a: string, b: string, c: string, d1: string, d2: string, e: string)
    requires Layout(w, a, b, c, d1, e) && Layout(w, a, b, c, d2, e)
    ensures d1 == d2
  {
  }

  /** What `handleSendMessage` posts: the report summary and the question. */
  datatype ChatRequest = ChatRequest(summary: string, question: string)

  /** `JSON.stringify({contents: [{parts: [{text: prompt}]}]})`, kept as the JSON value. */
  function ChatBody(r: ChatRequest): (body: Json)
    ensures Follow(body, RequestPath) == Some(JStr(ChatPrompt(r.summary, r.question)))
  {
    Request(ChatPrompt(r.summary, r.question))
  }

  /** For one report summary, the posted body determines the question. */
  lemma ChatBodyInjective(r1: ChatRequest, r2: ChatRequest)
    requires r1.summary == r2.summary && ChatBody(r1) == ChatBody(r2)
    ensures r1 == r2
  {
    RequestInjective(ChatPrompt(r1.summary, r1.question), ChatPrompt(r2.summary, r2.question));
    ChatPromptInjective(r1.summary, r1.question, r2.question);
  }

  /**
   * `x?.[0]` and `x?.key` on decoded JSON, `None` for `undefined`: a
   * missing key, an empty array or string, and any property of `null`, a
   * number or a boolean. Unlike Python, `[0]` on an object reads its key `"0"`.
   */
  function JsSubscript(j: Json, step: Step): (r: Option<Json>)
    ensures step.Key? && r.Some? ==> j.JObj? && step.key in j.fields && r.value == j.fields[step.key]
  {
    match step
    case Key(k) =>
      if j.JObj? && k in j.fields then Some(j.fields[k]) else None
    case First =>
      match j
      case JArr(items) => if items != [] then Some(items[0]) else None
      case JStr(s) => if s != [] then Some(JStr([s[0]])) else None
      case JObj(fields) => if "0" in fields then Some(fields["0"]) else None
      case _ => None
  }

  /** An optional chain: `undefined` as soon as one link is. */
  function JsFollow(j: Json, path: seq<Step>): Option<Json>
    decreases |path|
  {
    if path == [] then Some(j)
    else
      var next :- JsSubscript(j, path[0]);
      JsFollow(next, path[1..])
  }

  /** Wherever Python's subscripts find a value, the optional chain finds the same one. */
  lemma {:induction false} JsFollowExtendsPython(j: Json, path: seq<Step>, v: Json)
    requires Follow(j, path) == Some(v)
    ensures JsFollow(j, path) == Some(v)
    decreases |path|
  {
    if path != [] {
      var next := Subscript(j, path[0]);
      assert next.Some?;
      assert JsSubscript(j, path[0]) == next;
      JsFollowExtendsPython(next.value, path[1..], v);
    }
  }

  /** JavaScript truthiness of a decoded JSON value. */
  predicate JsTruthy(j: Json) {
    match j
    case JNull => false
    case JBool(b) => b
    case JNum(n) => n != 0
    case JStr(s) => s != ""
    case JArr(_) => true
    case JObj(_) => true
  }

  /**
   * `data.candidates?.[0]?.content?.parts?.[0]?.text || NoReply`. The first
   * link has no `?.`, so a `null` reply throws and becomes the error message.
   */
  function ReplyText(data: Json): (text: Json)
    ensures JsTruthy(text)
    ensures data.JNull? ==> text == JStr(ErrorReply)
    ensures !data.JNull? ==> text == JStr(NoReply) || Some(text) == JsFollow(data, ReplyPath)
    ensures !data.JNull? && JsFollow(data, ReplyPath).Some? && JsTruthy(JsFollow(data, ReplyPath).value) ==>
      text == JsFollow(data, ReplyPath).value
  {
    if data.JNull? then JStr(ErrorReply)
    else
      match JsFollow(data, ReplyPath)
      case Some(v) => if JsTruthy(v) then v else JStr(NoReply)
      case None => JStr(NoReply)
  }

  /** A reply with text `t` at the read path shows `t`, or the fallback when `t` is empty. */
  lemma ReplyOfCandidate(t: string)
    ensures ReplyText(Nest(ReplyPath, JStr(t))) == (if t != "" then JStr(t) else JStr(NoReply))
  {
    FollowNest(ReplyPath, JStr(t));
    JsFollowExtendsPython(Nest(ReplyPath, JStr(t)), ReplyPath, JStr(t));
  }

  /**
   * The client shows the text the analysis lambda's `call_gemini` would
   * extract from the same reply, whenever that text is non-empty.
   */
  lemma ReplyAgreesWithLambda(data: Json, t: string)
    requires Follow(data, ReplyPath) == Some(JStr(t)) && t != ""
    ensures ReplyText(data) == JStr(t)
  {
    JsFollowExtendsPython(data, ReplyPath, JStr(t));
  }

  /** How the request ended: a decoded OK reply, or a non-OK status or any exception. */
  datatype ChatOutcome = Responded(data: Json) | Failed

  /** The one bot entry appended when the request ends. */
  function BotMessage(outcome: ChatOutcome): (m: Message)
    ensures !m.isUser && JsTruthy(m.text)
    ensures outcome.Failed? ==> m.text == JStr(ErrorReply)
  {
    match outcome
    case Responded(data) => Message(ReplyText(data), false)
    case Failed => Message(JStr(ErrorReply), false)
  }

  /** User and bot entries alternate, starting with a user entry. */
  predicate Alternates(ms: seq<Message>) {
    forall i :: 0 <= i < |ms| ==> ms[i].isUser == (i % 2 == 0)
  }

  /** Appending an entry of the party whose turn it is keeps the transcript alternating. */
  lemma AlternatesSnoc(ms: seq<Message>, m: Message)
    requires Alternates(ms) && m.isUser == (|ms| % 2 == 0)
    ensures Alternates(ms + [m])
    ensures (|ms + [m]| % 2 == 1) == m.isUser
  {
    assert forall i :: 0 <= i < |ms| ==> (ms + [m])[i] == ms[i];
  }

  class Chatbot {
    const reportSummary: string
    var messages: seq<Message>
    var inputText: string
    var isLoading: bool

    /** Serialised sends keep the transcript alternating, a bot reply pending exactly while loading. */
    predicate Valid()
      reads this
    {
      Alternates(messages) && (|messages| % 2 == 1 <==> isLoading)
    }

    /** `disabled={isLoading}` on the input. */
    predicate InputDisabled()
      reads this
    {
      isLoading
    }

    /** `disabled={isLoading || !inputText.trim()}` on the Send button. */
    predicate SendDisabled()
      reads this
    {
      isLoading || Trim(inputText) == ""
    }

    constructor(summary: string)
      ensures reportSummary == summary && messages == [] && inputText == "" && !isLoading
      ensures Valid()
    {
      reportSummary := summary;
      messages := [];
      inputText := "";
      isLoading := false;
    }

    /** `onChange` of the input, which cannot fire while it is disabled. */
    method TypeInput(text: string)
      requires !InputDisabled()
      modifies this
      ensures inputText == text && messages == old(messages) && isLoading == old(isLoading)
      ensures old(Valid()) ==> Valid()
    {
      inputText := text;
    }

    /**
     * `handleSendMessage` up to its `await`. Blank input (after trimming)
     * returns at once; otherwise the untrimmed text is appended as a user
     * entry, the input is cleared, loading starts, and the request posted
     * (its body is `ChatBody`) asks about the text as it was.
     */
    method Send() returns (request: Option<ChatRequest>)
      modifies this
      ensures Trim(old(inputText)) == "" ==>
        request == None && messages == old(messages) && inputText == old(inputText) && isLoading == old(isLoading)
      ensures Trim(old(inputText)) != "" ==>
        && request == Some(ChatRequest(reportSummary, old(inputText)))
        && messages == old(messages) + [UserMessage(old(inputText))]
        && inputText == ""
        && isLoading
      ensures old(Valid()) && !old(isLoading) ==> Valid()
    {
      if Trim(inputText) == "" {
        return None;
      }
      var question := inputText;
      if Valid() && !isLoading {
        AlternatesSnoc(messages, UserMessage(question));
      }
      messages := messages + [UserMessage(question)];
      inputText := "";
      isLoading := true;
      request := Some(ChatRequest(reportSummary, question));
    }

    /** The rest of `handleSendMessage`: exactly one bot entry, and loading ends. */
    method Complete(outcome: ChatOutcome)
      requires isLoading
      modifies this
      ensures messages == old(messages) + [BotMessage(outcome)]
      ensures inputText == old(inputText) && !isLoading
      ensures old(Valid()) ==> Valid()
    {
      if Valid() {
        AlternatesSnoc(messages, BotMessage(outcome));
      }
      messages := messages + [BotMessage(outcome)];
      isLoading := false;
    }
  }

  /** The transcript of serialised exchanges: each question followed by its reply. */
  function Transcript(questions: seq<string>, outcomes: seq<ChatOutcome>): seq<Message>
    requires |questions| == |outcomes|
    decreases |questions|
  {
    if questions == [] then []
    else
      var n := |questions| - 1;
      Transcript(questions[..n], outcomes[..n]) + [UserMessage(questions[n]), BotMessage(outcomes[n])]
  }

  /** Entry `2i` is question `i`, entry `2i + 1` its reply, so the transcript alternates. */
  lemma {:induction false} TranscriptShape(questions: seq<string>, outcomes: seq<ChatOutcome>)
    requires |questions| == |outcomes|
    ensures var t := Transcript(questions, outcomes);
      && |t| == 2 * |questions|
      && Alternates(t)
      && forall i :: 0 <= i < |questions| ==>
           t[2 * i] == UserMessage(questions[i]) && t[2 * i + 1] == BotMessage(outcomes[i])
    decreases |questions|
  {
    if questions != [] {
      var n := |questions| - 1;
      var qs, os := questions[..n], outcomes[..n];
      TranscriptShape(qs, os);
      var t, t0 := Transcript(questions, outcomes), Transcript(qs, os);
      assert t == t0 + [UserMessage(questions[n]), BotMessage(outcomes[n])];
      assert forall i :: 0 <= i < |t0| ==> t[i] == t0[i];
      forall i | 0 <= i < |questions|
        ensures t[2 * i] == UserMessage(questions[i]) && t[2 * i + 1] == BotMessage(outcomes[i])
      {
        if i < n {
          assert qs[i] == questions[i] && os[i] == outcomes[i];
        }
      }
      forall i | 0 <= i < |t|
        ensures t[i].isUser == (i % 2 == 0)
      {
        if i < |t0| {
          assert t[i] == t0[i];
        }
      }
    }
  }

  /** Typing `question`, sending it and completing the request with `outcome`. */
  method Exchange(bot: Chatbot, question: string, outcome: ChatOutcome)
    requires !bot.isLoading && Trim(question) != ""
    modifies bot
    ensures bot.messages == old(bot.messages) + [UserMessage(question), BotMessage(outcome)]
    ensures !bot.isLoading && bot.inputText == ""
  {
    bot.TypeInput(question);
    var request := bot.Send();
    bot.Complete(outcome);
  }

  /**
   * A fresh chatbot asked `questions` one at a time, each send completing
   * with the matching outcome before the next is typed: the transcript is
   * each question followed by its one reply, in order.
   */
  method Conversation(summary: string, questions: seq<string>, outcomes: seq<ChatOutcome>)
    returns (transcript: seq<Message>)
    requires |questions| == |outcomes|
    requires forall i :: 0 <= i < |questions| ==> Trim(questions[i]) != ""
    ensures transcript == Transcript(questions, outcomes)
  {
    var bot := new Chatbot(summary);
    var k := 0;
    while k < |questions|
      invariant 0 <= k <= |questions|
      invariant !bot.isLoading && bot.messages == Transcript(questions[..k], outcomes[..k])
    {
      Exchange(bot, questions[k], outcomes[k]);
      assert questions[..k + 1][..k] == questions[..k] && outcomes[..k + 1][..k] == outcomes[..k];
      k := k + 1;
    }
    assert questions[..k] == questions && outcomes[..k] == outcomes;
    transcript := bot.messages;
  }
}
