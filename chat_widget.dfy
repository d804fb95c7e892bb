/** The trip planner of the chat widget: a question-by-question state
    machine with a step counter and an answers map, run in the browser
    before anything is sent to the server. */
module ChatWidget {
  import opened PyText
  import opened Wrappers

  /** The keys of the eight planner questions, in the order they are asked. */
  const PlanKeys: seq<string> := ["name", "address", "city", "phone", "destination", "query", "budget", "days"]

  const PlanLabels: seq<string> := ["Your full name", "Your address", "Your city", "Your phone number",
                                    "Where do you want to visit?", "Any specific query or preference?",
                                    "Your budget (₹)", "Number of days for the trip"]

  /** The names the summary gives the eight answers. */
  const SummaryNames: seq<string> := ["Name", "Address", "City", "Phone", "Destination", "Query", "Budget", "Days"]

  const IntroLine := "Great! I will ask you a few questions to plan your trip. You can type \"cancel\" anytime to stop."
  const CancelLine := "Trip planner cancelled. You can start again anytime."
  const PhoneRejected := "Please enter a valid phone number."
  const BudgetRejected := "Please enter a numeric budget (₹)."
  const DaysRejected := "Please enter a valid number of days."
  const DefaultReply := "Thanks! We will get back to you."
  const NetworkLine := "Network error. Please try again."

  /** A message bubble `appendMsg` adds to the chat body. */
  datatype Bubble = Bubble(text: string, role: string)

  function Bot(text: string): Bubble { Bubble(text, "assistant") }

  lemma PlanKeysDistinct()
    ensures |PlanKeys| == 8
    ensures forall i, j | 0 <= i < j < 8 :: PlanKeys[i] != PlanKeys[j]
  {
  }

  function Question(step: int): string
    requires 0 <= step < 8
  {
    PlanLabels[step] + ":"
  }

  // -------------------------------------------------------------- validation

  /** A character of the class `[0-9 +\-]`. */
  predicate PhoneChar(c: char)
  {
    '0' <= c <= '9' || c == ' ' || c == '+' || c == '-'
  }

  /** The length of the longest run of class characters at the start. */
  function ClassRun(s: string): (n: nat)
    ensures n <= |s|
  {
    if s == [] || !PhoneChar(s[0]) then 0 else 1 + ClassRun(s[1..])
  }

  /** `/^[0-9 +\-]{6,15}$/.test(s)`: the bounded repetition can stop at any
      length from 6 to the run's end (at most 15), and `$` then needs the
      end of the text there, so the stopping point is `|s|`. */
  predicate PhoneTest(s: string)
  {
    6 <= |s| <= 15 && |s| <= ClassRun(s)
  }

  lemma {:induction false} ClassRunAll(s: string)
    ensures ClassRun(s) == |s| <==> forall i | 0 <= i < |s| :: PhoneChar(s[i])
  {
    if s != [] {
      ClassRunAll(s[1..]);
      if PhoneChar(s[0]) {
        assert forall i | 1 <= i < |s| :: s[i] == s[1..][i - 1];
      }
    }
  }

  /** A phone number is accepted exactly when it has 6 to 15 characters,
      each a digit, a space, '+' or '-'. */
  lemma PhoneRule(s: string)
    ensures PhoneTest(s) <==> 6 <= |s| <= 15 && forall i | 0 <= i < |s| :: PhoneChar(s[i])
  {
    ClassRunAll(s);
  }

  /** What `Number(text)` gives, as far as the checks can tell: `NaN`, a
      number `<= 0`, or a positive number. */
  datatype JsNumber = NaN | NotPositive | Positive

  /** The rejection message for an answer to the question `key`, if any. */
  function Rejection(key: string, text: string, number: JsNumber): (r: Option<string>)
    ensures r.Some? <==> (key == "phone" && !PhoneTest(text)) || (key == "budget" && number.NaN?) ||
                         (key == "days" && !number.Positive?)
  {
    if key == "phone" && !PhoneTest(text) then Some(PhoneRejected)
    else if key == "budget" && number.NaN? then Some(BudgetRejected)
    else if key == "days" && !number.Positive? then Some(DaysRejected)
    else None
  }

  // ------------------------------------------------------------ the summary

  function AnswerOr(answers: map<string, string>, key: string): string
  {
    if key in answers then answers[key] else ""
  }

  /** The lines of the summary message. */
  function SummaryLines(answers: map<string, string>): (lines: seq<string>)
    ensures |lines| == 9 && lines[0] == "Here is what I gathered:"
    ensures forall i | 0 <= i < 8 :: lines[i + 1] == "• " + SummaryNames[i] + ": " + AnswerOr(answers, PlanKeys[i])
  {
    ["Here is what I gathered:"] +
    seq(8, i requires 0 <= i < 8 => "• " + SummaryNames[i] + ": " + AnswerOr(answers, PlanKeys[i]))
  }

  function Summary(answers: map<string, string>): string
  {
    Join(SummaryLines(answers), "\n")
  }

  /** The summary is one line per key in the fixed order, "" standing in
      for a missing answer: splitting it at line breaks gives the lines
      back when no answer holds a line break. */
  lemma SummaryReadsBack(answers: map<string, string>)
    requires forall k | k in answers :: '\n' !in answers[k]
    ensures Split(Summary(answers), '\n') == SummaryLines(answers)
  {
    var lines := SummaryLines(answers);
    forall i | 0 <= i < |lines|
      ensures '\n' !in lines[i]
    {
      SummaryLineOneLine(answers, i);
    }
    SplitJoin(lines, '\n');
  }

  lemma SummaryLineOneLine(answers: map<string, string>, i: int)
    requires forall k | k in answers :: '\n' !in answers[k]
    requires 0 <= i < 9
    ensures '\n' !in SummaryLines(answers)[i]
  {
    if i > 0 {
      var name := SummaryNames[i - 1];
      var answer := AnswerOr(answers, PlanKeys[i - 1]);
      SummaryNameOneLine(i - 1);
      assert '\n' !in answer;
      assert SummaryLines(answers)[i] == "• " + name + ": " + answer;
      OneLineConcat("• ", name, ": ", answer);
    } else {
      assert SummaryLines(answers)[0] == "Here is what I gathered:";
    }
  }

  lemma OneLineConcat(a: string, b: string, c: string, d: string)
    requires '\n' !in a && '\n' !in b && '\n' !in c && '\n' !in d
    ensures '\n' !in a + b + c + d
  {
    assert forall x :: x in a + b + c + d <==> x in a || x in b || x in c || x in d;
  }

  lemma SummaryNameOneLine(j: int)
    requires 0 <= j < 8
    ensures '\n' !in SummaryNames[j]
  {
    var name := SummaryNames[j];
    if j < 4 {
      assert name == "Name" || name == "Address" || name == "City" || name == "Phone";
    } else {
      assert name == "Destination" || name == "Query" || name == "Budget" || name == "Days";
    }
  }

  // ---------------------------------------------------- the state machine

  /** `inPlanner`, `plannerStep` and `answers`. */
  datatype PlannerState = PlannerState(inPlanner: bool, step: int, answers: map<string, string>)

  /** The keys of the questions before `step`. */
  function AnsweredKeys(step: int): set<string>
    requires 0 <= step <= 8
  {
    set i | 0 <= i < step :: PlanKeys[i]
  }

  /** The invariant of the planner: the step counts the answers given, and
      a planner that is running always has a question to ask. */
  predicate WellFormed(s: PlannerState)
  {
    0 <= s.step <= 8 && (s.inPlanner ==> s.step < 8) && s.answers.Keys == AnsweredKeys(s.step)
  }

  /** The state and the bubbles one call leaves. */
  datatype Outcome = Outcome(state: PlannerState, said: seq<Bubble>)

  /** `askNext`: the next question, or the summary and the planner's end. */
  function AskNext(s: PlannerState): (o: Outcome)
    requires 0 <= s.step <= 8 && s.answers.Keys == AnsweredKeys(s.step)
    ensures WellFormed(o.state)
  {
    if s.step < 8 then Outcome(s, [Bot(Question(s.step))])
    else Outcome(s.(inPlanner := false), [Bot(Summary(s.answers))])
  }

  /** `startPlanner`. */
  function Start(): (o: Outcome)
    ensures WellFormed(o.state) && o.state.inPlanner
  {
    var asked := AskNext(PlannerState(true, 0, map[]));
    Outcome(asked.state, [Bot(IntroLine)] + asked.said)
  }

  /** `handlePlannerInput`: "cancel" in any case ends the planner; a
      rejected answer is reported; an accepted one is stored under the
      question's key and the next question is asked. */
  function Handle(s: PlannerState, text: string, number: JsNumber): (o: Outcome)
    requires WellFormed(s) && s.inPlanner
    ensures WellFormed(o.state)
  {
    if Lower(text) == "cancel" then Outcome(s.(inPlanner := false), [Bot(CancelLine)])
    else
      var key := PlanKeys[s.step];
      match Rejection(key, text, number)
      case Some(line) => Outcome(s, [Bot(line)])
      case None =>
        assert AnsweredKeys(s.step + 1) == AnsweredKeys(s.step) + {key};
        AskNext(PlannerState(s.inPlanner, s.step + 1, s.answers[key := text]))
  }

  predicate Accepted(step: int, text: string, number: JsNumber)
    requires 0 <= step < 8
  {
    Lower(text) != "cancel" && Rejection(PlanKeys[step], text, number).None?
  }

  /** Cancelling stores nothing and leaves the planner. */
  lemma CancelStoresNothing(s: PlannerState, text: string, number: JsNumber)
    requires WellFormed(s) && s.inPlanner && Lower(text) == "cancel"
    ensures var o := Handle(s, text, number);
            !o.state.inPlanner && o.state.step == s.step && o.state.answers == s.answers
  {
  }

  /** A rejected answer changes neither the step nor the answers. */
  lemma RejectedKeepsState(s: PlannerState, text: string, number: JsNumber)
    requires WellFormed(s) && s.inPlanner && Lower(text) != "cancel"
    requires Rejection(PlanKeys[s.step], text, number).Some?
    ensures Handle(s, text, number).state == s
  {
  }

  /** An accepted answer is stored under its key and the step moves on by
      one; the planner ends exactly after the eighth answer. */
  lemma AcceptedAdvances(s: PlannerState, text: string, number: JsNumber)
    requires WellFormed(s) && s.inPlanner && Accepted(s.step, text, number)
    ensures var o := Handle(s, text, number);
            o.state.step == s.step + 1 && o.state.answers == s.answers[PlanKeys[s.step] := text] &&
            (o.state.inPlanner <==> s.step + 1 < 8)
  {
  }

  /** The answers map after the first `|texts|` questions were answered. */
  function AnswerMap(texts: seq<string>): (m: map<string, string>)
    requires |texts| <= 8
    ensures m.Keys == AnsweredKeys(|texts|)
  {
    if texts == [] then map[]
    else
      var n := |texts| - 1;
      assert AnsweredKeys(n + 1) == AnsweredKeys(n) + {PlanKeys[n]};
      AnswerMap(texts[..n])[PlanKeys[n] := texts[n]]
  }

  /** The planner fed a sequence of answers (each answer together with what
      `Number` makes of it), as `sendMessage` routes them while the
      planner runs. */
  function Feed(s: PlannerState, inputs: seq<(string, JsNumber)>): (r: PlannerState)
    requires WellFormed(s)
    ensures WellFormed(r)
    decreases |inputs|
  {
    if inputs == [] || !s.inPlanner then s
    else Feed(Handle(s, inputs[0].0, inputs[0].1).state, inputs[1..])
  }

  /** One accepted answer is stored and the step advances. */
  lemma AcceptedStep(s: PlannerState, text: string, number: JsNumber)
    requires WellFormed(s) && s.inPlanner && Accepted(s.step, text, number)
    ensures Handle(s, text, number).state == PlannerState(s.step + 1 < 8, s.step + 1, s.answers[PlanKeys[s.step] := text])
  {
  }

  /** From step `k` with the first `k` answers stored, `|inputs|` more
      accepted answers store the rest. */
  lemma {:induction false} FeedAccepted(texts: seq<string>, k: int, inputs: seq<(string, JsNumber)>)
    requires 0 <= k < |texts| == 8 && |inputs| == 8 - k
    requires forall i | 0 <= i < |inputs| :: inputs[i].0 == texts[k + i] && Accepted(k + i, texts[k + i], inputs[i].1)
    ensures Feed(PlannerState(true, k, AnswerMap(texts[..k])), inputs) == PlannerState(false, 8, AnswerMap(texts))
    decreases |inputs|
  {
    FeedStep(texts, k, inputs);
    if k + 1 < 8 {
      var rest := inputs[1..];
      forall i | 0 <= i < |rest|
        ensures rest[i].0 == texts[k + 1 + i] && Accepted(k + 1 + i, texts[k + 1 + i], rest[i].1)
      {
        assert rest[i] == inputs[i + 1];
      }
      FeedAccepted(texts, k + 1, rest);
    } else {
      assert texts[..k + 1] == texts;
    }
  }

  /** The first of the accepted answers, fed from step `k`. */
  lemma FeedStep(texts: seq<string>, k: int, inputs: seq<(string, JsNumber)>)
    requires 0 <= k < |texts| == 8 && |inputs| == 8 - k
    requires inputs[0].0 == texts[k] && Accepted(k, texts[k], inputs[0].1)
    ensures Feed(PlannerState(true, k, AnswerMap(texts[..k])), inputs) ==
            Feed(PlannerState(k + 1 < 8, k + 1, AnswerMap(texts[..k + 1])), inputs[1..])
    ensures k + 1 == 8 ==> inputs[1..] == []
  {
    var s := PlannerState(true, k, AnswerMap(texts[..k]));
    var t0, n0 := inputs[0].0, inputs[0].1;
    var next := Handle(s, t0, n0).state;
    AcceptedStep(s, t0, n0);
    AnswerMapSnoc(texts, k);
  }

  lemma AnswerMapSnoc(texts: seq<string>, k: int)
    requires 0 <= k < |texts| <= 8
    ensures AnswerMap(texts[..k + 1]) == AnswerMap(texts[..k])[PlanKeys[k] := texts[k]]
  {
    assert texts[..k + 1][..k] == texts[..k];
  }

  /** Eight accepted answers from the start end the planner with every
      answer stored under its question's key. */
  lemma FullRun(texts: seq<string>, inputs: seq<(string, JsNumber)>)
    requires |texts| == 8 && |inputs| == 8
    requires forall i | 0 <= i < 8 :: inputs[i].0 == texts[i] && Accepted(i, texts[i], inputs[i].1)
    ensures var r := Feed(Start().state, inputs);
            !r.inPlanner && r.step == 8 && forall i | 0 <= i < 8 :: r.answers[PlanKeys[i]] == texts[i]
  {
    assert texts[..0] == [];
    FeedAccepted(texts, 0, inputs);
    AnswerMapAt(texts);
  }

  lemma {:induction false} AnswerMapAt(texts: seq<string>)
    requires |texts| <= 8
    ensures forall i | 0 <= i < |texts| :: AnswerMap(texts)[PlanKeys[i]] == texts[i]
    decreases |texts|
  {
    if texts != [] {
      var n := |texts| - 1;
      var m := AnswerMap(texts[..n]);
      AnswerMapAt(texts[..n]);
      assert AnswerMap(texts) == m[PlanKeys[n] := texts[n]];
      forall i | 0 <= i < n
        ensures AnswerMap(texts)[PlanKeys[i]] == texts[i]
      {
        assert PlanKeys[i] != PlanKeys[n] by { PlanKeysDistinct(); }
        assert m[PlanKeys[i]] == texts[..n][i] == texts[i];
      }
    }
  }

  // ----------------------------------------------------- the widget itself

  /** What came back from `POST /api/chat`. */
  datatype ServerReply = NetworkError | Replied(reply: Option<string>)

  /** The widget's planner variables and the bubbles shown so far. */
  class Widget {
    var inPlanner: bool
    var plannerStep: int
    var answers: map<string, string>
    var transcript: seq<Bubble>

    function State(): PlannerState
      reads this
    {
      PlannerState(inPlanner, plannerStep, answers)
    }

    ghost predicate Valid()
      reads this
    {
      WellFormed(State())
    }

    constructor()
      ensures Valid() && State() == PlannerState(false, 0, map[]) && transcript == []
    {
      inPlanner := false;
      plannerStep := 0;
      answers := map[];
      transcript := [];
    }

    method AppendMsg(text: string, role: string)
      modifies this
      ensures State() == old(State()) && transcript == old(transcript) + [Bubble(text, role)]
    {
      transcript := transcript + [Bubble(text, role)];
    }

    method AskNextStep()
      requires 0 <= plannerStep <= 8 && answers.Keys == AnsweredKeys(plannerStep)
      modifies this
      ensures Valid()
      ensures State() == AskNext(old(State())).state && transcript == old(transcript) + AskNext(old(State())).said
    {
      if plannerStep < 8 {
        AppendMsg(Question(plannerStep), "assistant");
      } else {
        inPlanner := false;
        AppendMsg(Summary(answers), "assistant");
      }
    }

    method StartPlanner()
      modifies this
      ensures Valid() && inPlanner
      ensures State() == Start().state && transcript == old(transcript) + Start().said
    {
      inPlanner := true;
      plannerStep := 0;
      answers := map[];
      AppendMsg(IntroLine, "assistant");
      AskNextStep();
    }

    method HandlePlannerInput(text: string, number: JsNumber)
      requires Valid() && inPlanner
      modifies this
      ensures Valid()
      ensures State() == Handle(old(State()), text, number).state
      ensures transcript == old(transcript) + Handle(old(State()), text, number).said
    {
      if Lower(text) == "cancel" {
        inPlanner := false;
        AppendMsg(CancelLine, "assistant");
        return;
      }
      var key := PlanKeys[plannerStep];
      var rejection := Rejection(key, text, number);
      if rejection.Some? {
        AppendMsg(rejection.value, "assistant");
        return;
      }
      assert AnsweredKeys(plannerStep + 1) == AnsweredKeys(plannerStep) + {key};
      answers := answers[key := text];
      plannerStep := plannerStep + 1;
      AskNextStep();
    }

    /** `sendMessage`: blank input is ignored; otherwise it is shown, and
        then either handed to the planner or posted to the server, whose
        reply (or a fallback line) is shown. Returns the posted message. */
    method SendMessage(input: string, number: JsNumber, server: ServerReply) returns (posted: Option<string>)
      requires Valid()
      modifies this
      ensures Valid()
      ensures var text := JsTrim(input);
              if text == "" then posted == None && State() == old(State()) && transcript == old(transcript)
              else if old(inPlanner) then
                posted == None && State() == Handle(old(State()), text, number).state &&
                transcript == old(transcript) + [Bubble(text, "user")] + Handle(old(State()), text, number).said
              else
                posted == Some(text) && State() == old(State()) &&
                transcript == old(transcript) + [Bubble(text, "user"), Bot(ShownReply(server))]
    {
      var text := JsTrim(input);
      if text == "" {
        return None;
      }
      AppendMsg(text, "user");
      if inPlanner {
        HandlePlannerInput(text, number);
        return None;
      }
      posted := Some(text);
      AppendMsg(ShownReply(server), "assistant");
    }
  }

  /** `data.reply || 'Thanks! …'`, or the network line when the request
      or its JSON failed. */
  function ShownReply(server: ServerReply): (r: string)
    ensures server.Replied? && server.reply.Some? && server.reply.value != "" ==> r == server.reply.value
    ensures r != ""
  {
    match server
    case NetworkError => NetworkLine
    case Replied(reply) => if reply.Some? && reply.value != "" then reply.value else DefaultReply
  }
}
