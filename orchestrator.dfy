/**
 * One assistant turn (src/lib/ai/prompt_orchestrator.ts): the guard, the
 * first message to the model, and the bounded loop that runs the first
 * function call of each model response through the tool engine and answers
 * it with a function response.
 *
 * The Gemini chat is an oracle: a function from the system prompt's name
 * and the chat history so far (ending with what was just sent) to the
 * model's reply.  The chat session appends each message it sends and each
 * reply it receives, which is what `getHistory()` returns.
 */
module Orchestrator {
  import opened Text
  import opened Herramientas

  /** What the chat session sends: the user's text or the answer to a function call. */
  datatype Outbound = SendText(text: string) | SendResponse(name: string, response: ToolResult)

  /** A model reply: its function calls, in order, and its text. */
  datatype Reply = Reply(calls: seq<Call>, text: string)

  /** One history entry. */
  datatype Content = UserTurn(out: Outbound) | ModelTurn(reply: Reply)

  /** The model, seen from outside. */
  type Oracle = (string, seq<Content>) -> Reply

  datatype Outcome =
    | NoResult                                    // `return null`
    | Crashed                                     // a tool threw: the promise rejects
    | Output(new_step: ChatStep, assistant_message: string, new_chat_history: seq<Content>)

  const MaxIterations: nat := 5

  /** The name `buildSystemPrompt` embeds: `displayName || 'Karol'`. */
  function PromptName(displayName: Option<string>): (n: string)
    ensures n != []
    ensures displayName.Some? && displayName.value != [] ==> n == displayName.value
  {
    if displayName.Some? && displayName.value != [] then displayName.value else "Karol"
  }

  /** The step before any tool runs: INICIAL becomes RECOLECTANDO_INFORMACION. */
  function Carried(step: ChatStep): (r: ChatStep)
    ensures r != INICIAL
    ensures step != INICIAL ==> r == step
  {
    if step == INICIAL then RECOLECTANDO_INFORMACION else step
  }

  /** `chat.sendMessage(msg)`: the history gains the message and the model's reply. */
  function Exchange(name: string, model: Oracle, hist: seq<Content>, msg: Outbound): (h: seq<Content>)
    ensures |h| == |hist| + 2 && forall i :: 0 <= i < |hist| ==> h[i] == hist[i]
    ensures h[|hist|] == UserTurn(msg) && h[|hist| + 1].ModelTurn?
  {
    var sent := hist + [UserTurn(msg)];
    sent + [ModelTurn(model(name, sent))]
  }

  predicate EndsWithReply(h: seq<Content>)
  {
    h != [] && h[|h| - 1].ModelTurn?
  }

  function LastReply(h: seq<Content>): Reply
    requires EndsWithReply(h)
  {
    h[|h| - 1].reply
  }

  /** `response.functionCalls()?.[0]`. */
  function FirstCall(r: Reply): Option<Call>
  {
    if r.calls == [] then None else Some(r.calls[0])
  }

  /** Where the loop ends. */
  datatype LoopState = LoopState(hist: seq<Content>, step: ChatStep, executed: seq<Call>, results: seq<ToolResult>, crashed: bool)

  /** The values `Math.random()` returns, one per tool run of the turn. */
  ghost predicate ValidDraws(draws: nat -> real)
  {
    forall i: nat :: 0.0 <= draws(i) < 1.0
  }

  /** Runs a call as the `i`-th tool of the turn. */
  type Runner = (Call, nat) -> Execution

  /** `ejecutarHerramienta` over the cached tables, the `i`-th run drawing `draws(i)`. */
  function Tools(t: Tables, draws: nat -> real): Runner
    requires ValidDraws(draws)
  {
    (c: Call, i: nat) => Ejecutar(t, c, draws(i))
  }

  /** The tool loop, from a history ending with a reply and `|executed|` iterations done. */
  function Loop(run: Runner, name: string, model: Oracle,
                hist: seq<Content>, step: ChatStep, executed: seq<Call>, results: seq<ToolResult>): (s: LoopState)
    requires EndsWithReply(hist) && |executed| <= MaxIterations
    ensures EndsWithReply(s.hist) && |hist| <= |s.hist|
    ensures forall i :: 0 <= i < |hist| ==> s.hist[i] == hist[i]
    ensures |executed| <= |s.executed| <= MaxIterations
    ensures forall i :: 0 <= i < |executed| ==> s.executed[i] == executed[i]
    ensures |s.results| - |results| == |s.executed| - |executed| - (if s.crashed then 1 else 0)
    decreases MaxIterations - |executed|
  {
    var call := FirstCall(LastReply(hist));
    if call.None? || |executed| >= MaxIterations then LoopState(hist, step, executed, results, false)
    else
      match run(call.value, |executed|)
      case Threw => LoopState(hist, step, executed + [call.value], results, true)
      case Returned(r) =>
        var h := Exchange(name, model, hist, SendResponse(call.value.name, r));
        Loop(run, name, model, h, if r.step.Some? then r.step.value else step,
             executed + [call.value], results + [r])
  }

  /** `orchestrateTurn` as a function of its inputs, the tools run by `run`. */
  function Turn(run: Runner, configured: bool, model: Oracle,
                userText: string, current: ChatStep, displayName: Option<string>, history: seq<Content>): Outcome
  {
    if Trim(userText) == [] || !configured then NoResult
    else
      var name := PromptName(displayName);
      var h := Exchange(name, model, history, SendText(userText));
      var s := Loop(run, name, model, h, Carried(current), [], []);
      if s.crashed then Crashed else Output(s.step, LastReply(s.hist).text, s.hist)
  }

  /**
   * The turn, step by step as the source runs it.  `executed` are the calls
   * the tools ran, `sent` the messages sent to the model.
   */
  method OrchestrateTurn(t: Tables, configured: bool, model: Oracle, draws: nat -> real,
                         userText: string, current: ChatStep, displayName: Option<string>,
                         history: seq<Content>)
    returns (out: Outcome, executed: seq<Call>, sent: seq<Outbound>)
    requires ValidDraws(draws)
    ensures out == Turn(Tools(t, draws), configured, model, userText, current, displayName, history)
    ensures Trim(userText) == [] || !configured <==> sent == []
    ensures out.NoResult? <==> Trim(userText) == [] || !configured
    ensures sent != [] ==> sent[0] == SendText(userText)
    ensures |executed| <= MaxIterations
    ensures sent != [] ==> |sent| == 1 + |executed| - (if out.Crashed? then 1 else 0)
  {
    var trimmed := Trim(userText);
    if trimmed == [] || !configured {
      return NoResult, [], [];
    }
    var name := PromptName(displayName);
    var hist := Exchange(name, model, history, SendText(userText));
    var finalStep := Carried(current);
    var crashed, responses;
    hist, finalStep, executed, crashed, responses := ToolLoop(Tools(t, draws), name, model, hist, finalStep);
    sent := [SendText(userText)] + responses;
    if crashed {
      out := Crashed;
    } else {
      out := Output(finalStep, LastReply(hist).text, hist);
    }
  }

  /** The `while (functionCall && iterations < 5)` loop. */
  method ToolLoop(run: Runner, name: string, model: Oracle, hist0: seq<Content>, step0: ChatStep)
    returns (hist: seq<Content>, finalStep: ChatStep, executed: seq<Call>, crashed: bool, sent: seq<Outbound>)
    requires EndsWithReply(hist0)
    ensures Loop(run, name, model, hist0, step0, [], []) ==
      LoopState(hist, finalStep, executed, Loop(run, name, model, hist0, step0, [], []).results, crashed)
    ensures EndsWithReply(hist)
    ensures |executed| <= MaxIterations
    ensures |sent| == |executed| - (if crashed then 1 else 0)
  {
    hist, finalStep, executed, crashed, sent := hist0, step0, [], false, [];
    var functionCall := FirstCall(LastReply(hist));
    ghost var results: seq<ToolResult> := [];
    var iterations := 0;
    ghost var target := Loop(run, name, model, hist, finalStep, executed, results);
    while functionCall.Some? && iterations < MaxIterations
      invariant iterations == |executed| == |sent| <= MaxIterations
      invariant EndsWithReply(hist) && functionCall == FirstCall(LastReply(hist))
      invariant Loop(run, name, model, hist, finalStep, executed, results) == target
      decreases MaxIterations - iterations
    {
      var msg;
      iterations := iterations + 1;
      hist, finalStep, executed, results, crashed, msg := Round(run, name, model, hist, finalStep, executed, results);
      if crashed {
        return;
      }
      sent := sent + [msg];
      functionCall := FirstCall(LastReply(hist));
    }
  }

  /** One pass of the loop body: run the first call, send its response, read the next reply. */
  method Round(run: Runner, name: string, model: Oracle,
               hist: seq<Content>, step: ChatStep, executed: seq<Call>, ghost results: seq<ToolResult>)
    returns (hist': seq<Content>, step': ChatStep, executed': seq<Call>, ghost results': seq<ToolResult>,
             crashed: bool, msg: Outbound)
    requires EndsWithReply(hist) && |executed| < MaxIterations
    requires FirstCall(LastReply(hist)).Some?
    ensures executed' == executed + [FirstCall(LastReply(hist)).value]
    ensures crashed ==> (hist', step', results') == (hist, step, results)
    ensures crashed ==> Loop(run, name, model, hist, step, executed, results) == LoopState(hist, step, executed', results, true)
    ensures !crashed ==> (EndsWithReply(hist')
      && Loop(run, name, model, hist, step, executed, results) == Loop(run, name, model, hist', step', executed', results'))
    ensures !crashed ==> msg.SendResponse? && msg.name == FirstCall(LastReply(hist)).value.name
  {
    var call := FirstCall(LastReply(hist)).value;
    executed' := executed + [call];
    var x := run(call, |executed|);
    if x.Threw? {
      return hist, step, executed', results, true, SendText([]);
    }
    var r := x.result;
    step' := step;
    if r.step.Some? {
      step' := r.step.value;
    }
    msg := SendResponse(call.name, r);
    hist' := Exchange(name, model, hist, msg);
    results' := results + [r];
    crashed := false;
  }

  // ---------------------------------------------------------------------------
  // What the loop guarantees
  // ---------------------------------------------------------------------------

  /** The step after a run of tool results: the last step a tool set, else the starting one. */
  function StepAfter(step: ChatStep, results: seq<ToolResult>): ChatStep
  {
    if results == [] then step
    else
      var r := results[|results| - 1];
      if r.step.Some? then r.step.value else StepAfter(step, results[..|results| - 1])
  }

  lemma StepAfterSnoc(step: ChatStep, results: seq<ToolResult>, r: ToolResult)
    ensures StepAfter(step, results + [r]) ==
      if r.step.Some? then r.step.value else StepAfter(step, results)
  {
    assert (results + [r])[..|results|] == results;
  }

  /** Every response names the call it answers, which is the first call of the reply just before it. */
  predicate ResponsesAnswerCalls(h: seq<Content>, from: nat)
  {
    forall i :: from < i < |h| && h[i].UserTurn? && h[i].out.SendResponse? ==>
      h[i - 1].ModelTurn? && h[i - 1].reply.calls != [] && h[i - 1].reply.calls[0].name == h[i].out.name
  }

  lemma {:induction false} LoopFacts(run: Runner, name: string, model: Oracle,
                   hist: seq<Content>, step: ChatStep, executed: seq<Call>, results: seq<ToolResult>,
                   step0: ChatStep, from: nat)
    requires EndsWithReply(hist) && |executed| <= MaxIterations
    requires |results| <= |executed| && step == StepAfter(step0, results)
    requires from < |hist| && ResponsesAnswerCalls(hist, from)
    ensures var s := Loop(run, name, model, hist, step, executed, results);
      && s.step == StepAfter(step0, s.results)
      && ResponsesAnswerCalls(s.hist, from)
      && (!s.crashed ==> FirstCall(LastReply(s.hist)).None? || |s.executed| == MaxIterations)
    decreases MaxIterations - |executed|
  {
    var call := FirstCall(LastReply(hist));
    if call.Some? && |executed| < MaxIterations {
      match run(call.value, |executed|)
      case Threw =>
      case Returned(r) =>
        var h := Exchange(name, model, hist, SendResponse(call.value.name, r));
        var step' := if r.step.Some? then r.step.value else step;
        StepAfterSnoc(step0, results, r);
        assert ResponsesAnswerCalls(h, from) by {
          forall i | from < i < |h| && h[i].UserTurn? && h[i].out.SendResponse?
            ensures h[i - 1].ModelTurn? && h[i - 1].reply.calls != [] && h[i - 1].reply.calls[0].name == h[i].out.name
          {
            if i < |hist| {
              assert h[i] == hist[i] && h[i - 1] == hist[i - 1];
            } else if i == |hist| {
              assert h[i - 1] == hist[|hist| - 1];
            }
          }
        }
        LoopFacts(run, name, model, h, step', executed + [call.value], results + [r], step0, from);
    }
  }

  /**
   * A completed turn: at most five tools ran; the new step is the last step
   * a tool set, or the carried-over step; the loop stopped because the last
   * reply had no call or the cap was reached; and every function response
   * answers the first call of the reply before it.
   */
  lemma TurnFacts(run: Runner, configured: bool, model: Oracle,
                  userText: string, current: ChatStep, displayName: Option<string>, history: seq<Content>)
    ensures var o := Turn(run, configured, model, userText, current, displayName, history);
      o.Output? ==>
        var name := PromptName(displayName);
        var h := Exchange(name, model, history, SendText(userText));
        var s := Loop(run, name, model, h, Carried(current), [], []);
        && |s.executed| <= MaxIterations
        && o.new_step == StepAfter(Carried(current), s.results)
        && o.new_chat_history[..|history| + 1] == history + [UserTurn(SendText(userText))]
        && ResponsesAnswerCalls(o.new_chat_history, |history|)
        && (FirstCall(LastReply(o.new_chat_history)).None? || |s.executed| == MaxIterations)
  {
    if Trim(userText) != [] && configured {
      var name := PromptName(displayName);
      var h := Exchange(name, model, history, SendText(userText));
      assert ResponsesAnswerCalls(h, |history|) by {
        forall i | |history| < i < |h| ensures h[i].ModelTurn? { }
      }
      LoopFacts(run, name, model, h, Carried(current), [], [], Carried(current), |history|);
      var s := Loop(run, name, model, h, Carried(current), [], []);
      KeepsPrefix(h, s.hist, history, UserTurn(SendText(userText)));
    }
  }

  lemma KeepsPrefix(h: seq<Content>, longer: seq<Content>, history: seq<Content>, turn: Content)
    requires |history| < |h| <= |longer| && h[|history|] == turn
    requires forall i :: 0 <= i < |history| ==> h[i] == history[i]
    requires forall i :: 0 <= i < |h| ==> longer[i] == h[i]
    ensures longer[..|history| + 1] == history + [turn]
  {
  }

  /** The name in the system prompt is the display name, else "Karol". */
  lemma PromptNameDefault()
    ensures PromptName(None) == "Karol" && PromptName(Some("")) == "Karol"
  {
  }
}
