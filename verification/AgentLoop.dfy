/** The gather phase of one agent turn (server/internal/agent/loop.go): the planning of one round of tool calls, its
    replies and trace events, and the step loop over a model and tools that may both do anything. The functions
    specify; the class does the same to its fields in place, as the source does. What every run keeps is in
    AgentRuns. */
module AgentLoop {
  import opened Text

  const NUDGE := "Before answering, ground your answer: call at least one available tool to verify against the repo. "
                 + "If the question has nothing to do with this repo's code, answer directly instead."
  const CLOSE_OUT := "You have used all available tool rounds. Provide your final answer now based on everything "
                     + "gathered \U{2014} no more tool calls."
  const CUT := "\n\U{2026}(output truncated \U{2014} narrow the range or pattern instead of repeating this call)"
  const REPEAT_HEAD := "error: identical to the previous tool call ("
  const REPEAT_TAIL := ") \U{2014} not executed. "
                       + "Do not repeat it: change the tool or arguments, or answer with what you have."
  const MAX_MSG := 8 * 1024

  datatype Call = Call(id: string, name: string, args: string, isFunction: bool)

  datatype Reply = Reply(content: string, calls: seq<Call>)

  datatype ModelResult = Fails | NoChoices | Says(reply: Reply)

  datatype Outcome = Output(text: string) | Failure(err: string)

  datatype Echo = Echo(id: string, name: string, args: string)

  datatype Msg =
    | Developer(text: string)
    | User(text: string)
    | Assistant(text: string)
    | Calls(text: string, calls: seq<Echo>)
    | ToolReply(id: string, text: string)

  datatype Event =
    | RoundStart(text: string)
    | ToolStart(tool: string, args: string)
    | ToolDone(tool: string, args: string, result: string, err: string)

  /** One tool call in a transcript round or a persisted turn. */
  datatype Step = Step(tool: string, args: string, output: string, err: string)

  /** The outside of a run. The model may answer differently at each request; a tool's outcome is given for the
      i-th call of a round, so the order in which concurrent tools finish does not matter. */
  datatype Env = Env(model: (nat, seq<Msg>, bool) -> ModelResult, runs: (nat, nat) -> Outcome, cancelled: nat -> bool)

  // ---- One round

  datatype Verdict = Execute | Blocked | Unknown

  datatype Planned = Planned(id: string, name: string, args: string, verdict: Verdict)

  function Key(name: string, args: string): string { name + ['\0'] + args }

  /** The key of the last call executed, `prev` if none is. */
  function LastRun(ps: seq<Planned>, prev: string): string {
    if |ps| == 0 then prev
    else
      var p := ps[|ps| - 1];
      if p.verdict.Execute? then Key(p.name, p.args) else LastRun(ps[..|ps| - 1], prev)
  }

  function Judge(c: Call, prev: string, known: set<string>): Planned {
    Planned(c.id, c.name, c.args,
            if Key(c.name, c.args) == prev then Blocked else if c.name !in known then Unknown else Execute)
  }

  function Plan(calls: seq<Call>, prev: string, known: set<string>): seq<Planned> {
    if |calls| == 0 then []
    else
      var n := |calls| - 1;
      var front := Plan(calls[..n], prev, known);
      if calls[n].isFunction then front + [Judge(calls[n], LastRun(front, prev), known)] else front
  }

  function Echoes(calls: seq<Call>): seq<Echo> {
    if |calls| == 0 then []
    else
      var n := |calls| - 1;
      Echoes(calls[..n]) + (if calls[n].isFunction then [Echo(calls[n].id, calls[n].name, calls[n].args)] else [])
  }

  function Cap(s: string): string { if |s| > MAX_MSG then s[..MAX_MSG] + CUT else s }

  function MakeReply(id: string, content: string): Msg { ToolReply(id, if content == "" then "(empty)" else content) }

  function ReplyTo(p: Planned, o: Outcome): (r: Msg)
    ensures r.ToolReply? && r.id == p.id
  {
    match p.verdict
    case Blocked =>
      MakeReply(p.id, REPEAT_HEAD + p.name + REPEAT_TAIL)
    case Unknown => MakeReply(p.id, "unknown tool " + p.name)
    case Execute => MakeReply(p.id, Cap(if o.Failure? then "error: " + o.err else o.text))
  }

  function Replies(ps: seq<Planned>, step: nat, runs: (nat, nat) -> Outcome): (r: seq<Msg>)
    ensures |r| == |ps|
    ensures forall i :: 0 <= i < |ps| ==>
              r[i] == ReplyTo(ps[i], runs(step, i)) && r[i].ToolReply? && r[i].id == ps[i].id
  {
    seq(|ps|, i requires 0 <= i < |ps| => ReplyTo(ps[i], runs(step, i)))
  }

  function BlockedDone(p: Planned): Event { ToolDone(p.name, p.args, "", "blocked consecutive repeat") }

  function RanDone(p: Planned, o: Outcome): Event {
    if o.Failure? then ToolDone(p.name, p.args, "error: " + o.err, o.err) else ToolDone(p.name, p.args, o.text, "")
  }

  /** What the planning pass traces: a start for a call to run, start and done for a blocked one, nothing for an
      unknown tool. */
  function Opening(ps: seq<Planned>): seq<Event> {
    if |ps| == 0 then []
    else
      var p := ps[|ps| - 1];
      Opening(ps[..|ps| - 1]) + (match p.verdict
                                 case Blocked => [ToolStart(p.name, p.args), BlockedDone(p)]
                                 case Unknown => []
                                 case Execute => [ToolStart(p.name, p.args)])
  }

  function Closing(ps: seq<Planned>, step: nat, runs: (nat, nat) -> Outcome): seq<Event> {
    if |ps| == 0 then []
    else
      var n := |ps| - 1;
      Closing(ps[..n], step, runs) + (if ps[n].verdict.Execute? then [RanDone(ps[n], runs(step, n))] else [])
  }

  function RunKeys(ps: seq<Planned>): seq<string> {
    if |ps| == 0 then []
    else
      var p := ps[|ps| - 1];
      RunKeys(ps[..|ps| - 1]) + (if p.verdict.Execute? then [Key(p.name, p.args)] else [])
  }

  /** The keys of the calls of known tools, in model order. */
  function KnownKeys(calls: seq<Call>, known: set<string>): seq<string> {
    if |calls| == 0 then []
    else
      var c := calls[|calls| - 1];
      KnownKeys(calls[..|calls| - 1], known) + (if c.isFunction && c.name in known then [Key(c.name, c.args)] else [])
  }

  function RoundText(content: string): string { if content == "" then "(calling tools)" else content }

  // ---- The loop

  datatype StepKind = Round | Nudge

  datatype Request = Request(msgs: seq<Msg>, offered: bool)

  datatype Reason = Cancelled | RequestFailed | WithoutChoices | EmptyAnswer | KeptCalling

  datatype Result = Answer(text: string) | NoAnswer(why: Reason)

  datatype Config = Config(known: set<string>, maxStep: nat)

  /** `sent`, `asked`, `executed` and `steps` are history: the requests made, the keys of the known calls asked
      for, those of the calls executed, and what each completed step was. */
  datatype State = State(
    msgs: seq<Msg>,
    lastCall: string,
    roundsDone: nat,
    groundNudged: bool,
    trace: seq<Event>,
    sent: seq<Request>,
    asked: seq<string>,
    executed: seq<string>,
    steps: seq<StepKind>)

  function Start(msgs: seq<Msg>, nudgeOff: bool): State { State(msgs, "", 0, nudgeOff, [], [], [], [], []) }

  function Sending(s: State, offered: bool): State { s.(sent := s.sent + [Request(s.msgs, offered)]) }

  function Answered(s: State, c: Config, step: nat, reply: Reply, runs: (nat, nat) -> Outcome): State {
    var ps := Plan(reply.calls, s.lastCall, c.known);
    var text := RoundText(reply.content);
    s.(msgs := s.msgs + ([Calls(text, Echoes(reply.calls))] + Replies(ps, step, runs)),
       lastCall := LastRun(ps, s.lastCall),
       roundsDone := s.roundsDone + 1,
       trace := s.trace + ([RoundStart(text)] + Opening(ps) + Closing(ps, step, runs)),
       asked := s.asked + KnownKeys(reply.calls, c.known),
       executed := s.executed + RunKeys(ps),
       steps := s.steps + [Round])
  }

  predicate Contains(s: string, t: string) { t <= s || (|s| > 0 && Contains(s[1..], t)) }

  predicate WantsNudge(s: State, c: Config, step: nat, text: string) {
    && |c.known| > 0 && s.roundsDone == 0 && !s.groundNudged && step + 1 < c.maxStep
    && !Contains(text, "Not a codebase question")
  }

  function Nudged(s: State, text: string): State {
    s.(groundNudged := true, msgs := s.msgs + [Assistant(text), User(NUDGE)], steps := s.steps + [Nudge])
  }

  function ClosedOut(s: State, c: Config, env: Env): (State, Result) {
    var t := Sending(s.(msgs := s.msgs + [User(CLOSE_OUT)]), false);
    var m := env.model(c.maxStep, t.msgs, false);
    (t, if m.Says? && TrimSpace(m.reply.content) != "" then Answer(TrimSpace(m.reply.content))
        else NoAnswer(KeptCalling))
  }

  function Gathered(s: State, c: Config, step: nat, env: Env): (State, Result)
    decreases c.maxStep - step
  {
    if step >= c.maxStep then ClosedOut(s, c, env)
    else if env.cancelled(step) then (s, NoAnswer(Cancelled))
    else
      var t := Sending(s, true);
      match env.model(step, s.msgs, true)
      case Fails => (t, NoAnswer(RequestFailed))
      case NoChoices => (t, NoAnswer(WithoutChoices))
      case Says(reply) =>
        if |reply.calls| > 0 then Gathered(Answered(t, c, step, reply, env.runs), c, step + 1, env)
        else
          var text := TrimSpace(reply.content);
          if text == "" then (t, NoAnswer(EmptyAnswer))
          else if WantsNudge(t, c, step, text) then Gathered(Nudged(t, text), c, step + 1, env)
          else (t, Answer(text))
  }

  class Loop {
    const config: Config
    var msgs: seq<Msg>
    var lastCall: string
    var roundsDone: nat
    var groundNudged: bool
    var trace: seq<Event>
    ghost var sent: seq<Request>
    ghost var asked: seq<string>
    ghost var executed: seq<string>
    ghost var steps: seq<StepKind>

    ghost function View(): State
      reads this
    {
      State(msgs, lastCall, roundsDone, groundNudged, trace, sent, asked, executed, steps)
    }

    constructor (config: Config, msgs: seq<Msg>)
      ensures this.config == config && View() == Start(msgs, false)
    {
      this.config, this.msgs := config, msgs;
      lastCall, roundsDone, groundNudged, trace := "", 0, false, [];
      sent, asked, executed, steps := [], [], [], [];
    }

    method WithoutGroundingNudge()
      modifies this
      ensures View() == old(View()).(groundNudged := true)
    {
      groundNudged := true;
    }

    /** One developer message right after the system prompt. */
    method WithLeadIn(text: string)
      modifies this
      ensures View() == old(View()).(msgs := LedIn(old(msgs), text))
    {
      if TrimSpace(text) == "" || |msgs| == 0 {
        return;
      }
      msgs := [msgs[0], Developer(text)] + msgs[1..];
    }

    method SettleText(step: nat, text: string) returns (answer: Result, nudge: bool)
      modifies this
      ensures nudge <==> text != "" && WantsNudge(old(View()), config, step, text)
      ensures View() == if nudge then Nudged(old(View()), text) else old(View())
      ensures !nudge ==> answer == if text == "" then NoAnswer(EmptyAnswer) else Answer(text)
    {
      if text == "" {
        return NoAnswer(EmptyAnswer), false;
      }
      if |config.known| > 0 && roundsDone == 0 && !groundNudged && step + 1 < config.maxStep
         && !Contains(text, "Not a codebase question") {
        groundNudged := true;
        msgs := msgs + [Assistant(text), User(NUDGE)];
        steps := steps + [Nudge];
        return Answer(""), true;
      }
      return Answer(text), false;
    }

    method AnswerTools(step: nat, reply: Reply, runs: (nat, nat) -> Outcome)
      modifies this
      ensures View() == Answered(old(View()), config, step, reply, runs)
    {
      hide Plan, Echoes, LastRun, Opening, Closing, Judge, ReplyTo, RanDone, BlockedDone, RunKeys, KnownKeys, Key;
      var calls := reply.calls;
      var echo := EchoAll(calls);
      var text := if reply.content == "" then "(calling tools)" else reply.content;
      roundsDone := roundsDone + 1;
      var plan, prev, begun := PlanAll(calls, lastCall, config.known);
      lastCall := prev;
      var replies, closed := CommitAll(plan, step, runs);
      trace := trace + ([RoundStart(text)] + begun + closed);
      msgs := msgs + ([Calls(text, echo)] + replies);
      asked, executed, steps := asked + KnownKeys(calls, config.known), executed + RunKeys(plan), steps + [Round];
    }

    static method EchoAll(calls: seq<Call>) returns (echo: seq<Echo>)
      ensures echo == Echoes(calls)
    {
      echo := [];
      for i := 0 to |calls|
        invariant echo == Echoes(calls[..i])
      {
        assert calls[..i + 1][..i] == calls[..i];
        if !calls[i].isFunction {
          continue;
        }
        echo := echo + [Echo(calls[i].id, calls[i].name, calls[i].args)];
      }
      assert calls[..|calls|] == calls;
    }

    /** The planning pass: block a repeat of the last executed call, answer an unknown tool, mark the rest to run. */
    static method PlanAll(calls: seq<Call>, lastCall: string, known: set<string>)
      returns (plan: seq<Planned>, prev: string, begun: seq<Event>)
      ensures plan == Plan(calls, lastCall, known) && prev == LastRun(plan, lastCall) && begun == Opening(plan)
    {
      plan, prev, begun := [], lastCall, [];
      for i := 0 to |calls|
        invariant plan == Plan(calls[..i], lastCall, known) && prev == LastRun(plan, lastCall)
        invariant begun == Opening(plan)
      {
        assert calls[..i + 1][..i] == calls[..i];
        var c := calls[i];
        if !c.isFunction {
          continue;
        }
        ghost var before := plan;
        var key := c.name + ['\0'] + c.args;
        if key == prev {
          begun := begun + [ToolStart(c.name, c.args), ToolDone(c.name, c.args, "", "blocked consecutive repeat")];
          plan := plan + [Planned(c.id, c.name, c.args, Blocked)];
        } else if c.name !in known {
          plan := plan + [Planned(c.id, c.name, c.args, Unknown)];
          assert begun + [] == begun;
        } else {
          prev := key;
          begun := begun + [ToolStart(c.name, c.args)];
          plan := plan + [Planned(c.id, c.name, c.args, Execute)];
        }
        assert plan[..|plan| - 1] == before;
      }
      assert calls[..|calls|] == calls;
    }

    /** The commit pass: replies in model order, whatever order the tools finished in. */
    static method CommitAll(plan: seq<Planned>, step: nat, runs: (nat, nat) -> Outcome)
      returns (replies: seq<Msg>, closed: seq<Event>)
      ensures replies == Replies(plan, step, runs) && closed == Closing(plan, step, runs)
    {
      hide ReplyTo, RanDone, Closing;
      replies, closed := [], [];
      ClosingStep(plan, 0, step, runs);
      for i := 0 to |plan|
        invariant |replies| == i && forall k :: 0 <= k < i ==> replies[k] == ReplyTo(plan[k], runs(step, k))
        invariant closed == Closing(plan[..i], step, runs)
      {
        ClosingStep(plan, i, step, runs);
        var p, o := plan[i], runs(step, i);
        replies := replies + [ReplyTo(p, o)];
        if p.verdict.Execute? {
          closed := closed + [RanDone(p, o)];
        }
      }
      assert plan[..|plan|] == plan;
    }

    method CloseOut(env: Env) returns (r: Result)
      modifies this
      ensures (View(), r) == ClosedOut(old(View()), config, env)
    {
      msgs := msgs + [User(CLOSE_OUT)];
      sent := sent + [Request(msgs, false)];
      var m := env.model(config.maxStep, msgs, false);
      if !m.Says? {
        return NoAnswer(KeptCalling);
      }
      var text := TrimSpace(m.reply.content);
      if text == "" {
        return NoAnswer(KeptCalling);
      }
      return Answer(text);
    }

    method Gather(env: Env) returns (r: Result)
      modifies this
      ensures (View(), r) == Gathered(old(View()), config, 0, env)
    {
      hide Answered, Nudged, WantsNudge, ClosedOut, TrimSpace;
      var step := 0;
      while step < config.maxStep
        invariant step <= config.maxStep
        invariant Gathered(View(), config, step, env) == Gathered(old(View()), config, 0, env)
        decreases config.maxStep - step
      {
        if env.cancelled(step) {
          return NoAnswer(Cancelled);
        }
        var m := env.model(step, msgs, true);
        sent := sent + [Request(msgs, true)];
        match m {
          case Fails => return NoAnswer(RequestFailed);
          case NoChoices => return NoAnswer(WithoutChoices);
          case Says(reply) =>
            if |reply.calls| == 0 {
              var answer, nudge := SettleText(step, TrimSpace(reply.content));
              if !nudge {
                return answer;
              }
            } else {
              AnswerTools(step, reply, env.runs);
            }
        }
        step := step + 1;
      }
      r := CloseOut(env);
    }
  }

  lemma ClosingStep(ps: seq<Planned>, i: nat, step: nat, runs: (nat, nat) -> Outcome)
    requires i <= |ps|
    ensures i == 0 ==> Closing(ps[..i], step, runs) == []
    ensures i < |ps| ==> Closing(ps[..i + 1], step, runs)
                         == Closing(ps[..i], step, runs)
                            + (if ps[i].verdict.Execute? then [RanDone(ps[i], runs(step, i))] else [])
  {
    if i < |ps| {
      assert ps[..i + 1][..i] == ps[..i];
    }
  }

  function LedIn(msgs: seq<Msg>, text: string): seq<Msg> {
    if TrimSpace(text) == "" || |msgs| == 0 then msgs else [msgs[0], Developer(text)] + msgs[1..]
  }
}
