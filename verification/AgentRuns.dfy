/** What every run of the gather loop keeps, whatever the model answers and the tools return
    (server/internal/agent/loop.go). */
module AgentRuns {
  import opened AgentLoop
  import opened Text

  // ---- Calls and replies stay paired

  predicate Answers(cs: seq<Echo>, rs: seq<Msg>) {
    |rs| == |cs| && forall i :: 0 <= i < |rs| ==> rs[i].ToolReply? && rs[i].id == cs[i].id
  }

  /** Each message with calls is followed at once by exactly its replies, same ids and order, and no reply stands
      anywhere else. */
  predicate Paired(msgs: seq<Msg>)
    decreases |msgs|
  {
    if |msgs| == 0 then true
    else match msgs[0]
         case Calls(_, cs) => |cs| < |msgs| && Answers(cs, msgs[1..1 + |cs|]) && Paired(msgs[1 + |cs|..])
         case ToolReply(_, _) => false
         case _ => Paired(msgs[1..])
  }

  lemma {:induction false} PairedConcat(a: seq<Msg>, b: seq<Msg>)
    requires Paired(a) && Paired(b)
    ensures Paired(a + b)
    decreases |a|
  {
    hide Answers, Paired;
    if |a| == 0 {
      assert a + b == b;
      return;
    }
    PairedParts(a);
    if a[0].Calls? {
      var n := 1 + |a[0].calls|;
      PairedConcat(a[n..], b);
      RoundThenRest(a[0], a[1..n], a[n..] + b);
      assert [a[0]] + a[1..n] + (a[n..] + b) == a + b;
    } else {
      PairedConcat(a[1..], b);
      PlainThenRest(a[0], a[1..] + b);
      assert [a[0]] + (a[1..] + b) == a + b;
    }
  }

  lemma PairedParts(a: seq<Msg>)
    requires Paired(a) && |a| > 0
    ensures !a[0].ToolReply?
    ensures a[0].Calls? ==>
              |a[0].calls| < |a| && Answers(a[0].calls, a[1..1 + |a[0].calls|]) && Paired(a[1 + |a[0].calls|..])
    ensures !a[0].Calls? ==> Paired(a[1..])
  {
    hide Answers;
  }

  lemma RoundThenRest(m: Msg, rs: seq<Msg>, rest: seq<Msg>)
    requires m.Calls? && |rs| == |m.calls| && Answers(m.calls, rs) && Paired(rest)
    ensures Paired([m] + rs + rest)
  {
    hide Answers;
    var all := [m] + rs + rest;
    assert all[1..1 + |rs|] == rs && all[1 + |rs|..] == rest;
  }

  lemma PlainThenRest(m: Msg, rest: seq<Msg>)
    requires !m.Calls? && !m.ToolReply? && Paired(rest)
    ensures Paired([m] + rest)
  {
    assert ([m] + rest)[1..] == rest;
  }

  lemma {:induction false} PlanKeepsIds(calls: seq<Call>, prev: string, known: set<string>)
    ensures |Plan(calls, prev, known)| == |Echoes(calls)|
    ensures forall i :: 0 <= i < |Echoes(calls)| ==> Plan(calls, prev, known)[i].id == Echoes(calls)[i].id
  {
    if |calls| > 0 {
      PlanKeepsIds(calls[..|calls| - 1], prev, known);
    }
  }

  lemma RoundIsPaired(text: string, cs: seq<Echo>, rs: seq<Msg>)
    requires Answers(cs, rs)
    ensures Paired([Calls(text, cs)] + rs)
  {
    var msgs := [Calls(text, cs)] + rs;
    assert msgs[1..1 + |cs|] == rs && msgs[1 + |cs|..] == [];
  }

  lemma PairedPlain(m: Msg)
    requires !m.Calls? && !m.ToolReply?
    ensures Paired([m])
  {
  }

  /** The lead-in keeps the conversation paired: the system prompt before it carries no calls. */
  lemma LeadInKeepsPaired(msgs: seq<Msg>, text: string)
    requires Paired(msgs) && (|msgs| > 0 ==> msgs[0].Developer?)
    ensures Paired(LedIn(msgs, text))
    ensures |msgs| > 0 ==> LedIn(msgs, text)[0] == msgs[0]
  {
    if |msgs| > 0 {
      var rest := [Developer(text)] + msgs[1..];
      assert rest[1..] == msgs[1..];
      assert ([msgs[0]] + rest)[1..] == rest;
      assert [msgs[0], Developer(text)] + msgs[1..] == [msgs[0]] + rest;
    }
  }

  /** No reply is empty, and what a tool returned enters the conversation whole or cut at the limit. */
  lemma RepliesAreBounded(ps: seq<Planned>, step: nat, runs: (nat, nat) -> Outcome, i: nat)
    requires i < |ps|
    ensures var r := Replies(ps, step, runs)[i];
            var out := if runs(step, i).Failure? then "error: " + runs(step, i).err else runs(step, i).text;
            && r.text != ""
            && (ps[i].verdict.Execute? ==>
                  && |r.text| <= MAX_MSG + |CUT|
                  && (r.text == "(empty)" || r.text == out || (|out| > MAX_MSG && r.text == out[..MAX_MSG] + CUT)))
  {
    assert |CUT| > 0;
  }

  // ---- Executed calls

  /** The keys that differ from the one just before them. */
  function Destutter(ks: seq<string>): seq<string> {
    if |ks| == 0 then []
    else
      var n := |ks| - 1;
      Destutter(ks[..n]) + (if n > 0 && ks[n] == ks[n - 1] then [] else [ks[n]])
  }

  predicate AdjacentDiffer(ks: seq<string>) { forall i :: 0 < i < |ks| ==> ks[i] != ks[i - 1] }

  lemma {:induction false} DestutterAdjacent(ks: seq<string>)
    ensures AdjacentDiffer(Destutter(ks))
    ensures |ks| > 0 ==> |Destutter(ks)| > 0 && Destutter(ks)[|Destutter(ks)| - 1] == ks[|ks| - 1]
  {
    if |ks| > 0 {
      DestutterAdjacent(ks[..|ks| - 1]);
    }
  }

  predicate Remembers(asked: seq<string>, lastCall: string) {
    if |asked| == 0 then lastCall == "" else lastCall == asked[|asked| - 1]
  }

  /** One round executes exactly the known calls that differ from the known call before them, in this round or an
      earlier one, and remembers the last known call. */
  lemma {:induction false} PlanDestutters(calls: seq<Call>, prev: string, known: set<string>, asked: seq<string>)
    requires Remembers(asked, prev)
    ensures var ps := Plan(calls, prev, known);
            var after := asked + KnownKeys(calls, known);
            Destutter(after) == Destutter(asked) + RunKeys(ps) && Remembers(after, LastRun(ps, prev))
  {
    hide Destutter, RunKeys, LastRun, Key;
    if |calls| == 0 {
      PlanNone(prev);
      assert asked + [] == asked && Destutter(asked) + [] == Destutter(asked);
    } else {
      var n := |calls| - 1;
      PlanDestutters(calls[..n], prev, known, asked);
      var c, front := calls[n], Plan(calls[..n], prev, known);
      var before := asked + KnownKeys(calls[..n], known);
      if c.isFunction {
        PlanSnoc(front, Judge(c, LastRun(front, prev), known), prev);
      }
      if c.isFunction && c.name in known {
        assert asked + KnownKeys(calls, known) == before + [Key(c.name, c.args)];
        DestutterSnoc(before, Key(c.name, c.args));
        KeyNonEmpty(c.name, c.args);
        JoinLast(Destutter(asked), RunKeys(front), [Key(c.name, c.args)]);
      } else {
        assert asked + KnownKeys(calls, known) == before;
      }
    }
  }

  lemma KeyNonEmpty(name: string, args: string)
    ensures Key(name, args) != ""
  {
  }

  lemma PlanNone(prev: string)
    ensures RunKeys([]) == [] && LastRun([], prev) == prev
  {
  }

  lemma JoinLast(a: seq<string>, b: seq<string>, c: seq<string>)
    ensures (a + b) + c == a + (b + c) && a + b + [] == a + (b + [])
  {
  }

  lemma PlanSnoc(front: seq<Planned>, p: Planned, prev: string)
    ensures RunKeys(front + [p]) == RunKeys(front) + (if p.verdict.Execute? then [Key(p.name, p.args)] else [])
    ensures LastRun(front + [p], prev) == if p.verdict.Execute? then Key(p.name, p.args) else LastRun(front, prev)
  {
    assert (front + [p])[..|front|] == front;
  }

  lemma DestutterSnoc(ks: seq<string>, k: string)
    ensures Destutter(ks + [k]) == Destutter(ks) + (if |ks| > 0 && ks[|ks| - 1] == k then [] else [k])
  {
    assert (ks + [k])[..|ks|] == ks;
  }

  /** The repeat guard's memory skips calls of unknown tools, so a repeat with one in between is blocked although
      it is not identical to the call just before it. */
  lemma UnknownDoesNotSeparate(a: Call, u: Call, known: set<string>, prev: string)
    requires a.isFunction && u.isFunction && a.name in known && u.name !in known
    requires Key(a.name, a.args) != prev && Key(u.name, u.args) != Key(a.name, a.args)
    ensures var ps := Plan([a, u, a], prev, known);
            |ps| == 3 && ps[0].verdict.Execute? && ps[1].verdict.Unknown? && ps[2].verdict.Blocked?
  {
    assert [a, u, a][..2] == [a, u] && [a, u][..1] == [a] && [a][..0] == [];
    var p0 := Judge(a, prev, known);
    assert Plan([a], prev, known) == [p0];
    PlanSnoc([], p0, prev);
    assert [] + [p0] == [p0];
    var p1 := Judge(u, LastRun([p0], prev), known);
    assert Plan([a, u], prev, known) == [p0] + [p1];
    PlanSnoc([p0], p1, prev);
  }

  // ---- Every run

  predicate Grows(sent: seq<Request>) { forall i, j :: 0 <= i < j < |sent| ==> sent[i].msgs <= sent[j].msgs }

  predicate SentPaired(sent: seq<Request>) { forall i :: 0 <= i < |sent| ==> Paired(sent[i].msgs) }

  /** The conversation: paired now and in every request so far, each request extending the one before. */
  ghost predicate Conversation(s: State) {
    Paired(s.msgs) && SentPaired(s.sent) && Grows(s.sent) && forall i :: 0 <= i < |s.sent| ==> s.sent[i].msgs <= s.msgs
  }

  predicate Guarded(s: State) { s.executed == Destutter(s.asked) && Remembers(s.asked, s.lastCall) }

  predicate Shaped(s: State, c: Config, step: nat, nudgeOff: bool) {
    && |s.steps| == step
    && (forall i :: 0 <= i < step && s.steps[i] == Nudge ==> i == 0 && |c.known| > 0 && !nudgeOff && c.maxStep >= 2)
    && (nudgeOff || (step > 0 && s.steps[0] == Nudge) <==> s.groundNudged)
    && s.roundsDone == step - (if step > 0 && s.steps[0] == Nudge then 1 else 0)
  }

  predicate Offered(s: State, step: nat) { |s.sent| == step && forall i :: 0 <= i < step ==> s.sent[i].offered }

  ghost predicate Inv(s: State, c: Config, step: nat, nudgeOff: bool) {
    Conversation(s) && Guarded(s) && Shaped(s, c, step, nudgeOff) && Offered(s, step)
  }

  lemma SendingKeeps(s: State, offered: bool)
    requires Conversation(s)
    ensures Conversation(Sending(s, offered))
  {
    hide Paired;
  }

  lemma GrowingKeeps(s: State, ms: seq<Msg>, t: State)
    requires Conversation(s) && Paired(ms) && t.msgs == s.msgs + ms && t.sent == s.sent
    ensures Conversation(t)
  {
    hide Paired;
    PairedConcat(s.msgs, ms);
  }

  lemma AnsweredKeeps(s: State, c: Config, step: nat, reply: Reply, runs: (nat, nat) -> Outcome)
    requires Conversation(s) && Guarded(s)
    ensures Conversation(Answered(s, c, step, reply, runs)) && Guarded(Answered(s, c, step, reply, runs))
  {
    hide Conversation, Plan, Echoes, LastRun, Opening, Closing, RunKeys, KnownKeys, Destutter, Remembers, Paired,
      RoundText;
    var ps := Plan(reply.calls, s.lastCall, c.known);
    PlanDestutters(reply.calls, s.lastCall, c.known, s.asked);
    PlanKeepsIds(reply.calls, s.lastCall, c.known);
    var rs := Replies(ps, step, runs);
    RoundIsPaired(RoundText(reply.content), Echoes(reply.calls), rs);
    GrowingKeeps(s, [Calls(RoundText(reply.content), Echoes(reply.calls))] + rs, Answered(s, c, step, reply, runs));
  }

  lemma NudgedKeeps(s: State, text: string)
    requires Conversation(s)
    ensures Conversation(Nudged(s, text))
  {
    PairedPlain(Assistant(text));
    PairedPlain(User(NUDGE));
    PairedConcat([Assistant(text)], [User(NUDGE)]);
    assert [Assistant(text)] + [User(NUDGE)] == [Assistant(text), User(NUDGE)];
    GrowingKeeps(s, [Assistant(text), User(NUDGE)], Nudged(s, text));
  }

  lemma ShapeAfterRound(s: State, c: Config, step: nat, nudgeOff: bool, reply: Reply, runs: (nat, nat) -> Outcome)
    requires Shaped(s, c, step, nudgeOff)
    ensures Shaped(Answered(s, c, step, reply, runs), c, step + 1, nudgeOff)
  {
    hide Plan, Echoes, LastRun, Opening, Closing, RunKeys, KnownKeys, RoundText;
  }

  lemma ShapeAfterNudge(s: State, c: Config, step: nat, nudgeOff: bool, text: string)
    requires Shaped(s, c, step, nudgeOff) && WantsNudge(s, c, step, text)
    ensures step == 0 && Shaped(Nudged(s, text), c, step + 1, nudgeOff)
  {
    hide Contains;
  }

  /** How a run can end. */
  ghost predicate Ended(s: State, c: Config, nudgeOff: bool, r: Result) {
    && Conversation(s) && Guarded(s)
    && Shaped(s, c, |s.steps|, nudgeOff) && |s.steps| <= c.maxStep
    && (forall i :: 0 <= i < |s.sent| ==> (s.sent[i].offered <==> i < c.maxStep))
    && (r == NoAnswer(Cancelled) ==> |s.sent| == |s.steps| < c.maxStep)
    && (r != NoAnswer(Cancelled) ==> |s.sent| == |s.steps| + 1)
    && (r == NoAnswer(KeptCalling) ==> |s.steps| == c.maxStep)
    && (r.Answer? ==> r.text != "" && exists raw :: r.text == TrimSpace(raw))
  }

  lemma ClosedOutEnds(s: State, c: Config, nudgeOff: bool, env: Env)
    requires Inv(s, c, c.maxStep, nudgeOff)
    ensures Ended(ClosedOut(s, c, env).0, c, nudgeOff, ClosedOut(s, c, env).1)
  {
    hide TrimSpace, Paired, Destutter, Conversation;
    var t := s.(msgs := s.msgs + [User(CLOSE_OUT)]);
    PairedPlain(User(CLOSE_OUT));
    GrowingKeeps(s, [User(CLOSE_OUT)], t);
    SendingKeeps(t, false);
  }

  lemma StoppedEnds(s: State, c: Config, step: nat, nudgeOff: bool, r: Result)
    requires Inv(s, c, step, nudgeOff) && step < c.maxStep
    requires r.Answer? ==> r.text != "" && exists raw :: r.text == TrimSpace(raw)
    requires r != NoAnswer(KeptCalling) && r != NoAnswer(Cancelled)
    ensures Ended(Sending(s, true), c, nudgeOff, r) && Ended(s, c, nudgeOff, NoAnswer(Cancelled))
  {
    hide TrimSpace, Paired, Destutter, Conversation;
    SendingKeeps(s, true);
  }

  lemma {:induction false} GatheredEnds(s: State, c: Config, step: nat, nudgeOff: bool, env: Env)
    requires Inv(s, c, step, nudgeOff) && step <= c.maxStep
    ensures Ended(Gathered(s, c, step, env).0, c, nudgeOff, Gathered(s, c, step, env).1)
    decreases c.maxStep - step
  {
    hide Conversation, Guarded, Shaped, Offered, Ended, Answered, Nudged, WantsNudge, ClosedOut, Paired, TrimSpace;
    if step == c.maxStep {
      ClosedOutEnds(s, c, nudgeOff, env);
    } else {
      StoppedEnds(s, c, step, nudgeOff, NoAnswer(RequestFailed));
      StoppedEnds(s, c, step, nudgeOff, NoAnswer(WithoutChoices));
      StoppedEnds(s, c, step, nudgeOff, NoAnswer(EmptyAnswer));
      if !env.cancelled(step) && env.model(step, s.msgs, true).Says? {
        var reply := env.model(step, s.msgs, true).reply;
        var t := Sending(s, true);
        SentKeeps(s, c, step, nudgeOff);
        if |reply.calls| > 0 {
          RoundKeeps(t, c, step, nudgeOff, reply, env.runs);
          GatheredEnds(Answered(t, c, step, reply, env.runs), c, step + 1, nudgeOff, env);
        } else {
          var text := TrimSpace(reply.content);
          if text != "" {
            StoppedEnds(s, c, step, nudgeOff, Answer(text));
            if WantsNudge(t, c, step, text) {
              NudgeKeeps(t, c, step, nudgeOff, text);
              GatheredEnds(Nudged(t, text), c, step + 1, nudgeOff, env);
            }
          }
        }
      }
    }
  }

  /** Between the request and its handling. */
  ghost predicate Asked(s: State, c: Config, step: nat, nudgeOff: bool) {
    Conversation(s) && Guarded(s) && Shaped(s, c, step, nudgeOff) && Offered(s, step + 1)
  }

  lemma SentKeeps(s: State, c: Config, step: nat, nudgeOff: bool)
    requires Inv(s, c, step, nudgeOff)
    ensures Asked(Sending(s, true), c, step, nudgeOff)
  {
    hide Conversation, Destutter;
    SendingKeeps(s, true);
  }

  lemma RoundKeeps(t: State, c: Config, step: nat, nudgeOff: bool, reply: Reply, runs: (nat, nat) -> Outcome)
    requires Asked(t, c, step, nudgeOff)
    ensures Inv(Answered(t, c, step, reply, runs), c, step + 1, nudgeOff)
  {
    hide Conversation, Guarded, Shaped, Plan, Echoes, LastRun, Opening, Closing, RunKeys, KnownKeys, RoundText;
    AnsweredKeeps(t, c, step, reply, runs);
    ShapeAfterRound(t, c, step, nudgeOff, reply, runs);
  }

  lemma NudgeKeeps(t: State, c: Config, step: nat, nudgeOff: bool, text: string)
    requires Asked(t, c, step, nudgeOff) && WantsNudge(t, c, step, text)
    ensures Inv(Nudged(t, text), c, step + 1, nudgeOff)
  {
    hide Conversation, Shaped, Destutter, WantsNudge;
    NudgedKeeps(t, text);
    ShapeAfterNudge(t, c, step, nudgeOff, text);
  }

  /** Every run from a paired conversation. Every request carries a paired conversation that extends the one
      before. The calls executed are the known calls asked for with consecutive repeats left out, so no two
      adjacent ones are equal. There are at most `maxStep` requests with tools and one without, the last; a nudge
      can only be the very first step, and only with tools, a budget of two and nudging on; the loop gives up for
      calling on only when the last step ran tools. An answer is never empty. */
  lemma RunSafety(msgs: seq<Msg>, c: Config, nudgeOff: bool, env: Env)
    requires Paired(msgs)
    ensures var (s, r) := Gathered(Start(msgs, nudgeOff), c, 0, env);
            && SentPaired(s.sent) && Grows(s.sent) && Paired(s.msgs)
            && s.executed == Destutter(s.asked) && AdjacentDiffer(s.executed)
            && |s.sent| <= c.maxStep + 1
            && (forall i :: 0 <= i < |s.sent| ==> (s.sent[i].offered <==> i < c.maxStep))
            && (forall i :: 0 <= i < |s.steps| && s.steps[i] == Nudge ==>
                  i == 0 && |c.known| > 0 && !nudgeOff && c.maxStep >= 2)
            && s.roundsDone <= |s.steps| <= s.roundsDone + 1
            && (r == NoAnswer(KeptCalling) ==>
                  |s.steps| == c.maxStep && (c.maxStep > 0 ==> s.steps[c.maxStep - 1] == Round))
            && (r.Answer? ==> r.text != "")
  {
    hide Paired, TrimSpace, Destutter, Gathered, AdjacentDiffer;
    assert Destutter([]) == [] by { NothingAsked(); }
    GatheredEnds(Start(msgs, nudgeOff), c, 0, nudgeOff, env);
    DestutterAdjacent(Gathered(Start(msgs, nudgeOff), c, 0, env).0.asked);
  }

  lemma NothingAsked()
    ensures Destutter([]) == []
  {
  }
}
