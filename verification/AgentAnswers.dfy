/** What a run asks and answers, told by its requests and the model's replies (server/internal/agent/loop.go). */
module AgentAnswers {
  import opened AgentLoop
  import opened Text

  // ---- The end of a run

  /** The model's reply to the i-th request. */
  function Said(sent: seq<Request>, env: Env, i: nat): ModelResult
    requires i < |sent|
  {
    env.model(i, sent[i].msgs, sent[i].offered)
  }

  function Words(m: ModelResult): string { if m.Says? then TrimSpace(m.reply.content) else "" }

  predicate CallsTools(m: ModelResult) { m.Says? && |m.reply.calls| > 0 }

  /** A first reply that answers without having looked, and says nothing about another topic. */
  ghost predicate Ungrounded(c: Config, nudgeOff: bool, i: nat, m: ModelResult) {
    && i == 0 && |c.known| > 0 && !nudgeOff && c.maxStep >= 2
    && m.Says? && |m.reply.calls| == 0 && Words(m) != ""
    && forall k :: 0 <= k <= |Words(m)| ==> !("Not a codebase question" <= Words(m)[k..])
  }

  /** The run goes on after the i-th reply. */
  ghost predicate GoesOn(sent: seq<Request>, c: Config, nudgeOff: bool, env: Env, i: nat)
    requires i < |sent|
  {
    && i < c.maxStep && !env.cancelled(i)
    && (CallsTools(Said(sent, env, i)) || Ungrounded(c, nudgeOff, i, Said(sent, env, i)))
  }

  /** The result follows from the requests, the replies to them and the moment of cancellation. */
  ghost predicate Explained(sent: seq<Request>, r: Result, c: Config, nudgeOff: bool, env: Env) {
    var n := |sent|;
    && n <= c.maxStep + 1
    && (forall i :: 0 <= i < n - 1 ==> GoesOn(sent, c, nudgeOff, env, i))
    && (forall i :: 0 <= i < n && i < c.maxStep ==> !env.cancelled(i))
    && (r == NoAnswer(Cancelled) <==>
        n < c.maxStep && env.cancelled(n) && (n > 0 ==> GoesOn(sent, c, nudgeOff, env, n - 1)))
    && (r == NoAnswer(RequestFailed) <==> 0 < n <= c.maxStep && Said(sent, env, n - 1).Fails?)
    && (r == NoAnswer(WithoutChoices) <==> 0 < n <= c.maxStep && Said(sent, env, n - 1).NoChoices?)
    && (r == NoAnswer(EmptyAnswer) <==>
        0 < n <= c.maxStep && Said(sent, env, n - 1).Says? && !CallsTools(Said(sent, env, n - 1))
        && Words(Said(sent, env, n - 1)) == "")
    && (r == NoAnswer(KeptCalling) <==> n == c.maxStep + 1 && Words(Said(sent, env, n - 1)) == "")
    && (forall text :: r == Answer(text) <==>
          && n > 0 && text != "" && text == Words(Said(sent, env, n - 1))
          && (n <= c.maxStep ==>
                !CallsTools(Said(sent, env, n - 1)) && !Ungrounded(c, nudgeOff, n - 1, Said(sent, env, n - 1))))
  }

  lemma {:induction false} ContainsIff(s: string, t: string)
    ensures Contains(s, t) <==> exists k :: 0 <= k <= |s| && t <= s[k..]
  {
    assert s[0..] == s;
    if |s| > 0 {
      ContainsIff(s[1..], t);
      forall k | 0 <= k < |s| ensures s[1..][k..] == s[k + 1..] {}
      if k :| 0 < k <= |s| && t <= s[k..] {
        assert t <= s[1..][k - 1..];
      }
      if k :| 0 <= k <= |s[1..]| && t <= s[1..][k..] {
        assert t <= s[k + 1..];
      }
    }
  }

  /** Where a run stands before its step. */
  predicate AtStep(s: State, c: Config, step: nat, nudgeOff: bool) {
    && |s.sent| == step <= c.maxStep
    && (step == 0 ==> s.roundsDone == 0 && s.groundNudged == nudgeOff)
    && (step > 0 ==> s.roundsDone > 0 || s.groundNudged)
  }

  lemma NudgeIff(s: State, c: Config, step: nat, nudgeOff: bool, m: ModelResult)
    requires AtStep(s, c, step, nudgeOff) && step < c.maxStep && m.Says? && |m.reply.calls| == 0 && Words(m) != ""
    ensures WantsNudge(Sending(s, true), c, step, Words(m)) <==> Ungrounded(c, nudgeOff, step, m)
  {
    ContainsIff(Words(m), "Not a codebase question");
  }

  lemma SaidStays(a: seq<Request>, b: seq<Request>, c: Config, nudgeOff: bool, env: Env, i: nat)
    requires i < |a| && a <= b
    ensures Said(a, env, i) == Said(b, env, i)
    ensures GoesOn(a, c, nudgeOff, env, i) <==> GoesOn(b, c, nudgeOff, env, i)
  {
  }

  ghost predicate WentOn(sent: seq<Request>, c: Config, nudgeOff: bool, env: Env) {
    forall i :: 0 <= i < |sent| ==> GoesOn(sent, c, nudgeOff, env, i)
  }

  lemma SentOne(s: State, c: Config, nudgeOff: bool, env: Env, offered: bool)
    requires WentOn(s.sent, c, nudgeOff, env)
    ensures var t := Sending(s, offered);
            && |t.sent| == |s.sent| + 1 && t.sent[|s.sent|] == Request(s.msgs, offered)
            && (forall i :: 0 <= i < |s.sent| ==> GoesOn(t.sent, c, nudgeOff, env, i))
  {
    hide GoesOn;
    var t := Sending(s, offered);
    forall i | 0 <= i < |s.sent| ensures GoesOn(t.sent, c, nudgeOff, env, i) {
      SaidStays(s.sent, t.sent, c, nudgeOff, env, i);
    }
  }

  lemma ClosedOutExplained(s: State, c: Config, nudgeOff: bool, env: Env)
    requires AtStep(s, c, c.maxStep, nudgeOff) && WentOn(s.sent, c, nudgeOff, env)
    ensures var (t, r) := ClosedOut(s, c, env); Explained(t.sent, r, c, nudgeOff, env)
  {
    hide TrimSpace, Ungrounded, GoesOn;
    var asked := s.(msgs := s.msgs + [User(CLOSE_OUT)]);
    SentOne(asked, c, nudgeOff, env, false);
    WentMeans(Sending(asked, false).sent, c, nudgeOff, env);
  }

  lemma StoppedExplained(s: State, c: Config, step: nat, nudgeOff: bool, env: Env, r: Result)
    requires AtStep(s, c, step, nudgeOff) && step < c.maxStep
    requires WentOn(s.sent, c, nudgeOff, env) && !env.cancelled(step)
    requires match env.model(step, s.msgs, true)
             case Fails => r == NoAnswer(RequestFailed)
             case NoChoices => r == NoAnswer(WithoutChoices)
             case Says(reply) =>
               |reply.calls| == 0
               && (if TrimSpace(reply.content) == "" then r == NoAnswer(EmptyAnswer)
                   else r == Answer(TrimSpace(reply.content)) && !Ungrounded(c, nudgeOff, step, Says(reply)))
    ensures Explained(Sending(s, true).sent, r, c, nudgeOff, env)
  {
    hide TrimSpace, Ungrounded, GoesOn;
    SentOne(s, c, nudgeOff, env, true);
    WentMeans(Sending(s, true).sent, c, nudgeOff, env);
  }

  lemma CancelledExplained(s: State, c: Config, step: nat, nudgeOff: bool, env: Env)
    requires AtStep(s, c, step, nudgeOff) && step < c.maxStep && WentOn(s.sent, c, nudgeOff, env) && env.cancelled(step)
    ensures Explained(s.sent, NoAnswer(Cancelled), c, nudgeOff, env)
  {
    hide TrimSpace, GoesOn;
    assert step > 0 ==> GoesOn(s.sent, c, nudgeOff, env, step - 1);
    WentMeans(s.sent, c, nudgeOff, env);
  }

  lemma WentMeans(sent: seq<Request>, c: Config, nudgeOff: bool, env: Env)
    ensures forall i :: 0 <= i < |sent| && GoesOn(sent, c, nudgeOff, env, i) ==>
              && i < c.maxStep && !env.cancelled(i) && Said(sent, env, i).Says?
              && (CallsTools(Said(sent, env, i)) || Ungrounded(c, nudgeOff, i, Said(sent, env, i)))
              && (CallsTools(Said(sent, env, i)) || Words(Said(sent, env, i)) != "")
  {
    hide TrimSpace;
  }

  lemma {:induction false} GatherExplained(s: State, c: Config, step: nat, nudgeOff: bool, env: Env)
    requires AtStep(s, c, step, nudgeOff) && WentOn(s.sent, c, nudgeOff, env)
    ensures var (t, r) := Gathered(s, c, step, env); Explained(t.sent, r, c, nudgeOff, env)
    decreases c.maxStep - step
  {
    hide TrimSpace, Explained, Ungrounded, WantsNudge, ClosedOut, Plan, Echoes, LastRun, Opening, Closing, RunKeys,
      KnownKeys, RoundText, Replies;
    if step == c.maxStep {
      ClosedOutExplained(s, c, nudgeOff, env);
    } else if env.cancelled(step) {
      CancelledExplained(s, c, step, nudgeOff, env);
    } else {
      var m := env.model(step, s.msgs, true);
      SentOne(s, c, nudgeOff, env, true);
      var t := Sending(s, true);
      if CallsTools(m) {
        GatherExplained(Answered(t, c, step, m.reply, env.runs), c, step + 1, nudgeOff, env);
      } else {
        if m.Says? && Words(m) != "" {
          NudgeIff(s, c, step, nudgeOff, m);
        }
        if m.Says? && Words(m) != "" && Ungrounded(c, nudgeOff, step, m) {
          GatherExplained(Nudged(t, Words(m)), c, step + 1, nudgeOff, env);
        } else {
          StoppedExplained(s, c, step, nudgeOff, env, Gathered(s, c, step, env).1);
        }
      }
    }
  }

  /** Every run, told by its requests and the replies to them: an answer is the trimmed text of the last reply, which
      called no tool and was not sent back for grounding, or was the one to the request without tools; a reply with text
      and no calls, unless sent back, is the answer; and each failure has its own cause and no other. */
  lemma RunExplained(msgs: seq<Msg>, c: Config, nudgeOff: bool, env: Env)
    ensures var (s, r) := Gathered(Start(msgs, nudgeOff), c, 0, env); Explained(s.sent, r, c, nudgeOff, env)
  {
    hide Explained, Gathered;
    GatherExplained(Start(msgs, nudgeOff), c, 0, nudgeOff, env);
  }

  // ---- What a round adds to the conversation

  /** `idx` lists the places of the function calls, in order. */
  ghost predicate FunctionsAt(calls: seq<Call>, idx: seq<nat>) {
    && (forall j, k :: 0 <= j < k < |idx| ==> idx[j] < idx[k])
    && (forall k :: 0 <= k < |idx| ==> idx[k] < |calls| && calls[idx[k]].isFunction)
    && (forall i :: 0 <= i < |calls| && calls[i].isFunction ==> i in idx)
  }

  lemma FunctionsStep(calls: seq<Call>, idx: seq<nat>)
    requires |calls| > 0 && FunctionsAt(calls[..|calls| - 1], idx)
    ensures FunctionsAt(calls, if calls[|calls| - 1].isFunction then idx + [|calls| - 1] else idx)
  {
    var n := |calls| - 1;
    var all := if calls[n].isFunction then idx + [n] else idx;
    forall i | 0 <= i < |calls| && calls[i].isFunction ensures i in all {
      if i < n {
        assert calls[..n][i].isFunction;
      } else {
        assert all[|all| - 1] == n;
      }
    }
  }

  /** The k-th planned call and its echo are call `c`, judged by the calls planned before it. */
  predicate PlannedAs(ps: seq<Planned>, es: seq<Echo>, k: nat, c: Call, prev: string, known: set<string>)
    requires k < |ps| == |es|
  {
    && es[k] == Echo(c.id, c.name, c.args)
    && ps[k].id == c.id && ps[k].name == c.name && ps[k].args == c.args
    && (ps[k].verdict.Blocked? <==> Key(c.name, c.args) == LastRun(ps[..k], prev))
    && (ps[k].verdict.Execute? <==> c.name in known && Key(c.name, c.args) != LastRun(ps[..k], prev))
  }

  lemma PlannedFront(ps: seq<Planned>, es: seq<Echo>, p: Planned, e: Echo, k: nat, c: Call, prev: string,
                     known: set<string>)
    requires k < |ps| == |es| && PlannedAs(ps, es, k, c, prev, known)
    ensures PlannedAs(ps + [p], es + [e], k, c, prev, known)
  {
    hide Key, LastRun;
    assert (ps + [p])[..k] == ps[..k];
  }

  lemma PlannedLast(ps: seq<Planned>, es: seq<Echo>, c: Call, prev: string, known: set<string>)
    requires |ps| == |es|
    ensures PlannedAs(ps + [Judge(c, LastRun(ps, prev), known)], es + [Echo(c.id, c.name, c.args)], |ps|, c, prev,
                      known)
  {
    hide Key, LastRun;
    assert (ps + [Judge(c, LastRun(ps, prev), known)])[..|ps|] == ps;
  }

  lemma PlanUnfolds(calls: seq<Call>, prev: string, known: set<string>)
    requires |calls| > 0
    ensures var n := |calls| - 1;
            var ps, es := Plan(calls[..n], prev, known), Echoes(calls[..n]);
            var c := calls[n];
            && Plan(calls, prev, known) == (if c.isFunction then ps + [Judge(c, LastRun(ps, prev), known)] else ps)
            && Echoes(calls) == (if c.isFunction then es + [Echo(c.id, c.name, c.args)] else es)
  {
    hide Judge, LastRun;
    assert Echoes(calls[..|calls| - 1]) + [] == Echoes(calls[..|calls| - 1]);
  }

  /** Every planned call is the call at its place. */
  ghost predicate AllPlanned(calls: seq<Call>, idx: seq<nat>, ps: seq<Planned>, es: seq<Echo>, prev: string,
                             known: set<string>) {
    && |ps| == |es| == |idx| && FunctionsAt(calls, idx)
    && forall k :: 0 <= k < |idx| ==> PlannedAs(ps, es, k, calls[idx[k]], prev, known)
  }

  lemma PlannedMore(calls: seq<Call>, idx: seq<nat>, ps: seq<Planned>, es: seq<Echo>, prev: string, known: set<string>)
    requires |calls| > 0 && AllPlanned(calls[..|calls| - 1], idx, ps, es, prev, known)
    ensures var n := |calls| - 1;
            var c := calls[n];
            if c.isFunction then
              AllPlanned(calls, idx + [n], ps + [Judge(c, LastRun(ps, prev), known)], es + [Echo(c.id, c.name, c.args)],
                         prev, known)
            else AllPlanned(calls, idx, ps, es, prev, known)
  {
    hide PlannedAs, Judge, LastRun, FunctionsAt;
    var n := |calls| - 1;
    var c := calls[n];
    FunctionsStep(calls, idx);
    FunctionsInside(calls[..n], idx);
    if c.isFunction {
      var p, e := Judge(c, LastRun(ps, prev), known), Echo(c.id, c.name, c.args);
      forall k | 0 <= k < |idx| ensures PlannedAs(ps + [p], es + [e], k, calls[idx[k]], prev, known) {
        PlannedFront(ps, es, p, e, k, calls[..n][idx[k]], prev, known);
      }
      PlannedLast(ps, es, c, prev, known);
    }
  }

  lemma FunctionsInside(calls: seq<Call>, idx: seq<nat>)
    requires FunctionsAt(calls, idx)
    ensures forall k :: 0 <= k < |idx| ==> idx[k] < |calls|
  {
  }

  /** A round echoes and plans exactly the function calls of the reply, each with its id, name and arguments; it runs
      those of known tools that do not repeat the call run last, in this round or before it, and blocks the repeats. */
  lemma {:induction false} PlannedAre(calls: seq<Call>, prev: string, known: set<string>) returns (idx: seq<nat>)
    ensures AllPlanned(calls, idx, Plan(calls, prev, known), Echoes(calls), prev, known)
  {
    if |calls| == 0 {
      idx := [];
    } else {
      hide AllPlanned, Plan, Echoes, Judge, LastRun;
      var n := |calls| - 1;
      idx := PlannedAre(calls[..n], prev, known);
      PlanUnfolds(calls, prev, known);
      PlannedMore(calls, idx, Plan(calls[..n], prev, known), Echoes(calls[..n]), prev, known);
      idx := if calls[n].isFunction then idx + [n] else idx;
    }
  }

  /** The call run last is the last one to execute, or the one before the round. */
  lemma {:induction false} LastRunIs(ps: seq<Planned>, prev: string)
    ensures LastRun(ps, prev) == if |RunKeys(ps)| == 0 then prev else RunKeys(ps)[|RunKeys(ps)| - 1]
    ensures forall k :: k in RunKeys(ps) ==>
              exists i :: 0 <= i < |ps| && ps[i].verdict.Execute? && k == Key(ps[i].name, ps[i].args)
  {
    hide Key;
    if |ps| > 0 {
      LastRunIs(ps[..|ps| - 1], prev);
    }
  }

  /** The model reads back, for each call planned: that it was a repeat, that the tool is unknown, or the tool's output
      or error, whole up to 8192 characters, cut there with the marker beyond, and marked when empty. */
  lemma ReplyReads(ps: seq<Planned>, step: nat, runs: (nat, nat) -> Outcome, i: nat)
    requires i < |ps|
    ensures var r := Replies(ps, step, runs)[i];
            var out := if runs(step, i).Failure? then "error: " + runs(step, i).err else runs(step, i).text;
            && r == ToolReply(ps[i].id, r.text)
            && (ps[i].verdict.Blocked? ==> r.text == REPEAT_HEAD + ps[i].name + REPEAT_TAIL)
            && (ps[i].verdict.Unknown? ==> r.text == "unknown tool " + ps[i].name)
            && (ps[i].verdict.Execute? ==>
                  && (out == "" ==> r.text == "(empty)")
                  && (0 < |out| <= 8192 ==> r.text == out)
                  && (|out| > 8192 ==> r.text == out[..8192] + CUT))
  {
    assert |REPEAT_HEAD| > 0;
  }

  // ---- What is asked next

  /** What the i-th reply adds to the conversation: its calls with their replies, or its text and the nudge. */
  ghost predicate Adds(ms: seq<Msg>, c: Config, env: Env, i: nat, m: ModelResult) {
    if CallsTools(m) then
      var text := if m.reply.content == "" then "(calling tools)" else m.reply.content;
      exists prev: string ::
        ms == [Calls(text, Echoes(m.reply.calls))] + Replies(Plan(m.reply.calls, prev, c.known), i, env.runs)
    else ms == [Assistant(Words(m)), User(NUDGE)]
  }

  /** The request after the i-th extends it by just that, and by the last call for an answer if rounds are used up. */
  ghost predicate Follows(a: seq<Msg>, b: seq<Msg>, c: Config, env: Env, i: nat, m: ModelResult) {
    exists ms :: Adds(ms, c, env, i, m) && b == a + ms + (if i + 1 == c.maxStep then [User(CLOSE_OUT)] else [])
  }

  ghost predicate Trail(sent: seq<Request>, msgs: seq<Msg>, c: Config, env: Env) {
    && (|sent| > 0 ==> sent[0].msgs == msgs + (if c.maxStep == 0 then [User(CLOSE_OUT)] else []))
    && (forall i :: 0 <= i < |sent| - 1 ==> Follows(sent[i].msgs, sent[i + 1].msgs, c, env, i, Said(sent, env, i)))
  }

  /** What the loop holds between two requests. */
  ghost predicate Ready(s: State, msgs: seq<Msg>, c: Config, env: Env) {
    && Trail(s.sent, msgs, c, env)
    && (|s.sent| == 0 ==> s.msgs == msgs)
    && (|s.sent| > 0 ==>
          var n := |s.sent| - 1; Extends(s.sent[n].msgs, s.msgs, c, env, n, Said(s.sent, env, n)))
  }

  ghost predicate Extends(a: seq<Msg>, b: seq<Msg>, c: Config, env: Env, i: nat, m: ModelResult) {
    exists ms :: Adds(ms, c, env, i, m) && b == a + ms
  }

  /** The next request, the last one with the call for an answer. */
  lemma NextFollows(s: State, msgs: seq<Msg>, c: Config, env: Env, close: seq<Msg>, offered: bool)
    requires Ready(s, msgs, c, env) && close == if |s.sent| == c.maxStep then [User(CLOSE_OUT)] else []
    ensures Trail(Sending(s.(msgs := s.msgs + close), offered).sent, msgs, c, env)
  {
    hide Adds, Follows;
    var t := Sending(s.(msgs := s.msgs + close), offered);
    var n := |s.sent|;
    forall i | 0 <= i < n ensures Follows(t.sent[i].msgs, t.sent[i + 1].msgs, c, env, i, Said(t.sent, env, i)) {
      if i == n - 1 {
        LastFollows(s, msgs, c, env, close);
      }
    }
  }

  lemma LastFollows(s: State, msgs: seq<Msg>, c: Config, env: Env, close: seq<Msg>)
    requires Ready(s, msgs, c, env) && |s.sent| > 0
    requires close == if |s.sent| == c.maxStep then [User(CLOSE_OUT)] else []
    ensures var n := |s.sent|; Follows(s.sent[n - 1].msgs, s.msgs + close, c, env, n - 1, Said(s.sent, env, n - 1))
  {
    hide Adds;
  }

  lemma StaysReady(t: State, u: State, msgs: seq<Msg>, c: Config, env: Env, ms: seq<Msg>)
    requires |t.sent| > 0 && Trail(t.sent, msgs, c, env) && u.sent == t.sent
    requires t.msgs == t.sent[|t.sent| - 1].msgs && u.msgs == t.msgs + ms
    requires Adds(ms, c, env, |t.sent| - 1, Said(t.sent, env, |t.sent| - 1))
    ensures Ready(u, msgs, c, env)
  {
    hide Adds, Trail;
  }

  lemma {:induction false} GatherTrail(s: State, c: Config, step: nat, env: Env, msgs: seq<Msg>)
    requires |s.sent| == step <= c.maxStep && Ready(s, msgs, c, env)
    ensures Trail(Gathered(s, c, step, env).0.sent, msgs, c, env)
    decreases c.maxStep - step
  {
    hide Trail, Ready, WantsNudge, Plan, Echoes, LastRun, Opening, Closing, RunKeys, KnownKeys, Replies, TrimSpace;
    NextFollows(s, msgs, c, env, if step == c.maxStep then [User(CLOSE_OUT)] else [], step < c.maxStep);
    ReadyTrail(s, msgs, c, env);
    if step < c.maxStep && !env.cancelled(step) {
      assert s.msgs + [] == s.msgs && s.(msgs := s.msgs) == s;
      var t, m := Sending(s, true), env.model(step, s.msgs, true);
      if CallsTools(m) {
        var u := Answered(t, c, step, m.reply, env.runs);
        var ms := [Calls(RoundText(m.reply.content), Echoes(m.reply.calls))]
                  + Replies(Plan(m.reply.calls, t.lastCall, c.known), step, env.runs);
        StaysReady(t, u, msgs, c, env, ms);
        GatherTrail(u, c, step + 1, env, msgs);
      } else if m.Says? && Words(m) != "" && WantsNudge(t, c, step, Words(m)) {
        StaysReady(t, Nudged(t, Words(m)), msgs, c, env, [Assistant(Words(m)), User(NUDGE)]);
        GatherTrail(Nudged(t, Words(m)), c, step + 1, env, msgs);
      }
    }
  }

  lemma ReadyTrail(s: State, msgs: seq<Msg>, c: Config, env: Env)
    requires Ready(s, msgs, c, env)
    ensures Trail(s.sent, msgs, c, env)
  {
  }

  /** Over every run, the first request is the conversation it started from, and each later one is the one before and
      what the reply to that added, the last with the call for an answer when all rounds are used up. */
  lemma RequestsFollow(msgs: seq<Msg>, c: Config, nudgeOff: bool, env: Env)
    ensures Trail(Gathered(Start(msgs, nudgeOff), c, 0, env).0.sent, msgs, c, env)
  {
    hide Gathered;
    GatherTrail(Start(msgs, nudgeOff), c, 0, env, msgs);
  }
}
