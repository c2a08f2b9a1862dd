/** The round collector (server/internal/agent/turn.go): folding a run's trace events into a transcript, and
    exactly when every step is shown with its own result. */
module AgentTranscript {
  import opened AgentLoop
  import opened AgentRuns
  import opened Text

  datatype RoundEntry = RoundEntry(thought: string, steps: seq<Step>)

  datatype Collected = Collected(rounds: seq<RoundEntry>, pending: seq<Step>)

  /** A step closed by a done event: the error wins over the output. */
  function Close(s: Step, result: string, err: string): Step {
    if err != "" then s.(err := err) else s.(output := result)
  }

  function AddStep(rounds: seq<RoundEntry>, s: Step): seq<RoundEntry> {
    if |rounds| == 0 then [RoundEntry("", [s])]
    else
      var last := rounds[|rounds| - 1];
      rounds[..|rounds| - 1] + [last.(steps := last.steps + [s])]
  }

  function Collect(c: Collected, ev: Event): Collected {
    match ev
    case RoundStart(text) => c.(rounds := c.rounds + [RoundEntry(text, [])])
    case ToolStart(tool, args) => c.(pending := c.pending + [Step(tool, args, "", "")])
    case ToolDone(tool, args, result, err) =>
      if |c.pending| > 0 then
        Collected(AddStep(c.rounds, Close(c.pending[0], result, err)), c.pending[1..])
      else c.(rounds := AddStep(c.rounds, Close(Step(tool, args, "", ""), result, err)))
  }

  function CollectAll(c: Collected, evs: seq<Event>): Collected {
    if |evs| == 0 then c else Collect(CollectAll(c, evs[..|evs| - 1]), evs[|evs| - 1])
  }

  class RoundCollector {
    var rounds: seq<RoundEntry>
    var pending: seq<Step>

    ghost function View(): Collected
      reads this
    {
      Collected(rounds, pending)
    }

    constructor ()
      ensures View() == Collected([], [])
    {
      rounds, pending := [], [];
    }

    method Add(ev: Event)
      modifies this
      ensures View() == Collect(old(View()), ev)
    {
      hide AddStep;
      match ev {
        case RoundStart(text) =>
          rounds := rounds + [RoundEntry(text, [])];
        case ToolStart(tool, args) =>
          pending := pending + [Step(tool, args, "", "")];
        case ToolDone(tool, args, result, err) =>
          var st := Step(tool, args, "", "");
          if |pending| > 0 {
            st, pending := pending[0], pending[1..];
          }
          if err != "" {
            st := st.(err := err);
          } else {
            st := st.(output := result);
          }
          rounds := Extend(rounds, st);
      }
    }

    /** Appending to the newest round, which is opened if there is none. */
    static method Extend(before: seq<RoundEntry>, st: Step) returns (after: seq<RoundEntry>)
      ensures after == AddStep(before, st)
    {
      after := before;
      if |after| == 0 {
        after := [RoundEntry("", [])];
      }
      var last := after[|after| - 1];
      after := after[..|after| - 1] + [last.(steps := last.steps + [st])];
      assert [] + [st] == [st];
    }
  }

  lemma {:induction false} CollectConcat(c: Collected, a: seq<Event>, b: seq<Event>)
    ensures CollectAll(c, a + b) == CollectAll(CollectAll(c, a), b)
  {
    hide Collect;
    if |b| == 0 {
      assert a + b == a;
    } else {
      assert (a + b)[..|a + b| - 1] == a + b[..|b| - 1];
      CollectConcat(c, a, b[..|b| - 1]);
    }
  }

  // ---- One round

  /** The steps a round opens, in order, and the done events it emits: the blocked ones while planning, then those
      that ran. */
  function Starts(ps: seq<Planned>): seq<Step> {
    if |ps| == 0 then []
    else
      var p := ps[|ps| - 1];
      Starts(ps[..|ps| - 1]) + (if p.verdict.Unknown? then [] else [Step(p.name, p.args, "", "")])
  }

  function BlockedDones(ps: seq<Planned>): seq<Event> {
    if |ps| == 0 then []
    else
      var p := ps[|ps| - 1];
      BlockedDones(ps[..|ps| - 1]) + (if p.verdict.Blocked? then [BlockedDone(p)] else [])
  }

  function Zip(ss: seq<Step>, ds: seq<Event>): seq<Step>
    requires |ds| <= |ss| && forall d :: d in ds ==> d.ToolDone?
  {
    seq(|ds|, i requires 0 <= i < |ds| => Close(ss[i], ds[i].result, ds[i].err))
  }

  lemma {:induction false} DonesAreDones(ps: seq<Planned>, step: nat, runs: (nat, nat) -> Outcome)
    ensures forall d :: d in BlockedDones(ps) || d in Closing(ps, step, runs) ==> d.ToolDone?
    ensures |BlockedDones(ps)| + |Closing(ps, step, runs)| == |Starts(ps)|
  {
    if |ps| > 0 {
      DonesAreDones(ps[..|ps| - 1], step, runs);
    }
  }

  /** Feeding done events to a collector with enough open steps closes the oldest ones in order. */
  lemma {:induction false} DonesCloseOldest(c: Collected, ds: seq<Event>)
    requires |c.rounds| > 0 && |ds| <= |c.pending| && forall d :: d in ds ==> d.ToolDone?
    ensures var last := c.rounds[|c.rounds| - 1];
            CollectAll(c, ds) == Collected(c.rounds[..|c.rounds| - 1]
                + [last.(steps := last.steps + Zip(c.pending, ds))],
                                           c.pending[|ds|..])
  {
    var last := c.rounds[|c.rounds| - 1];
    if |ds| == 0 {
      assert last.steps + Zip(c.pending, ds) == last.steps;
    } else {
      var front, d := ds[..|ds| - 1], ds[|ds| - 1];
      DonesCloseOldest(c, front);
      assert last.steps + Zip(c.pending, ds)
             == last.steps + Zip(c.pending, front) + [Close(c.pending[|front|], d.result, d.err)];
      assert c.pending[|front|..][1..] == c.pending[|ds|..];
    }
  }

  /** A collector in mid-round: the steps `ss` opened, as many closed as there are done events in `ds`. */
  function MidRound(c: Collected, ss: seq<Step>, ds: seq<Event>): Collected
    requires |c.rounds| > 0 && |ds| <= |ss| && forall d :: d in ds ==> d.ToolDone?
  {
    var last := c.rounds[|c.rounds| - 1];
    Collected(c.rounds[..|c.rounds| - 1] + [last.(steps := last.steps + Zip(ss, ds))], ss[|ds|..])
  }

  lemma MidStart(c: Collected, ss: seq<Step>, ds: seq<Event>, tool: string, args: string)
    requires |c.rounds| > 0 && |ds| <= |ss| && forall d :: d in ds ==> d.ToolDone?
    ensures Collect(MidRound(c, ss, ds), ToolStart(tool, args)) == MidRound(c, ss + [Step(tool, args, "", "")], ds)
  {
    assert ss[|ds|..] + [Step(tool, args, "", "")] == (ss + [Step(tool, args, "", "")])[|ds|..];
    assert Zip(ss, ds) == Zip(ss + [Step(tool, args, "", "")], ds);
  }

  lemma MidDone(c: Collected, ss: seq<Step>, ds: seq<Event>, d: Event)
    requires |c.rounds| > 0 && |ds| < |ss| && d.ToolDone? && forall e :: e in ds ==> e.ToolDone?
    ensures Collect(MidRound(c, ss, ds), d) == MidRound(c, ss, ds + [d])
  {
    var last := c.rounds[|c.rounds| - 1];
    assert Zip(ss, ds + [d]) == Zip(ss, ds) + [Close(ss[|ds|], d.result, d.err)];
    assert last.steps + Zip(ss, ds) + [Close(ss[|ds|], d.result, d.err)] == last.steps + Zip(ss, ds + [d]);
    assert ss[|ds|..][1..] == ss[|ds| + 1..];
  }

  /** The planning pass leaves the steps it opened, but for as many closed as calls were blocked. */
  lemma {:induction false} OpeningCollected(c: Collected, ps: seq<Planned>)
    requires |c.rounds| > 0 && |c.pending| == 0
    ensures |BlockedDones(ps)| <= |Starts(ps)| && forall d :: d in BlockedDones(ps) ==> d.ToolDone?
    ensures CollectAll(c, Opening(ps)) == MidRound(c, Starts(ps), BlockedDones(ps))
  {
    hide Collect, CollectAll, MidRound;
    if |ps| == 0 {
      NothingCollected(c);
    } else {
      var front, p := ps[..|ps| - 1], ps[|ps| - 1];
      OpeningCollected(c, front);
      var ss, ds := Starts(front), BlockedDones(front);
      var mid := CollectAll(c, Opening(front));
      var begin := ToolStart(p.name, p.args);
      if p.verdict.Unknown? {
        assert Opening(ps) == Opening(front) && Starts(ps) == ss && BlockedDones(ps) == ds;
      } else {
        MidStart(c, ss, ds, p.name, p.args);
        CollectOne(mid, begin);
        CollectConcat(c, Opening(front), [begin]);
        if p.verdict.Blocked? {
          MidDone(c, ss + [Step(p.name, p.args, "", "")], ds, BlockedDone(p));
          CollectOne(CollectAll(c, Opening(front) + [begin]), BlockedDone(p));
          CollectConcat(c, Opening(front) + [begin], [BlockedDone(p)]);
          assert Opening(ps) == Opening(front) + [begin] + [BlockedDone(p)];
        } else {
          assert BlockedDones(ps) == ds;
        }
      }
    }
  }

  lemma NothingCollected(c: Collected)
    requires |c.rounds| > 0 && |c.pending| == 0
    ensures CollectAll(c, []) == c == MidRound(c, [], [])
  {
    var last := c.rounds[|c.rounds| - 1];
    assert last.steps + Zip([], []) == last.steps;
  }

  lemma CollectOne(c: Collected, ev: Event)
    ensures CollectAll(c, [ev]) == Collect(c, ev)
  {
    hide Collect;
    assert [ev][..0] == [];
  }

  function Dones(ps: seq<Planned>, step: nat, runs: (nat, nat) -> Outcome): seq<Event> {
    BlockedDones(ps) + Closing(ps, step, runs)
  }

  /** The steps of the round's entry. */
  function Shown(ps: seq<Planned>, step: nat, runs: (nat, nat) -> Outcome): seq<Step> {
    DonesAreDones(ps, step, runs);
    Zip(Starts(ps), Dones(ps, step, runs))
  }

  /** What the collector makes of a whole round: one entry whose k-th step is the k-th started call with the k-th
      done event's result, and nothing left open. */
  lemma RoundCollected(c: Collected, text: string, ps: seq<Planned>, step: nat, runs: (nat, nat) -> Outcome)
    requires |c.pending| == 0
    ensures |Dones(ps, step, runs)| == |Starts(ps)| && forall d :: d in Dones(ps, step, runs) ==> d.ToolDone?
    ensures CollectAll(c, [RoundStart(text)] + Opening(ps) + Closing(ps, step, runs))
            == Collected(c.rounds + [RoundEntry(text, Shown(ps, step, runs))], [])
  {
    hide Opening, Closing, Starts, BlockedDones, CollectAll;
    DonesAreDones(ps, step, runs);
    var ss, bs, cs := Starts(ps), BlockedDones(ps), Closing(ps, step, runs);
    var begun := c.(rounds := c.rounds + [RoundEntry(text, [])]);
    CollectOne(c, RoundStart(text));
    CollectConcat(c, [RoundStart(text)], Opening(ps));
    CollectConcat(c, [RoundStart(text)] + Opening(ps), cs);
    OpeningCollected(begun, ps);
    var planned := CollectAll(begun, Opening(ps));
    DonesCloseOldest(planned, cs);
    assert ss[|bs|..][|cs|..] == [];
    assert [] + Zip(ss, bs) + Zip(ss[|bs|..], cs) == Zip(ss, bs + cs);
  }

  // ---- Whose result is it

  /** Positions in the plan: of the calls started, in order, and of the calls the done events belong to, in the
      order those are emitted. */
  function StartedAt(ps: seq<Planned>): seq<nat> {
    if |ps| == 0 then []
    else StartedAt(ps[..|ps| - 1]) + (if ps[|ps| - 1].verdict.Unknown? then [] else [|ps| - 1])
  }

  function BlockedAt(ps: seq<Planned>): seq<nat> {
    if |ps| == 0 then []
    else BlockedAt(ps[..|ps| - 1]) + (if ps[|ps| - 1].verdict.Blocked? then [|ps| - 1] else [])
  }

  function RanAt(ps: seq<Planned>): seq<nat> {
    if |ps| == 0 then []
    else RanAt(ps[..|ps| - 1]) + (if ps[|ps| - 1].verdict.Execute? then [|ps| - 1] else [])
  }

  function DoneAt(ps: seq<Planned>): seq<nat> { BlockedAt(ps) + RanAt(ps) }

  function StepFor(p: Planned): Step { Step(p.name, p.args, "", "") }

  function DoneFor(p: Planned, o: Outcome): Event { if p.verdict.Blocked? then BlockedDone(p) else RanDone(p, o) }

  lemma {:induction false} StartsByPosition(ps: seq<Planned>)
    ensures |Starts(ps)| == |StartedAt(ps)|
    ensures forall k :: 0 <= k < |Starts(ps)| ==>
              StartedAt(ps)[k] < |ps| && !ps[StartedAt(ps)[k]].verdict.Unknown?
                  && Starts(ps)[k] == StepFor(ps[StartedAt(ps)[k]])
  {
    if |ps| > 0 {
      StartsByPosition(ps[..|ps| - 1]);
    }
  }

  lemma {:induction false} BlockedByPosition(ps: seq<Planned>)
    ensures |BlockedDones(ps)| == |BlockedAt(ps)|
    ensures forall k :: 0 <= k < |BlockedAt(ps)| ==>
              BlockedAt(ps)[k] < |ps| && ps[BlockedAt(ps)[k]].verdict.Blocked?
              && BlockedDones(ps)[k] == BlockedDone(ps[BlockedAt(ps)[k]])
  {
    if |ps| > 0 {
      BlockedByPosition(ps[..|ps| - 1]);
    }
  }

  lemma {:induction false} RanByPosition(ps: seq<Planned>, step: nat, runs: (nat, nat) -> Outcome)
    ensures |Closing(ps, step, runs)| == |RanAt(ps)| == Ran(ps)
    ensures forall k :: 0 <= k < |RanAt(ps)| ==>
              RanAt(ps)[k] < |ps| && ps[RanAt(ps)[k]].verdict.Execute?
              && Closing(ps, step, runs)[k] == RanDone(ps[RanAt(ps)[k]], runs(step, RanAt(ps)[k]))
  {
    if |ps| > 0 {
      RanByPosition(ps[..|ps| - 1], step, runs);
    }
  }

  /** The k-th step of the round's entry carries the result of the call the k-th done event belongs to. */
  lemma ShownByPosition(ps: seq<Planned>, step: nat, runs: (nat, nat) -> Outcome, k: nat)
    requires k < |Shown(ps, step, runs)|
    ensures |StartedAt(ps)| == |DoneAt(ps)| == |Shown(ps, step, runs)| && StartedAt(ps)[k] < |ps|
              && DoneAt(ps)[k] < |ps|
    ensures var i, d := StartedAt(ps)[k], DoneFor(ps[DoneAt(ps)[k]], runs(step, DoneAt(ps)[k]));
            !ps[i].verdict.Unknown? && Shown(ps, step, runs)[k] == Close(StepFor(ps[i]), d.result, d.err)
  {
    hide Starts, BlockedDones, Closing, StartedAt, BlockedAt, RanAt, Close;
    StartsByPosition(ps);
    BlockedByPosition(ps);
    RanByPosition(ps, step, runs);
    DonesAreDones(ps, step, runs);
  }

  /** Every started call of the round is shown with its own result: the k-th step and the k-th done event belong to
      the same call. */
  predicate Attributed(ps: seq<Planned>) { StartedAt(ps) == DoneAt(ps) }

  /** No call is blocked after the first call that runs. */
  predicate BlockedFirst(ps: seq<Planned>) {
    forall i :: 0 <= i < |ps| && ps[i].verdict.Blocked? ==> Ran(ps[..i]) == 0
  }

  lemma BlockedFirstFront(ps: seq<Planned>)
    requires |ps| > 0
    ensures var front, p := ps[..|ps| - 1], ps[|ps| - 1];
            BlockedFirst(ps) <==> BlockedFirst(front) && (p.verdict.Blocked? ==> Ran(front) == 0)
  {
    hide Ran;
    var front := ps[..|ps| - 1];
    forall i | 0 <= i < |front| ensures front[..i] == ps[..i] && front[i] == ps[i] {}
    if BlockedFirst(front) && (ps[|ps| - 1].verdict.Blocked? ==> Ran(front) == 0) {
      forall i | 0 <= i < |ps| && ps[i].verdict.Blocked? ensures Ran(ps[..i]) == 0 {
        if i < |front| {
          assert front[i].verdict.Blocked?;
        }
      }
    }
    if BlockedFirst(ps) {
      forall i | 0 <= i < |front| && front[i].verdict.Blocked? ensures Ran(front[..i]) == 0 {
        assert ps[i].verdict.Blocked?;
      }
    }
  }

  lemma {:induction false} NoneRanIsBlockedFirst(ps: seq<Planned>)
    requires Ran(ps) == 0
    ensures BlockedFirst(ps)
  {
    hide BlockedFirst;
    if |ps| == 0 {
      EmptyIsBlockedFirst(ps);
    } else {
      NoneRanIsBlockedFirst(ps[..|ps| - 1]);
      BlockedFirstFront(ps);
    }
  }

  lemma EmptyIsBlockedFirst(ps: seq<Planned>)
    requires |ps| == 0
    ensures BlockedFirst(ps)
  {
  }

  /** A round shows every started call with its own result exactly when no call of it is blocked after the first one
      that runs. */
  lemma {:induction false} AttributedIff(ps: seq<Planned>)
    ensures Attributed(ps) <==> BlockedFirst(ps)
  {
    hide BlockedFirst, Ran;
    if |ps| == 0 {
      EmptyIsBlockedFirst(ps);
    } else {
      var n := |ps| - 1;
      var front, p := ps[..n], ps[n];
      AttributedIff(front);
      BlockedFirstFront(ps);
      RanByPosition(front, 0, (i, j) => Output(""));
      var ss, bs, rs := StartedAt(front), BlockedAt(front), RanAt(front);
      if p.verdict.Execute? {
        PositionsEndAlike(ss, bs + rs, n);
        assert bs + (rs + [n]) == (bs + rs) + [n];
      } else if p.verdict.Blocked? {
        if Ran(front) == 0 {
          NoneRanIsBlockedFirst(front);
          assert rs == [] && bs + rs == bs && bs + [n] + rs == bs + [n];
        } else {
          var left, right := ss + [n], bs + [n] + rs;
          assert left[|left| - 1] == n && right[|right| - 1] == rs[|rs| - 1] < n;
        }
      } else {
        assert ss + [] == ss && bs + [] == bs && rs + [] == rs;
      }
    }
  }

  lemma PositionsEndAlike(a: seq<nat>, b: seq<nat>, n: nat)
    ensures a + [n] == b + [n] <==> a == b
  {
    assert (a + [n])[..|a|] == a && (b + [n])[..|b|] == b;
    if a + [n] == b + [n] {
      assert |a + [n]| == |b + [n]|;
    }
  }

  lemma {:induction false} StartedUpTo(ps: seq<Planned>, i: nat)
    requires i < |ps| && !ps[i].verdict.Unknown?
    ensures |StartedAt(ps[..i])| < |StartedAt(ps)| && StartedAt(ps)[|StartedAt(ps[..i])|] == i
  {
    if i == |ps| - 1 {
    } else {
      StartedUpTo(ps[..|ps| - 1], i);
      assert ps[..|ps| - 1][..i] == ps[..i];
    }
  }

  lemma {:induction false} NoneRanAllBlocked(ps: seq<Planned>)
    requires Ran(ps) == 0
    ensures |StartedAt(ps)| == |BlockedAt(ps)|
  {
    if |ps| > 0 {
      NoneRanAllBlocked(ps[..|ps| - 1]);
    }
  }

  lemma {:induction false} BlockedGrows(ps: seq<Planned>, i: nat, j: nat)
    requires i <= j < |ps| && ps[j].verdict.Blocked?
    ensures |BlockedAt(ps[..i])| < |BlockedAt(ps)|
  {
    var front := ps[..|ps| - 1];
    if j == |ps| - 1 {
      if i < j {
        BlockedFrontGrows(front, i);
      }
      assert front[..i] == ps[..i];
    } else {
      BlockedGrows(front, i, j);
      assert front[..i] == ps[..i];
    }
  }

  lemma {:induction false} BlockedFrontGrows(ps: seq<Planned>, i: nat)
    requires i <= |ps|
    ensures |BlockedAt(ps[..i])| <= |BlockedAt(ps)|
  {
    if i < |ps| {
      BlockedFrontGrows(ps[..|ps| - 1], i);
      assert ps[..|ps| - 1][..i] == ps[..i];
    } else {
      assert ps[..i] == ps;
    }
  }

  lemma {:induction false} FirstRun(ps: seq<Planned>) returns (f: nat)
    requires Ran(ps) > 0
    ensures f < |ps| && ps[f].verdict.Execute? && Ran(ps[..f]) == 0
  {
    var front := ps[..|ps| - 1];
    if Ran(front) > 0 {
      f := FirstRun(front);
      assert front[..f] == ps[..f];
    } else {
      f := |ps| - 1;
    }
  }

  /** Then every step carries its own call's name, arguments and result: a blocked one the notice, one that failed its
      error, and any other its output. */
  lemma OwnResultShown(ps: seq<Planned>, step: nat, runs: (nat, nat) -> Outcome, k: nat)
    requires BlockedFirst(ps) && k < |Shown(ps, step, runs)|
    ensures k < |StartedAt(ps)| && StartedAt(ps)[k] < |ps|
    ensures var i, s := StartedAt(ps)[k], Shown(ps, step, runs)[k];
            var p, o := ps[i], runs(step, i);
            && s.tool == p.name && s.args == p.args && !p.verdict.Unknown?
            && (p.verdict.Blocked? ==> s.output == "" && s.err == "blocked consecutive repeat")
            && (p.verdict.Execute? && !o.Failure? ==> s.output == o.text && s.err == "")
            && (p.verdict.Execute? && o.Failure? ==>
                  s.err == o.err && s.output == if o.err == "" then "error: " else "")
  {
    hide BlockedFirst, Shown, StartedAt, BlockedAt, RanAt;
    AttributedIff(ps);
    ShownByPosition(ps, step, runs, k);
  }

  /** Otherwise some call that ran is shown as blocked, without its output. */
  lemma RunShownAsBlocked(ps: seq<Planned>, step: nat, runs: (nat, nat) -> Outcome) returns (k: nat)
    requires !BlockedFirst(ps)
    ensures k < |Shown(ps, step, runs)| == |StartedAt(ps)| && StartedAt(ps)[k] < |ps|
              && ps[StartedAt(ps)[k]].verdict.Execute?
    ensures Shown(ps, step, runs)[k].err == "blocked consecutive repeat" && Shown(ps, step, runs)[k].output == ""
  {
    var i :| 0 <= i < |ps| && ps[i].verdict.Blocked? && Ran(ps[..i]) > 0;
    var f := FirstRun(ps[..i]);
    assert ps[..i][..f] == ps[..f] && ps[f] == ps[..i][f];
    hide Ran, Shown, StartedAt, BlockedAt, RanAt;
    StartedUpTo(ps, f);
    NoneRanAllBlocked(ps[..f]);
    BlockedGrows(ps, f, i);
    k := |StartedAt(ps[..f])|;
    ShownLength(ps, step, runs);
    ShownByPosition(ps, step, runs, k);
    BlockedByPosition(ps);
  }

  lemma ShownLength(ps: seq<Planned>, step: nat, runs: (nat, nat) -> Outcome)
    ensures |Shown(ps, step, runs)| == |StartedAt(ps)|
  {
    hide Starts, BlockedDones, Closing, StartedAt;
    DonesAreDones(ps, step, runs);
    StartsByPosition(ps);
  }

  // ---- Under its own name

  /** Every step of the round carries the result of a call with its own tool and arguments. */
  ghost predicate SameCalls(ps: seq<Planned>, step: nat, runs: (nat, nat) -> Outcome) {
    |Starts(ps)| == |Dones(ps, step, runs)|
    && forall i :: 0 <= i < |Starts(ps)| ==>
         var s, d := Starts(ps)[i], Dones(ps, step, runs)[i];
         d.ToolDone? && (s.tool, s.args) == (d.tool, d.args)
  }

  function Ran(ps: seq<Planned>): nat {
    if |ps| == 0 then 0 else Ran(ps[..|ps| - 1]) + (if ps[|ps| - 1].verdict.Execute? then 1 else 0)
  }

  /** No call is blocked after the second call that runs. */
  predicate BlockedEarly(ps: seq<Planned>) {
    forall i :: 0 <= i < |ps| && ps[i].verdict.Blocked? ==> Ran(ps[..i]) <= 1
  }

  /** Tool and arguments of the calls started, blocked and run. */
  function StartIds(ps: seq<Planned>): seq<(string, string)> {
    if |ps| == 0 then []
    else
      var p := ps[|ps| - 1];
      StartIds(ps[..|ps| - 1]) + (if p.verdict.Unknown? then [] else [(p.name, p.args)])
  }

  function BlockedIds(ps: seq<Planned>): seq<(string, string)> {
    if |ps| == 0 then []
    else
      var p := ps[|ps| - 1];
      BlockedIds(ps[..|ps| - 1]) + (if p.verdict.Blocked? then [(p.name, p.args)] else [])
  }

  function RunIds(ps: seq<Planned>): seq<(string, string)> {
    if |ps| == 0 then []
    else
      var p := ps[|ps| - 1];
      RunIds(ps[..|ps| - 1]) + (if p.verdict.Execute? then [(p.name, p.args)] else [])
  }

  function EventIds(ds: seq<Event>): seq<(string, string)>
    requires forall d :: d in ds ==> d.ToolDone?
  {
    seq(|ds|, i requires 0 <= i < |ds| => (ds[i].tool, ds[i].args))
  }

  lemma {:induction false} StartsHaveIds(ps: seq<Planned>)
    ensures |StartIds(ps)| == |Starts(ps)|
    ensures forall i :: 0 <= i < |Starts(ps)| ==> StartIds(ps)[i] == (Starts(ps)[i].tool, Starts(ps)[i].args)
  {
    if |ps| > 0 {
      StartsHaveIds(ps[..|ps| - 1]);
    }
  }

  lemma {:induction false} DonesHaveIds(ps: seq<Planned>, step: nat, runs: (nat, nat) -> Outcome)
    ensures forall d :: d in BlockedDones(ps) || d in Closing(ps, step, runs) ==> d.ToolDone?
    ensures EventIds(BlockedDones(ps)) == BlockedIds(ps) && EventIds(Closing(ps, step, runs)) == RunIds(ps)
  {
    if |ps| > 0 {
      DonesHaveIds(ps[..|ps| - 1], step, runs);
    }
  }

  lemma SameCallsAreEqualIds(ps: seq<Planned>, step: nat, runs: (nat, nat) -> Outcome)
    ensures SameCalls(ps, step, runs) <==> StartIds(ps) == BlockedIds(ps) + RunIds(ps)
  {
    hide Starts, BlockedDones, Closing, StartIds, BlockedIds, RunIds;
    StartsHaveIds(ps);
    DonesHaveIds(ps, step, runs);
    DonesAreDones(ps, step, runs);
    var ds := Dones(ps, step, runs);
    assert EventIds(ds) == BlockedIds(ps) + RunIds(ps);
    assert forall i :: 0 <= i < |ds| ==> EventIds(ds)[i] == (ds[i].tool, ds[i].args);
  }

  /** How a plan reads when no tool name contains NUL: each call is blocked exactly when it has the tool and
      arguments of the last call run, in this round or before it. */
  ghost predicate Sound(ps: seq<Planned>, prev: string) {
    forall i :: 0 <= i < |ps| ==>
      (ps[i].verdict.Blocked? ==> Key(ps[i].name, ps[i].args) == LastRun(ps[..i], prev))
      && (ps[i].verdict.Execute? ==> Key(ps[i].name, ps[i].args) != LastRun(ps[..i], prev))
      && ('\0' !in ps[i].name)
  }

  lemma KeyInjective(n: string, a: string, m: string, b: string)
    requires '\0' !in n && '\0' !in m && Key(n, a) == Key(m, b)
    ensures n == m && a == b
  {
    var k := Key(n, a);
    assert k[|n|] == '\0' && k[|m|] == '\0';
    assert forall i :: 0 <= i < |n| ==> k[i] == n[i];
    assert forall i :: 0 <= i < |m| ==> k[i] == m[i];
    assert n == k[..|n|] && m == k[..|m|];
    assert a == k[|n| + 1..] && b == k[|m| + 1..];
  }

  lemma {:induction false} PlanIsSound(calls: seq<Call>, prev: string, known: set<string>)
    requires forall c :: c in calls ==> '\0' !in c.name
    ensures Sound(Plan(calls, prev, known), prev)
  {
    hide Key, LastRun;
    if |calls| > 0 {
      var n := |calls| - 1;
      PlanIsSound(calls[..n], prev, known);
      var front := Plan(calls[..n], prev, known);
      if calls[n].isFunction {
        var p := Judge(calls[n], LastRun(front, prev), known);
        SoundSnoc(front, p, prev);
      }
    }
  }

  lemma SoundSnoc(front: seq<Planned>, p: Planned, prev: string)
    requires Sound(front, prev) && '\0' !in p.name
    requires p.verdict.Blocked? ==> Key(p.name, p.args) == LastRun(front, prev)
    requires p.verdict.Execute? ==> Key(p.name, p.args) != LastRun(front, prev)
    ensures Sound(front + [p], prev)
  {
    hide Key, LastRun;
    var ps := front + [p];
    forall i | 0 <= i < |ps|
      ensures ps[i].verdict.Blocked? ==> Key(ps[i].name, ps[i].args) == LastRun(ps[..i], prev)
      ensures ps[i].verdict.Execute? ==> Key(ps[i].name, ps[i].args) != LastRun(ps[..i], prev)
      ensures '\0' !in ps[i].name
    {
      if i < |front| {
        assert ps[..i] == front[..i];
      } else {
        assert ps[..i] == front;
      }
    }
  }

  lemma SoundFront(ps: seq<Planned>, prev: string)
    requires Sound(ps, prev) && |ps| > 0
    ensures Sound(ps[..|ps| - 1], prev)
  {
    hide Key, LastRun;
    var front := ps[..|ps| - 1];
    forall i | 0 <= i < |front| ensures front[..i] == ps[..i] {}
  }

  /** Runs within a plan: the last of them is what the guard remembers, and neighbours differ. */
  lemma {:induction false} RunsOf(ps: seq<Planned>, prev: string)
    requires Sound(ps, prev)
    ensures |RunIds(ps)| == Ran(ps)
    ensures |RunIds(ps)| > 0 ==> var r := RunIds(ps)[|RunIds(ps)| - 1];
              '\0' !in r.0 && Key(r.0, r.1) == LastRun(ps, prev)
    ensures |RunIds(ps)| > 1 ==> RunIds(ps)[|RunIds(ps)| - 1] != RunIds(ps)[|RunIds(ps)| - 2]
  {
    hide Key;
    if |ps| > 0 {
      SoundFront(ps, prev);
      RunsOf(ps[..|ps| - 1], prev);
    }
  }

  /** With a run behind it, a blocked call is a copy of the last run, and so is the last call started. */
  lemma {:induction false} LastStartIsLastRun(ps: seq<Planned>, prev: string)
    requires Sound(ps, prev) && Ran(ps) > 0
    ensures |StartIds(ps)| > 0 && |RunIds(ps)| > 0
    ensures StartIds(ps)[|StartIds(ps)| - 1] == RunIds(ps)[|RunIds(ps)| - 1]
  {
    hide Key, LastRun;
    var front, p := ps[..|ps| - 1], ps[|ps| - 1];
    SoundFront(ps, prev);
    RunsOf(ps, prev);
    RunsOf(front, prev);
    if p.verdict.Blocked? {
      var r := RunIds(front)[|RunIds(front)| - 1];
      KeyInjective(p.name, p.args, r.0, r.1);
    } else if p.verdict.Unknown? {
      LastStartIsLastRun(front, prev);
    }
  }

  lemma SameLast(a: seq<(string, string)>, b: seq<(string, string)>, x: (string, string))
    ensures a + [x] == b + [x] <==> a == b
  {
    assert (a + [x])[..|a|] == a && (b + [x])[..|b|] == b;
    if a + [x] == b + [x] {
      assert |a + [x]| == |b + [x]|;
    }
  }

  lemma {:induction false} IdsCount(ps: seq<Planned>)
    ensures |StartIds(ps)| == |BlockedIds(ps)| + |RunIds(ps)| && |RunIds(ps)| == Ran(ps)
  {
    if |ps| > 0 {
      IdsCount(ps[..|ps| - 1]);
    }
  }

  lemma EarlyFront(ps: seq<Planned>)
    requires |ps| > 0
    ensures var front, p := ps[..|ps| - 1], ps[|ps| - 1];
            BlockedEarly(ps) <==> BlockedEarly(front) && (p.verdict.Blocked? ==> Ran(front) <= 1)
  {
    hide Ran;
    var front := ps[..|ps| - 1];
    forall i | 0 <= i < |front| ensures front[..i] == ps[..i] && front[i] == ps[i] {}
    if BlockedEarly(front) && (ps[|ps| - 1].verdict.Blocked? ==> Ran(front) <= 1) {
      forall i | 0 <= i < |ps| && ps[i].verdict.Blocked? ensures Ran(ps[..i]) <= 1 {
        if i < |front| {
          assert front[i].verdict.Blocked?;
        }
      }
    }
    if BlockedEarly(ps) {
      forall i | 0 <= i < |front| && front[i].verdict.Blocked? ensures Ran(front[..i]) <= 1 {
        assert ps[i].verdict.Blocked?;
      }
    }
  }

  /** A blocked call at the end. Behind at most one run it queues just where its done event comes; behind two it
      is shown where an older run's result lands. */
  lemma BlockedAtEnd(front: seq<Planned>, p: Planned, prev: string)
    requires Sound(front + [p], prev) && p.verdict.Blocked?
    requires Ran(front) <= 1 ==> StartIds(front) == BlockedIds(front) + RunIds(front)
    ensures StartIds(front) + [(p.name, p.args)] == BlockedIds(front) + [(p.name, p.args)] + RunIds(front) <==>
              Ran(front) <= 1
  {
    hide Key, LastRun, StartIds, BlockedIds, RunIds, Ran;
    var ps := front + [p];
    assert ps[..|ps| - 1] == front && ps[|ps| - 1] == p;
    SoundFront(ps, prev);
    IdsCount(front);
    RunsOf(front, prev);
    var x := (p.name, p.args);
    var ss, bs, rs := StartIds(front), BlockedIds(front), RunIds(front);
    if Ran(front) == 0 {
      assert rs == [] && bs + [x] + rs == bs + rs + [x];
    } else {
      var r := rs[|rs| - 1];
      KeyInjective(p.name, p.args, r.0, r.1);
      LastStartIsLastRun(front, prev);
      if Ran(front) == 1 {
        assert rs == [x] && bs + [x] + rs == bs + rs + [x];
      } else {
        var left, right := ss + [x], bs + [x] + rs;
        assert |left| == |right|;
        assert left[|left| - 2] == ss[|ss| - 1] == r;
        assert right[|right| - 2] == rs[|rs| - 2] != r;
      }
    }
  }

  lemma {:induction false} EqualIdsIffEarly(ps: seq<Planned>, prev: string)
    requires Sound(ps, prev)
    ensures StartIds(ps) == BlockedIds(ps) + RunIds(ps) <==> BlockedEarly(ps)
  {
    hide Key, LastRun, BlockedEarly, Sound, Ran;
    if |ps| == 0 {
      NoneIsEarly(ps);
    } else {
      var front, p := ps[..|ps| - 1], ps[|ps| - 1];
      SoundFront(ps, prev);
      EqualIdsIffEarly(front, prev);
      EarlyFront(ps);
      var x := (p.name, p.args);
      var ss, bs, rs := StartIds(front), BlockedIds(front), RunIds(front);
      if p.verdict.Execute? {
        SameLast(ss, bs + rs, x);
        assert bs + (rs + [x]) == (bs + rs) + [x];
      } else if p.verdict.Blocked? {
        if Ran(front) <= 1 {
          AllEarly(front);
        }
        assert front + [p] == ps;
        BlockedAtEnd(front, p, prev);
      } else {
        assert ss + [] == ss && bs + [] == bs && rs + [] == rs;
      }
    }
  }

  lemma NoneIsEarly(ps: seq<Planned>)
    requires |ps| == 0
    ensures BlockedEarly(ps)
  {
  }

  lemma {:induction false} AllEarly(ps: seq<Planned>)
    requires Ran(ps) <= 1
    ensures BlockedEarly(ps)
  {
    hide BlockedEarly;
    if |ps| == 0 {
      NoneIsEarly(ps);
    } else {
      AllEarly(ps[..|ps| - 1]);
      EarlyFront(ps);
    }
  }

  /** A round shows every step with the result of a call of its own tool and arguments exactly when no call of the
      round is blocked after the second one that runs. */
  lemma SameCallsIff(calls: seq<Call>, prev: string, known: set<string>, step: nat, runs: (nat, nat) -> Outcome)
    requires forall c :: c in calls ==> '\0' !in c.name
    ensures SameCalls(Plan(calls, prev, known), step, runs) <==> BlockedEarly(Plan(calls, prev, known))
  {
    hide Plan, SameCalls, BlockedEarly, StartIds, BlockedIds, RunIds, Sound;
    PlanIsSound(calls, prev, known);
    SameCallsAreEqualIds(Plan(calls, prev, known), step, runs);
    EqualIdsIffEarly(Plan(calls, prev, known), prev);
  }

  lemma PlanNext(calls: seq<Call>, c: Call, prev: string, known: set<string>)
    requires c.isFunction
    ensures Plan(calls + [c], prev, known)
            == Plan(calls, prev, known) + [Judge(c, LastRun(Plan(calls, prev, known), prev), known)]
    ensures Plan([], prev, known) == []
  {
    hide Judge, LastRun;
    assert (calls + [c])[..|calls|] == calls;
  }

  /** A reply asking for two different calls and then the second again is shown with results swapped. */
  lemma RepeatIsMisattributed(a: Call, b: Call, known: set<string>, prev: string, step: nat,
                              runs: (nat, nat) -> Outcome)
    requires a.isFunction && b.isFunction && a.name in known && b.name in known && '\0' !in a.name && '\0' !in b.name
    requires Key(a.name, a.args) != prev && (a.name, a.args) != (b.name, b.args)
    ensures !SameCalls(Plan([a, b, b], prev, known), step, runs)
  {
    hide SameCalls, Key;
    if Key(a.name, a.args) == Key(b.name, b.args) {
      KeyInjective(a.name, a.args, b.name, b.args);
    }
    var p, q, r := Judge(a, prev, known), Planned(b.id, b.name, b.args, Execute),
        Planned(b.id, b.name, b.args, Blocked);
    assert [] + [p] == [p];
    PlanSnoc([], p, prev);
    PlanSnoc([p], q, prev);
    PlanNext([], a, prev, known);
    PlanNext([a], b, prev, known);
    PlanNext([a] + [b], b, prev, known);
    assert [] + [a] == [a] && [a] + [b] + [b] == [a, b, b];
    var ps := [p] + [q] + [r];
    assert Plan([a, b, b], prev, known) == ps;
    assert ps[..2] == [p] + [q] && ([p] + [q])[..1] == [p] && [p][..0] == [];
    assert p.verdict.Execute? && Ran([p]) == 1 && Ran([p] + [q]) == 2;
    assert ps[..2] == [p] + [q] && ps[2].verdict.Blocked?;
    SameCallsIff([a, b, b], prev, known, step, runs);
  }

  // ---- The whole run

  /** The entries a run should leave, one for each round it completes. */
  function EntriesOf(s: State, c: Config, step: nat, env: Env): seq<RoundEntry>
    decreases c.maxStep - step
  {
    if step >= c.maxStep || env.cancelled(step) then []
    else match env.model(step, s.msgs, true)
         case Fails => []
         case NoChoices => []
         case Says(reply) =>
           var t := Sending(s, true);
           if |reply.calls| > 0 then
             [EntryOf(s, c, step, reply, env.runs)] + EntriesOf(Answered(t, c, step, reply, env.runs), c, step + 1, env)
           else
             var text := TrimSpace(reply.content);
             if text != "" && WantsNudge(t, c, step, text) then EntriesOf(Nudged(t, text), c, step + 1, env) else []
  }

  /** A round's thought and steps. */
  function EntryOf(s: State, c: Config, step: nat, reply: Reply, runs: (nat, nat) -> Outcome): RoundEntry {
    RoundEntry(RoundText(reply.content), Shown(Plan(reply.calls, s.lastCall, c.known), step, runs))
  }

  /** Whatever happened in a run, its transcript is exactly those entries, one per round, and nothing is left open. */
  lemma {:induction false} TranscriptOfRun(s: State, c: Config, step: nat, env: Env, start: Collected)
    requires |CollectAll(start, s.trace).pending| == 0
    ensures var t := Gathered(s, c, step, env).0;
            && CollectAll(start, t.trace)
               == Collected(CollectAll(start, s.trace).rounds + EntriesOf(s, c, step, env), [])
            && |EntriesOf(s, c, step, env)| == t.roundsDone - s.roundsDone
    decreases c.maxStep - step
  {
    hide TrimSpace, WantsNudge, CollectAll, Answered, EntryOf;
    var before := CollectAll(start, s.trace).rounds;
    assert before + [] == before;
    if step < c.maxStep && !env.cancelled(step) && env.model(step, s.msgs, true).Says? {
      var reply := env.model(step, s.msgs, true).reply;
      var t := Sending(s, true);
      if |reply.calls| > 0 {
        var u := Answered(t, c, step, reply, env.runs);
        RoundTranscribed(t, c, step, reply, env.runs, start);
        TranscriptOfRun(u, c, step + 1, env, start);
        assert EntryOf(t, c, step, reply, env.runs) == EntryOf(s, c, step, reply, env.runs)
            by { SendingKeepsGuard(s, c, step, reply, env.runs); }
        assert before + [EntryOf(s, c, step, reply, env.runs)] + EntriesOf(u, c, step + 1, env)
               == before + ([EntryOf(s, c, step, reply, env.runs)] + EntriesOf(u, c, step + 1, env));
      } else {
        TranscriptOfRun(Nudged(t, TrimSpace(reply.content)), c, step + 1, env, start);
      }
    }
  }

  lemma SendingKeepsGuard(s: State, c: Config, step: nat, reply: Reply, runs: (nat, nat) -> Outcome)
    ensures EntryOf(Sending(s, true), c, step, reply, runs) == EntryOf(s, c, step, reply, runs)
  {
    hide Plan, Shown, RoundText;
  }

  lemma RoundTranscribed(s: State, c: Config, step: nat, reply: Reply, runs: (nat, nat) -> Outcome, start: Collected)
    requires |CollectAll(start, s.trace).pending| == 0
    ensures var t := Answered(s, c, step, reply, runs);
            && CollectAll(start, t.trace)
               == Collected(CollectAll(start, s.trace).rounds + [EntryOf(s, c, step, reply, runs)], [])
            && t.roundsDone == s.roundsDone + 1
  {
    hide Plan, Echoes, Replies, LastRun, Opening, Closing, RunKeys, KnownKeys, RoundText, CollectAll, Starts,
      BlockedDones, Dones;
    var ps := Plan(reply.calls, s.lastCall, c.known);
    var evs := [RoundStart(RoundText(reply.content))] + Opening(ps) + Closing(ps, step, runs);
    CollectConcat(start, s.trace, evs);
    RoundCollected(CollectAll(start, s.trace), RoundText(reply.content), ps, step, runs);
  }
}
