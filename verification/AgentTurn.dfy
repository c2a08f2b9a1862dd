/** Rebuilding a turn's conversation from persisted ones (turn.go and loop.go in server/internal/agent). */
module AgentTurn {
  import opened AgentLoop
  import opened AgentRuns
  import opened Text

  datatype Turn = Turn(prompt: string, answer: string, steps: seq<Step>, failed: bool)

  datatype Options = Options(maxTurns: int, maxChars: int)

  /** One rebuilt entry; only assistant entries carry tool steps. */
  datatype Entry = UserEntry(content: string) | AssistantEntry(content: string, steps: seq<Step>)

  // ---- Which turns are kept

  /** Go's len of a string: its UTF-8 bytes. */
  function ByteLen(s: string): nat {
    if |s| == 0 then 0
    else
      var c := s[|s| - 1] as int;
      ByteLen(s[..|s| - 1]) + (if c < 0x80 then 1 else if c < 0x800 then 2 else if c < 0x1_0000 then 3 else 4)
  }

  function StepsSize(steps: seq<Step>): nat {
    if |steps| == 0 then 0
    else
      var s := steps[|steps| - 1];
      StepsSize(steps[..|steps| - 1]) + ByteLen(s.output) + ByteLen(s.err)
  }

  function TurnSize(t: Turn): nat { ByteLen(t.prompt) + ByteLen(t.answer) + StepsSize(t.steps) }

  function Size(turns: seq<Turn>): nat {
    if |turns| == 0 then 0 else Size(turns[..|turns| - 1]) + TurnSize(turns[|turns| - 1])
  }

  /** The turns from k on respect both bounds; a bound of zero or less is no bound. */
  predicate Fits(turns: seq<Turn>, k: nat, o: Options)
    requires k <= |turns|
  {
    (o.maxTurns > 0 ==> |turns| - k <= o.maxTurns) && (o.maxChars > 0 ==> Size(turns[k..]) <= o.maxChars)
  }

  /** Where the longest suffix within the bounds starts. */
  ghost predicate Longest(turns: seq<Turn>, k: nat, o: Options) {
    k <= |turns| && Fits(turns, k, o) && forall j :: 0 <= j < k ==> !Fits(turns, j, o)
  }

  lemma {:induction false} SizeConcat(a: seq<Turn>, b: seq<Turn>)
    ensures Size(a + b) == Size(a) + Size(b)
  {
    if |b| == 0 {
      assert a + b == a;
    } else {
      SizeConcat(a, b[..|b| - 1]);
      assert (a + b)[..|a + b| - 1] == a + b[..|b| - 1];
    }
  }

  lemma SizeDropFirst(turns: seq<Turn>, k: nat)
    requires k < |turns|
    ensures Size(turns[k..]) == TurnSize(turns[k]) + Size(turns[k + 1..])
  {
    assert turns[k..] == [turns[k]] + turns[k + 1..];
    SizeConcat([turns[k]], turns[k + 1..]);
    assert [turns[k]][..0] == [];
  }

  method MeasureSteps(t: Turn) returns (n: nat)
    ensures n == TurnSize(t)
  {
    n := ByteLen(t.prompt) + ByteLen(t.answer);
    for i := 0 to |t.steps|
      invariant n == ByteLen(t.prompt) + ByteLen(t.answer) + StepsSize(t.steps[..i])
    {
      assert t.steps[..i + 1][..i] == t.steps[..i];
      n := n + ByteLen(t.steps[i].output) + ByteLen(t.steps[i].err);
    }
    assert t.steps[..|t.steps|] == t.steps;
  }

  method Measure(turns: seq<Turn>) returns (total: nat)
    ensures total == Size(turns)
  {
    total := 0;
    for i := 0 to |turns|
      invariant total == Size(turns[..i])
    {
      assert turns[..i + 1][..i] == turns[..i];
      var n := MeasureSteps(turns[i]);
      total := total + n;
    }
    assert turns[..|turns|] == turns;
  }

  /** The trimming half of BuildHistory: cut to the newest turns, then drop the oldest until the rest fits. */
  method Trim(turns: seq<Turn>, o: Options) returns (k: nat)
    ensures Longest(turns, k, o)
  {
    hide Size, TurnSize;
    k := 0;
    if o.maxTurns > 0 && |turns| > o.maxTurns {
      k := |turns| - o.maxTurns;
    }
    ghost var cut := k;
    if o.maxChars > 0 {
      var total := Measure(turns[k..]);
      while total > o.maxChars && k < |turns|
        invariant cut <= k <= |turns| && total == Size(turns[k..])
        invariant forall j :: cut <= j < k ==> Size(turns[j..]) > o.maxChars
      {
        SizeDropFirst(turns, k);
        var n := MeasureSteps(turns[k]);
        total, k := total - n, k + 1;
      }
      if k == |turns| {
        NoTurnsNoSize(turns[k..]);
      }
    }
    forall j | 0 <= j < k ensures !Fits(turns, j, o) {
      assert j < cut ==> |turns| - j > o.maxTurns;
    }
  }

  lemma NoTurnsNoSize(turns: seq<Turn>)
    requires |turns| == 0
    ensures Size(turns) == 0
  {
  }

  /** The characters from code `n` on. */
  function From(s: string, n: int): nat {
    if |s| == 0 then 0 else From(s[1..], n) + (if s[0] as int >= n then 1 else 0)
  }

  lemma {:induction false} FromSnoc(s: string, n: int)
    requires |s| > 0
    ensures From(s, n) == From(s[..|s| - 1], n) + (if s[|s| - 1] as int >= n then 1 else 0)
  {
    if |s| > 1 {
      FromSnoc(s[1..], n);
      assert s[1..][..|s| - 2] == s[..|s| - 1][1..];
    }
  }

  /** A character is one byte, and one more from each of three codes on. */
  lemma {:induction false} BytesOfText(s: string)
    ensures ByteLen(s) == |s| + From(s, 0x80) + From(s, 0x800) + From(s, 0x1_0000)
  {
    if |s| > 0 {
      BytesOfText(s[..|s| - 1]);
      FromSnoc(s, 0x80);
      FromSnoc(s, 0x800);
      FromSnoc(s, 0x1_0000);
    }
  }

  lemma {:induction false} ByteLenConcat(a: string, b: string)
    ensures ByteLen(a + b) == ByteLen(a) + ByteLen(b)
  {
    if |b| == 0 {
      assert a + b == a;
    } else {
      assert (a + b)[..|a + b| - 1] == a + b[..|b| - 1];
      ByteLenConcat(a, b[..|b| - 1]);
    }
  }

  /** All the text of turns, in the order in which it arose. */
  function AllText(turns: seq<Turn>): string {
    if |turns| == 0 then ""
    else
      var t := turns[|turns| - 1];
      AllText(turns[..|turns| - 1]) + (t.prompt + StepText(t.steps) + t.answer)
  }

  function StepText(steps: seq<Step>): string {
    if |steps| == 0 then "" else StepText(steps[..|steps| - 1]) + (steps[|steps| - 1].output + steps[|steps| - 1].err)
  }

  lemma {:induction false} StepsSizeIs(steps: seq<Step>)
    ensures StepsSize(steps) == ByteLen(StepText(steps))
  {
    hide ByteLen;
    if |steps| > 0 {
      var rest, s := steps[..|steps| - 1], steps[|steps| - 1];
      StepsSizeIs(rest);
      ByteLenConcat(s.output, s.err);
      ByteLenConcat(StepText(rest), s.output + s.err);
    } else {
      BytesOfText("");
    }
  }

  lemma {:induction false} SizeIs(turns: seq<Turn>)
    ensures Size(turns) == ByteLen(AllText(turns))
  {
    hide ByteLen, StepsSize, StepText;
    if |turns| > 0 {
      var rest, t := turns[..|turns| - 1], turns[|turns| - 1];
      SizeIs(rest);
      StepsSizeIs(t.steps);
      ByteLenConcat(t.prompt, StepText(t.steps));
      ByteLenConcat(t.prompt + StepText(t.steps), t.answer);
      ByteLenConcat(AllText(rest), t.prompt + StepText(t.steps) + t.answer);
    } else {
      BytesOfText("");
    }
  }

  /** A turn is kept exactly when, with all later ones, it is within both bounds: on the number of turns, and on the
      bytes of their prompts, answers, tool outputs and errors together. */
  lemma KeptIff(turns: seq<Turn>, k: nat, j: nat, o: Options)
    requires Longest(turns, k, o) && j < |turns|
    ensures k <= j <==>
              && (o.maxTurns > 0 ==> |turns[j..]| <= o.maxTurns)
              && (o.maxChars > 0 ==> ByteLen(AllText(turns[j..])) <= o.maxChars)
  {
    hide Size, ByteLen, AllText;
    SizeIs(turns[j..]);
    if k <= j {
      LaterStartsFit(turns, k, j, o);
    } else {
      assert !Fits(turns, j, o);
    }
  }

  // ---- How a turn is rendered

  predicate Usable(s: Step) { TrimSpace(s.tool) != "" && (TrimSpace(s.output) != "" || TrimSpace(s.err) != "") }

  function UsableSteps(steps: seq<Step>): seq<Step> {
    if |steps| == 0 then []
    else
      var s := steps[|steps| - 1];
      UsableSteps(steps[..|steps| - 1]) + (if Usable(s) then [s] else [])
  }

  /** Skipped whole: a turn with nothing in it, and the placeholder reserved for the prompt being answered. */
  predicate Skipped(t: Turn, userPrompt: string) {
    || (TrimSpace(t.prompt) == "" && TrimSpace(t.answer) == "" && |t.steps| == 0)
    || (t.answer == "" && !t.failed && t.prompt == userPrompt)
  }

  function Render(t: Turn, userPrompt: string): seq<Entry> {
    if Skipped(t, userPrompt) then []
    else
      var asked := if TrimSpace(t.prompt) != "" then [UserEntry(t.prompt)] else [];
      var used := UsableSteps(t.steps);
      if t.failed then asked
      else if |used| > 0 then asked + [AssistantEntry(t.answer, used)]
      else if TrimSpace(t.answer) != "" then asked + [AssistantEntry(t.answer, [])]
      else asked
  }

  function Rendered(turns: seq<Turn>, userPrompt: string): seq<Entry> {
    if |turns| == 0 then [] else Rendered(turns[..|turns| - 1], userPrompt) + Render(turns[|turns| - 1], userPrompt)
  }

  /** BuildHistory: exactly the longest suffix within the bounds is rendered. */
  method BuildHistory(turns: seq<Turn>, userPrompt: string, o: Options) returns (out: seq<Entry>)
    ensures exists k: nat :: Longest(turns, k, o) && out == Rendered(turns[k..], userPrompt)
  {
    hide Longest, TrimSpace, UsableSteps;
    var start := Trim(turns, o);
    LongestInRange(turns, start, o);
    var kept := turns[start..];
    out := [];
    for i := 0 to |kept|
      invariant out == Rendered(kept[..i], userPrompt)
    {
      assert kept[..i + 1][..i] == kept[..i];
      out := AppendTurn(out, kept[i], userPrompt);
    }
    assert kept[..|kept|] == kept;
  }

  /** The body of BuildHistory's loop over the kept turns. */
  method AppendTurn(before: seq<Entry>, t: Turn, userPrompt: string) returns (out: seq<Entry>)
    ensures out == before + Render(t, userPrompt)
  {
    hide TrimSpace, UsableSteps;
    out := before;
    if TrimSpace(t.prompt) == "" && TrimSpace(t.answer) == "" && |t.steps| == 0 {
      return;
    }
    if t.answer == "" && !t.failed && t.prompt == userPrompt {
      return;
    }
    if TrimSpace(t.prompt) != "" {
      out := out + [UserEntry(t.prompt)];
    }
    if t.failed {
      return;
    }
    var used := CollectUsable(t.steps);
    if |used| > 0 {
      out := out + [AssistantEntry(t.answer, used)];
    } else if TrimSpace(t.answer) != "" {
      out := out + [AssistantEntry(t.answer, [])];
    }
  }

  lemma LongestInRange(turns: seq<Turn>, k: nat, o: Options)
    requires Longest(turns, k, o)
    ensures k <= |turns|
  {
  }

  method CollectUsable(steps: seq<Step>) returns (used: seq<Step>)
    ensures used == UsableSteps(steps)
  {
    hide TrimSpace;
    used := [];
    for i := 0 to |steps|
      invariant used == UsableSteps(steps[..i])
    {
      assert steps[..i + 1][..i] == steps[..i];
      var s := steps[i];
      if TrimSpace(s.tool) == "" {
        continue;
      }
      if TrimSpace(s.output) == "" && TrimSpace(s.err) == "" {
        continue;
      }
      used := used + [s];
    }
    assert steps[..|steps|] == steps;
  }

  // ---- The request

  function CallId(n: nat): string { "call_" + Decimal(n) }

  /** The steps parseToolSteps keeps. */
  function Named(steps: seq<Step>): seq<Step> {
    if |steps| == 0 then []
    else
      var s := steps[|steps| - 1];
      Named(steps[..|steps| - 1]) + (if TrimSpace(s.tool) != "" then [s] else [])
  }

  function ShownOutput(s: Step): string { if TrimSpace(s.err) != "" then "error: " + s.err else s.output }

  function ReplayEchoes(steps: seq<Step>, n: nat): seq<Echo> {
    seq(|steps|, i requires 0 <= i < |steps| => Echo(CallId(n + i), steps[i].tool, steps[i].args))
  }

  function ReplayReplies(steps: seq<Step>, n: nat): seq<Msg> {
    seq(|steps|, i requires 0 <= i < |steps| => MakeReply(CallId(n + i), ShownOutput(steps[i])))
  }

  function ReplayText(content: string): string { if TrimSpace(content) == "" then "(calling tools)" else content }

  function Replayed(content: string, steps: seq<Step>, n: nat): seq<Msg> {
    [Calls(ReplayText(content), ReplayEchoes(steps, n))] + ReplayReplies(steps, n)
  }

  /** The messages of one entry, the next call number being n, and how many numbers it uses. */
  function Laid(e: Entry, n: nat): (seq<Msg>, nat) {
    match e
    case UserEntry(content) => (if content == "" then [] else [User(content)], 0)
    case AssistantEntry(content, steps) =>
      var named := Named(steps);
      if |named| > 0 then (Replayed(content, named, n), |named|)
      else (if content == "" then [] else [Assistant(content)], 0)
  }

  function LaidOut(history: seq<Entry>): (seq<Msg>, nat) {
    if |history| == 0 then ([], 0)
    else
      var (front, n) := LaidOut(history[..|history| - 1]);
      var (more, used) := Laid(history[|history| - 1], n);
      (front + more, n + used)
  }

  function Assembled(sysPrompt: string, userPrompt: string, history: seq<Entry>): seq<Msg> {
    [Developer(sysPrompt)] + LaidOut(history).0 + [User(userPrompt)]
  }

  method ParseToolSteps(steps: seq<Step>) returns (named: seq<Step>)
    ensures named == Named(steps)
  {
    hide TrimSpace;
    named := [];
    for i := 0 to |steps|
      invariant named == Named(steps[..i])
    {
      assert steps[..i + 1][..i] == steps[..i];
      if TrimSpace(steps[i].tool) == "" {
        continue;
      }
      named := named + [steps[i]];
    }
    assert steps[..|steps|] == steps;
  }

  datatype Kept = Kept(id: string, tool: string, args: string, out: string)

  function Numbered(steps: seq<Step>, n: nat): seq<Kept> {
    seq(|steps|, i requires 0 <= i < |steps| =>
          Kept(CallId(n + i), steps[i].tool, steps[i].args, ShownOutput(steps[i])))
  }

  lemma NumberedSnoc(steps: seq<Step>, s: Step, n: nat)
    ensures Numbered(steps + [s], n)
            == Numbered(steps, n) + [Kept(CallId(n + |steps|), s.tool, s.args, ShownOutput(s))]
  {
    hide CallId, ShownOutput;
  }

  lemma NumberedNone(n: nat)
    ensures Numbered([], n) == []
  {
  }

  /** One more step, seen by the loop below: nothing, or one more numbered step. */
  lemma NumberedStep(steps: seq<Step>, i: nat, n: nat)
    requires i < |steps|
    ensures TrimSpace(steps[i].tool) == "" ==> Named(steps[..i + 1]) == Named(steps[..i])
    ensures TrimSpace(steps[i].tool) != "" ==>
              && |Named(steps[..i + 1])| == |Named(steps[..i])| + 1
              && Numbered(Named(steps[..i + 1]), n)
                 == Numbered(Named(steps[..i]), n)
                    + [Kept(CallId(n + |Named(steps[..i])|), steps[i].tool, steps[i].args, ShownOutput(steps[i]))]
  {
    hide TrimSpace, CallId, ShownOutput, Numbered;
    assert steps[..i + 1][..i] == steps[..i];
    assert Named(steps[..i]) + [] == Named(steps[..i]);
    NumberedSnoc(Named(steps[..i]), steps[i], n);
  }

  lemma NamedNone()
    ensures Named([]) == []
  {
  }

  method ReplayCalls(content: string, steps: seq<Step>, n: nat) returns (msgs: seq<Msg>, next: nat)
    ensures next == n + |Named(steps)|
    ensures msgs == if |Named(steps)| == 0 then [] else Replayed(content, Named(steps), n)
  {
    hide TrimSpace, CallId, MakeReply, Numbered, Named;
    var text := if TrimSpace(content) == "" then "(calling tools)" else content;
    var ks: seq<Kept> := [];
    next := n;
    NamedNone();
    NumberedNone(n);
    assert steps[..0] == [];
    for i := 0 to |steps|
      invariant next == n + |Named(steps[..i])| && ks == Numbered(Named(steps[..i]), n)
    {
      NumberedStep(steps, i, n);
      var st := steps[i];
      if TrimSpace(st.tool) == "" {
        continue;
      }
      ks := ks + [Kept(CallId(next), st.tool, st.args, if TrimSpace(st.err) != "" then "error: " + st.err
          else st.output)];
      next := next + 1;
    }
    assert steps[..|steps|] == steps;
    msgs := ExpandKept(text, ks);
    ExpandedIsReplay(Named(steps), n);
  }

  function EchoesOf(ks: seq<Kept>): seq<Echo> {
    seq(|ks|, i requires 0 <= i < |ks| => Echo(ks[i].id, ks[i].tool, ks[i].args))
  }

  function RepliesOf(ks: seq<Kept>): seq<Msg> { seq(|ks|, i requires 0 <= i < |ks| => MakeReply(ks[i].id, ks[i].out)) }

  lemma ExpandedIsReplay(steps: seq<Step>, n: nat)
    ensures |Numbered(steps, n)| == |steps|
    ensures EchoesOf(Numbered(steps, n)) == ReplayEchoes(steps, n)
    ensures RepliesOf(Numbered(steps, n)) == ReplayReplies(steps, n)
  {
    hide CallId, ShownOutput, MakeReply;
  }

  /** The kept calls become one message with calls and then one reply each. */
  method ExpandKept(text: string, ks: seq<Kept>) returns (msgs: seq<Msg>)
    ensures msgs == if |ks| == 0 then [] else [Calls(text, EchoesOf(ks))] + RepliesOf(ks)
  {
    hide MakeReply;
    if |ks| == 0 {
      return [];
    }
    var echo: seq<Echo> := [];
    for i := 0 to |ks|
      invariant |echo| == i && forall k :: 0 <= k < i ==> echo[k] == Echo(ks[k].id, ks[k].tool, ks[k].args)
    {
      echo := echo + [Echo(ks[i].id, ks[i].tool, ks[i].args)];
    }
    assert echo == EchoesOf(ks);
    var replies: seq<Msg> := [];
    for i := 0 to |ks|
      invariant |replies| == i && forall k :: 0 <= k < i ==> replies[k] == MakeReply(ks[k].id, ks[k].out)
    {
      replies := replies + [MakeReply(ks[i].id, ks[i].out)];
    }
    assert replies == RepliesOf(ks);
    msgs := [Calls(text, echo)] + replies;
  }

  lemma {:induction false} NamedTwice(steps: seq<Step>)
    ensures Named(Named(steps)) == Named(steps)
  {
    hide TrimSpace;
    if |steps| > 0 {
      var front := steps[..|steps| - 1];
      NamedTwice(front);
      if TrimSpace(steps[|steps| - 1].tool) != "" {
        assert (Named(front) + [steps[|steps| - 1]])[..|Named(front)|] == Named(front);
      } else {
        assert Named(front) + [] == Named(front);
      }
    }
  }

  method AssembleMessages(sysPrompt: string, userPrompt: string, history: seq<Entry>) returns (msgs: seq<Msg>)
    ensures msgs == Assembled(sysPrompt, userPrompt, history)
  {
    hide Replayed, Named, TrimSpace;
    msgs := [Developer(sysPrompt)];
    var n := 0;
    assert history[..0] == [] && msgs + [] == msgs;
    for i := 0 to |history|
      invariant msgs == [Developer(sysPrompt)] + LaidOut(history[..i]).0 && n == LaidOut(history[..i]).1
    {
      LaidStep(history, i, [Developer(sysPrompt)]);
      var h := history[i];
      ghost var before := msgs;
      if h.AssistantEntry? {
        var named := ParseToolSteps(h.steps);
        if |named| > 0 {
          NamedTwice(h.steps);
          var replay, next := ReplayCalls(h.content, named, n);
          msgs, n := msgs + replay, next;
          continue;
        }
      }
      if h.content == "" {
        assert msgs + [] == msgs;
        continue;
      }
      msgs := msgs + [if h.AssistantEntry? then Assistant(h.content) else User(h.content)];
    }
    assert history[..|history|] == history;
    msgs := msgs + [User(userPrompt)];
  }

  lemma LaidStep(history: seq<Entry>, i: nat, x: seq<Msg>)
    requires i < |history|
    ensures LaidOut(history[..i + 1]) == (LaidOut(history[..i]).0 + Laid(history[i], LaidOut(history[..i]).1).0,
                                          LaidOut(history[..i]).1 + Laid(history[i], LaidOut(history[..i]).1).1)
    ensures x + LaidOut(history[..i + 1]).0 == x + LaidOut(history[..i]).0 + Laid(history[i], LaidOut(history[..i]).1).0
  {
    hide Laid;
    assert history[..i + 1][..i] == history[..i];
    var a, b := LaidOut(history[..i]).0, Laid(history[i], LaidOut(history[..i]).1).0;
    assert x + (a + b) == x + a + b;
  }

  // ---- What the rebuilt conversation says

  datatype Exchange = Exchange(id: string, tool: string, args: string, shown: string)

  /** The calls of a paired conversation in order, each with the text of its reply. */
  function Transcript(msgs: seq<Msg>): seq<Exchange>
    requires Paired(msgs)
    decreases |msgs|
  {
    if |msgs| == 0 then []
    else if msgs[0].Calls? then
      var cs := msgs[0].calls;
      seq(|cs|, i requires 0 <= i < |cs| => Exchange(cs[i].id, cs[i].name, cs[i].args, msgs[1..1 + |cs|][i].text))
      + Transcript(msgs[1 + |cs|..])
    else Transcript(msgs[1..])
  }

  /** Steps as a reader of the conversation sees them, numbered from n. */
  function Shown(steps: seq<Step>, n: nat): seq<Exchange> {
    seq(|steps|, i requires 0 <= i < |steps| =>
          Exchange("call_" + Decimal(n + i), steps[i].tool, steps[i].args, Read(steps[i])))
  }

  /** Its error, if there is one, or its output. */
  function Read(s: Step): string {
    if !Blank(s.err) then "error: " + s.err else if s.output == "" then "(empty)" else s.output
  }

  lemma ReadIsShown(steps: seq<Step>)
    ensures forall i :: 0 <= i < |steps| ==>
              Read(steps[i]) == if ShownOutput(steps[i]) == "" then "(empty)" else ShownOutput(steps[i])
  {
    hide TrimSpace;
    forall i | 0 <= i < |steps|
      ensures Read(steps[i]) == if ShownOutput(steps[i]) == "" then "(empty)" else ShownOutput(steps[i])
    {
      BlankTrimsAway(steps[i].err);
    }
  }

  function Replayable(history: seq<Entry>): seq<Step> {
    if |history| == 0 then []
    else
      var e := history[|history| - 1];
      Replayable(history[..|history| - 1]) + (if e.AssistantEntry? then Named(e.steps) else [])
  }

  lemma {:induction false} TranscriptConcat(a: seq<Msg>, b: seq<Msg>)
    requires Paired(a) && Paired(b)
    ensures Paired(a + b) && Transcript(a + b) == Transcript(a) + Transcript(b)
    decreases |a|
  {
    hide Paired, Answers;
    PairedConcat(a, b);
    if |a| == 0 {
      assert a + b == b;
      NoTranscript(a);
      assert [] + Transcript(b) == Transcript(b);
      return;
    }
    PairedParts(a);
    PairedParts(a + b);
    if a[0].Calls? {
      var n := 1 + |a[0].calls|;
      TranscriptConcat(a[n..], b);
      assert (a + b)[1..n] == a[1..n] && (a + b)[n..] == a[n..] + b;
      TranscriptRound(a);
      TranscriptRound(a + b);
    } else {
      TranscriptConcat(a[1..], b);
      assert (a + b)[1..] == a[1..] + b;
    }
  }

  lemma NoTranscript(a: seq<Msg>)
    requires |a| == 0
    ensures Paired(a) && Transcript(a) == []
  {
  }

  /** The exchanges of one message with calls and its replies. */
  function RoundOf(cs: seq<Echo>, rs: seq<Msg>): seq<Exchange>
    requires |cs| == |rs| && Answers(cs, rs)
  {
    seq(|cs|, i requires 0 <= i < |cs| => Exchange(cs[i].id, cs[i].name, cs[i].args, rs[i].text))
  }

  lemma TranscriptRound(a: seq<Msg>)
    requires Paired(a) && |a| > 0 && a[0].Calls?
    ensures var n := 1 + |a[0].calls|;
            n <= |a| && Answers(a[0].calls, a[1..n]) && Paired(a[n..])
            && Transcript(a) == RoundOf(a[0].calls, a[1..n]) + Transcript(a[n..])
  {
    PairedParts(a);
    var n := 1 + |a[0].calls|;
    var cs := a[0].calls;
    assert RoundOf(cs, a[1..n])
           == seq(|cs|, i requires 0 <= i < |cs| => Exchange(cs[i].id, cs[i].name, cs[i].args, a[1..1 + |cs|][i].text));
  }

  lemma LaidTranscript(e: Entry, n: nat)
    ensures Paired(Laid(e, n).0)
    ensures Transcript(Laid(e, n).0) == if e.AssistantEntry? then Shown(Named(e.steps), n) else []
    ensures Laid(e, n).1 == if e.AssistantEntry? then |Named(e.steps)| else 0
  {
    LaidIsPaired(e, n);
    var msgs := Laid(e, n).0;
    if e.AssistantEntry? && |Named(e.steps)| > 0 {
      ReplayedTranscript(e.content, Named(e.steps), n);
    } else if |msgs| > 0 {
      assert msgs[1..] == [];
    }
  }

  lemma ReplayedTranscript(content: string, steps: seq<Step>, n: nat)
    ensures Paired(Replayed(content, steps, n)) && Transcript(Replayed(content, steps, n)) == Shown(steps, n)
  {
    hide ShownOutput, Read, Paired, Transcript;
    ReadIsShown(steps);
    var msgs := Replayed(content, steps, n);
    ReplayedIsPaired(content, steps, n);
    TranscriptRound(msgs);
    assert msgs[1..1 + |steps|] == ReplayReplies(steps, n) && msgs[1 + |steps|..] == [];
    NoTranscript([]);
    assert RoundOf(ReplayEchoes(steps, n), ReplayReplies(steps, n)) == Shown(steps, n);
    assert Shown(steps, n) + [] == Shown(steps, n);
  }

  lemma ShownConcat(a: seq<Step>, b: seq<Step>, n: nat)
    ensures Shown(a + b, n) == Shown(a, n) + Shown(b, n + |a|)
  {
    hide CallId, ShownOutput;
  }

  lemma {:induction false} LaidOutTranscript(history: seq<Entry>)
    ensures Paired(LaidOut(history).0)
    ensures Transcript(LaidOut(history).0) == Shown(Replayable(history), 0)
    ensures LaidOut(history).1 == |Replayable(history)|
  {
    hide Paired, Laid, Shown, Named, Transcript;
    LaidOutIsPaired(history);
    if |history| == 0 {
      NoTranscript([]);
      NothingShown();
    } else {
      var before, e := history[..|history| - 1], history[|history| - 1];
      LaidOutTranscript(before);
      var (front, n) := LaidOut(before);
      LaidTranscript(e, n);
      TranscriptConcat(front, Laid(e, n).0);
      ShownConcat(Replayable(before), if e.AssistantEntry? then Named(e.steps) else [], 0);
      NothingShown();
    }
  }

  lemma NothingShown()
    ensures forall n: nat :: Shown([], n) == []
  {
  }

  lemma CallIdInjective(i: nat, j: nat)
    requires CallId(i) == CallId(j)
    ensures i == j
  {
    assert CallId(i)[5..] == Decimal(i) && CallId(j)[5..] == Decimal(j);
    DecimalRoundTrip(i);
    DecimalRoundTrip(j);
  }

  lemma ReplayedIsPaired(content: string, steps: seq<Step>, n: nat)
    ensures Paired(Replayed(content, steps, n))
  {
    hide CallId, ShownOutput, TrimSpace;
    RoundIsPaired(ReplayText(content), ReplayEchoes(steps, n), ReplayReplies(steps, n));
  }

  lemma LaidIsPaired(e: Entry, n: nat)
    ensures Paired(Laid(e, n).0)
  {
    hide Replayed, Named;
    if e.AssistantEntry? {
      ReplayedIsPaired(e.content, Named(e.steps), n);
    }
  }

  lemma {:induction false} LaidOutIsPaired(history: seq<Entry>)
    ensures Paired(LaidOut(history).0)
  {
    hide Paired, Laid;
    if |history| == 0 {
      NothingIsPaired();
    } else {
      var front := LaidOut(history[..|history| - 1]);
      LaidOutIsPaired(history[..|history| - 1]);
      LaidIsPaired(history[|history| - 1], front.1);
      PairedConcat(front.0, Laid(history[|history| - 1], front.1).0);
    }
  }

  lemma NothingIsPaired()
    ensures Paired([])
  {
  }

  /** Whatever history a caller hands in, the request starts with the system prompt, ends with the user's and
      pairs every call with its reply. */
  lemma AssembledIsPaired(sysPrompt: string, userPrompt: string, history: seq<Entry>)
    ensures var msgs := Assembled(sysPrompt, userPrompt, history);
            Paired(msgs) && |msgs| >= 2 && msgs[0] == Developer(sysPrompt) && msgs[|msgs| - 1] == User(userPrompt)
  {
    hide LaidOut;
    PairedPlain(Developer(sysPrompt));
    PairedPlain(User(userPrompt));
    LaidOutIsPaired(history);
    PairedConcat([Developer(sysPrompt)], LaidOut(history).0);
    PairedConcat([Developer(sysPrompt)] + LaidOut(history).0, [User(userPrompt)]);
  }

  /** What a turn starts from: the system prompt, the lead-in unless it is blank, the history and the prompt. */
  lemma TurnStartsWith(sysPrompt: string, userPrompt: string, history: seq<Entry>, leadIn: string)
    ensures LedIn(Assembled(sysPrompt, userPrompt, history), leadIn)
            == [Developer(sysPrompt)] + (if Blank(leadIn) then [] else [Developer(leadIn)])
               + (LaidOut(history).0 + [User(userPrompt)])
  {
    hide LaidOut, TrimSpace, Blank;
    BlankTrimsAway(leadIn);
    var rest := LaidOut(history).0 + [User(userPrompt)];
    assert Assembled(sysPrompt, userPrompt, history) == [Developer(sysPrompt)] + rest;
    assert ([Developer(sysPrompt)] + rest)[1..] == rest;
  }

  /** A whole turn, from any history, with or without a lead-in: everything RunSafety says holds of it; in
      particular every request the provider receives pairs calls and replies. */
  lemma TurnIsSafe(sysPrompt: string, userPrompt: string, history: seq<Entry>, leadIn: string, c: Config,
                   nudgeOff: bool,
                   env: Env)
    ensures var msgs := LedIn(Assembled(sysPrompt, userPrompt, history), leadIn);
            var s := Gathered(Start(msgs, nudgeOff), c, 0, env).0;
            && SentPaired(s.sent) && AdjacentDiffer(s.executed)
            && forall i :: 0 <= i < |s.sent| ==> msgs <= s.sent[i].msgs && s.sent[i].msgs[0] == Developer(sysPrompt)
  {
    hide LaidOut, Paired, Gathered, AdjacentDiffer, Destutter;
    AssembledIsPaired(sysPrompt, userPrompt, history);
    LeadInKeepsPaired(Assembled(sysPrompt, userPrompt, history), leadIn);
    var msgs := LedIn(Assembled(sysPrompt, userPrompt, history), leadIn);
    RunSafety(msgs, c, nudgeOff, env);
    StartIsPrefix(Start(msgs, nudgeOff), c, 0, env);
  }

  /** A run only appends to the conversation it started from. */
  predicate Extends(s: State, t: State) {
    && s.msgs <= t.msgs && |s.sent| <= |t.sent|
    && (forall i :: 0 <= i < |s.sent| ==> t.sent[i] == s.sent[i])
    && (forall i :: |s.sent| <= i < |t.sent| ==> s.msgs <= t.sent[i].msgs)
  }

  lemma ExtendsOn(s: State, t: State, u: State)
    requires Extends(s, t) && Extends(t, u)
    ensures Extends(s, u)
  {
    forall i | |s.sent| <= i < |u.sent| ensures s.msgs <= u.sent[i].msgs {
      if i < |t.sent| {
        assert u.sent[i] == t.sent[i];
      } else {
        assert t.msgs <= u.sent[i].msgs;
      }
    }
  }

  lemma AnsweredExtends(s: State, c: Config, step: nat, reply: Reply, runs: (nat, nat) -> Outcome)
    ensures Extends(s, Answered(s, c, step, reply, runs))
  {
    hide Plan, Echoes, Replies, LastRun, Opening, Closing, RunKeys, KnownKeys, RoundText;
  }

  lemma {:induction false} StartIsPrefix(s: State, c: Config, step: nat, env: Env)
    ensures Extends(s, Gathered(s, c, step, env).0)
    decreases c.maxStep - step
  {
    hide Answered, Nudged, TrimSpace, WantsNudge, Extends, ClosedOut;
    var t := Sending(s, true);
    assert Extends(s, s) && Extends(s, t) && Extends(s, ClosedOut(s, c, env).0) by { FirstExtends(s, c, env); }
    if step < c.maxStep && !env.cancelled(step) && env.model(step, s.msgs, true).Says? {
      var reply := env.model(step, s.msgs, true).reply;
      var a, n := Answered(t, c, step, reply, env.runs), Nudged(t, TrimSpace(reply.content));
      AnsweredExtends(t, c, step, reply, env.runs);
      NudgedExtends(t, TrimSpace(reply.content));
      ExtendsOn(s, t, a);
      ExtendsOn(s, t, n);
      StartIsPrefix(a, c, step + 1, env);
      StartIsPrefix(n, c, step + 1, env);
      ExtendsOn(s, a, Gathered(a, c, step + 1, env).0);
      ExtendsOn(s, n, Gathered(n, c, step + 1, env).0);
    }
  }

  lemma FirstExtends(s: State, c: Config, env: Env)
    ensures Extends(s, s) && Extends(s, Sending(s, true)) && Extends(s, ClosedOut(s, c, env).0)
  {
    hide TrimSpace;
  }

  lemma NudgedExtends(s: State, text: string)
    ensures Extends(s, Nudged(s, text))
  {
  }

  // ---- The history builder and the layout together

  /** A step with a name and something to show. */
  predicate Telling(s: Step) { !Blank(s.tool) && !(Blank(s.output) && Blank(s.err)) }

  /** The turn recorded for the prompt being answered. */
  predicate Awaits(t: Turn, userPrompt: string) { t.answer == "" && !t.failed && t.prompt == userPrompt }

  lemma {:induction false} UsableAre(steps: seq<Step>) returns (at: seq<nat>)
    ensures |at| == |UsableSteps(steps)|
    ensures forall n :: 0 <= n < |at| ==> at[n] < |steps| && UsableSteps(steps)[n] == steps[at[n]]
    ensures forall m, n :: 0 <= m < n < |at| ==> at[m] < at[n]
    ensures forall i: nat :: i in at <==> i < |steps| && Telling(steps[i])
  {
    hide TrimSpace;
    at := [];
    if |steps| > 0 {
      var k := |steps| - 1;
      at := UsableAre(steps[..k]);
      BlankTrimsAway(steps[k].tool);
      BlankTrimsAway(steps[k].output);
      BlankTrimsAway(steps[k].err);
      if Telling(steps[k]) {
        at := at + [k];
      }
    }
  }

  /** Step `step` of turn `turn`. */
  datatype Spot = Spot(turn: nat, step: nat)

  predicate Earlier(a: Spot, b: Spot) { a.turn < b.turn || (a.turn == b.turn && a.step < b.step) }

  predicate Within(turns: seq<Turn>, a: Spot) { a.turn < |turns| && a.step < |turns[a.turn].steps| }

  function StepAt(turns: seq<Turn>, a: Spot): Step
    requires Within(turns, a)
  {
    turns[a.turn].steps[a.step]
  }

  /** What a later turn should read of it. */
  predicate Retold(turns: seq<Turn>, a: Spot, userPrompt: string) {
    && Within(turns, a) && Telling(StepAt(turns, a))
    && !turns[a.turn].failed && !Awaits(turns[a.turn], userPrompt)
  }

  ghost predicate Retells(steps: seq<Step>, turns: seq<Turn>, userPrompt: string, spots: seq<Spot>) {
    && |spots| == |steps|
    && (forall n :: 0 <= n < |spots| ==> Within(turns, spots[n]) && steps[n] == StepAt(turns, spots[n]))
    && (forall m, n :: 0 <= m < n < |spots| ==> Earlier(spots[m], spots[n]))
    && (forall a :: a in spots <==> Retold(turns, a, userPrompt))
  }

  lemma {:induction false} ReplayedAre(turns: seq<Turn>, userPrompt: string) returns (spots: seq<Spot>)
    ensures Retells(ReplayedSteps(turns, userPrompt), turns, userPrompt, spots)
  {
    hide UsableSteps, TrimSpace, Skipped, Retells;
    if |turns| == 0 {
      spots := [];
      NothingRetold(turns, userPrompt);
    } else {
      var k := |turns| - 1;
      var t := turns[k];
      var before := ReplayedAre(turns[..k], userPrompt);
      var steps := ReplayedSteps(turns[..k], userPrompt);
      if t.failed || Skipped(t, userPrompt) {
        spots := before;
        assert steps + [] == steps;
        StillRetold(steps, turns, userPrompt, before);
      } else {
        var at := UsableAre(t.steps);
        spots := before + SpotsOf(k, at);
        MoreRetold(steps, UsableSteps(t.steps), turns, userPrompt, before, at);
      }
    }
  }

  function SpotsOf(k: nat, at: seq<nat>): seq<Spot> { seq(|at|, i requires 0 <= i < |at| => Spot(k, at[i])) }

  lemma NothingRetold(turns: seq<Turn>, userPrompt: string)
    requires |turns| == 0
    ensures Retells([], turns, userPrompt, [])
  {
  }

  lemma StillRetold(steps: seq<Step>, turns: seq<Turn>, userPrompt: string, before: seq<Spot>)
    requires |turns| > 0 && Retells(steps, turns[..|turns| - 1], userPrompt, before)
    requires turns[|turns| - 1].failed || Skipped(turns[|turns| - 1], userPrompt)
    ensures Retells(steps, turns, userPrompt, before)
  {
    hide Skipped, Retold;
    RetoldStep(turns, userPrompt);
    EarlierTurns(turns[..|turns| - 1], before, userPrompt);
  }

  lemma EarlierTurns(turns: seq<Turn>, spots: seq<Spot>, userPrompt: string)
    requires forall a :: a in spots <==> Retold(turns, a, userPrompt)
    ensures forall a :: Retold(turns, a, userPrompt) ==> a.turn < |turns|
  {
  }

  lemma MoreRetold(steps: seq<Step>, more: seq<Step>, turns: seq<Turn>, userPrompt: string, before: seq<Spot>,
                   at: seq<nat>)
    requires |turns| > 0 && Retells(steps, turns[..|turns| - 1], userPrompt, before)
    requires var t := turns[|turns| - 1];
             && !t.failed && !Skipped(t, userPrompt) && |at| == |more|
             && (forall n :: 0 <= n < |at| ==> at[n] < |t.steps| && more[n] == t.steps[at[n]])
             && (forall i: nat :: i in at <==> i < |t.steps| && Telling(t.steps[i]))
    requires forall m, n :: 0 <= m < n < |at| ==> at[m] < at[n]
    ensures Retells(steps + more, turns, userPrompt, before + SpotsOf(|turns| - 1, at))
  {
    hide Skipped, Telling, SpotsOf, Within, Earlier, Retold;
    var k := |turns| - 1;
    var spots := before + SpotsOf(k, at);
    forall a ensures a in spots <==> Retold(turns, a, userPrompt) {
      RetoldStep(turns, userPrompt);
      EarlierTurns(turns[..k], before, userPrompt);
      SpotIn(k, at, a);
    }
    InOrder(steps, more, turns, userPrompt, before, at);
  }

  lemma InOrder(steps: seq<Step>, more: seq<Step>, turns: seq<Turn>, userPrompt: string, before: seq<Spot>,
                at: seq<nat>)
    requires |turns| > 0 && Retells(steps, turns[..|turns| - 1], userPrompt, before) && |at| == |more|
    requires forall n :: 0 <= n < |at| ==>
               at[n] < |turns[|turns| - 1].steps| && more[n] == turns[|turns| - 1].steps[at[n]]
    requires forall m, n :: 0 <= m < n < |at| ==> at[m] < at[n]
    ensures var spots, all := before + SpotsOf(|turns| - 1, at), steps + more;
            && |spots| == |all|
            && (forall n :: 0 <= n < |spots| ==> Within(turns, spots[n]) && all[n] == StepAt(turns, spots[n]))
            && (forall m, n :: 0 <= m < n < |spots| ==> Earlier(spots[m], spots[n]))
  {
    hide Retold;
    var k := |turns| - 1;
    var front := turns[..k];
    assert forall n :: 0 <= n < |before| ==> Within(front, before[n]) && front[before[n].turn] == turns[before[n].turn];
  }

  lemma SpotIn(k: nat, at: seq<nat>, a: Spot)
    ensures a in SpotsOf(k, at) <==> a.turn == k && a.step in at
  {
    var spots := SpotsOf(k, at);
    if a.turn == k && a.step in at {
      var i :| 0 <= i < |at| && at[i] == a.step;
      assert spots[i] == a;
    }
  }

  lemma RetoldStep(turns: seq<Turn>, userPrompt: string)
    requires |turns| > 0
    ensures var k := |turns| - 1;
            forall a :: Retold(turns, a, userPrompt) <==>
                if a.turn == k then
                  a.step < |turns[k].steps| && Telling(turns[k].steps[a.step]) && !turns[k].failed
                      && !Skipped(turns[k], userPrompt)
                else Retold(turns[..k], a, userPrompt)
  {
    hide TrimSpace, Telling;
  }

  function ReplayedSteps(turns: seq<Turn>, userPrompt: string): seq<Step> {
    if |turns| == 0 then []
    else
      var t := turns[|turns| - 1];
      ReplayedSteps(turns[..|turns| - 1], userPrompt)
      + (if t.failed || Skipped(t, userPrompt) then [] else UsableSteps(t.steps))
  }

  lemma {:induction false} UsableAreNamed(steps: seq<Step>)
    ensures Named(UsableSteps(steps)) == UsableSteps(steps)
  {
    hide TrimSpace;
    if |steps| > 0 {
      var front, s := steps[..|steps| - 1], steps[|steps| - 1];
      UsableAreNamed(front);
      if Usable(s) {
        assert (UsableSteps(front) + [s])[..|UsableSteps(front)|] == UsableSteps(front);
      } else {
        assert UsableSteps(front) + [] == UsableSteps(front);
      }
    }
  }

  lemma {:induction false} ReplayableConcat(a: seq<Entry>, b: seq<Entry>)
    ensures Replayable(a + b) == Replayable(a) + Replayable(b)
  {
    hide Named;
    if |b| == 0 {
      assert a + b == a;
    } else {
      assert (a + b)[..|a + b| - 1] == a + b[..|b| - 1];
      ReplayableConcat(a, b[..|b| - 1]);
    }
  }

  lemma RenderReplays(t: Turn, userPrompt: string)
    ensures Replayable(Render(t, userPrompt))
            == if t.failed || Skipped(t, userPrompt) then [] else UsableSteps(t.steps)
  {
    hide TrimSpace, Skipped, UsableSteps, Named;
    var used := UsableSteps(t.steps);
    UsableAreNamed(t.steps);
    ReplayableOne(UserEntry(t.prompt));
    ReplayableOne(AssistantEntry(t.answer, used));
    ReplayableOne(AssistantEntry(t.answer, []));
    ReplayableConcat([UserEntry(t.prompt)], [AssistantEntry(t.answer, used)]);
    ReplayableConcat([UserEntry(t.prompt)], [AssistantEntry(t.answer, [])]);
    assert Named([]) == [] by { NothingNamed(); }
    assert [] + [AssistantEntry(t.answer, used)] == [AssistantEntry(t.answer, used)];
    assert [] + [AssistantEntry(t.answer, [])] == [AssistantEntry(t.answer, [])];
    assert [] + used == used;
  }

  lemma NothingNamed()
    ensures Named([]) == []
  {
  }

  lemma ReplayableOne(e: Entry)
    ensures Replayable([e]) == if e.AssistantEntry? then Named(e.steps) else []
  {
    hide Named;
    assert [e][..0] == [];
  }

  lemma {:induction false} RenderedReplays(turns: seq<Turn>, userPrompt: string)
    ensures Replayable(Rendered(turns, userPrompt)) == ReplayedSteps(turns, userPrompt)
  {
    hide Render, Skipped, UsableSteps;
    if |turns| > 0 {
      var front, t := turns[..|turns| - 1], turns[|turns| - 1];
      RenderedReplays(front, userPrompt);
      RenderReplays(t, userPrompt);
      ReplayableConcat(Rendered(front, userPrompt), Render(t, userPrompt));
    }
  }

  /** What the model reads of earlier tool work after a rebuild, from any persisted turns and any bounds: the
      usable steps of the longest fitting suffix of turns, in order, each call under its own id and followed by
      its own output or error. */
  lemma RebuiltTranscript(turns: seq<Turn>, sysPrompt: string, userPrompt: string, o: Options, k: nat)
    requires Longest(turns, k, o)
    ensures var msgs := Assembled(sysPrompt, userPrompt, Rendered(turns[k..], userPrompt));
            var steps := ReplayedSteps(turns[k..], userPrompt);
            && Paired(msgs)
            && Transcript(msgs) == Shown(steps, 0)
            && (forall i, j :: 0 <= i < j < |steps| ==> Transcript(msgs)[i].id != Transcript(msgs)[j].id)
  {
    LongestInRange(turns, k, o);
    hide Paired, Transcript, Rendered, ReplayedSteps, CallId, ShownOutput, Longest, LaidOut;
    var history := Rendered(turns[k..], userPrompt);
    var middle := LaidOut(history).0;
    var steps := ReplayedSteps(turns[k..], userPrompt);
    RenderedReplays(turns[k..], userPrompt);
    LaidOutTranscript(history);
    PlainTranscript(Developer(sysPrompt));
    PlainTranscript(User(userPrompt));
    TranscriptConcat([Developer(sysPrompt)], middle);
    TranscriptConcat([Developer(sysPrompt)] + middle, [User(userPrompt)]);
    assert [] + Shown(steps, 0) + [] == Shown(steps, 0);
    forall i, j | 0 <= i < j < |steps| ensures Shown(steps, 0)[i].id != Shown(steps, 0)[j].id {
      if CallId(i) == CallId(j) {
        CallIdInjective(i, j);
      }
    }
  }

  // ---- What was said

  /** The texts of a conversation in order, and whether the user spoke them. */
  datatype Said = Said(byUser: bool, text: string)

  function SaidIn(m: Msg): seq<Said> {
    match m
    case User(text) => [Said(true, text)]
    case Assistant(text) => [Said(false, text)]
    case Calls(text, _) => [Said(false, text)]
    case _ => []
  }

  function Dialogue(msgs: seq<Msg>): seq<Said> {
    if |msgs| == 0 then [] else Dialogue(msgs[..|msgs| - 1]) + SaidIn(msgs[|msgs| - 1])
  }

  function EntrySaid(e: Entry): seq<Said> {
    match e
    case UserEntry(content) => if content == "" then [] else [Said(true, content)]
    case AssistantEntry(content, steps) =>
      if |Named(steps)| > 0 then [Said(false, ReplayText(content))]
      else if content == "" then [] else [Said(false, content)]
  }

  function HistorySaid(history: seq<Entry>): seq<Said> {
    if |history| == 0 then [] else HistorySaid(history[..|history| - 1]) + EntrySaid(history[|history| - 1])
  }

  /** What a turn should be heard as: its prompt, then, unless it failed, its answer or a stand-in for one; the turn
      that waits for the answer to this prompt is not heard. */
  function TurnSaid(t: Turn, userPrompt: string): seq<Said> {
    if Awaits(t, userPrompt) then []
    else
      (if Blank(t.prompt) then [] else [Said(true, t.prompt)])
      + (if t.failed then []
         else if !Blank(t.answer) then [Said(false, t.answer)]
         else if exists i :: 0 <= i < |t.steps| && Telling(t.steps[i]) then [Said(false, "(calling tools)")]
         else [])
  }

  function TurnsSaid(turns: seq<Turn>, userPrompt: string): seq<Said> {
    if |turns| == 0 then [] else TurnsSaid(turns[..|turns| - 1], userPrompt) + TurnSaid(turns[|turns| - 1], userPrompt)
  }

  lemma {:induction false} DialogueConcat(a: seq<Msg>, b: seq<Msg>)
    ensures Dialogue(a + b) == Dialogue(a) + Dialogue(b)
  {
    hide SaidIn;
    if |b| == 0 {
      assert a + b == a;
    } else {
      assert (a + b)[..|a + b| - 1] == a + b[..|b| - 1];
      DialogueConcat(a, b[..|b| - 1]);
    }
  }

  lemma {:induction false} RepliesAreSilent(rs: seq<Msg>)
    requires forall i :: 0 <= i < |rs| ==> rs[i].ToolReply?
    ensures Dialogue(rs) == []
  {
    if |rs| > 0 {
      RepliesAreSilent(rs[..|rs| - 1]);
    }
  }

  lemma DialogueOne(m: Msg)
    ensures Dialogue([m]) == SaidIn(m) && Dialogue([]) == []
  {
    assert [m][..0] == [];
  }

  lemma LaidDialogue(e: Entry, n: nat)
    ensures Dialogue(Laid(e, n).0) == EntrySaid(e)
  {
    hide CallId, ShownOutput, Dialogue, TrimSpace, Named;
    DialogueOne(User(e.content));
    DialogueOne(Assistant(e.content));
    if e.AssistantEntry? && |Named(e.steps)| > 0 {
      var call := Calls(ReplayText(e.content), ReplayEchoes(Named(e.steps), n));
      DialogueOne(call);
      RepliesAreSilent(ReplayReplies(Named(e.steps), n));
      DialogueConcat([call], ReplayReplies(Named(e.steps), n));
    }
  }

  lemma {:induction false} LaidOutDialogue(history: seq<Entry>)
    ensures Dialogue(LaidOut(history).0) == HistorySaid(history)
  {
    hide Laid, EntrySaid, Dialogue;
    if |history| == 0 {
      DialogueOne(User(""));
    } else {
      var before, e := history[..|history| - 1], history[|history| - 1];
      LaidOutDialogue(before);
      LaidDialogue(e, LaidOut(before).1);
      DialogueConcat(LaidOut(before).0, Laid(e, LaidOut(before).1).0);
    }
  }

  lemma {:induction false} HistorySaidConcat(a: seq<Entry>, b: seq<Entry>)
    ensures HistorySaid(a + b) == HistorySaid(a) + HistorySaid(b)
  {
    hide EntrySaid;
    if |b| == 0 {
      assert a + b == a;
    } else {
      assert (a + b)[..|a + b| - 1] == a + b[..|b| - 1];
      HistorySaidConcat(a, b[..|b| - 1]);
    }
  }

  lemma HistorySaidOne(e: Entry)
    ensures HistorySaid([e]) == EntrySaid(e) && HistorySaid([]) == []
  {
    hide EntrySaid;
    assert [e][..0] == [];
  }

  lemma UsableSome(steps: seq<Step>)
    ensures |UsableSteps(steps)| > 0 <==> exists i :: 0 <= i < |steps| && Telling(steps[i])
  {
    hide UsableSteps, Telling;
    var at := UsableAre(steps);
    if i :| 0 <= i < |steps| && Telling(steps[i]) {
      assert i in at;
    }
    if |at| > 0 {
      assert at[0] in at;
    }
  }

  lemma SkippedIff(t: Turn, userPrompt: string)
    ensures Skipped(t, userPrompt) <==> Awaits(t, userPrompt) || (Blank(t.prompt) && Blank(t.answer) && t.steps == [])
  {
    hide TrimSpace, Blank;
    BlankTrimsAway(t.prompt);
    BlankTrimsAway(t.answer);
  }

  lemma RenderSays(t: Turn, userPrompt: string)
    ensures HistorySaid(Render(t, userPrompt)) == TurnSaid(t, userPrompt)
  {
    assert TrimSpace("") == "";
    BlankTrimsAway(t.prompt);
    BlankTrimsAway(t.answer);
    UsableSome(t.steps);
    SkippedIff(t, userPrompt);
    hide TrimSpace, Blank, Telling, UsableSteps, Named, HistorySaid, Skipped, Awaits;
    var used := UsableSteps(t.steps);
    UsableAreNamed(t.steps);
    NothingNamed();
    var ask, tools, plain := UserEntry(t.prompt), AssistantEntry(t.answer, used), AssistantEntry(t.answer, []);
    HistorySaidOne(ask);
    HistorySaidOne(tools);
    HistorySaidOne(plain);
    HistorySaidConcat([ask], [tools]);
    HistorySaidConcat([ask], [plain]);
    assert [] + [tools] == [tools] && [] + [plain] == [plain];
  }

  lemma {:induction false} RenderedSays(turns: seq<Turn>, userPrompt: string)
    ensures HistorySaid(Rendered(turns, userPrompt)) == TurnsSaid(turns, userPrompt)
  {
    hide Render, TurnSaid;
    if |turns| > 0 {
      var front, t := turns[..|turns| - 1], turns[|turns| - 1];
      RenderedSays(front, userPrompt);
      RenderSays(t, userPrompt);
      HistorySaidConcat(Rendered(front, userPrompt), Render(t, userPrompt));
    }
  }

  /** What the model hears said after a rebuild, from any persisted turns and any bounds: the prompts and answers of
      the longest fitting suffix of turns in order, the answer of a failed turn left out, and the prompt last. */
  lemma RebuiltDialogue(turns: seq<Turn>, sysPrompt: string, userPrompt: string, o: Options, k: nat)
    requires Longest(turns, k, o)
    ensures Dialogue(Assembled(sysPrompt, userPrompt, Rendered(turns[k..], userPrompt)))
            == TurnsSaid(turns[k..], userPrompt) + [Said(true, userPrompt)]
  {
    LongestInRange(turns, k, o);
    hide Rendered, Dialogue, LaidOut, TurnsSaid, HistorySaid, Longest;
    var history := Rendered(turns[k..], userPrompt);
    RenderedSays(turns[k..], userPrompt);
    LaidOutDialogue(history);
    DialogueOne(Developer(sysPrompt));
    DialogueOne(User(userPrompt));
    DialogueConcat([Developer(sysPrompt)], LaidOut(history).0);
    DialogueConcat([Developer(sysPrompt)] + LaidOut(history).0, [User(userPrompt)]);
    assert [] + HistorySaid(history) == HistorySaid(history);
  }

  /** The calls that the model reads after a rebuild, one by one: those of the kept turns that did not fail and do not
      wait for this prompt's answer, in order, if they have a name and something to show, each with its error or
      output. */
  lemma RebuiltCalls(turns: seq<Turn>, sysPrompt: string, userPrompt: string, o: Options, k: nat)
    returns (spots: seq<Spot>)
    requires Longest(turns, k, o)
    ensures k <= |turns|
    ensures var kept := turns[k..];
            var msgs := Assembled(sysPrompt, userPrompt, Rendered(kept, userPrompt));
            && Paired(msgs) && |Transcript(msgs)| == |spots|
            && (forall n :: 0 <= n < |spots| ==>
                  && Within(kept, spots[n])
                  && var s := StepAt(kept, spots[n]);
                  Transcript(msgs)[n]
                  == Exchange("call_" + Decimal(n), s.tool, s.args,
                              if !Blank(s.err) then "error: " + s.err
                              else if s.output == "" then "(empty)" else s.output))
            && (forall m, n :: 0 <= m < n < |spots| ==> Earlier(spots[m], spots[n]))
            && (forall a :: a in spots <==> Retold(kept, a, userPrompt))
  {
    hide Assembled, Rendered, Longest, Retold, Earlier, ReplayedSteps, Blank;
    LongestInRange(turns, k, o);
    RebuiltTranscript(turns, sysPrompt, userPrompt, o, k);
    spots := ReplayedAre(turns[k..], userPrompt);
  }

  lemma PlainTranscript(m: Msg)
    requires !m.Calls? && !m.ToolReply?
    ensures Paired([m]) && Transcript([m]) == []
  {
    PairedPlain(m);
    assert [m][1..] == [];
  }

  /** The kept suffix is unique: no two starts are both longest. */
  lemma LongestIsUnique(turns: seq<Turn>, i: nat, j: nat, o: Options)
    requires Longest(turns, i, o) && Longest(turns, j, o)
    ensures i == j
  {
    hide Fits;
    assert !(i < j) && !(j < i);
  }

  /** Every start after the longest one fits too, so what is kept really is a maximal window. */
  lemma LaterStartsFit(turns: seq<Turn>, k: nat, j: nat, o: Options)
    requires Longest(turns, k, o) && k <= j <= |turns|
    ensures Fits(turns, j, o)
  {
    hide Size;
    assert turns[k..] == turns[k..j] + turns[j..];
    SizeConcat(turns[k..j], turns[j..]);
  }
}
