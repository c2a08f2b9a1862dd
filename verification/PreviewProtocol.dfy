/** Every interleaving of the preview manager's critical sections with slow starts and closes. */
module PreviewProtocol {
  import opened PreviewManager
  import opened Projects

  /** The life of one startCall, as its starter drives it. */
  datatype Phase =
    | Running(project: Project)
    | Returned(project: Project, outcome: Outcome)
    | Done(project: Project, exit: Exit)

  /** `origin` records every worker the factory ever returned and the start it came from;
      `closing` holds workers handed to a closer, `gone` those whose Close has run;
      `issued` holds every token ever minted. */
  datatype World = World(
    m: State,
    calls: map<Call, Phase>,
    origin: map<Worker, Call>,
    closing: set<Worker>,
    gone: set<Worker>,
    issued: set<Token>)

  const START := World(EMPTY, map[], map[], {}, {}, {})

  datatype Step =
    | EnterStep(cfg: Config, call: Call)
    | FactoryReturns(call: Call, outcome: Outcome)
    | LeaveStep(call: Call, token: Token, now: int)
    | StopStep(project: Project)
    | CloseStep
    | WorkerClosed(worker: Worker)
    | TokenStep(project: Project, token: Token, now: int)
    | TouchStep(project: Project, now: int)
    | SweepStep(now: int, silence: int)

  /** A step that cannot happen in `w` (a reused call, worker or token identity, or a Leave before
      the factory returned) leaves `w` unchanged, so any list of steps is an interleaving. */
  function Apply(w: World, s: Step): World {
    match s
    case EnterStep(cfg, call) =>
      if call in w.calls then w else
      var (m, e) := Enter(w.m, cfg, call);
      if e.Starter? then w.(m := m, calls := w.calls[call := Running(cfg.project)]) else w.(m := m)
    case FactoryReturns(call, o) =>
      if call !in w.calls || !w.calls[call].Running? || (o.Started? && o.worker in w.origin) then w else
      var w1 := w.(calls := w.calls[call := Returned(w.calls[call].project, o)]);
      if o.Started? then w1.(origin := w.origin[o.worker := call]) else w1
    case LeaveStep(call, token, now) =>
      if call !in w.calls || !w.calls[call].Returned? || token in w.issued then w else
      var p := w.calls[call].project;
      var (m, x) := Leave(w.m, p, w.calls[call].outcome, token, now);
      w.(m := m, calls := w.calls[call := Done(p, x)], closing := w.closing + ToClose(x),
         issued := w.issued + NewToken(w.m, m, p, token))
    case StopStep(p) => w.(m := Forget(w.m, {p}), closing := w.closing + HeldAt(w.m, {p}))
    case CloseStep =>
      if w.m.closed then w else
      w.(m := Forget(w.m, w.m.workers.Keys).(closed := true), closing := w.closing + HeldAt(w.m, w.m.workers.Keys))
    case WorkerClosed(wk) =>
      if wk !in w.closing then w else w.(closing := w.closing - {wk}, gone := w.gone + {wk})
    case TokenStep(p, token, now) =>
      if token in w.issued then w else
      var m := Rotated(w.m, p, token, now);
      w.(m := m, issued := w.issued + NewToken(w.m, m, p, token))
    case TouchStep(p, now) => w.(m := Touched(w.m, p, now))
    case SweepStep(now, silence) => w.(m := Swept(w.m, now, silence))
  }

  function ToClose(x: Exit): set<Worker> {
    if x.Duplicate? || x.ClosedMeanwhile? then {x.toClose} else {}
  }

  function NewToken(before: State, after: State, p: Project, token: Token): set<Token> {
    if p !in before.tokens && p in after.tokens then {token} else {}
  }

  function HeldAt(m: State, ps: set<Project>): set<Worker> {
    set p | p in ps && p in m.workers :: m.workers[p]
  }

  function Run(w: World, steps: seq<Step>): World
    decreases |steps|
  {
    if |steps| == 0 then w else Run(Apply(w, steps[0]), steps[1..])
  }

  // ---- Where a worker is

  type Calls = map<Call, Phase>

  predicate Pending(calls: Calls, origin: map<Worker, Call>, wk: Worker) {
    wk in origin && origin[wk] in calls && calls[origin[wk]] == Returned(calls[origin[wk]].project, Started(wk))
  }

  predicate HeldByManager(workers: map<Project, Worker>, calls: Calls, origin: map<Worker, Call>, wk: Worker) {
    wk in origin && origin[wk] in calls
    && calls[origin[wk]].project in workers && workers[calls[origin[wk]].project] == wk
  }

  function Count(b: bool): nat { if b then 1 else 0 }

  /** How many of its four possible places a worker occupies: still with its starter, held by the
      manager, handed to a closer, or closed. */
  function Places(workers: map<Project, Worker>, calls: Calls, origin: map<Worker, Call>,
                  closing: set<Worker>, gone: set<Worker>, wk: Worker): nat {
    Count(Pending(calls, origin, wk)) + Count(HeldByManager(workers, calls, origin, wk))
    + Count(wk in closing) + Count(wk in gone)
  }

  function PlacesIn(w: World, wk: Worker): nat { Places(w.m.workers, w.calls, w.origin, w.closing, w.gone, wk) }

  // ---- The invariant, part by part, each over the fields it is about

  ghost predicate OneStarter(inflight: map<Project, Call>, workers: map<Project, Worker>, calls: Calls) {
    && inflight.Keys !! workers.Keys
    && (forall p :: p in inflight ==>
          inflight[p] in calls && !calls[inflight[p]].Done? && calls[inflight[p]].project == p)
    && (forall c :: c in calls && !calls[c].Done? ==> calls[c].project in inflight && inflight[calls[c].project] == c)
    && (forall c :: c in calls && calls[c].Done? ==> !calls[c].exit.Duplicate?)
  }

  ghost predicate Conserved(workers: map<Project, Worker>, calls: Calls, origin: map<Worker, Call>,
                            closing: set<Worker>, gone: set<Worker>) {
    && (forall wk :: wk in origin ==>
          origin[wk] in calls && !calls[origin[wk]].Running? && Places(workers, calls, origin, closing, gone, wk) == 1)
    && (forall p :: p in workers ==>
          workers[p] in origin && calls[origin[workers[p]]] == Done(p, Published(workers[p])))
    && (forall c :: c in calls && calls[c].Returned? && calls[c].outcome.Started? ==>
          calls[c].outcome.worker in origin && origin[calls[c].outcome.worker] == c)
    && closing <= origin.Keys && gone <= origin.Keys
  }

  ghost predicate TokensTracked(tokens: map<Project, Token>, lastSeen: map<Project, int>,
                                workers: map<Project, Worker>, issued: set<Token>) {
    && tokens.Keys == lastSeen.Keys
    && tokens.Keys <= workers.Keys
    && (forall p :: p in tokens ==> tokens[p] in issued)
    && (forall p, q :: p in tokens && q in tokens && tokens[p] == tokens[q] ==> p == q)
  }

  ghost predicate Inv(w: World) {
    && OneStarter(w.m.inflight, w.m.workers, w.calls)
    && Conserved(w.m.workers, w.calls, w.origin, w.closing, w.gone)
    && TokensTracked(w.m.tokens, w.m.lastSeen, w.m.workers, w.issued)
    && (w.m.closed ==> w.m.workers == map[])
  }

  lemma EnterRegisters(inflight: map<Project, Call>, workers: map<Project, Worker>, calls: Calls, p: Project, c: Call)
    requires OneStarter(inflight, workers, calls)
    requires p !in inflight && p !in workers && c !in calls
    ensures OneStarter(inflight[p := c], workers, calls[c := Running(p)])
  {
  }

  lemma EnterConserves(w: World, p: Project, c: Call)
    requires Conserved(w.m.workers, w.calls, w.origin, w.closing, w.gone) && c !in w.calls
    ensures Conserved(w.m.workers, w.calls[c := Running(p)], w.origin, w.closing, w.gone)
  {
  }

  lemma EnterKeepsInv(w: World, cfg: Config, call: Call)
    requires Inv(w)
    ensures Inv(Apply(w, EnterStep(cfg, call)))
  {
    if call !in w.calls && Enter(w.m, cfg, call).1.Starter? {
      EnterRegisters(w.m.inflight, w.m.workers, w.calls, cfg.project, call);
      EnterConserves(w, cfg.project, call);
    }
  }

  lemma FactoryStaysRegistered(inflight: map<Project, Call>, workers: map<Project, Worker>, calls: Calls, c: Call,
                               o: Outcome)
    requires OneStarter(inflight, workers, calls) && c in calls && calls[c].Running?
    ensures OneStarter(inflight, workers, calls[c := Returned(calls[c].project, o)])
  {
  }

  lemma FactoryConserves(workers: map<Project, Worker>, calls: Calls, origin: map<Worker, Call>,
                         closing: set<Worker>, gone: set<Worker>, c: Call, o: Outcome)
    requires Conserved(workers, calls, origin, closing, gone)
    requires c in calls && calls[c].Running? && !(o.Started? && o.worker in origin)
    ensures Conserved(workers, calls[c := Returned(calls[c].project, o)],
                      if o.Started? then origin[o.worker := c] else origin, closing, gone)
  {
    var calls1 := calls[c := Returned(calls[c].project, o)];
    var origin1 := if o.Started? then origin[o.worker := c] else origin;
    forall wk | wk in origin1
      ensures origin1[wk] in calls1 && !calls1[origin1[wk]].Running?
                && Places(workers, calls1, origin1, closing, gone, wk) == 1
    {
      assert wk in origin ==> Places(workers, calls, origin, closing, gone, wk) == 1;
    }
  }

  lemma FactoryKeepsInv(w: World, call: Call, o: Outcome)
    requires Inv(w)
    ensures Inv(Apply(w, FactoryReturns(call, o)))
  {
    if call in w.calls && w.calls[call].Running? && !(o.Started? && o.worker in w.origin) {
      FactoryStaysRegistered(w.m.inflight, w.m.workers, w.calls, call, o);
      FactoryConserves(w.m.workers, w.calls, w.origin, w.closing, w.gone, call, o);
    }
  }

  lemma LeaveUnregisters(inflight: map<Project, Call>, workers: map<Project, Worker>, after: map<Project, Worker>,
                         calls: Calls, c: Call, x: Exit)
    requires OneStarter(inflight, workers, calls) && c in calls && calls[c].Returned?
    requires after.Keys <= workers.Keys + {calls[c].project} && !x.Duplicate?
    ensures OneStarter(inflight - {calls[c].project}, after, calls[c := Done(calls[c].project, x)])
  {
  }

  lemma LeaveConserves(workers: map<Project, Worker>, calls: Calls, origin: map<Worker, Call>,
                       closing: set<Worker>, gone: set<Worker>, c: Call, x: Exit)
    requires Conserved(workers, calls, origin, closing, gone) && c in calls && calls[c].Returned?
    requires calls[c].project !in workers
    requires match x
             case Failed => !calls[c].outcome.Started?
             case Published(wk) => calls[c].outcome == Started(wk)
             case ClosedMeanwhile(wk) => calls[c].outcome == Started(wk)
             case Duplicate(_, _) => false
    ensures Conserved(if x.Published? then workers[calls[c].project := x.worker] else workers,
                      calls[c := Done(calls[c].project, x)], origin, closing + ToClose(x), gone)
  {
    var p := calls[c].project;
    var after := if x.Published? then workers[p := x.worker] else workers;
    forall wk | wk in origin
      ensures Places(after, calls[c := Done(p, x)], origin, closing + ToClose(x), gone, wk) == 1
    {
      assert Places(workers, calls, origin, closing, gone, wk) == 1;
    }
  }

  lemma MintTracked(m: State, workers: map<Project, Worker>, issued: set<Token>, p: Project, t: Token, now: int)
    requires TokensTracked(m.tokens, m.lastSeen, m.workers, issued)
    requires m.workers.Keys <= workers.Keys && p in workers && t !in issued
    ensures TokensTracked(m.tokens[p := t], m.lastSeen[p := now], workers, issued + {t})
  {
  }

  lemma LeaveKeepsInv(w: World, c: Call, t: Token, now: int)
    requires Inv(w)
    ensures Inv(Apply(w, LeaveStep(c, t, now)))
  {
    if c in w.calls && w.calls[c].Returned? && t !in w.issued {
      var (m, x) := Leave(w.m, w.calls[c].project, w.calls[c].outcome, t, now);
      LeaveUnregisters(w.m.inflight, w.m.workers, m.workers, w.calls, c, x);
      LeaveConserves(w.m.workers, w.calls, w.origin, w.closing, w.gone, c, x);
      if x.Published? {
        MintTracked(w.m, m.workers, w.issued, w.calls[c].project, t, now);
      }
    }
  }

  lemma StopKeepsInv(w: World, p: Project)
    requires Inv(w)
    ensures Inv(Apply(w, StopStep(p)))
  {
  }

  lemma CloseKeepsInv(w: World)
    requires Inv(w)
    ensures Inv(Apply(w, CloseStep))
  {
  }

  lemma WorkerClosedKeepsInv(w: World, wk: Worker)
    requires Inv(w)
    ensures Inv(Apply(w, WorkerClosed(wk)))
  {
  }

  lemma TokenStepKeepsInv(w: World, p: Project, t: Token, now: int)
    requires Inv(w)
    ensures Inv(Apply(w, TokenStep(p, t, now)))
  {
    if p in w.m.workers && p !in w.m.tokens && t !in w.issued {
      MintTracked(w.m, w.m.workers, w.issued, p, t, now);
    }
  }

  lemma TouchKeepsInv(w: World, p: Project, now: int)
    requires Inv(w)
    ensures Inv(Apply(w, TouchStep(p, now)))
  {
  }

  lemma SweepKeepsInv(w: World, now: int, silence: int)
    requires Inv(w)
    ensures Inv(Apply(w, SweepStep(now, silence)))
  {
  }

  lemma StepKeepsInv(w: World, s: Step)
    requires Inv(w)
    ensures Inv(Apply(w, s))
  {
    match s
    case EnterStep(cfg, call) => EnterKeepsInv(w, cfg, call);
    case FactoryReturns(call, o) => FactoryKeepsInv(w, call, o);
    case LeaveStep(c, t, now) => LeaveKeepsInv(w, c, t, now);
    case StopStep(p) => StopKeepsInv(w, p);
    case CloseStep => CloseKeepsInv(w);
    case WorkerClosed(wk) => WorkerClosedKeepsInv(w, wk);
    case TokenStep(p, t, now) => TokenStepKeepsInv(w, p, t, now);
    case TouchStep(p, now) => TouchKeepsInv(w, p, now);
    case SweepStep(now, silence) => SweepKeepsInv(w, now, silence);
  }

  lemma {:induction false} RunKeepsInv(w: World, steps: seq<Step>)
    requires Inv(w)
    ensures Inv(Run(w, steps))
    decreases |steps|
  {
    if |steps| > 0 {
      StepKeepsInv(w, steps[0]);
      RunKeepsInv(Apply(w, steps[0]), steps[1..]);
    }
  }

  // ---- What holds over every interleaving

  /** At most one start per project is running, no project is both starting and held, and the
      duplicate-worker branch of Ensure has never been taken and cannot be taken next. */
  lemma {:induction false} SingleStart(steps: seq<Step>, c: Call, d: Call)
    ensures var w := Run(START, steps);
            && w.m.inflight.Keys !! w.m.workers.Keys
            && (c in w.calls && d in w.calls && !w.calls[c].Done? && !w.calls[d].Done? ==>
                  w.calls[c].project == w.calls[d].project ==> c == d)
            && (c in w.calls && w.calls[c].Done? ==> !w.calls[c].exit.Duplicate?)
            && (c in w.calls && !w.calls[c].Done? ==> w.calls[c].project !in w.m.workers)
  {
    RunKeepsInv(START, steps);
  }

  /** Every worker the factory returned is in exactly one place, and the map holds no other worker. */
  lemma {:induction false} WorkerConservation(steps: seq<Step>, wk: Worker)
    ensures var w := Run(START, steps);
            && (wk in w.origin <==> PlacesIn(w, wk) == 1)
            && (wk !in w.origin <==> PlacesIn(w, wk) == 0)
            && (HeldByManager(w.m.workers, w.calls, w.origin, wk) <==>
               exists p :: p in w.m.workers && w.m.workers[p] == wk)
            && (forall p, q :: p in w.m.workers && q in w.m.workers && w.m.workers[p] == w.m.workers[q] ==> p == q)
  {
    RunKeepsInv(START, steps);
  }

  /** What no step ever takes back. */
  ghost predicate Extends(w: World, v: World) {
    && (w.m.closed ==> v.m.closed)
    && w.gone <= v.gone
    && (forall c :: c in w.calls && w.calls[c].Done? ==> c in v.calls && v.calls[c] == w.calls[c])
  }

  lemma StepExtends(w: World, s: Step)
    ensures Extends(w, Apply(w, s))
  {
  }

  /** A worker enters the manager's map only from the start that the factory returned it to. */
  lemma WorkersOnlyPublished(w: World, s: Step)
    ensures var v := Apply(w, s);
            forall p :: p in v.m.workers ==>
              (p in w.m.workers && v.m.workers[p] == w.m.workers[p])
              || (s.LeaveStep? && s.call in w.calls && w.calls[s.call] == Returned(p, Started(v.m.workers[p])))
  {
  }

  lemma {:induction false} RunExtends(w: World, steps: seq<Step>)
    ensures Extends(w, Run(w, steps))
    decreases |steps|
  {
    if |steps| > 0 {
      StepExtends(w, steps[0]);
      RunExtends(Apply(w, steps[0]), steps[1..]);
    }
  }

  /** A closed worker is never handed out or closed again, and the outcome every waiter of a
      startCall reads never changes once the starter has stored it. */
  lemma {:induction false} ClosedOnceResultsFinal(before: seq<Step>, after: seq<Step>, wk: Worker, c: Call)
    ensures var w, v := Run(START, before), Run(Run(START, before), after);
            && (wk in w.gone ==> wk in v.gone && !HeldByManager(v.m.workers, v.calls, v.origin, wk) && wk !in v.closing)
            && (c in w.calls && w.calls[c].Done? ==> c in v.calls && v.calls[c] == w.calls[c])
  {
    RunKeepsInv(START, before);
    RunExtends(Run(START, before), after);
    RunKeepsInv(Run(START, before), after);
  }

  /** After Close no worker is ever held again, whatever starts were still in flight; once those have
      finished and the closers have run, every worker ever started has been closed. */
  lemma {:induction false} ShutdownDrains(before: seq<Step>, after: seq<Step>)
    ensures var w, v := Run(START, before + [CloseStep]), Run(Run(START, before + [CloseStep]), after);
            && v.m.closed && v.m.workers == map[] && v.m.tokens == map[]
            && ((forall c :: c in v.calls ==> v.calls[c].Done?) && v.closing == {} ==> v.gone == v.origin.Keys)
  {
    RunAppend(START, before, CloseStep);
    RunKeepsInv(START, before + [CloseStep]);
    var w := Run(START, before + [CloseStep]);
    RunExtends(w, after);
    RunKeepsInv(w, after);
    var v := Run(w, after);
    if (forall c :: c in v.calls ==> v.calls[c].Done?) && v.closing == {} {
      DrainedIsGone(v);
    }
  }

  lemma DrainedIsGone(v: World)
    requires Inv(v) && v.m.closed && v.closing == {} && forall c :: c in v.calls ==> v.calls[c].Done?
    ensures v.gone == v.origin.Keys
  {
    forall wk | wk in v.origin ensures wk in v.gone {
      assert PlacesIn(v, wk) == 1;
    }
  }

  lemma {:induction false} RunAppend(w: World, steps: seq<Step>, s: Step)
    ensures Run(w, steps + [s]) == Apply(Run(w, steps), s)
    decreases |steps|
  {
    if |steps| > 0 {
      assert (steps + [s])[1..] == steps[1..] + [s];
      RunAppend(Apply(w, steps[0]), steps[1..], s);
    }
  }

  // ---- Capability tokens

  predicate Live(w: World, t: Token) { exists p :: p in w.m.tokens && w.m.tokens[p] == t }

  /** A step leaves a project's token alone, drops it, or replaces it by one never issued before. */
  lemma TokensOnlyMinted(w: World, s: Step)
    requires Inv(w)
    ensures var v := Apply(w, s);
            && w.issued <= v.issued
            && (forall p :: p in v.m.tokens ==>
                  (p in w.m.tokens && v.m.tokens[p] == w.m.tokens[p]) || v.m.tokens[p] !in w.issued)
  {
    hide Inv;
    match s
    case LeaveStep(c, t, now) => LeaveOnlyMints(w, c, t, now);
    case _ =>
  }

  lemma LeaveOnlyMints(w: World, c: Call, t: Token, now: int)
    ensures var v := Apply(w, LeaveStep(c, t, now));
            && w.issued <= v.issued
            && (forall p :: p in v.m.tokens ==>
                  (p in w.m.tokens && v.m.tokens[p] == w.m.tokens[p]) || v.m.tokens[p] !in w.issued)
  {
  }

  lemma RevokedStays(w: World, s: Step, t: Token)
    requires Inv(w) && t in w.issued && !Live(w, t)
    ensures t in Apply(w, s).issued && !Live(Apply(w, s), t)
  {
    TokensOnlyMinted(w, s);
  }

  /** A token that has been swept, rotated away or stopped is never accepted again, for any project, and no empty one
      ever is; a token accepted for one project is accepted for no other, and only while its worker is held. */
  lemma {:induction false} RevokedForever(before: seq<Step>, after: seq<Step>, t: Token, p: Project, q: Project)
    ensures var w, v := Run(START, before), Run(Run(START, before), after);
            && (t in w.issued && !Live(w, t) ==> !Accepts(v.m, p, t))
            && (Accepts(v.m, p, t) ==> p in v.m.workers && t in v.issued)
            && (Accepts(v.m, p, t) && Accepts(v.m, q, t) ==> p == q)
            && !Accepts(v.m, p, Token(""))
    decreases |after|
  {
    RunKeepsInv(START, before);
    var w := Run(START, before);
    RunKeepsInv(w, after);
    if t in w.issued && !Live(w, t) {
      RevokedAlong(w, after, t);
    }
  }

  lemma {:induction false} RevokedAlong(w: World, steps: seq<Step>, t: Token)
    requires Inv(w) && t in w.issued && !Live(w, t)
    ensures !Live(Run(w, steps), t)
    decreases |steps|
  {
    if |steps| > 0 {
      RevokedStays(w, steps[0], t);
      StepKeepsInv(w, steps[0]);
      RevokedAlong(Apply(w, steps[0]), steps[1..], t);
    }
  }

  /** A sweep drops exactly the tokens silent for too long. */
  lemma SweepDropsExactlySilent(w: World, now: int, silence: int, p: Project, t: Token)
    requires Inv(w)
    ensures Accepts(Apply(w, SweepStep(now, silence)).m, p, t)
            <==> Accepts(w.m, p, t) && p in w.m.lastSeen && now - w.m.lastSeen[p] <= silence
  {
  }

  /** A visit keeps the capability alive: whatever the record was before, a sweep no later than the limit after
      the visit leaves the token accepted, and the visit moves no other project's fate. */
  lemma TouchPostponesSweep(w: World, p: Project, t: Token, seen: int, now: int, silence: int, q: Project, u: Token)
    requires Inv(w) && Accepts(w.m, p, t) && now - seen <= silence
    ensures var v := Apply(Apply(w, TouchStep(p, seen)), SweepStep(now, silence));
            && Accepts(v.m, p, t)
            && (q != p ==> (Accepts(v.m, q, u) <==> Accepts(Apply(w, SweepStep(now, silence)).m, q, u)))
  {
    hide Inv;
    TouchKeepsInv(w, p, seen);
    SweepDropsExactlySilent(Apply(w, TouchStep(p, seen)), now, silence, p, t);
    SweepDropsExactlySilent(Apply(w, TouchStep(p, seen)), now, silence, q, u);
    SweepDropsExactlySilent(w, now, silence, q, u);
  }

  /** Asking for the token of a held project after a sweep gives back the surviving token, or a new
      one if the old one was swept; then the old one is no longer accepted. */
  lemma SweepThenRotate(w: World, now: int, silence: int, p: Project, next: Token)
    requires Inv(w) && p in w.m.workers && next !in w.issued
    ensures var v := Apply(w, SweepStep(now, silence));
            var u := Apply(v, TokenStep(p, next, now));
            && p in u.m.tokens
            && u.m.tokens[p] == (if p in v.m.tokens then w.m.tokens[p] else next)
            && (p in w.m.tokens && p !in v.m.tokens ==> !Accepts(u.m, p, w.m.tokens[p]))
  {
    assert p in w.m.tokens ==> w.m.tokens[p] in w.issued;
  }

  /** The sweeper sweeps and then stops, in two steps. A caller that asks for the token of a silent project in between
      is given a new one, accepted at once; the stop that follows hands the worker to its closer and revokes that token
      for good. */
  lemma TokenBetweenSweepAndStop(before: seq<Step>, after: seq<Step>, p: Project, next: Token, now: int, silence: int,
                                 q: Project)
    requires var w := Run(START, before);
             p in w.m.workers && p in w.m.lastSeen && now - w.m.lastSeen[p] > silence && next !in w.issued
    requires next != Token("")
    ensures var w := Run(START, before);
            var u := Apply(Apply(w, SweepStep(now, silence)), TokenStep(p, next, now));
            var v := Apply(u, StopStep(p));
            && Accepts(u.m, p, next) && p in u.m.workers
            && p !in v.m.workers && w.m.workers[p] in v.closing
            && !Accepts(Run(v, after).m, q, next)
  {
    hide Run, Inv, Apply, Live, Accepts;
    var w := Run(START, before);
    RunKeepsInv(START, before);
    var s := Apply(w, SweepStep(now, silence));
    StepKeepsInv(w, SweepStep(now, silence));
    SilentIsSwept(w, p, now, silence);
    var u := Apply(s, TokenStep(p, next, now));
    StepKeepsInv(s, TokenStep(p, next, now));
    var v := Apply(u, StopStep(p));
    StepKeepsInv(u, StopStep(p));
    StoppedIsDead(s, p, next, now);
    RevokedAlong(v, after, next);
    DeadIsRefused(Run(v, after), next, q);
  }

  lemma SilentIsSwept(w: World, p: Project, now: int, silence: int)
    requires p in w.m.workers && p in w.m.lastSeen && now - w.m.lastSeen[p] > silence
    ensures var s := Apply(w, SweepStep(now, silence));
            p in s.m.workers && s.m.workers[p] == w.m.workers[p] && p !in s.m.tokens && s.issued == w.issued
  {
  }

  lemma DeadIsRefused(w: World, t: Token, q: Project)
    requires !Live(w, t)
    ensures !Accepts(w.m, q, t)
  {
  }

  lemma StoppedIsDead(s: World, p: Project, next: Token, now: int)
    requires Inv(s) && p in s.m.workers && p !in s.m.tokens && next !in s.issued && next != Token("")
    ensures var u := Apply(s, TokenStep(p, next, now));
            var v := Apply(u, StopStep(p));
            && Accepts(u.m, p, next) && p in u.m.workers
            && p !in v.m.workers && s.m.workers[p] in v.closing
            && next in v.issued && !Live(v, next)
  {
    var u := Apply(s, TokenStep(p, next, now));
    var v := Apply(u, StopStep(p));
    assert u.m.tokens == s.m.tokens[p := next];
    assert forall r :: r in s.m.tokens ==> s.m.tokens[r] in s.issued;
    assert p in u.m.workers && u.m.workers[p] in HeldAt(u.m, {p});
  }

  // ---- What callers are told

  predicate ClosedBy(steps: seq<Step>) { CloseStep in steps }

  lemma {:induction false} ClosedIff(w: World, steps: seq<Step>)
    ensures Run(w, steps).m.closed <==> w.m.closed || ClosedBy(steps)
    decreases |steps|
  {
    hide Apply;
    if |steps| > 0 {
      ClosesOnly(w, steps[0]);
      ClosedIff(Apply(w, steps[0]), steps[1..]);
      assert steps == [steps[0]] + steps[1..];
    }
  }

  lemma ClosesOnly(w: World, s: Step)
    ensures Apply(w, s).m.closed <==> w.m.closed || s == CloseStep
  {
  }

  /** The worker was published for the project and has not been handed to a closer since. */
  predicate Serves(w: World, p: Project, wk: Worker) {
    wk in w.origin && w.origin[wk] in w.calls && w.calls[w.origin[wk]] == Done(p, Published(wk))
    && wk !in w.closing && wk !in w.gone
  }

  predicate StartingFor(w: World, p: Project, c: Call) { c in w.calls && !w.calls[c].Done? && w.calls[c].project == p }

  lemma ServesIffHeld(w: World, p: Project, wk: Worker)
    requires Inv(w)
    ensures Serves(w, p, wk) <==> p in w.m.workers && w.m.workers[p] == wk
  {
    hide OneStarter, TokensTracked;
    if wk in w.origin {
      assert Places(w.m.workers, w.calls, w.origin, w.closing, w.gone, wk) == 1;
    }
  }

  lemma StartingIffInflight(w: World, p: Project, c: Call)
    requires Inv(w)
    ensures StartingFor(w, p, c) <==> p in w.m.inflight && w.m.inflight[p] == c
  {
    hide Conserved, TokensTracked;
  }

  /** Over every interleaving, what Ensure's first section answers: a bad config is rejected, a closed manager says so,
      and otherwise the caller gets the worker that serves the project, joins the call that is starting it, or starts it
      if there is neither. */
  lemma EntryReply(steps: seq<Step>, cfg: Config, call: Call)
    requires call !in Run(START, steps).calls
    ensures var w := Run(START, steps);
            var e, p := Enter(w.m, cfg, call).1, cfg.project;
            var open := p.id != "" && cfg.container != "" && !ClosedBy(steps);
            && (e == Rejected <==> p.id == "" || cfg.container == "")
            && (e == ManagerClosed <==> p.id != "" && cfg.container != "" && ClosedBy(steps))
            && (forall wk :: e == Existing(wk) <==> open && Serves(w, p, wk))
            && (forall c :: e == Joined(c) <==> open && StartingFor(w, p, c))
            && (e == Starter(call) <==> open && (forall wk :: !Serves(w, p, wk)) && forall c :: !StartingFor(w, p, c))
            && (forall c :: e == Starter(c) ==> c == call && StartingFor(Apply(w, EnterStep(cfg, call)), p, call))
            && (!e.Starter? ==> Apply(w, EnterStep(cfg, call)) == w)
  {
    hide Run, Inv, Serves, StartingFor, ClosedBy;
    RunKeepsInv(START, steps);
    ClosedIff(START, steps);
    var w, p := Run(START, steps), cfg.project;
    forall wk: Worker ensures Serves(w, p, wk) <==> p in w.m.workers && w.m.workers[p] == wk {
      ServesIffHeld(w, p, wk);
    }
    forall c: Call ensures StartingFor(w, p, c) <==> p in w.m.inflight && w.m.inflight[p] == c {
      StartingIffInflight(w, p, c);
    }
    assert !Serves(w, p, if p in w.m.workers then w.m.workers[p] else 0) ==> p !in w.m.workers;
    assert !StartingFor(w, p, if p in w.m.inflight then w.m.inflight[p] else 0) ==> p !in w.m.inflight;
    if Enter(w.m, cfg, call).1.Starter? {
      StarterStarts(w, cfg, call);
    }
    OneAtATime(w, p);
  }

  lemma StarterStarts(w: World, cfg: Config, call: Call)
    requires call !in w.calls && Enter(w.m, cfg, call).1.Starter?
    ensures StartingFor(Apply(w, EnterStep(cfg, call)), cfg.project, call)
  {
  }

  lemma OneAtATime(w: World, p: Project)
    requires Inv(w)
    ensures !(p in w.m.workers && p in w.m.inflight) && (w.m.closed ==> w.m.workers == map[])
  {
    hide Conserved, TokensTracked;
  }

  /** And what its second section answers to the starter: the factory's failure, or the worker, published with a token
      that is accepted and was seen just now, or to be closed because the manager closed meanwhile. */
  lemma ExitReply(steps: seq<Step>, c: Call, t: Token, now: int)
    requires var w := Run(START, steps); c in w.calls && w.calls[c].Returned? && t !in w.issued
    ensures var w := Run(START, steps);
            var p, o, v := w.calls[c].project, w.calls[c].outcome, Apply(w, LeaveStep(c, t, now));
            && v.calls[c].Done? && (forall d :: !StartingFor(v, p, d))
            && v.calls[c].exit == (if !o.Started? then Failed
                                   else if ClosedBy(steps) then ClosedMeanwhile(o.worker)
                                   else Published(o.worker))
            && (v.calls[c].exit.Published? ==>
                  Serves(v, p, o.worker) && v.m.tokens == w.m.tokens[p := t] && v.m.lastSeen == w.m.lastSeen[p := now])
            && (v.calls[c].exit.ClosedMeanwhile? ==> v.closing == w.closing + {o.worker})
            && (!v.calls[c].exit.Published? ==> v.m.workers == w.m.workers && v.m.tokens == w.m.tokens)
  {
    hide Run, ClosedBy, Inv, Serves, StartingFor;
    RunKeepsInv(START, steps);
    ClosedIff(START, steps);
    var w := Run(START, steps);
    var v := Apply(w, LeaveStep(c, t, now));
    StepKeepsInv(w, LeaveStep(c, t, now));
    LeavesAlone(w, c);
    forall d: Call ensures !StartingFor(v, w.calls[c].project, d) { StartingIffInflight(v, w.calls[c].project, d); }
    if v.calls[c].exit.Published? {
      ServesIffHeld(v, w.calls[c].project, w.calls[c].outcome.worker);
    }
  }

  lemma LeavesAlone(w: World, c: Call)
    requires Inv(w) && c in w.calls && w.calls[c].Returned?
    ensures w.calls[c].project !in w.m.workers && w.calls[c].project !in w.m.tokens
  {
    hide Conserved;
  }

  /** A token just minted, at a start or after a sweep, counts as seen: a sweep within the limit spares it and a later
      one does not. */
  lemma MintIsPresence(w: World, p: Project, t: Token, now: int, at: int, silence: int)
    requires Inv(w) && p in w.m.workers && p !in w.m.tokens && t !in w.issued && t.hex != ""
    ensures var v := Apply(Apply(w, TokenStep(p, t, now)), SweepStep(at, silence));
            Accepts(v.m, p, t) <==> at - now <= silence
  {
  }

  /** Stop takes the project's worker, hands it to a closer, and touches no other project. */
  lemma StopTakesOne(w: World, p: Project, q: Project, wk: Worker)
    requires Inv(w)
    ensures var v := Apply(w, StopStep(p));
            && !Serves(v, p, wk)
            && (Serves(w, p, wk) ==> wk in v.closing)
            && (q != p ==> (Serves(v, q, wk) <==> Serves(w, q, wk)))
            && (wk in v.closing ==> wk in w.closing || Serves(w, p, wk))
            && (forall t: Token :: !Accepts(v.m, p, t))
            && (q != p ==> forall t: Token :: Accepts(v.m, q, t) <==> Accepts(w.m, q, t))
  {
    hide Inv, Serves;
    StopKeepsInv(w, p);
    var v := Apply(w, StopStep(p));
    ServesIffHeld(w, p, wk);
    ServesIffHeld(v, p, wk);
    ServesIffHeld(w, q, wk);
    ServesIffHeld(v, q, wk);
  }
}
