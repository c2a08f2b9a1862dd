/** The in-memory owner of preview browsers (server/internal/preview/worker.go).

    Each critical section of the Go code is one transition on `State`; the class
    `Manager` performs the same transitions on mutable fields. `Ensure` holds the
    lock twice, before and after the slow start, so it appears as `EnsureEnter`
    and `EnsureLeave`. */
module PreviewManager {
  import opened Projects
  import opened Wrappers

  datatype Token = Token(hex: string)
  type Worker = nat
  type Call = nat

  datatype Config = Config(project: Project, container: string)

  /** What the first critical section of Ensure decides. */
  datatype Entry =
    | Rejected              // validateConfig failed
    | ManagerClosed
    | Existing(worker: Worker)
    | Joined(call: Call)    // another caller is starting this project
    | Starter(call: Call)

  /** What the factory handed back to the starter. */
  datatype Outcome = StartFailed | NilWorker | Started(worker: Worker)

  /** How the second critical section ends. `toClose` is the worker the caller still has to close. */
  datatype Exit =
    | Failed
    | Published(worker: Worker)
    | Duplicate(kept: Worker, toClose: Worker)
    | ClosedMeanwhile(toClose: Worker)

  datatype State = State(
    workers: map<Project, Worker>,
    inflight: map<Project, Call>,
    closed: bool,
    tokens: map<Project, Token>,
    lastSeen: map<Project, int>)

  const EMPTY := State(map[], map[], false, map[], map[])

  predicate ValidConfig(cfg: Config) { cfg.project.id != "" && cfg.container != "" }

  function Enter(s: State, cfg: Config, call: Call): (State, Entry) {
    if !ValidConfig(cfg) then (s, Rejected)
    else if s.closed then (s, ManagerClosed)
    else if cfg.project in s.workers then (s, Existing(s.workers[cfg.project]))
    else if cfg.project in s.inflight then (s, Joined(s.inflight[cfg.project]))
    else (s.(inflight := s.inflight[cfg.project := call]), Starter(call))
  }

  function Publish(s: State, p: Project, w: Worker, minted: Token, now: int): State {
    if p in s.tokens then s.(workers := s.workers[p := w])
    else s.(workers := s.workers[p := w], tokens := s.tokens[p := minted], lastSeen := s.lastSeen[p := now])
  }

  function Leave(s: State, p: Project, o: Outcome, minted: Token, now: int): (State, Exit) {
    var s1 := s.(inflight := s.inflight - {p});
    if !o.Started? then (s1, Failed)
    else if s1.closed then (s1, ClosedMeanwhile(o.worker))
    else if p in s1.workers then (s1, Duplicate(s1.workers[p], o.worker))
    else (Publish(s1, p, o.worker, minted, now), Published(o.worker))
  }

  function Forget(s: State, ps: set<Project>): State {
    s.(workers := s.workers - ps, tokens := s.tokens - ps, lastSeen := s.lastSeen - ps)
  }

  function Silent(s: State, now: int, silence: int): set<Project> {
    set p | p in s.lastSeen && now - s.lastSeen[p] > silence
  }

  function Swept(s: State, now: int, silence: int): State {
    var dead := Silent(s, now, silence);
    s.(tokens := s.tokens - dead, lastSeen := s.lastSeen - dead)
  }

  function Rotated(s: State, p: Project, minted: Token, now: int): State {
    if p in s.workers && p !in s.tokens
    then s.(tokens := s.tokens[p := minted], lastSeen := s.lastSeen[p := now])
    else s
  }

  function Touched(s: State, p: Project, now: int): State {
    if p in s.tokens then s.(lastSeen := s.lastSeen[p := now]) else s
  }

  predicate Accepts(s: State, p: Project, supplied: Token) {
    p in s.tokens && supplied.hex != "" && s.tokens[p] == supplied
  }

  class Manager {
    var workers: map<Project, Worker>
    var inflight: map<Project, Call>
    var closed: bool
    var tokens: map<Project, Token>
    var lastSeen: map<Project, int>

    function View(): State
      reads this
    {
      State(workers, inflight, closed, tokens, lastSeen)
    }

    constructor ()
      ensures View() == EMPTY
    {
      workers, inflight, closed, tokens, lastSeen := map[], map[], false, map[], map[];
    }

    /** Ensure, first critical section. A new `call` stands for the new startCall. */
    method EnsureEnter(cfg: Config, call: Call) returns (r: Entry)
      modifies this
      ensures (View(), r) == Enter(old(View()), cfg, call)
    {
      if cfg.project.id == "" || cfg.container == "" {
        return Rejected;
      }
      if closed {
        return ManagerClosed;
      }
      if cfg.project in workers {
        return Existing(workers[cfg.project]);
      }
      if cfg.project in inflight {
        return Joined(inflight[cfg.project]);
      }
      inflight := inflight[cfg.project := call];
      return Starter(call);
    }

    /** Ensure, second critical section, run by the starter only. */
    method EnsureLeave(p: Project, o: Outcome, minted: Token, now: int) returns (r: Exit)
      modifies this
      ensures (View(), r) == Leave(old(View()), p, o, minted, now)
    {
      inflight := inflight - {p};
      if o.Started? && !closed {
        if p in workers {
          return Duplicate(workers[p], o.worker);
        }
        workers := workers[p := o.worker];
        if p !in tokens {
          tokens := tokens[p := minted];
          lastSeen := lastSeen[p := now];
        }
      }
      if closed && o.Started? {
        return ClosedMeanwhile(o.worker);
      }
      r := if o.Started? then Published(o.worker) else Failed;
    }

    method Get(p: Project) returns (r: Option<Worker>)
      ensures r == if p.id != "" && p in workers then Some(workers[p]) else None
    {
      if p.id == "" {
        return None;
      }
      if p in workers {
        return Some(workers[p]);
      }
      return None;
    }

    /** Stop's critical section; the caller closes the returned worker. */
    method Stop(p: Project) returns (r: Option<Worker>)
      modifies this
      ensures r == if p in old(workers) then Some(old(workers)[p]) else None
      ensures View() == if p in old(workers) then Forget(old(View()), {p}) else old(View())
    {
      if p !in workers {
        return None;
      }
      r := Some(workers[p]);
      workers := workers - {p};
      tokens := tokens - {p};
      lastSeen := lastSeen - {p};
    }

    /** Close's critical section: empties the manager and hands every held worker to the caller once.
        `ids` names, in the order of the loop, the project each worker belonged to. */
    method Close() returns (taken: seq<Worker>, ghost ids: seq<Project>)
      modifies this
      ensures old(closed) ==> taken == [] && View() == old(View())
      ensures !old(closed) ==> View() == Forget(old(View()), old(workers).Keys).(closed := true)
      ensures !old(closed) ==> Lists(ids, old(workers).Keys) && |taken| == |ids|
      ensures !old(closed) ==> forall i :: 0 <= i < |ids| ==> ids[i] in old(workers) && taken[i] == old(workers)[ids[i]]
    {
      taken, ids := [], [];
      if closed {
        return;
      }
      closed := true;
      ghost var removed: set<Project> := {};
      while workers.Keys != {}
        invariant closed && inflight == old(inflight)
        invariant Lists(ids, removed) && |taken| == |ids|
        invariant removed <= old(workers).Keys
        invariant workers == old(workers) - removed
        invariant tokens == old(tokens) - removed
        invariant lastSeen == old(lastSeen) - removed
        invariant forall i :: 0 <= i < |ids| ==> ids[i] in old(workers) && taken[i] == old(workers)[ids[i]]
        decreases workers.Keys
      {
        var id :| id in workers.Keys;
        taken, ids := taken + [workers[id]], ids + [id];
        workers, tokens, lastSeen := workers - {id}, tokens - {id}, lastSeen - {id};
        removed := removed + {id};
      }
      assert removed == old(workers).Keys;
    }

    method TokenOrMint(p: Project, next: Token, now: int) returns (tok: Token, minted: bool, ok: bool)
      modifies this
      ensures View() == Rotated(old(View()), p, next, now)
      ensures ok == (p in old(workers)) && minted == (ok && p !in old(tokens))
      ensures ok ==> p in tokens && tok == tokens[p]
    {
      if p !in workers {
        return Token(""), false, false;
      }
      if p in tokens {
        return tokens[p], false, true;
      }
      tokens := tokens[p := next];
      lastSeen := lastSeen[p := now];
      return next, true, true;
    }

    method CheckToken(p: Project, supplied: Token) returns (b: bool)
      ensures b == Accepts(View(), p, supplied)
    {
      if p !in tokens || supplied.hex == "" {
        return false;
      }
      b := tokens[p] == supplied;
    }

    method Touch(p: Project, now: int)
      modifies this
      ensures View() == Touched(old(View()), p, now)
    {
      if p in tokens {
        lastSeen := lastSeen[p := now];
      }
    }

    method Sweep(now: int, silence: int) returns (swept: seq<Project>)
      modifies this
      ensures View() == Swept(old(View()), now, silence)
      ensures Lists(swept, Silent(old(View()), now, silence))
    {
      swept := [];
      var todo := lastSeen.Keys;
      ghost var dead: set<Project> := {};
      while todo != {}
        invariant todo <= old(lastSeen).Keys
        invariant workers == old(workers) && inflight == old(inflight) && closed == old(closed)
        invariant tokens == old(tokens) - dead
        invariant lastSeen == old(lastSeen) - dead
        invariant Lists(swept, dead)
        invariant forall p :: p in dead <==> p in old(lastSeen) && p !in todo && now - old(lastSeen)[p] > silence
        decreases todo
      {
        var id :| id in todo;
        if now - lastSeen[id] > silence {
          tokens, lastSeen := tokens - {id}, lastSeen - {id};
          swept := swept + [id];
          dead := dead + {id};
        }
        todo := todo - {id};
      }
      assert dead == Silent(old(View()), now, silence);
    }
  }

  /** `xs` lists the elements of `s`, each once. */
  ghost predicate Lists<T(!new)>(xs: seq<T>, s: set<T>) {
    && (forall x :: x in xs <==> x in s)
    && (forall i, j :: 0 <= i < j < |xs| ==> xs[i] != xs[j])
  }
}
