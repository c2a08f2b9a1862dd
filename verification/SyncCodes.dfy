/** One-time sync codes and the sessions they open (server/internal/sync/code.go). */
module SyncCodes {
  import opened Projects
  import opened Wrappers

  // A code is identified with its hash: the hash is taken to be collision-free on normalised codes. Every
  // operation reads the clock once; the reading is a parameter.

  type Code = nat
  type SessionId = nat

  const CODE_TTL := 600
  const MAX_ATTEMPTS := 10

  datatype Error =
    | CodeInvalid | CodeExpired | CodeWrongProject | CodeUsed | SyncRunning | SessionUnknown | SessionExpired

  datatype Result<+T> = Ok(value: T) | Err(error: Error)

  datatype Entry = Entry(
    unknown: bool,                 // only a tally of guesses: the code was never generated
    project: Project,
    expires: int,
    plain: Option<Code>,           // the plaintext, forgotten when its session ends
    attempts: nat,
    used: bool,
    session: Option<SessionId>)

  datatype Session = Session(project: Project, code: Code, expires: int, finished: bool, phase: Option<string>)

  datatype Store = Store(
    entries: map<Code, Entry>,
    byProject: map<Project, Code>,
    sessions: map<SessionId, Session>)

  const EMPTY := Store(map[], map[], map[])

  // ---- The operations, on values

  predicate Running(s: Store, e: Entry, now: int) {
    e.session.Some? && e.session.value in s.sessions
    && !s.sessions[e.session.value].finished && now < s.sessions[e.session.value].expires
  }

  predicate Refuses(s: Store, p: Project, now: int) {
    p in s.byProject && s.byProject[p] in s.entries && Running(s, s.entries[s.byProject[p]], now)
  }

  function Replaced(s: Store, p: Project): Store {
    if p !in s.byProject then s else
    var prior := s.byProject[p];
    var sessions :=
      if prior in s.entries && s.entries[prior].session.Some? then s.sessions - {s.entries[prior].session.value}
      else s.sessions;
    s.(entries := s.entries - {prior}, sessions := sessions)
  }

  function Generated(s: Store, p: Project, code: Code, now: int): Store {
    var r := Replaced(s, p);
    r.(entries := r.entries[code := Entry(false, p, now + CODE_TTL, Some(code), 0, false, None)],
       byProject := r.byProject[p := code])
  }

  function Charged(s: Store, code: Code, e: Entry): Store {
    if e.attempts + 1 >= MAX_ATTEMPTS then s.(entries := s.entries - {code})
    else s.(entries := s.entries[code := e.(attempts := e.attempts + 1)])
  }

  function Tally(s: Store, code: Code): Entry {
    if code in s.entries then s.entries[code] else Entry(true, Project(""), 0, None, 0, false, None)
  }

  datatype Verdict = Fail(error: Error) | Resume(id: SessionId) | Spent | Open

  function Judge(s: Store, code: Code, p: Project, now: int): Verdict {
    var e := Tally(s, code);
    if e.unknown then Fail(CodeInvalid)
    else if now > e.expires then Fail(CodeExpired)
    else if e.project != p then Fail(CodeWrongProject)
    else if e.session.Some? && e.session.value in s.sessions && !s.sessions[e.session.value].finished then
      Resume(e.session.value)
    else if e.used || e.plain.None? then Spent
    else Open
  }

  function Opened(s: Store, code: Code, id: SessionId): Store {
    var e := Tally(s, code);
    s.(sessions := s.sessions[id := Session(e.project, code, e.expires, false, None)],
       entries := s.entries[code := e.(session := Some(id))])
  }

  function LookedUp(s: Store, code: Code, p: Project, id: SessionId, now: int): (Store, Result<SessionId>) {
    match Judge(s, code, p, now)
    case Fail(err) => (Charged(s, code, Tally(s, code)), Err(err))
    case Resume(live) => (s, Ok(live))
    case Spent => (s, Err(CodeUsed))
    case Open => (Opened(s, code, id), Ok(id))
  }

  function Fetched(s: Store, id: SessionId, now: int): (Store, Result<SessionId>) {
    if id !in s.sessions then (s, Err(SessionUnknown))
    else if now > s.sessions[id].expires
    then (s.(sessions := s.sessions[id := s.sessions[id].(finished := true)]), Err(SessionExpired))
    else (s, Ok(id))
  }

  function Finished(s: Store, id: SessionId): Store {
    if id !in s.sessions then s else
    var sess := s.sessions[id];
    Store(if sess.code in s.entries then s.entries[sess.code := s.entries[sess.code].(plain := None)] else s.entries,
          if sess.project in s.byProject && s.byProject[sess.project] == sess.code then s.byProject - {sess.project}
              else s.byProject,
          s.sessions - {id})
  }

  function Used(s: Store, code: Code): Store {
    if code in s.entries then s.(entries := s.entries[code := s.entries[code].(used := true)]) else s
  }

  predicate Active(s: Store, id: SessionId, p: Project, now: int) {
    id in s.sessions && s.sessions[id].project == p && !s.sessions[id].finished && now <= s.sessions[id].expires
  }

  class CodeStore {
    var entries: map<Code, Entry>
    var byProject: map<Project, Code>
    var sessions: map<SessionId, Session>

    function View(): Store
      reads this
    {
      Store(entries, byProject, sessions)
    }

    constructor ()
      ensures View() == EMPTY
    {
      entries, byProject, sessions := map[], map[], map[];
    }

    /** `code` is the freshly drawn code. */
    method Generate(p: Project, code: Code, now: int) returns (r: Result<int>)
      modifies this
      ensures Refuses(old(View()), p, now) ==> r == Err(SyncRunning) && View() == old(View())
      ensures !Refuses(old(View()), p, now) ==>
                r == Ok(now + CODE_TTL) && View() == Generated(old(View()), p, code, now)
    {
      if p in byProject {
        var prior := byProject[p];
        if prior in entries && entries[prior].session.Some? {
          var id := entries[prior].session.value;
          if id in sessions && !sessions[id].finished && now < sessions[id].expires {
            return Err(SyncRunning);
          }
          sessions := sessions - {id};
        }
        entries := entries - {prior};
      }
      entries := entries[code := Entry(false, p, now + CODE_TTL, Some(code), 0, false, None)];
      byProject := byProject[p := code];
      return Ok(now + CODE_TTL);
    }

    /** `id` is the freshly drawn session id, used only if a session is opened. */
    method Lookup(code: Code, p: Project, id: SessionId, now: int) returns (r: Result<SessionId>)
      modifies this
      ensures (View(), r) == LookedUp(old(View()), code, p, id, now)
    {
      if code !in entries {
        entries := entries[code := Entry(true, Project(""), 0, None, 0, false, None)];
      }
      var e := entries[code];
      if e.unknown {
        r := FailAttempt(code, CodeInvalid);
        assert entries == Charged(old(View()), code, e).entries;
        return;
      }
      if now > e.expires {
        r := FailAttempt(code, CodeExpired);
        return;
      }
      if e.project != p {
        r := FailAttempt(code, CodeWrongProject);
        return;
      }
      if e.session.Some? {
        if e.session.value in sessions && !sessions[e.session.value].finished {
          return Ok(e.session.value);
        }
      }
      if e.used || e.plain.None? {
        return Err(CodeUsed);
      }
      sessions := sessions[id := Session(p, code, e.expires, false, None)];
      entries := entries[code := e.(session := Some(id))];
      return Ok(id);
    }

    method FailAttempt(code: Code, err: Error) returns (r: Result<SessionId>)
      requires code in entries
      modifies this
      ensures r == Err(err)
      ensures View() == Charged(old(View()), code, old(entries)[code])
    {
      entries := entries[code := entries[code].(attempts := entries[code].attempts + 1)];
      if entries[code].attempts >= MAX_ATTEMPTS {
        entries := entries - {code};
      }
      return Err(err);
    }

    method Fetch(id: SessionId, now: int) returns (r: Result<SessionId>)
      modifies this
      ensures (View(), r) == Fetched(old(View()), id, now)
    {
      if id !in sessions {
        return Err(SessionUnknown);
      }
      if now > sessions[id].expires {
        sessions := sessions[id := sessions[id].(finished := true)];
        return Err(SessionExpired);
      }
      return Ok(id);
    }

    method Finish(id: SessionId)
      modifies this
      ensures View() == Finished(old(View()), id)
    {
      if id !in sessions {
        return;
      }
      var sess := sessions[id];
      if sess.code in entries {
        entries := entries[sess.code := entries[sess.code].(plain := None)];
      }
      if sess.project in byProject && byProject[sess.project] == sess.code {
        byProject := byProject - {sess.project};
      }
      sessions := sessions - {id};
    }

    /** `code` is the code of the session whose plan was accepted. */
    method MarkUsed(code: Code)
      modifies this
      ensures View() == Used(old(View()), code)
    {
      if code in entries {
        entries := entries[code := entries[code].(used := true)];
      }
    }

    /** Sessions are visited in no particular order, so any active one with a phase may answer. */
    method ProjectStatus(p: Project, now: int) returns (r: string)
      ensures (exists id :: Active(View(), id, p, now) && sessions[id].phase == Some(r))
              || (r == "idle" && forall id :: Active(View(), id, p, now) ==> sessions[id].phase.None?)
    {
      var todo := sessions.Keys;
      while todo != {}
        invariant todo <= sessions.Keys
        invariant forall id :: id in sessions && id !in todo && Active(View(), id, p, now) ==> sessions[id].phase.None?
        decreases todo
      {
        var id :| id in todo;
        todo := todo - {id};
        if sessions[id].project != p || sessions[id].finished || now > sessions[id].expires {
          continue;
        }
        if sessions[id].phase.Some? {
          return sessions[id].phase.value;
        }
      }
      return "idle";
    }
  }

  // ---- Every run of the store

  /** The store with its history: `clock` is the latest reading; `generated` holds every code ever
      drawn, `openings` every session ever opened, in order, with its code; `accepted` the sessions
      whose plan was accepted; `charges` counts failed lookups per code since it was generated. */
  datatype World = World(
    s: Store,
    clock: int,
    generated: set<Code>,
    openings: seq<(Code, SessionId)>,
    ids: set<SessionId>,
    accepted: set<SessionId>,
    charges: map<Code, nat>)

  const START := World(EMPTY, 0, {}, [], {}, {}, map[])

  datatype Step =
    | GenerateStep(project: Project, code: Code, now: int)
    | LookupStep(project: Project, code: Code, id: SessionId, now: int)
    | FetchStep(id: SessionId, now: int)
    | FinishStep(id: SessionId)
    | AcceptStep(id: SessionId, code: Code, phase: string)  // Plan: sets the phase, then markUsed
    | CompleteStep(id: SessionId)                           // Send or Receive stores finished before Finish

  function ChargesOf(w: World, code: Code): nat { if code in w.charges then w.charges[code] else 0 }

  /** A step with a clock reading in the past, a reused code or a reused session id, or one on behalf of
      a session that never existed, leaves `w` unchanged. */
  function Apply(w: World, st: Step): World {
    match st
    case GenerateStep(p, code, now) =>
      if now < w.clock || code in w.generated || Refuses(w.s, p, now) then w else
      w.(s := Generated(w.s, p, code, now), clock := now, generated := w.generated + {code},
          charges := w.charges[code := 0])
    case LookupStep(p, code, id, now) =>
      if now < w.clock || id in w.ids then w else
      var w1 := w.(s := LookedUp(w.s, code, p, id, now).0, clock := now);
      match Judge(w.s, code, p, now) {
        case Fail(_) => w1.(charges := w.charges[code := ChargesOf(w, code) + 1])
        case Open => w1.(openings := w.openings + [(code, id)], ids := w.ids + {id})
        case _ => w1
      }
    case FetchStep(id, now) =>
      if now < w.clock then w else w.(s := Fetched(w.s, id, now).0, clock := now)
    case FinishStep(id) => w.(s := Finished(w.s, id))
    case AcceptStep(id, code, phase) =>
      if (code, id) !in w.openings then w else
      var s1 :=
        if id in w.s.sessions then w.s.(sessions := w.s.sessions[id := w.s.sessions[id].(phase := Some(phase))])
        else w.s;
      w.(s := Used(s1, code), accepted := w.accepted + {id})
    case CompleteStep(id) =>
      if id !in w.accepted || id !in w.s.sessions then w else
      w.(s := w.s.(sessions := w.s.sessions[id := w.s.sessions[id].(finished := true)]))
  }

  function Run(w: World, steps: seq<Step>): World
    decreases |steps|
  {
    if |steps| == 0 then w else Run(Apply(w, steps[0]), steps[1..])
  }

  // ---- The invariant, part by part

  type Entries = map<Code, Entry>
  type Sessions = map<SessionId, Session>
  type Openings = seq<(Code, SessionId)>

  predicate Known(entries: Entries, code: Code) { code in entries && !entries[code].unknown }

  /** The attempt budget, and what a generated code still held says about its project. */
  ghost predicate EntriesOk(entries: Entries, byProject: map<Project, Code>, generated: set<Code>,
                            charges: map<Code, nat>) {
    && (forall c :: c in entries ==> entries[c].attempts < MAX_ATTEMPTS)
    && (forall c :: c in entries && entries[c].unknown ==> entries[c].session.None?)
    && (forall c :: Known(entries, c) ==> c in generated && c in charges && charges[c] == entries[c].attempts)
    && (forall c :: Known(entries, c) && entries[c].plain.Some? ==>
          entries[c].plain.value == c && entries[c].project in byProject && byProject[entries[c].project] == c)
    && (forall p :: p in byProject ==> byProject[p] in generated)
    && (forall p :: p in byProject && Known(entries, byProject[p]) ==>
          entries[byProject[p]].project == p && entries[byProject[p]].plain.Some?)
  }

  /** Each session is the one its held code points at, and a held code that still has its plaintext
      points at a stored session, if at any. */
  ghost predicate SessionsOk(entries: Entries, sessions: Sessions, ids: set<SessionId>) {
    && sessions.Keys <= ids
    && (forall id :: id in sessions && Known(entries, sessions[id].code) ==>
          && entries[sessions[id].code].session == Some(id)
          && entries[sessions[id].code].plain.Some?
          && entries[sessions[id].code].project == sessions[id].project
          && entries[sessions[id].code].expires == sessions[id].expires)
    && (forall c :: Known(entries, c) && entries[c].session.Some? && entries[c].plain.Some? ==>
          entries[c].session.value in sessions && sessions[entries[c].session.value].code == c)
  }

  /** A finished session belongs to an expired code or to a used one. */
  ghost predicate FinishedOk(entries: Entries, sessions: Sessions, clock: int, accepted: set<SessionId>,
                             ids: set<SessionId>) {
    && accepted <= ids
    && (forall id :: id in sessions && Known(entries, sessions[id].code) ==>
          && (id in accepted ==> entries[sessions[id].code].used)
          && (sessions[id].finished ==> entries[sessions[id].code].used || clock > entries[sessions[id].code].expires))
  }

  /** At most one opening per code, and a held code that was opened points at that session. */
  ghost predicate OpeningsOk(entries: Entries, sessions: Sessions, generated: set<Code>, openings: Openings,
                             ids: set<SessionId>) {
    && (forall i :: 0 <= i < |openings| ==> openings[i].0 in generated && openings[i].1 in ids)
    && (forall i, j :: 0 <= i < j < |openings| ==> openings[i].0 != openings[j].0 && openings[i].1 != openings[j].1)
    && (forall i :: 0 <= i < |openings| && Known(entries, openings[i].0) ==>
       entries[openings[i].0].session == Some(openings[i].1))
    && (forall id :: id in sessions ==> (sessions[id].code, id) in openings)
    && (forall c :: Known(entries, c) && entries[c].session.Some? ==> (c, entries[c].session.value) in openings)
  }

  ghost predicate LinksOk(entries: Entries, sessions: Sessions, clock: int, generated: set<Code>,
                          openings: Openings, ids: set<SessionId>, accepted: set<SessionId>) {
    && SessionsOk(entries, sessions, ids)
    && FinishedOk(entries, sessions, clock, accepted, ids)
    && OpeningsOk(entries, sessions, generated, openings, ids)
  }

  ghost predicate Inv(w: World) {
    && EntriesOk(w.s.entries, w.s.byProject, w.generated, w.charges)
    && LinksOk(w.s.entries, w.s.sessions, w.clock, w.generated, w.openings, w.ids, w.accepted)
  }

  /** Spending an attempt or marking a code used leaves every link alone. */
  lemma TouchedKeepsLinks(w: World, code: Code, e: Entry)
    requires Inv(w)
    requires var d := Tally(w.s, code); e == d.(attempts := e.attempts, used := e.used) && (d.used ==> e.used)
    ensures LinksOk(w.s.entries[code := e], w.s.sessions, w.clock, w.generated, w.openings, w.ids, w.accepted)
  {
  }

  lemma DroppedKeepsLinks(w: World, dead: set<Code>)
    requires Inv(w)
    ensures LinksOk(w.s.entries - dead, w.s.sessions, w.clock, w.generated, w.openings, w.ids, w.accepted)
  {
  }

  lemma ChargedKeepsEntries(entries: Entries, byProject: map<Project, Code>, generated: set<Code>,
                            charges: map<Code, nat>, code: Code, e: Entry)
    requires EntriesOk(entries, byProject, generated, charges)
    requires code in entries ==> e == entries[code].(attempts := entries[code].attempts + 1)
    requires code !in entries ==> e.unknown && e.session.None?
    ensures var charged := charges[code := (if code in charges then charges[code] else 0) + 1];
            && EntriesOk(entries - {code}, byProject, generated, charged)
            && (e.attempts < MAX_ATTEMPTS ==> EntriesOk(entries[code := e], byProject, generated, charged))
  {
  }

  lemma ChargedKeeps(w: World, code: Code)
    requires Inv(w)
    ensures Inv(w.(s := Charged(w.s, code, Tally(w.s, code)), charges := w.charges[code := ChargesOf(w, code) + 1]))
  {
    hide EntriesOk, LinksOk;
    var e := Tally(w.s, code);
    e := e.(attempts := e.attempts + 1);
    ChargedKeepsEntries(w.s.entries, w.s.byProject, w.generated, w.charges, code, e);
    TouchedKeepsLinks(w, code, e);
    DroppedKeepsLinks(w, {code});
  }

  lemma ClockKeeps(w: World, now: int)
    requires Inv(w) && now >= w.clock
    ensures Inv(w.(clock := now))
  {
  }

  /** Nothing opened this code before: its held entry would point at a session that is either live,
      and then resumed, or finished, and then the code is used or expired. */
  lemma OpenIsFirst(w: World, p: Project, code: Code, now: int)
    requires Inv(w) && now >= w.clock && Judge(w.s, code, p, now).Open?
    ensures Known(w.s.entries, code) && w.s.entries[code].session.None? && !w.s.entries[code].used
    ensures forall i :: 0 <= i < |w.openings| ==> w.openings[i].0 != code
    ensures forall id :: id in w.s.sessions ==> w.s.sessions[id].code != code
  {
  }

  lemma OpenedKeepsEntries(w: World, code: Code, id: SessionId)
    requires Inv(w) && Known(w.s.entries, code)
    ensures EntriesOk(Opened(w.s, code, id).entries, w.s.byProject, w.generated, w.charges)
  {
  }

  lemma OpenedKeepsSessions(entries: Entries, sessions: Sessions, ids: set<SessionId>, code: Code, id: SessionId)
    requires SessionsOk(entries, sessions, ids) && id !in ids && Known(entries, code) && entries[code].plain.Some?
    requires forall k :: k in sessions ==> sessions[k].code != code
    ensures SessionsOk(entries[code := entries[code].(session := Some(id))],
                       sessions[id := Session(entries[code].project, code, entries[code].expires, false, None)],
                           ids + {id})
  {
  }

  lemma OpenedKeepsHistory(w: World, code: Code, id: SessionId)
    requires Inv(w) && id !in w.ids && Known(w.s.entries, code) && !w.s.entries[code].used
    requires forall i :: 0 <= i < |w.openings| ==> w.openings[i].0 != code
    requires forall k :: k in w.s.sessions ==> w.s.sessions[k].code != code
    ensures var s := Opened(w.s, code, id);
            && FinishedOk(s.entries, s.sessions, w.clock, w.accepted, w.ids + {id})
            && OpeningsOk(s.entries, s.sessions, w.generated, w.openings + [(code, id)], w.ids + {id})
  {
  }

  lemma OpenedKeeps(w: World, p: Project, code: Code, id: SessionId, now: int)
    requires Inv(w) && now >= w.clock && id !in w.ids && Judge(w.s, code, p, now).Open?
    ensures Inv(w.(s := Opened(w.s, code, id), openings := w.openings + [(code, id)], ids := w.ids + {id}))
  {
    hide EntriesOk, SessionsOk, FinishedOk, OpeningsOk;
    OpenIsFirst(w, p, code, now);
    OpenedKeepsEntries(w, code, id);
    OpenedKeepsSessions(w.s.entries, w.s.sessions, w.ids, code, id);
    OpenedKeepsHistory(w, code, id);
  }

  lemma LookupKeeps(w: World, p: Project, code: Code, id: SessionId, now: int)
    requires Inv(w)
    ensures Inv(Apply(w, LookupStep(p, code, id, now)))
  {
    hide EntriesOk, LinksOk;
    if now >= w.clock && id !in w.ids {
      ClockKeeps(w, now);
      var w1 := w.(clock := now);
      match Judge(w.s, code, p, now)
      case Fail(_) => ChargedKeeps(w1, code);
      case Open => OpenedKeeps(w1, p, code, id, now);
      case _ =>
    }
  }

  lemma ReplacedKeepsEntries(w: World, p: Project)
    requires Inv(w)
    ensures var s := Replaced(w.s, p); EntriesOk(s.entries, s.byProject - {p}, w.generated, w.charges)
  {
  }

  lemma DrawnKeepsEntries(entries: Entries, byProject: map<Project, Code>, generated: set<Code>,
                          charges: map<Code, nat>,
                          p: Project, code: Code, expires: int)
    requires EntriesOk(entries, byProject - {p}, generated, charges) && code !in generated
    ensures EntriesOk(entries[code := Entry(false, p, expires, Some(code), 0, false, None)], byProject[p := code],
                      generated + {code}, charges[code := 0])
  {
    assert forall q :: q in byProject && q != p ==> q in byProject - {p} && (byProject - {p})[q] == byProject[q];
  }

  lemma ReplacedKeepsLinks(w: World, p: Project)
    requires Inv(w)
    ensures var s := Replaced(w.s, p);
              LinksOk(s.entries, s.sessions, w.clock, w.generated, w.openings, w.ids, w.accepted)
  {
  }

  lemma DrawnKeepsLinks(entries: Entries, sessions: Sessions, w: World, code: Code, e: Entry)
    requires LinksOk(entries, sessions, w.clock, w.generated, w.openings, w.ids, w.accepted)
    requires code !in w.generated && e.session.None?
    ensures LinksOk(entries[code := e], sessions, w.clock, w.generated + {code}, w.openings, w.ids, w.accepted)
  {
  }

  lemma GenerateKeeps(w: World, p: Project, code: Code, now: int)
    requires Inv(w)
    ensures Inv(Apply(w, GenerateStep(p, code, now)))
  {
    hide EntriesOk, LinksOk;
    if now >= w.clock && code !in w.generated && !Refuses(w.s, p, now) {
      ClockKeeps(w, now);
      var w1 := w.(clock := now);
      var r := Replaced(w.s, p);
      ReplacedKeepsEntries(w1, p);
      DrawnKeepsEntries(r.entries, r.byProject, w.generated, w.charges, p, code, now + CODE_TTL);
      ReplacedKeepsLinks(w1, p);
      DrawnKeepsLinks(r.entries, r.sessions, w1, code, Generated(w.s, p, code, now).entries[code]);
    }
  }

  lemma ExpiredKeepsLinks(w: World, id: SessionId)
    requires Inv(w) && id in w.s.sessions && w.clock > w.s.sessions[id].expires
    ensures LinksOk(w.s.entries, w.s.sessions[id := w.s.sessions[id].(finished := true)], w.clock, w.generated,
              w.openings, w.ids, w.accepted)
  {
  }

  lemma FetchKeeps(w: World, id: SessionId, now: int)
    requires Inv(w)
    ensures Inv(Apply(w, FetchStep(id, now)))
  {
    hide EntriesOk, LinksOk;
    if now >= w.clock {
      ClockKeeps(w, now);
      if id in w.s.sessions && now > w.s.sessions[id].expires {
        ExpiredKeepsLinks(w.(clock := now), id);
      }
    }
  }

  lemma FinishKeepsEntries(w: World, id: SessionId)
    requires Inv(w)
    ensures var s := Finished(w.s, id); EntriesOk(s.entries, s.byProject, w.generated, w.charges)
  {
    if id in w.s.sessions {
      var sess := w.s.sessions[id];
      if sess.code in w.s.entries {
        assert Known(w.s.entries, sess.code) ==> w.s.entries[sess.code].project == sess.project;
        FinishedEntries(w.s.entries, w.s.byProject, w.generated, w.charges, sess.code, sess.project);
      } else {
        hide SessionsOk, FinishedOk, OpeningsOk;
      }
    }
  }

  /** Forgetting a code's plaintext, and its place as its project's code. */
  lemma FinishedEntries(entries: Entries, byProject: map<Project, Code>, generated: set<Code>, charges: map<Code, nat>,
                        code: Code, p: Project)
    requires EntriesOk(entries, byProject, generated, charges) && code in entries
    requires Known(entries, code) ==> entries[code].project == p
    ensures EntriesOk(entries[code := entries[code].(plain := None)],
                      if p in byProject && byProject[p] == code then byProject - {p} else byProject, generated, charges)
  {
  }

  lemma ForgottenKeepsLinks(w: World, id: SessionId)
    requires Inv(w) && id in w.s.sessions && w.s.sessions[id].code in w.s.entries
    ensures var code := w.s.sessions[id].code;
            LinksOk(w.s.entries[code := w.s.entries[code].(plain := None)], w.s.sessions - {id}, w.clock, w.generated,
                w.openings, w.ids, w.accepted)
  {
  }

  lemma DetachedKeepsLinks(w: World, id: SessionId)
    requires Inv(w) && id in w.s.sessions && w.s.sessions[id].code !in w.s.entries
    ensures LinksOk(w.s.entries, w.s.sessions - {id}, w.clock, w.generated, w.openings, w.ids, w.accepted)
  {
  }

  lemma FinishKeeps(w: World, id: SessionId)
    requires Inv(w)
    ensures Inv(Apply(w, FinishStep(id)))
  {
    hide EntriesOk, LinksOk;
    FinishKeepsEntries(w, id);
    if id in w.s.sessions {
      if w.s.sessions[id].code in w.s.entries {
        ForgottenKeepsLinks(w, id);
      } else {
        DetachedKeepsLinks(w, id);
      }
    }
  }

  lemma UsedKeepsEntries(w: World, code: Code)
    requires Inv(w)
    ensures EntriesOk(Used(w.s, code).entries, w.s.byProject, w.generated, w.charges)
  {
  }

  lemma UsedKeepsLinks(w: World, id: SessionId, code: Code)
    requires Inv(w) && (code, id) in w.openings
    ensures LinksOk(Used(w.s, code).entries, w.s.sessions, w.clock, w.generated, w.openings, w.ids, w.accepted + {id})
  {
    if code in w.s.entries {
      TouchedKeepsLinks(w, code, w.s.entries[code].(used := true));
    }
  }

  lemma PhaseKeepsLinks(w: World, entries: Entries, accepted: set<SessionId>, id: SessionId, phase: string)
    requires id in w.s.sessions
    requires LinksOk(entries, w.s.sessions, w.clock, w.generated, w.openings, w.ids, accepted)
    ensures LinksOk(entries, w.s.sessions[id := w.s.sessions[id].(phase := Some(phase))], w.clock, w.generated,
              w.openings, w.ids, accepted)
  {
  }

  lemma AcceptKeeps(w: World, id: SessionId, code: Code, phase: string)
    requires Inv(w)
    ensures Inv(Apply(w, AcceptStep(id, code, phase)))
  {
    hide EntriesOk, LinksOk;
    if (code, id) in w.openings {
      UsedKeepsEntries(w, code);
      UsedKeepsLinks(w, id, code);
      if id in w.s.sessions {
        PhaseKeepsLinks(w, Used(w.s, code).entries, w.accepted + {id}, id, phase);
      }
    }
  }

  lemma CompleteKeeps(w: World, id: SessionId)
    requires Inv(w)
    ensures Inv(Apply(w, CompleteStep(id)))
  {
  }

  lemma StepKeeps(w: World, st: Step)
    requires Inv(w)
    ensures Inv(Apply(w, st))
  {
    hide Inv, Apply;
    match st
    case GenerateStep(p, code, now) => GenerateKeeps(w, p, code, now);
    case LookupStep(p, code, id, now) => LookupKeeps(w, p, code, id, now);
    case FetchStep(id, now) => FetchKeeps(w, id, now);
    case FinishStep(id) => FinishKeeps(w, id);
    case AcceptStep(id, code, phase) => AcceptKeeps(w, id, code, phase);
    case CompleteStep(id) => CompleteKeeps(w, id);
  }

  lemma StartOk()
    ensures Inv(START)
  {
  }

  lemma {:induction false} RunKeeps(w: World, steps: seq<Step>)
    requires Inv(w)
    ensures Inv(Run(w, steps))
    decreases |steps|
  {
    hide Inv, Apply;
    if |steps| > 0 {
      StepKeeps(w, steps[0]);
      RunKeeps(Apply(w, steps[0]), steps[1..]);
    }
  }

  // ---- What holds over every run

  /** Over its whole life a code opens at most one session, and no two openings share a session. */
  lemma {:induction false} OneSessionPerCode(steps: seq<Step>, i: nat, j: nat)
    requires i < |Run(START, steps).openings| && j < |Run(START, steps).openings|
    ensures var o := Run(START, steps).openings; o[i].0 == o[j].0 || o[i].1 == o[j].1 ==> i == j
  {
    hide Run, EntriesOk, SessionsOk, FinishedOk;
    ReachableKeeps(steps);
  }

  lemma ReachableKeeps(steps: seq<Step>)
    ensures Inv(Run(START, steps))
  {
    hide Run, Inv;
    StartOk();
    RunKeeps(START, steps);
  }

  /** Every entry held has spent 0 to 9 attempts; a generated code charged ten failed lookups is no longer
      held, and never opens a session again. */
  lemma {:induction false} TenFailuresKill(before: seq<Step>, after: seq<Step>, code: Code)
    ensures var w := Run(START, before);
            && (code in w.s.entries ==> w.s.entries[code].attempts < 10)
            && (code in w.generated && ChargesOf(w, code) >= 10 ==>
                  && !Known(w.s.entries, code)
                  && !Known(Run(w, after).s.entries, code)
                  && OpeningsOf(Run(w, after).openings, code) == OpeningsOf(w.openings, code))
  {
    RunKeeps(START, before);
    var w := Run(START, before);
    if code in w.generated && ChargesOf(w, code) >= MAX_ATTEMPTS {
      DeadStays(w, after, code);
    }
  }

  function OpeningsOf(openings: Openings, code: Code): nat {
    if |openings| == 0 then 0
    else OpeningsOf(openings[..|openings| - 1], code) + (if openings[|openings| - 1].0 == code then 1 else 0)
  }

  lemma DeadStaysStep(w: World, st: Step, code: Code)
    requires Inv(w) && code in w.generated && !Known(w.s.entries, code)
    ensures var v := Apply(w, st);
            code in v.generated && !Known(v.s.entries, code)
                && OpeningsOf(v.openings, code) == OpeningsOf(w.openings, code)
  {
    hide Inv;
    if st.LookupStep? {
      assert (w.openings + [(st.code, st.id)])[..|w.openings|] == w.openings;
    }
  }

  lemma {:induction false} DeadStays(w: World, steps: seq<Step>, code: Code)
    requires Inv(w) && code in w.generated && !Known(w.s.entries, code)
    ensures !Known(Run(w, steps).s.entries, code)
              && OpeningsOf(Run(w, steps).openings, code) == OpeningsOf(w.openings, code)
    decreases |steps|
  {
    if |steps| > 0 {
      DeadStaysStep(w, steps[0], code);
      StepKeeps(w, steps[0]);
      DeadStays(Apply(w, steps[0]), steps[1..], code);
    }
  }

  /** The session's code is still held: failed lookups have not killed it. */
  predicate Backed(s: Store, id: SessionId) { id in s.sessions && Known(s.entries, s.sessions[id].code) }

  /** A held code with its plaintext is the live code of its project. */
  lemma {:induction false} LiveCodeIsTheProjects(steps: seq<Step>, c: Code)
    ensures var s := Run(START, steps).s;
            Known(s.entries, c) && s.entries[c].plain.Some? ==>
              s.entries[c].project in s.byProject && s.byProject[s.entries[c].project] == c
  {
    hide Run, LinksOk;
    ReachableKeeps(steps);
  }

  lemma BackedHasLiveCode(w: World, id: SessionId)
    requires Inv(w) && Backed(w.s, id)
    ensures var sess := w.s.sessions[id];
            && sess.project in w.s.byProject && w.s.byProject[sess.project] == sess.code
            && w.s.entries[sess.code].session == Some(id)
  {
  }

  /** A stored session whose code is still held is the session of its project's live code, so a project
      has at most one of them. */
  lemma {:induction false} OneBackedSessionPerProject(steps: seq<Step>, id: SessionId, k: SessionId)
    ensures var s := Run(START, steps).s;
            && (Backed(s, id) ==>
                s.sessions[id].project in s.byProject && s.byProject[s.sessions[id].project] == s.sessions[id].code)
            && (Backed(s, id) && Backed(s, k) && s.sessions[id].project == s.sessions[k].project ==> id == k)
  {
    hide Inv, Apply;
    StartOk();
    RunKeeps(START, steps);
    var w := Run(START, steps);
    if Backed(w.s, id) { BackedHasLiveCode(w, id); }
    if Backed(w.s, k) { BackedHasLiveCode(w, k); }
  }

  predicate Blocks(s: Store, id: SessionId, p: Project, now: int) {
    Backed(s, id) && s.sessions[id].project == p && !s.sessions[id].finished && now < s.sessions[id].expires
  }

  lemma RefusalHasSession(w: World, p: Project, now: int)
    requires Inv(w) && Refuses(w.s, p, now)
    ensures Blocks(w.s, w.s.entries[w.s.byProject[p]].session.value, p, now)
  {
  }

  /** Generate refuses exactly when the project has a running session whose code is still held. */
  lemma {:induction false} GenerateRefusesIff(steps: seq<Step>, p: Project, now: int)
    ensures Refuses(Run(START, steps).s, p, now) <==> exists id :: Blocks(Run(START, steps).s, id, p, now)
  {
    hide Inv, Apply;
    StartOk();
    RunKeeps(START, steps);
    var w := Run(START, steps);
    if Refuses(w.s, p, now) {
      RefusalHasSession(w, p, now);
    }
    if id :| Blocks(w.s, id, p, now) {
      BackedHasLiveCode(w, id);
    }
  }

  // ---- Which running sessions are protected

  predicate RunningAt(s: Store, id: SessionId, now: int) {
    id in s.sessions && !s.sessions[id].finished && now < s.sessions[id].expires
  }

  /** A running session whose code is no longer held lost it to failed lookups. */
  ghost predicate LostToGuesses(w: World) {
    forall id :: RunningAt(w.s, id, w.clock) && !Known(w.s.entries, w.s.sessions[id].code) ==>
      ChargesOf(w, w.s.sessions[id].code) >= MAX_ATTEMPTS
  }

  lemma LookupLosesToGuesses(w: World, p: Project, code: Code, id: SessionId, now: int)
    requires Inv(w) && LostToGuesses(w)
    ensures LostToGuesses(Apply(w, LookupStep(p, code, id, now)))
  {
    hide SessionsOk, FinishedOk, OpeningsOk;
    if now >= w.clock && id !in w.ids {
      var v := Apply(w, LookupStep(p, code, id, now));
      forall k | RunningAt(v.s, k, v.clock) && !Known(v.s.entries, v.s.sessions[k].code)
        ensures ChargesOf(v, v.s.sessions[k].code) >= MAX_ATTEMPTS
      {
        assert k in w.s.sessions ==> RunningAt(w.s, k, w.clock);
      }
    }
  }

  lemma GenerateLosesToGuesses(w: World, p: Project, code: Code, now: int)
    requires Inv(w) && LostToGuesses(w)
    ensures LostToGuesses(Apply(w, GenerateStep(p, code, now)))
  {
    if now >= w.clock && code !in w.generated && !Refuses(w.s, p, now) {
      var v := Apply(w, GenerateStep(p, code, now));
      forall k | RunningAt(v.s, k, v.clock) && !Known(v.s.entries, v.s.sessions[k].code)
        ensures ChargesOf(v, v.s.sessions[k].code) >= MAX_ATTEMPTS
      {
        assert RunningAt(w.s, k, w.clock);
      }
    }
  }

  lemma StepLosesToGuesses(w: World, st: Step)
    requires Inv(w) && LostToGuesses(w)
    ensures LostToGuesses(Apply(w, st))
  {
    hide Inv, Apply, LostToGuesses;
    match st
    case GenerateStep(p, code, now) => GenerateLosesToGuesses(w, p, code, now);
    case LookupStep(p, code, id, now) => LookupLosesToGuesses(w, p, code, id, now);
    case FetchStep(_, _) => QuietStepLoses(w, st);
    case FinishStep(_) => QuietStepLoses(w, st);
    case AcceptStep(_, _, _) => QuietStepLoses(w, st);
    case CompleteStep(_) => QuietStepLoses(w, st);
  }

  lemma QuietStepLoses(w: World, st: Step)
    requires LostToGuesses(w) && !st.GenerateStep? && !st.LookupStep?
    ensures LostToGuesses(Apply(w, st))
  {
    var v := Apply(w, st);
    forall k | RunningAt(v.s, k, v.clock) && !Known(v.s.entries, v.s.sessions[k].code)
      ensures ChargesOf(v, v.s.sessions[k].code) >= MAX_ATTEMPTS
    {
      assert RunningAt(w.s, k, w.clock);
    }
  }

  lemma {:induction false} RunLosesToGuesses(w: World, steps: seq<Step>)
    requires Inv(w) && LostToGuesses(w)
    ensures LostToGuesses(Run(w, steps))
    decreases |steps|
  {
    hide Inv, Apply, LostToGuesses;
    if |steps| > 0 {
      StepKeeps(w, steps[0]);
      StepLosesToGuesses(w, steps[0]);
      RunLosesToGuesses(Apply(w, steps[0]), steps[1..]);
    }
  }

  /** A running session's code is still held exactly while it has been charged fewer than ten failed lookups since it
      was drawn. */
  lemma HeldIffFewCharges(steps: seq<Step>, id: SessionId, now: int)
    requires now >= Run(START, steps).clock && RunningAt(Run(START, steps).s, id, now)
    ensures var w := Run(START, steps);
            Backed(w.s, id) <==> ChargesOf(w, w.s.sessions[id].code) < 10
  {
    hide Run, LinksOk;
    StartOk();
    ReachableKeeps(steps);
    RunLosesToGuesses(START, steps);
  }

  /** So Generate refuses exactly when the project has a running session whose code has been charged fewer than ten
      failed lookups. */
  lemma GenerateRefusesIffFewCharges(steps: seq<Step>, p: Project, now: int)
    requires now >= Run(START, steps).clock
    ensures var w := Run(START, steps);
            Refuses(w.s, p, now) <==>
              exists id :: RunningAt(w.s, id, now) && w.s.sessions[id].project == p
                           && ChargesOf(w, w.s.sessions[id].code) < 10
  {
    hide Run, Refuses, ChargesOf;
    var w := Run(START, steps);
    GenerateRefusesIff(steps, p, now);
    if Refuses(w.s, p, now) {
      var id :| Blocks(w.s, id, p, now);
      HeldIffFewCharges(steps, id, now);
    }
    if id :| RunningAt(w.s, id, now) && w.s.sessions[id].project == p
             && ChargesOf(w, w.s.sessions[id].code) < MAX_ATTEMPTS {
      HeldIffFewCharges(steps, id, now);
      assert Blocks(w.s, id, p, now);
    }
  }

  /** What a code was drawn for never changes while it is held. */
  predicate DrawnFor(s: Store, code: Code, p: Project, expires: int) {
    Known(s.entries, code) ==> s.entries[code].project == p && s.entries[code].expires == expires
  }

  lemma DrawnForStep(w: World, st: Step, code: Code, p: Project, expires: int)
    requires code in w.generated && DrawnFor(w.s, code, p, expires)
    ensures code in Apply(w, st).generated && DrawnFor(Apply(w, st).s, code, p, expires)
  {
  }

  lemma {:induction false} DrawnForRun(w: World, steps: seq<Step>, code: Code, p: Project, expires: int)
    requires code in w.generated && DrawnFor(w.s, code, p, expires)
    ensures DrawnFor(Run(w, steps).s, code, p, expires)
    decreases |steps|
  {
    hide Apply, DrawnFor;
    if |steps| > 0 {
      DrawnForStep(w, steps[0], code, p, expires);
      DrawnForRun(Apply(w, steps[0]), steps[1..], code, p, expires);
    }
  }

  /** Whatever happens after a code was drawn, it neither opens nor resumes a session for another project, nor
      for anyone later than ten minutes after. */
  lemma CodeBoundToProjectAndTime(w: World, p: Project, code: Code, now: int, after: seq<Step>, q: Project, later: int)
    requires now >= w.clock && code !in w.generated && !Refuses(w.s, p, now)
    ensures var v := Run(Apply(w, GenerateStep(p, code, now)), after);
            q != p || later > now + 600 ==> Judge(v.s, code, q, later).Fail?
  {
    var u := Apply(w, GenerateStep(p, code, now));
    assert DrawnFor(u.s, code, p, now + CODE_TTL) && code in u.generated;
    DrawnForRun(u, after, code, p, now + CODE_TTL);
  }

  function Guesses(n: nat, q: Project, code: Code, id: SessionId): seq<Step> {
    if n == 0 then [] else [LookupStep(q, code, id, 0)] + Guesses(n - 1, q, code, id)
  }

  lemma {:induction false} GuessesKill(w: World, n: nat, q: Project, code: Code, id: SessionId)
    requires Known(w.s.entries, code) && w.clock == 0 && id !in w.ids && w.s.entries[code].expires >= 0
    requires w.s.entries[code].project != q && 0 < n && w.s.entries[code].attempts + n == 10
    ensures var v := Run(w, Guesses(n, q, code, id));
            v.s == w.s.(entries := w.s.entries - {code}) && v.clock == 0 && v.ids == w.ids && v.generated == w.generated
    decreases n
  {
    var g := Guesses(n, q, code, id);
    var v := Apply(w, g[0]);
    assert g[1..] == Guesses(n - 1, q, code, id);
    if n > 1 {
      GuessesKill(v, n - 1, q, code, id);
      assert v.s.entries - {code} == w.s.entries - {code};
    } else {
      assert Run(v, g[1..]) == v;
    }
  }

  /** Ten lookups of a running sync's code under another project's name free the project: Generate then
      succeeds although a sync is running, and a second session opens beside the first. */
  lemma {:induction false} RunningSyncDisplaced(p: Project, q: Project, a: Code, b: Code, i: SessionId, k: SessionId)
    requires p != q && a != b && i != k
    ensures var w1 := Apply(Apply(START, GenerateStep(p, a, 0)), LookupStep(p, a, i, 0));
            var w2 := Run(w1, Guesses(10, q, a, k));
            var w3 := Apply(Apply(w2, GenerateStep(p, b, 0)), LookupStep(p, b, k, 0));
            && Refuses(w1.s, p, 0) && !Refuses(w2.s, p, 0)
            && Active(w3.s, i, p, 0) && Active(w3.s, k, p, 0)
  {
    var w1 := Apply(Apply(START, GenerateStep(p, a, 0)), LookupStep(p, a, i, 0));
    GuessesKill(w1, MAX_ATTEMPTS, q, a, k);
  }

  // ---- What the callers are told

  /** What Lookup replies; `id` is used only if it opens a session. */
  function Answer(w: World, p: Project, code: Code, id: SessionId, now: int): Result<SessionId> {
    LookedUp(w.s, code, p, id, now).1
  }

  /** A stored session of the code that has not ended. */
  predicate Going(s: Store, code: Code, k: SessionId) {
    k in s.sessions && s.sessions[k].code == code && !s.sessions[k].finished
  }

  /** The code is held, its time is not over, and it is the project's. */
  predicate InTime(s: Store, code: Code, p: Project, now: int) {
    Known(s.entries, code) && now <= s.entries[code].expires && s.entries[code].project == p
  }

  /** Over every run, the reply of a lookup: which error, the one unfinished session of the code, or the fresh one. */
  lemma LookupReply(steps: seq<Step>, p: Project, code: Code, id: SessionId, now: int)
    requires now >= Run(START, steps).clock && id !in Run(START, steps).ids
    ensures Replies(Run(START, steps), p, code, id, now)
  {
    hide Run, Inv, Replies;
    ReachableKeeps(steps);
    LookupReplies(Run(START, steps), p, code, id, now);
  }

  ghost predicate Replies(w: World, p: Project, code: Code, id: SessionId, now: int) {
    var held, r := Known(w.s.entries, code), Answer(w, p, code, id, now);
    && (r == Err(CodeInvalid) <==> !held)
    && (r == Err(CodeExpired) <==> held && now > w.s.entries[code].expires)
    && (r == Err(CodeWrongProject) <==> held && now <= w.s.entries[code].expires && w.s.entries[code].project != p)
    && (forall k: SessionId :: k != id ==> (r == Ok(k) <==> InTime(w.s, code, p, now) && Going(w.s, code, k)))
    && (r == Ok(id) <==>
        InTime(w.s, code, p, now) && (forall k: SessionId :: !Going(w.s, code, k))
        && w.s.entries[code].plain.Some? && !w.s.entries[code].used)
    && (r == Err(CodeUsed) <==>
        InTime(w.s, code, p, now) && (forall k: SessionId :: !Going(w.s, code, k))
        && (w.s.entries[code].plain.None? || w.s.entries[code].used))
  }

  lemma LookupReplies(w: World, p: Project, code: Code, id: SessionId, now: int)
    requires Inv(w) && now >= w.clock && id !in w.ids
    ensures Replies(w, p, code, id, now)
  {
    hide EntriesOk, FinishedOk, OpeningsOk;
    if Known(w.s.entries, code) && w.s.entries[code].session.Some? {
      PointsAtOwn(w, code);
      var k := w.s.entries[code].session.value;
      assert Going(w.s, code, k) <==> k in w.s.sessions && !w.s.sessions[k].finished;
    }
    if InTime(w.s, code, p, now) {
      if k: SessionId :| Going(w.s, code, k) {
        assert w.s.entries[code].session == Some(k);
      }
    }
  }

  /** The session that a held code points at is stored only as a session of that code. */
  lemma PointsAtOwn(w: World, code: Code)
    requires Inv(w) && Known(w.s.entries, code) && w.s.entries[code].session.Some?
    ensures var k := w.s.entries[code].session.value; k in w.ids && (k in w.s.sessions ==> w.s.sessions[k].code == code)
  {
    var k := w.s.entries[code].session.value;
    if k in w.s.sessions {
      var i :| 0 <= i < |w.openings| && w.openings[i] == (code, k);
      var j :| 0 <= j < |w.openings| && w.openings[j] == (w.s.sessions[k].code, k);
    }
  }

  /** A session that a lookup names is stored afterwards, unfinished, for that code and project, and ends with the
      code. */
  lemma AnsweredIsStored(steps: seq<Step>, p: Project, code: Code, id: SessionId, now: int, k: SessionId)
    requires now >= Run(START, steps).clock && id !in Run(START, steps).ids
    requires Answer(Run(START, steps), p, code, id, now) == Ok(k)
    ensures var w := Run(START, steps);
            var v := Apply(w, LookupStep(p, code, id, now));
            && Going(v.s, code, k) && v.s.sessions[k].project == p
            && Known(w.s.entries, code) && v.s.sessions[k].expires == w.s.entries[code].expires >= now
            && v.s.sessions - {k} == w.s.sessions - {k}
  {
    hide Run, EntriesOk, FinishedOk, OpeningsOk;
    ReachableKeeps(steps);
    LookupReplies(Run(START, steps), p, code, id, now);
  }

  function FetchAnswer(w: World, id: SessionId, now: int): Result<SessionId> { Fetched(w.s, id, now).1 }

  /** A fetch knows exactly the stored sessions, and past its time a session is finished. */
  lemma FetchReply(w: World, id: SessionId, now: int)
    ensures FetchAnswer(w, id, now) == Err(SessionUnknown) <==> id !in w.s.sessions
    ensures FetchAnswer(w, id, now) == Ok(id) <==> id in w.s.sessions && now <= w.s.sessions[id].expires
    ensures now >= w.clock && FetchAnswer(w, id, now) == Err(SessionExpired) ==>
              var v := Apply(w, FetchStep(id, now)).s;
              && id in v.sessions && v.sessions[id].finished
              && v.sessions - {id} == w.s.sessions - {id} && v.entries == w.s.entries
    ensures FetchAnswer(w, id, now) != Err(SessionExpired) ==> Apply(w, FetchStep(id, now)).s == w.s
  {
  }

  /** The sessions whose phase ProjectStatus may show are the project's own unfinished ones that a fetch finds. */
  lemma ActiveIsFetched(w: World, id: SessionId, p: Project, now: int)
    ensures Active(w.s, id, p, now) <==>
              FetchAnswer(w, id, now) == Ok(id) && w.s.sessions[id].project == p && !w.s.sessions[id].finished
  {
    FetchReply(w, id, now);
  }

  /** From any reachable store: a code just drawn opens one session, which every lookup of the next ten minutes
      names and every fetch of them finds. */
  lemma OneIdThroughout(steps: seq<Step>, p: Project, code: Code, id: SessionId, other: SessionId,
                        t0: int, t1: int, t2: int, t3: int)
    requires Run(START, steps).clock <= t0 <= t1 <= t2 <= t0 + 600 && t2 <= t3
    requires code !in Run(START, steps).generated && !Refuses(Run(START, steps).s, p, t0)
    requires id !in Run(START, steps).ids && other !in Run(START, steps).ids && id != other
    ensures var u := Apply(Run(START, steps), GenerateStep(p, code, t0));
            var v := Apply(u, LookupStep(p, code, id, t1));
            var x := Apply(v, LookupStep(p, code, other, t2));
            && Answer(u, p, code, id, t1) == Ok(id)
            && Answer(v, p, code, other, t2) == Ok(id)
            && FetchAnswer(x, id, t3) == if t3 <= t0 + 600 then Ok(id) else Err(SessionExpired)
  {
    hide Run;
  }

  /** Finishing a session forgets it and frees its project, and its code opens and resumes nothing more. */
  lemma FinishFrees(steps: seq<Step>, id: SessionId, q: Project, other: SessionId, now: int)
    requires id in Run(START, steps).s.sessions
    requires now >= Run(START, steps).clock && other !in Run(START, steps).ids
    ensures var w := Run(START, steps);
            var code, p, v := w.s.sessions[id].code, w.s.sessions[id].project, Apply(w, FinishStep(id));
            && v.s.sessions == w.s.sessions - {id} && FetchAnswer(v, id, now) == Err(SessionUnknown)
            && (Backed(w.s, id) ==> !Refuses(v.s, p, now))
            && (InTime(v.s, code, q, now) ==> Answer(v, q, code, other, now) == Err(CodeUsed))
            && Answer(v, q, code, other, now).Err?
  {
    hide Run, EntriesOk, SessionsOk, FinishedOk, OpeningsOk;
    ReachableKeeps(steps);
    var w := Run(START, steps);
    var v := Apply(w, FinishStep(id));
    StepKeeps(w, FinishStep(id));
    LookupReplies(v, q, w.s.sessions[id].code, other, now);
    if Backed(w.s, id) {
      BackedHasLiveCode(w, id);
    }
    NoneGoes(w, id);
  }

  /** A code has at most one stored session while it is held. */
  lemma NoneGoes(w: World, id: SessionId)
    requires Inv(w) && id in w.s.sessions
    ensures var code := w.s.sessions[id].code; Known(w.s.entries, code) ==>
              forall k: SessionId :: !Going(Finished(w.s, id), code, k)
  {
  }

  /** A new code for a project makes the prior one unknown and drops its session; no other code or session changes. */
  lemma PriorIsInvalid(steps: seq<Step>, p: Project, code: Code, now: int, q: Project, other: SessionId, later: int)
    requires Run(START, steps).clock <= now <= later && code !in Run(START, steps).generated
    requires p in Run(START, steps).s.byProject && !Refuses(Run(START, steps).s, p, now)
    requires other !in Run(START, steps).ids
    ensures var w := Run(START, steps);
            var prior, v := w.s.byProject[p], Apply(w, GenerateStep(p, code, now));
            && Answer(v, q, prior, other, later) == Err(CodeInvalid)
            && (forall c :: c != code && c != prior ==> Tally(v.s, c) == Tally(w.s, c))
            && (forall k: SessionId :: k in v.s.sessions <==>
                  k in w.s.sessions && !(Backed(w.s, k) && w.s.sessions[k].code == prior))
            && (forall k: SessionId :: k in v.s.sessions ==> v.s.sessions[k] == w.s.sessions[k])
  {
    hide Run;
    ReachableKeeps(steps);
    DropsOnlyPrior(Run(START, steps), p);
  }

  lemma DropsOnlyPrior(w: World, p: Project)
    requires Inv(w) && p in w.s.byProject
    ensures var prior := w.s.byProject[p];
            && prior in w.generated
            && (forall k: SessionId :: k in w.s.sessions ==>
                  (prior in w.s.entries && w.s.entries[prior].session == Some(k)
                   <==> Backed(w.s, k) && w.s.sessions[k].code == prior))
  {
    var prior := w.s.byProject[p];
    forall k: SessionId | k in w.s.sessions && prior in w.s.entries && w.s.entries[prior].session == Some(k)
      ensures Backed(w.s, k) && w.s.sessions[k].code == prior
    {
      PointsAtOwn(w, prior);
    }
  }

  /** Once a plan was accepted its code is spent: while its session goes on lookups name it, and after that none is
      opened. */
  lemma AcceptedIsSpent(steps: seq<Step>, id: SessionId, code: Code, phase: string, p: Project, other: SessionId,
                        now: int)
    requires (code, id) in Run(START, steps).openings
    requires now >= Run(START, steps).clock && other !in Run(START, steps).ids
    ensures var w := Run(START, steps);
            var v := Apply(w, AcceptStep(id, code, phase));
            && (id in w.s.sessions ==>
                  id in v.s.sessions && v.s.sessions[id] == w.s.sessions[id].(phase := Some(phase)))
            && v.s.sessions - {id} == w.s.sessions - {id}
            && (InTime(v.s, code, p, now) ==>
                  Answer(v, p, code, other, now) == if Going(v.s, code, id) then Ok(id) else Err(CodeUsed))
            && Answer(v, p, code, other, now) != Ok(other)
  {
    hide Run, EntriesOk, SessionsOk, FinishedOk, OpeningsOk;
    ReachableKeeps(steps);
    var w := Run(START, steps);
    var v := Apply(w, AcceptStep(id, code, phase));
    StepKeeps(w, AcceptStep(id, code, phase));
    LookupReplies(v, p, code, other, now);
    GoesAlone(v, id, code);
  }

  lemma GoesAlone(w: World, id: SessionId, code: Code)
    requires Inv(w) && (code, id) in w.openings
    ensures Known(w.s.entries, code) ==> forall k: SessionId :: Going(w.s, code, k) ==> k == id
    ensures id in w.ids
  {
    var i :| 0 <= i < |w.openings| && w.openings[i] == (code, id);
  }
}
