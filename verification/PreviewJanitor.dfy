/** The sweep for orphaned preview containers (server/internal/preview/janitor.go), interleaved with all else. */
module PreviewJanitor {
  import opened PreviewManager
  import opened PreviewProtocol
  import opened Projects
  import opened Wrappers

  const MAIN_PREFIX := "pcoder-"
  const PREVIEW_MARK := "preview-"
  const SIDECAR_PREFIX := MAIN_PREFIX + PREVIEW_MARK
  const RELAY_MARK := "relay-"

  // ---- Names

  /** unicode.ToLower, as far as it reaches ASCII: two non-ASCII capitals lower to a Latin letter. */
  function Lower(c: char): char {
    if 'A' <= c <= 'Z' then c - 'A' + 'a' else if c == '\U{0130}' then 'i' else if c == '\U{212A}' then 'k' else c
  }

  function SlugChar(c: char): char {
    if 'a' <= c <= 'z' || '0' <= c <= '9' || c == '_' || c == '.' || c == '-' then c else '-'
  }

  function TrimLeft(s: string): string {
    if s != "" && (s[0] == '-' || s[0] == '.') then TrimLeft(s[1..]) else s
  }

  function TrimRight(s: string): string {
    if s != "" && (s[|s| - 1] == '-' || s[|s| - 1] == '.') then TrimRight(s[..|s| - 1]) else s
  }

  function SanitizeName(id: string): string {
    var out := TrimRight(TrimLeft(seq(|id|, i requires 0 <= i < |id| => SlugChar(Lower(id[i])))));
    if out == "" then "project" else out
  }

  predicate Plain(c: char) { 'a' <= c <= 'z' || '0' <= c <= '9' || c == '_' || c == '.' || c == '-' }

  /** What becomes of one character: a small letter, a digit or one of three marks stays, a capital becomes small, and
      anything else a hyphen. */
  predicate Becomes(c: char, d: char) {
    if Plain(c) then d == c
    else if 'A' <= c <= 'Z' then 'a' <= d <= 'z' && d as int - c as int == 32
    else if c == '\U{0130}' then d == 'i' else if c == '\U{212A}' then d == 'k' else d == '-'
  }

  predicate Outer(c: char) { c == '-' || c == '.' }

  /** A slug is the middle of the identifier, from the first to the last character that becomes something other than a
      hyphen or a dot, or "project" if there is none. */
  lemma SanitizedIs(id: string) returns (i: nat, j: nat)
    ensures i <= j <= |id|
    ensures forall k :: (0 <= k < i || j <= k < |id|) ==> Becomes(id[k], '-') || Becomes(id[k], '.')
    ensures i == j ==> SanitizeName(id) == "project"
    ensures i < j ==>
              var out := SanitizeName(id);
              && |out| == j - i && (forall k :: 0 <= k < |out| ==> Becomes(id[i + k], out[k]))
              && !Outer(out[0]) && !Outer(out[|out| - 1])
  {
    var s := seq(|id|, i requires 0 <= i < |id| => SlugChar(Lower(id[i])));
    hide Becomes, SlugChar, Lower, TrimLeft, TrimRight;
    forall k | 0 <= k < |id| ensures Becomes(id[k], s[k]) { BecomesSlug(id[k]); }
    i := LeftTrimmed(s);
    var n := RightTrimmed(s[i..]);
    j := i + n;
    assert TrimRight(TrimLeft(s)) == s[i..j];
    if i == j {
      assert s[i..j] == "";
    }
  }

  lemma BecomesSlug(c: char)
    ensures Becomes(c, SlugChar(Lower(c)))
  {
  }

  lemma {:induction false} LeftTrimmed(s: string) returns (i: nat)
    ensures i <= |s| && TrimLeft(s) == s[i..]
    ensures (forall k :: 0 <= k < i ==> Outer(s[k])) && (i < |s| ==> !Outer(s[i]))
    decreases |s|
  {
    i := 0;
    if s != "" && Outer(s[0]) {
      i := LeftTrimmed(s[1..]);
      i := i + 1;
    }
  }

  lemma {:induction false} RightTrimmed(s: string) returns (n: nat)
    ensures n <= |s| && TrimRight(s) == s[..n]
    ensures (forall k :: n <= k < |s| ==> Outer(s[k])) && (n > 0 ==> !Outer(s[n - 1]))
    decreases |s|
  {
    n := |s|;
    if s != "" && Outer(s[|s| - 1]) {
      n := RightTrimmed(s[..|s| - 1]);
      assert s[..|s| - 1][..n] == s[..n];
    }
  }

  function TrimPrefix(s: string, prefix: string): string {
    if prefix <= s then s[|prefix|..] else s
  }

  function ContainerName(slug: string, relay: bool): string {
    if relay then SIDECAR_PREFIX + RELAY_MARK + slug else SIDECAR_PREFIX + slug
  }

  function PreviewSlug(name: string): string { TrimPrefix(TrimPrefix(name, SIDECAR_PREFIX), RELAY_MARK) }

  /** A name resolves to the slug it was built from, except a sidecar's whose slug itself begins with
      the relay mark: that one is read as the relay of another project. */
  lemma SlugRoundTrip(slug: string, relay: bool)
    ensures PreviewSlug(ContainerName(slug, relay)) == slug <==> relay || !(RELAY_MARK <= slug)
  {
    var name := ContainerName(slug, relay);
    var rest := if relay then RELAY_MARK + slug else slug;
    assert name == SIDECAR_PREFIX + rest;
    assert name[|SIDECAR_PREFIX|..] == rest;
    if relay {
      assert rest[|RELAY_MARK|..] == slug;
    }
  }

  // ---- The sweep itself

  datatype Container = Container(id: nat, name: string)

  function SlugsOf(m: State): set<string> {
    (set p | p in m.workers :: SanitizeName(p.id)) + (set p | p in m.inflight :: SanitizeName(p.id))
  }

  /** The live set, read under the manager's lock. */
  method LiveSlugs(m: Manager) returns (slugs: set<string>)
    ensures slugs == SlugsOf(m.View())
  {
    slugs := {};
    var todo := m.workers.Keys;
    while todo != {}
      invariant todo <= m.workers.Keys
      invariant slugs == set p | p in m.workers && p !in todo :: SanitizeName(p.id)
      decreases todo
    {
      var p :| p in todo;
      slugs, todo := slugs + {SanitizeName(p.id)}, todo - {p};
    }
    ghost var held := slugs;
    todo := m.inflight.Keys;
    while todo != {}
      invariant todo <= m.inflight.Keys
      invariant slugs == held + set p | p in m.inflight && p !in todo :: SanitizeName(p.id)
      decreases todo
    {
      var p :| p in todo;
      slugs, todo := slugs + {SanitizeName(p.id)}, todo - {p};
    }
  }

  predicate Orphaned(c: Container, live: set<string>) { PreviewSlug(c.name) !in live }

  /** Every listed container whose slug is not live is stopped and removed, in listing order; Docker
      errors (`stops`, `removes`) are remembered but never spare a container. If listing itself fails, nothing is. */
  method SweepContainers(listing: Option<seq<Container>>, live: set<string>, stops: seq<bool>, removes: seq<bool>)
    returns (removed: seq<Container>, failed: bool)
    requires listing.Some? ==> |stops| == |removes| == |listing.value|
    ensures removed == if listing.None? then [] else Orphans(listing.value, live)
    ensures failed <==>
              || listing.None?
              || exists i :: 0 <= i < |listing.value| && Orphaned(listing.value[i], live) && !(stops[i] && removes[i])
  {
    hide PreviewSlug, Orphans;
    removed, failed := [], false;
    if listing.None? {
      return [], true;
    }
    var listed := listing.value;
    OrphansNone(live);
    assert listed[..0] == [];
    for i := 0 to |listed|
      invariant removed == Orphans(listed[..i], live)
      invariant failed <==> exists j :: 0 <= j < i && Orphaned(listed[j], live) && !(stops[j] && removes[j])
    {
      OrphansStep(listed, live, i);
      if !Orphaned(listed[i], live) {
        continue;
      }
      if !stops[i] {
        failed := true;
      }
      if !removes[i] {
        failed := true;
      }
      removed := removed + [listed[i]];
    }
    assert listed[..|listed|] == listed;
  }

  lemma OrphansNone(live: set<string>)
    ensures Orphans([], live) == []
  {
  }

  lemma OrphansStep(listed: seq<Container>, live: set<string>, i: nat)
    requires i < |listed|
    ensures Orphans(listed[..i + 1], live)
            == Orphans(listed[..i], live) + (if Orphaned(listed[i], live) then [listed[i]] else [])
  {
    hide PreviewSlug;
    assert listed[..i + 1][..i] == listed[..i];
  }

  function Orphans(listed: seq<Container>, live: set<string>): (r: seq<Container>)
    ensures forall c :: c in r <==> c in listed && PreviewSlug(c.name) !in live
  {
    if |listed| == 0 then []
    else
      var rest := Orphans(listed[..|listed| - 1], live);
      assert listed == listed[..|listed| - 1] + [listed[|listed| - 1]];
      if PreviewSlug(listed[|listed| - 1].name) in live then rest else rest + [listed[|listed| - 1]]
  }

  // ---- The sweep among the other steps

  type Box = nat

  /** What a container is: made by a start of this server's life, left by an earlier life, or a project's own. */
  datatype Tag = Made(call: Call, relay: bool) | Leftover(name: string) | Main(project: Project)

  datatype Scan = Idle | Listing(listed: set<Box>) | Armed(listed: set<Box>, live: set<string>)

  datatype Yard = Yard(w: World, tags: map<Box, Tag>, present: set<Box>, scan: Scan)

  datatype YardStep =
    | Manage(step: Step)
    | Create(call: Call, relay: bool, box: Box)   // inside factory.Start
    | CreateMain(project: Project, box: Box)       // a project's container
    | OwnerRemoves(box: Box)                       // a worker's Close, or a failed start's clean-up
    | List
    | Snapshot
    | Remove(box: Box)

  function BoxName(y: Yard, box: Box): string
    requires box in y.tags
  {
    match y.tags[box]
    case Made(c, relay) => if c in y.w.calls then ContainerName(SanitizeName(y.w.calls[c].project.id), relay) else ""
    case Leftover(name) => name
    case Main(p) => MAIN_PREFIX + SanitizeName(p.id)
  }

  /** ListContainers asks for a name prefix. */
  function Listed(y: Yard): set<Box> { set b | b in y.present && b in y.tags && SIDECAR_PREFIX <= BoxName(y, b) }

  predicate CanRemove(y: Yard, box: Box) {
    y.scan.Armed? && box in y.scan.listed && box in y.tags && PreviewSlug(BoxName(y, box)) !in y.scan.live
  }

  function Advance(y: Yard, s: YardStep): Yard {
    match s
    case Manage(step) => y.(w := Apply(y.w, step))
    case Create(c, relay, box) =>
      if c in y.w.calls && y.w.calls[c].Running? && box !in y.tags
      then y.(tags := y.tags[box := Made(c, relay)], present := y.present + {box}) else y
    case CreateMain(p, box) =>
      if box !in y.tags then y.(tags := y.tags[box := Main(p)], present := y.present + {box}) else y
    case OwnerRemoves(box) => y.(present := y.present - {box})
    case List => y.(scan := Listing(Listed(y)))
    case Snapshot => if y.scan.Listing? then y.(scan := Armed(y.scan.listed, SlugsOf(y.w.m))) else y
    case Remove(box) => if CanRemove(y, box) then y.(present := y.present - {box}) else y
  }

  function Unfold(y: Yard, steps: seq<YardStep>): Yard
    decreases |steps|
  {
    if |steps| == 0 then y else Unfold(Advance(y, steps[0]), steps[1..])
  }

  /** A boot with whatever project containers exist and preview containers an earlier server left behind. */
  predicate Boot(y: Yard) {
    y.w == START && y.scan == Idle && y.present <= y.tags.Keys && forall b :: b in y.tags ==> !y.tags[b].Made?
  }

  /** The call is still starting, or the worker it published is still held. */
  predicate Alive(w: World, c: Call) {
    c in w.calls &&
    match w.calls[c]
    case Done(p, Published(wk)) => p in w.m.workers && w.m.workers[p] == wk && wk in w.origin && w.origin[wk] == c
    case Done(_, _) => false
    case _ => true
  }

  predicate Owned(y: Yard, box: Box) { box in y.tags && y.tags[box].Made? && Alive(y.w, y.tags[box].call) }

  /** The one shape of name previewSlug misreads. */
  predicate Misread(y: Yard, box: Box)
    requires box in y.tags
  {
    y.tags[box].Made? && !y.tags[box].relay && y.tags[box].call in y.w.calls
    && RELAY_MARK <= SanitizeName(y.w.calls[y.tags[box].call].project.id)
  }

  ghost predicate YardInv(y: Yard) {
    && Inv(y.w)
    && y.present <= y.tags.Keys
    && (forall b :: b in y.tags && y.tags[b].Made? ==> y.tags[b].call in y.w.calls)
    && (!y.scan.Idle? ==> y.scan.listed <= y.tags.Keys)
    && (!y.scan.Idle? ==>
          forall b :: b in y.scan.listed ==> !y.tags[b].Main? || PREVIEW_MARK <= SanitizeName(y.tags[b].project.id))
    && (y.scan.Armed? ==>
          forall b :: b in y.scan.listed && !Misread(y, b) && PreviewSlug(BoxName(y, b)) !in y.scan.live ==>
            !Owned(y, b))
  }

  lemma CallsPersist(w: World, s: Step, c: Call)
    requires c in w.calls
    ensures var v := Apply(w, s); c in v.calls && v.calls[c].project == w.calls[c].project
  {
  }

  lemma OriginsPersist(w: World, s: Step, wk: Worker)
    requires wk in Apply(w, s).origin
    ensures var v := Apply(w, s);
            (wk in w.origin && w.origin[wk] == v.origin[wk])
                || (s.FactoryReturns? && v.origin[wk] == s.call && s.call in w.calls && w.calls[s.call].Running?)
  {
  }

  /** Ownership once lost is lost for good. */
  lemma AliveOnlyEnds(w: World, s: Step, c: Call)
    requires Inv(w) && c in w.calls && Alive(Apply(w, s), c)
    ensures Alive(w, c)
  {
    if w.calls[c].Done? {
      var v := Apply(w, s);
      StepExtends(w, s);
      WorkersOnlyPublished(w, s);
      OriginsPersist(w, s, v.m.workers[v.calls[c].project]);
    }
  }

  lemma SnapshotCoversOwned(y: Yard, b: Box)
    requires YardInv(y) && Owned(y, b) && !Misread(y, b)
    ensures PreviewSlug(BoxName(y, b)) in SlugsOf(y.w.m)
  {
    var c := y.tags[b].call;
    var p := y.w.calls[c].project;
    SlugRoundTrip(SanitizeName(p.id), y.tags[b].relay);
    assert p in y.w.m.workers || p in y.w.m.inflight;
  }

  lemma MainNamePrefix(slug: string)
    ensures SIDECAR_PREFIX <= MAIN_PREFIX + slug <==> PREVIEW_MARK <= slug
  {
    var name := MAIN_PREFIX + slug;
    assert name[|MAIN_PREFIX|..] == slug;
    if SIDECAR_PREFIX <= name {
      assert name[..|SIDECAR_PREFIX|][|MAIN_PREFIX|..] == slug[..|PREVIEW_MARK|];
    }
  }

  lemma ListedMains(y: Yard)
    ensures forall b :: b in Listed(y) && y.tags[b].Main? ==> PREVIEW_MARK <= SanitizeName(y.tags[b].project.id)
  {
    forall b | b in Listed(y) && y.tags[b].Main? ensures PREVIEW_MARK <= SanitizeName(y.tags[b].project.id) {
      MainNamePrefix(SanitizeName(y.tags[b].project.id));
    }
  }

  lemma ManageKeepsInv(y: Yard, step: Step)
    requires YardInv(y)
    ensures YardInv(Advance(y, Manage(step)))
    ensures forall b :: b in y.tags && Owned(Advance(y, Manage(step)), b) ==> Owned(y, b)
  {
    hide Inv, Alive, Apply, SanitizeName, PreviewSlug, ContainerName;
    StepKeepsInv(y.w, step);
    forall c | c in y.w.calls
      ensures c in Apply(y.w, step).calls && Apply(y.w, step).calls[c].project == y.w.calls[c].project
      ensures Alive(Apply(y.w, step), c) ==> Alive(y.w, c)
    {
      CallsPersist(y.w, step, c);
      if Alive(Apply(y.w, step), c) {
        AliveOnlyEnds(y.w, step, c);
      }
    }
  }

  lemma AdvanceKeepsInv(y: Yard, s: YardStep)
    requires YardInv(y)
    ensures YardInv(Advance(y, s))
    ensures forall b :: b in y.tags ==> b in Advance(y, s).tags && Advance(y, s).tags[b] == y.tags[b]
    ensures forall b :: b in y.tags && Owned(Advance(y, s), b) ==> Owned(y, b)
  {
    hide Inv, Alive, Apply, SanitizeName, PreviewSlug, ContainerName, SlugsOf;
    match s
    case Manage(step) => ManageKeepsInv(y, step);
    case List => ListedMains(y);
    case Snapshot =>
      forall b | b in y.tags && Owned(y, b) && !Misread(y, b)
        ensures PreviewSlug(BoxName(y, b)) in SlugsOf(y.w.m)
      {
        SnapshotCoversOwned(y, b);
      }
    case _ =>
  }

  lemma {:induction false} UnfoldKeepsInv(y: Yard, steps: seq<YardStep>)
    requires YardInv(y)
    ensures YardInv(Unfold(y, steps))
    ensures forall b :: b in y.tags ==> b in Unfold(y, steps).tags && (Owned(Unfold(y, steps), b) ==> Owned(y, b))
    decreases |steps|
  {
    if |steps| > 0 {
      AdvanceKeepsInv(y, steps[0]);
      UnfoldKeepsInv(Advance(y, steps[0]), steps[1..]);
    }
  }

  /** Whatever ran between the listing, the snapshot and the removal: a container the sweep may remove is
      not owned then and never becomes owned later, unless its name is one previewSlug misreads. */
  lemma {:induction false} SweepSparesOwned(boot: Yard, before: seq<YardStep>, after: seq<YardStep>, box: Box)
    requires Boot(boot)
    ensures var y := Unfold(boot, before);
            CanRemove(y, box) && !Misread(y, box) ==> !Owned(y, box) && !Owned(Unfold(y, after), box)
  {
    UnfoldKeepsInv(boot, before);
    UnfoldKeepsInv(Unfold(boot, before), after);
  }

  /** Every project whose slug begins with the relay mark loses the sidecar of a start still in flight
      to a sweep that runs meanwhile. */
  lemma {:induction false} MisreadSidecarIsSwept(cfg: Config, call: Call, box: Box)
    requires ValidConfig(cfg) && RELAY_MARK <= SanitizeName(cfg.project.id)
    ensures var started := Advance(Yard(START, map[], {}, Idle), Manage(EnterStep(cfg, call)));
            var y := Advance(Advance(Advance(started, Create(call, false, box)), List), Snapshot);
            CanRemove(y, box) && Owned(y, box)
  {
    var slug := SanitizeName(cfg.project.id);
    var started := Advance(Yard(START, map[], {}, Idle), Manage(EnterStep(cfg, call)));
    var y := Advance(Advance(Advance(started, Create(call, false, box)), List), Snapshot);
    assert SlugsOf(y.w.m) == {slug};
    assert ContainerName(slug, false)[|SIDECAR_PREFIX|..] == slug;
    assert |slug[|RELAY_MARK|..]| < |slug|;
  }

  /** A sweep with nothing in between removes a container that an earlier server left exactly when no project with a
      held worker or a start in flight has its slug. */
  lemma LeftoverIsSweptIff(y: Yard, slug: string, relay: bool, box: Box)
    requires box in y.present && box in y.tags && (relay || !("relay-" <= slug))
    requires y.tags[box] == Leftover("pcoder-preview-" + (if relay then "relay-" else "") + slug)
    ensures var z := Advance(Advance(Advance(y, List), Snapshot), Remove(box));
            && (box !in z.present <==>
                forall p :: p in y.w.m.workers || p in y.w.m.inflight ==> SanitizeName(p.id) != slug)
            && z.present - {box} == y.present - {box}
  {
    hide PreviewSlug, SanitizeName;
    SlugRoundTrip(slug, relay);
    assert BoxName(y, box) == ContainerName(slug, relay) by {
      assert SIDECAR_PREFIX + RELAY_MARK + slug == "pcoder-preview-" + "relay-" + slug;
      assert "pcoder-preview-" + "" + slug == SIDECAR_PREFIX + slug;
    }
    assert box in Listed(y);
  }

  /** The sweep removes a project's own container only if the project's slug begins with "preview-": every other
      container it may remove is a preview's. */
  lemma OnlyPreviewsSwept(boot: Yard, before: seq<YardStep>, box: Box)
    requires Boot(boot)
    ensures var y := Unfold(boot, before);
            CanRemove(y, box) && y.tags[box].Main? ==> PREVIEW_MARK <= SanitizeName(y.tags[box].project.id)
  {
    UnfoldKeepsInv(boot, before);
  }

  /** And it removes every such container it finds, unless a preview is live under what PreviewSlug makes of the
      name. */
  lemma MainContainerIsSwept(y: Yard, p: Project, box: Box)
    requires box in y.present && box in y.tags && y.tags[box] == Main(p) && PREVIEW_MARK <= SanitizeName(p.id)
    ensures CanRemove(Advance(Advance(y, List), Snapshot), box)
            <==> PreviewSlug(MAIN_PREFIX + SanitizeName(p.id)) !in SlugsOf(y.w.m)
  {
    hide PreviewSlug, SlugsOf, SanitizeName;
    MainNamePrefix(SanitizeName(p.id));
    assert box in Listed(y);
  }
}
