/** The rolling-window login limiter (Login, limitedLocked, clearSourceLocked in
    server/internal/auth/auth.go). Times are in seconds. */
module LoginLimiter {
  const MAX_PER_SOURCE := 10
  const MAX_PER_INSTANCE := 50
  const WINDOW := 900

  type Source = nat

  datatype Fail = Fail(at: int, source: Source)

  datatype Reply = RateLimited | BadCredentials | Granted

  // ---- The ledger as a value

  function Recent(fails: seq<Fail>, now: int): seq<Fail> {
    if |fails| == 0 then []
    else
      var f := fails[|fails| - 1];
      Recent(fails[..|fails| - 1], now) + (if now - f.at >= WINDOW then [] else [f])
  }

  function Others(fails: seq<Fail>, source: Source): seq<Fail> {
    if |fails| == 0 then []
    else
      var f := fails[|fails| - 1];
      Others(fails[..|fails| - 1], source) + (if f.source != source then [f] else [])
  }

  function CountOf(fails: seq<Fail>, source: Source): nat {
    if |fails| == 0 then 0
    else CountOf(fails[..|fails| - 1], source) + (if fails[|fails| - 1].source == source then 1 else 0)
  }

  predicate Limited(fails: seq<Fail>, source: Source) {
    CountOf(fails, source) >= MAX_PER_SOURCE || |fails| >= MAX_PER_INSTANCE
  }

  /** One attempt: `now` is the limiter's clock reading, `later` the one stored with a failure. */
  function Attempt(fails: seq<Fail>, good: bool, source: Source, now: int, later: int): (seq<Fail>, Reply) {
    var kept := Recent(fails, now);
    if Limited(kept, source) then (kept, RateLimited)
    else if good then (Others(kept, source), Granted)
    else (kept + [Fail(later, source)], BadCredentials)
  }

  lemma NothingKept(fails: seq<Fail>, now: int, source: Source)
    ensures Recent(fails[..0], now) == [] && CountOf([], source) == 0
  {
  }

  lemma RecentStep(fails: seq<Fail>, i: nat, now: int)
    requires i < |fails|
    ensures Recent(fails[..i + 1], now) == Recent(fails[..i], now) + (if now - fails[i].at >= WINDOW then []
              else [fails[i]])
  {
    assert fails[..i + 1][..i] == fails[..i];
  }

  lemma CountStep(fails: seq<Fail>, f: Fail, source: Source)
    ensures CountOf(fails + [f], source) == CountOf(fails, source) + (if f.source == source then 1 else 0)
  {
    assert (fails + [f])[..|fails|] == fails;
  }

  // ---- The service, compacting its ledger in place

  class Service {
    var ledger: array<Fail>
    var len: nat

    ghost predicate Valid()
      reads this
    {
      len <= ledger.Length
    }

    ghost function Fails(): seq<Fail>
      requires Valid()
      reads this, ledger
    {
      ledger[..len]
    }

    constructor ()
      ensures Valid() && Fails() == []
    {
      ledger := new Fail[0];
      len := 0;
    }

    method LimitedNow(source: Source, now: int) returns (limited: bool)
      requires Valid()
      modifies this`len, ledger
      ensures Valid() && Fails() == Recent(old(Fails()), now)
      ensures limited == Limited(Fails(), source)
    {
      hide Recent, CountOf;
      ghost var was := Fails();
      var kept, bySource := 0, 0;
      NothingKept(was, now, source);
      for i := 0 to len
        invariant len == old(len) && kept <= i && ledger[..kept] == Recent(was[..i], now)
        invariant ledger[i..len] == was[i..]
        invariant bySource == CountOf(ledger[..kept], source)
      {
        var f := ledger[i];
        assert f == ledger[i..len][0] == was[i];
        assert ledger[i + 1..len] == ledger[i..len][1..] == was[i + 1..];
        RecentStep(was, i, now);
        if now - f.at >= WINDOW {
          continue;
        }
        ghost var front := ledger[..kept];
        CountStep(front, f, source);
        ledger[kept] := f;
        assert ledger[..kept + 1] == front + [f];
        kept := kept + 1;
        if f.source == source {
          bySource := bySource + 1;
        }
      }
      assert was[..len] == was;
      len := kept;
      return bySource >= MAX_PER_SOURCE || kept >= MAX_PER_INSTANCE;
    }

    method ClearSource(source: Source)
      requires Valid()
      modifies this`len, ledger
      ensures Valid() && Fails() == Others(old(Fails()), source)
    {
      ghost var was := Fails();
      var kept := 0;
      for i := 0 to len
        invariant len == old(len) && kept <= i && ledger[..kept] == Others(was[..i], source)
        invariant ledger[i..len] == was[i..]
      {
        assert was[..i + 1][..i] == was[..i];
        var f := ledger[i];
        assert f == ledger[i..len][0] == was[i];
        assert ledger[i + 1..len] == ledger[i..len][1..] == was[i + 1..];
        if f.source != source {
          ghost var front := ledger[..kept];
          ledger[kept] := f;
          assert ledger[..kept + 1] == front + [f];
          kept := kept + 1;
        }
      }
      assert was[..len] == was;
      len := kept;
    }

    /** append(s.fails, f), in place while the array has room. */
    method Record(f: Fail)
      requires Valid()
      modifies this, ledger
      ensures Valid() && Fails() == old(Fails()) + [f]
    {
      if len == ledger.Length {
        var grown := new Fail[2 * len + 1](_ => f);
        forall i | 0 <= i < len {
          grown[i] := ledger[i];
        }
        ledger := grown;
      }
      ledger[len] := f;
      len := len + 1;
    }

    /** `good` says whether email and password verified; verification itself is not part of this model. */
    method Login(good: bool, source: Source, now: int, later: int) returns (r: Reply)
      requires Valid()
      modifies this, ledger
      ensures Valid() && (Fails(), r) == Attempt(old(Fails()), good, source, now, later)
    {
      var limited := LimitedNow(source, now);
      if limited {
        return RateLimited;
      }
      if !good {
        Record(Fail(later, source));
        return BadCredentials;
      }
      ClearSource(source);
      return Granted;
    }
  }

  // ---- Every run

  datatype Try = Try(good: bool, source: Source, now: int, later: int)

  /** What a try that was not refused does: it is charged, or it succeeds. */
  datatype Event = Charge(fail: Fail) | Success(source: Source)

  /** The ledger after a run, the charged failures of each source since its last success, oldest first, and all charges
      and successes in order. */
  datatype World = World(fails: seq<Fail>, clock: int, charged: map<Source, seq<int>>, history: seq<Event>)

  /** The charges of all sources, each since that source's last success. */
  function Outstanding(h: seq<Event>): seq<Fail> {
    if |h| == 0 then []
    else
      match h[|h| - 1]
      case Charge(f) => Outstanding(h[..|h| - 1]) + [f]
      case Success(s) => Others(Outstanding(h[..|h| - 1]), s)
  }

  function ChargedTo(w: World, s: Source): seq<int> { if s in w.charged then w.charged[s] else [] }

  /** Clock readings never go back; a try that would is not part of the run. */
  function Apply(w: World, t: Try): World {
    if !(w.clock <= t.now <= t.later) then w
    else
      var (fails, r) := Attempt(w.fails, t.good, t.source, t.now, t.later);
      World(fails, t.later,
            match r
            case RateLimited => w.charged
            case BadCredentials => w.charged[t.source := ChargedTo(w, t.source) + [t.later]]
            case Granted => w.charged[t.source := []],
            match r
            case RateLimited => w.history
            case BadCredentials => w.history + [Charge(Fail(t.later, t.source))]
            case Granted => w.history + [Success(t.source)])
  }

  function Run(w: World, ts: seq<Try>): World
    decreases |ts|
  {
    if |ts| == 0 then w else Run(Apply(w, ts[0]), ts[1..])
  }

  const START := World([], 0, map[], [])

  /** The times a source's records carry, in ledger order. */
  function Times(fails: seq<Fail>, s: Source): seq<int> {
    if |fails| == 0 then []
    else
      var f := fails[|fails| - 1];
      Times(fails[..|fails| - 1], s) + (if f.source == s then [f.at] else [])
  }

  predicate Ascending(ts: seq<int>) { forall i, j :: 0 <= i < j < |ts| ==> ts[i] <= ts[j] }

  /** Any eleven charges in a row span the window. */
  predicate Spread(ts: seq<int>) {
    forall i :: 0 <= i && i + MAX_PER_SOURCE < |ts| ==> ts[i + MAX_PER_SOURCE] - ts[i] >= WINDOW
  }

  /** The ledger keeps the newest charges of a source, and has dropped only ones that are out of the window. */
  ghost predicate Tracks(times: seq<int>, charged: seq<int>, clock: int) {
    && |times| <= |charged|
    && times == charged[|charged| - |times|..]
    && (forall i :: 0 <= i < |charged| - |times| ==> clock - charged[i] >= WINDOW)
    && Ascending(charged) && (forall i :: 0 <= i < |charged| ==> charged[i] <= clock)
  }

  ghost predicate Inv(w: World) {
    && |w.fails| <= MAX_PER_INSTANCE
    && (forall s :: Tracks(Times(w.fails, s), ChargedTo(w, s), w.clock) && Spread(ChargedTo(w, s)))
  }

  lemma {:induction false} CountIsTimes(fails: seq<Fail>, s: Source)
    ensures CountOf(fails, s) == |Times(fails, s)|
  {
    if |fails| > 0 {
      CountIsTimes(fails[..|fails| - 1], s);
    }
  }

  /** Dropping old records drops the old times. */
  lemma {:induction false} RecentTimes(fails: seq<Fail>, now: int, s: Source)
    ensures |Recent(fails, now)| <= |fails|
    ensures Times(Recent(fails, now), s) == Young(Times(fails, s), now)
  {
    if |fails| > 0 {
      var n := |fails| - 1;
      RecentTimes(fails[..n], now, s);
      var r := Recent(fails, now);
      if now - fails[n].at < WINDOW {
        assert r[..|r| - 1] == Recent(fails[..n], now);
      } else {
        assert r == Recent(fails[..n], now);
      }
      if fails[n].source == s {
        assert Times(fails, s)[..|Times(fails, s)| - 1] == Times(fails[..n], s);
      } else {
        assert Times(fails, s) == Times(fails[..n], s);
      }
    }
  }

  function Young(ts: seq<int>, now: int): seq<int> {
    if |ts| == 0 then []
    else Young(ts[..|ts| - 1], now) + (if now - ts[|ts| - 1] >= WINDOW then [] else [ts[|ts| - 1]])
  }

  lemma {:induction false} YoungTracks(times: seq<int>, charged: seq<int>, clock: int, now: int)
    requires Tracks(times, charged, clock) && clock <= now
    ensures Tracks(Young(times, now), charged, now)
    ensures forall i :: 0 <= i < |charged| - |Young(times, now)| ==> now - charged[i] >= WINDOW
  {
    YoungIsSuffix(times, now);
    var y := Young(times, now);
    var d := |times| - |y|;
    assert y == charged[|charged| - |y|..] by {
      assert times[d..] == charged[|charged| - |times|..][d..];
    }
    forall i | 0 <= i < |charged| - |y| ensures now - charged[i] >= WINDOW {
      if i >= |charged| - |times| {
        assert charged[i] == times[i - (|charged| - |times|)];
      }
    }
  }

  lemma {:induction false} YoungIsSuffix(ts: seq<int>, now: int)
    requires Ascending(ts)
    ensures |Young(ts, now)| <= |ts| && Young(ts, now) == ts[|ts| - |Young(ts, now)|..]
    ensures forall i :: 0 <= i < |ts| - |Young(ts, now)| ==> now - ts[i] >= WINDOW
    ensures |Young(ts, now)| > 0 ==> now - ts[|ts| - 1] < WINDOW
  {
    if |ts| > 0 {
      YoungIsSuffix(ts[..|ts| - 1], now);
      if now - ts[|ts| - 1] >= WINDOW {
        assert |Young(ts[..|ts| - 1], now)| == 0 by {
          assert |ts| > 1 ==> ts[|ts| - 2] <= ts[|ts| - 1];
        }
      }
    }
  }

  lemma {:induction false} OthersTimes(fails: seq<Fail>, source: Source, s: Source)
    ensures |Others(fails, source)| <= |fails|
    ensures Times(Others(fails, source), s) == if s == source then [] else Times(fails, s)
  {
    if |fails| > 0 {
      var n := |fails| - 1;
      OthersTimes(fails[..n], source, s);
      var r := Others(fails, source);
      if fails[n].source != source {
        assert r[..|r| - 1] == Others(fails[..n], source);
      } else {
        assert r == Others(fails[..n], source);
      }
    }
  }

  /** Fewer than ten records in the window: the tenth charge before this one is out of it. */
  lemma ChargeKeepsSpread(times: seq<int>, charged: seq<int>, now: int, later: int)
    requires Tracks(times, charged, now) && Spread(charged) && |times| < MAX_PER_SOURCE && now <= later
    ensures Spread(charged + [later]) && Tracks(times + [later], charged + [later], later)
  {
    var c := charged + [later];
    forall i | 0 <= i && i + MAX_PER_SOURCE < |c| ensures c[i + MAX_PER_SOURCE] - c[i] >= WINDOW {
      if i + MAX_PER_SOURCE == |charged| {
        assert i < |charged| - |times|;
      }
    }
  }

  lemma StepKeepsInv(w: World, t: Try)
    requires Inv(w)
    ensures Inv(Apply(w, t))
  {
    hide Times, Tracks, Spread, Young, CountOf, Recent, Others;
    if w.clock <= t.now <= t.later {
      var v := Apply(w, t);
      var kept := Recent(w.fails, t.now);
      RecentTimes(w.fails, t.now, t.source);
      CountIsTimes(kept, t.source);
      OthersTimes(kept, t.source, t.source);
      forall s ensures Tracks(Times(v.fails, s), ChargedTo(v, s), v.clock) && Spread(ChargedTo(v, s)) {
        SourceKeepsInv(w, t, s);
      }
    }
  }

  lemma SourceKeepsInv(w: World, t: Try, s: Source)
    requires Inv(w) && w.clock <= t.now <= t.later
    ensures var v := Apply(w, t); Tracks(Times(v.fails, s), ChargedTo(v, s), v.clock) && Spread(ChargedTo(v, s))
  {
    hide Tracks, Spread, Young, Recent, Others, Limited, Times;
    var kept := Recent(w.fails, t.now);
    RecentTimes(w.fails, t.now, s);
    YoungTracks(Times(w.fails, s), ChargedTo(w, s), w.clock, t.now);
    assert Tracks(Times(kept, s), ChargedTo(w, s), t.now);
    LaterTracks(Times(kept, s), ChargedTo(w, s), t.now, t.later);
    OthersTimes(kept, t.source, s);
    NothingTracks(t.later);
    TimesAppend(kept, Fail(t.later, t.source), s);
    if !Limited(kept, t.source) && !t.good && s == t.source {
      UnderLimit(kept, s);
      ChargeKeepsSpread(Times(kept, s), ChargedTo(w, s), t.now, t.later);
    }
  }

  lemma LaterTracks(times: seq<int>, charged: seq<int>, now: int, later: int)
    requires Tracks(times, charged, now) && now <= later
    ensures Tracks(times, charged, later)
  {
  }

  lemma NothingTracks(clock: int)
    ensures Tracks([], [], clock) && Spread([])
  {
  }

  lemma TimesAppend(fails: seq<Fail>, f: Fail, s: Source)
    ensures Times(fails + [f], s) == if f.source == s then Times(fails, s) + [f.at] else Times(fails, s)
  {
    assert (fails + [f])[..|fails|] == fails;
  }

  lemma UnderLimit(fails: seq<Fail>, s: Source)
    requires !Limited(fails, s)
    ensures |Times(fails, s)| < MAX_PER_SOURCE
  {
    CountIsTimes(fails, s);
  }

  lemma {:induction false} RunKeepsInv(w: World, ts: seq<Try>)
    requires Inv(w)
    ensures Inv(Run(w, ts))
    decreases |ts|
  {
    if |ts| > 0 {
      StepKeepsInv(w, ts[0]);
      RunKeepsInv(Apply(w, ts[0]), ts[1..]);
    }
  }

  lemma RunFromStart(ts: seq<Try>)
    ensures Inv(Run(START, ts))
  {
    RunKeepsInv(START, ts);
  }

  /** Over every run: the ledger never holds more than 50 records, and of the failures charged to a source
      since its last success no eleven fall within a window shorter than fifteen minutes. */
  lemma LimiterHolds(ts: seq<Try>, s: Source, i: nat)
    ensures |Run(START, ts).fails| <= 50
    ensures var c := ChargedTo(Run(START, ts), s);
            i + 10 < |c| ==> c[i + 10] - c[i] >= 900
  {
    hide Run, Times, Tracks;
    RunFromStart(ts);
    assert Spread(ChargedTo(Run(START, ts), s));
  }

  // ---- The ledger and the charges of the run

  lemma {:induction false} RecentTwice(fails: seq<Fail>, now: int, later: int)
    requires now <= later
    ensures Recent(Recent(fails, now), later) == Recent(fails, later)
  {
    if |fails| > 0 {
      var n := |fails| - 1;
      RecentTwice(fails[..n], now, later);
      if now - fails[n].at < WINDOW {
        RecentSnoc(Recent(fails[..n], now), fails[n], later);
      } else {
        assert Recent(fails, now) == Recent(fails[..n], now);
      }
    }
  }

  lemma RecentSnoc(fails: seq<Fail>, f: Fail, now: int)
    ensures Recent(fails + [f], now) == Recent(fails, now) + (if now - f.at >= WINDOW then [] else [f])
  {
    assert (fails + [f])[..|fails|] == fails;
  }

  lemma {:induction false} RecentOthers(fails: seq<Fail>, source: Source, now: int)
    ensures Recent(Others(fails, source), now) == Others(Recent(fails, now), source)
  {
    if |fails| > 0 {
      var n := |fails| - 1;
      RecentOthers(fails[..n], source, now);
      if fails[n].source != source {
        RecentSnoc(Others(fails[..n], source), fails[n], now);
      } else {
        assert Others(fails, source) == Others(fails[..n], source);
      }
      if now - fails[n].at < WINDOW {
        OthersSnoc(Recent(fails[..n], now), fails[n], source);
      } else {
        assert Recent(fails, now) == Recent(fails[..n], now);
      }
    }
  }

  lemma OthersSnoc(fails: seq<Fail>, f: Fail, source: Source)
    ensures Others(fails + [f], source) == Others(fails, source) + (if f.source != source then [f] else [])
  {
    assert (fails + [f])[..|fails|] == fails;
  }

  lemma OutstandingSnoc(h: seq<Event>, f: Fail, s: Source)
    ensures Outstanding(h + [Charge(f)]) == Outstanding(h) + [f]
    ensures Outstanding(h + [Success(s)]) == Others(Outstanding(h), s)
  {
    assert (h + [Charge(f)])[..|h|] == h && (h + [Success(s)])[..|h|] == h;
  }

  /** The ledger has dropped only outstanding charges that are out of the window. */
  ghost predicate Ledgered(w: World) {
    forall now :: now >= w.clock ==> Recent(w.fails, now) == Recent(Outstanding(w.history), now)
  }

  lemma StartIsLedgered()
    ensures Ledgered(START)
  {
  }

  lemma StepKeepsLedgered(w: World, t: Try)
    requires Ledgered(w)
    ensures Ledgered(Apply(w, t))
  {
    hide Recent, Others, Outstanding, CountOf;
    if w.clock <= t.now <= t.later {
      var v, kept, owed, f := Apply(w, t), Recent(w.fails, t.now), Outstanding(w.history), Fail(t.later, t.source);
      OutstandingSnoc(w.history, f, t.source);
      forall now | now >= v.clock ensures Recent(v.fails, now) == Recent(Outstanding(v.history), now) {
        RecentTwice(w.fails, t.now, now);
        RecentSnoc(kept, f, now);
        RecentSnoc(owed, f, now);
        RecentOthers(kept, t.source, now);
        RecentOthers(owed, t.source, now);
      }
    }
  }

  lemma {:induction false} RunKeepsLedgered(w: World, ts: seq<Try>)
    requires Ledgered(w)
    ensures Ledgered(Run(w, ts))
    decreases |ts|
  {
    hide Ledgered, Apply;
    if |ts| > 0 {
      StepKeepsLedgered(w, ts[0]);
      RunKeepsLedgered(Apply(w, ts[0]), ts[1..]);
    }
  }

  /** A try is refused exactly when ten of the charges of its source since its last success, or fifty of the charges of
      all sources each since its last success, are still in the window. */
  lemma RefusedIff(ts: seq<Try>, t: Try)
    requires Run(START, ts).clock <= t.now <= t.later
    ensures var w := Run(START, ts);
            Attempt(w.fails, t.good, t.source, t.now, t.later).1 == RateLimited
            <==> |Young(ChargedTo(w, t.source), t.now)| >= 10 || |Recent(Outstanding(w.history), t.now)| >= 50
  {
    hide Run, Recent, Times, Young, Tracks, Spread, Others, CountOf, Outstanding;
    RunFromStart(ts);
    StartIsLedgered();
    RunKeepsLedgered(START, ts);
    var w := Run(START, ts);
    var s := t.source;
    assert Tracks(Times(w.fails, s), ChargedTo(w, s), w.clock);
    RecentTimes(w.fails, t.now, s);
    CountIsTimes(Recent(w.fails, t.now), s);
    YoungOfSuffix(Times(w.fails, s), ChargedTo(w, s), w.clock, t.now);
  }

  // ---- What a try is answered and what it leaves behind

  /** Compaction keeps the records younger than fifteen minutes, each as often as it was there. */
  lemma {:induction false} RecentIs(fails: seq<Fail>, now: int, f: Fail)
    ensures multiset(Recent(fails, now))[f] == if now - f.at < 900 then multiset(fails)[f] else 0
  {
    if |fails| > 0 {
      var n := |fails| - 1;
      RecentIs(fails[..n], now, f);
      assert fails == fails[..n] + [fails[n]];
    }
  }

  lemma {:induction false} OthersIs(fails: seq<Fail>, source: Source, f: Fail)
    ensures multiset(Others(fails, source))[f] == if f.source != source then multiset(fails)[f] else 0
  {
    if |fails| > 0 {
      var n := |fails| - 1;
      OthersIs(fails[..n], source, f);
      assert fails == fails[..n] + [fails[n]];
    }
  }

  /** Over every run, a try that is not refused is granted exactly with good credentials, and only a bad one is
      charged. A grant leaves no record of its source, a charge adds one, and other records only grow old. */
  lemma LoginReply(ts: seq<Try>, t: Try, f: Fail)
    requires Run(START, ts).clock <= t.now <= t.later
    ensures var w := Run(START, ts);
            var v, r := Apply(w, t), Attempt(w.fails, t.good, t.source, t.now, t.later).1;
            var kept, after := if t.now - f.at < 900 then multiset(w.fails)[f] else 0, multiset(v.fails)[f];
            && (r != RateLimited ==> (r == Granted <==> t.good) && (r == BadCredentials <==> !t.good))
            && (r == Granted ==> after == (if f.source == t.source then 0 else kept)
                                 && v.history == w.history + [Success(t.source)])
            && (r == BadCredentials ==> after == kept + (if f == Fail(t.later, t.source) then 1 else 0)
                                        && v.history == w.history + [Charge(Fail(t.later, t.source))])
            && (r == RateLimited ==> after == kept && v.history == w.history)
            && v.clock == t.later
  {
    hide Run, Recent, Others, CountOf;
    var w := Run(START, ts);
    RecentIs(w.fails, t.now, f);
    OthersIs(Recent(w.fails, t.now), t.source, f);
  }

  lemma YoungOfSuffix(times: seq<int>, charged: seq<int>, clock: int, now: int)
    requires Tracks(times, charged, clock) && clock <= now
    ensures Young(times, now) == Young(charged, now)
  {
    var gone := charged[..|charged| - |times|];
    assert charged == gone + times;
    YoungConcat(gone, times, now);
    YoungOld(gone, now);
  }

  lemma {:induction false} YoungConcat(a: seq<int>, b: seq<int>, now: int)
    ensures Young(a + b, now) == Young(a, now) + Young(b, now)
  {
    if |b| == 0 {
      assert a + b == a;
    } else {
      assert (a + b)[..|a + b| - 1] == a + b[..|b| - 1];
      YoungConcat(a, b[..|b| - 1], now);
    }
  }

  lemma {:induction false} YoungOld(ts: seq<int>, now: int)
    requires forall i :: 0 <= i < |ts| ==> now - ts[i] >= WINDOW
    ensures Young(ts, now) == []
  {
    if |ts| > 0 {
      YoungOld(ts[..|ts| - 1], now);
    }
  }
}
