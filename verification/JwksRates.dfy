/** How often unknown kids make the JWKS validator send requests: the bounds, and runs that show they
    are no better (key-manager/internal/api/jwt_validator.go). */
module JwksRates {
  import opened Wrappers
  import opened JwksKeys
  import opened Jwks

  // ---------- the bounds, for any window ----------

  /** However many requests arrive: of the unknown-kid fetches that start (pass the gate) within
      any window of length T there are n with (n - 1) * cooldown <= T. */
  lemma UnknownKidRate(cfg: Config, ss: seq<State>, acts: seq<Action>, i: nat, from: int, length: nat)
    requires IsRun(cfg, ss, acts) && i < |ss|
    ensures (|Inside(ss[i].gate.stamps, from, length)| - 1) * 30_000_000_000 <= length
  {
    InvAlways(cfg, ss, acts, i);
    WindowOfStamps(ss[i].gate.stamps, from, length);
  }

  /** The request itself leaves some time after its stamp, so the requests that actually leave
      within a window of length T can be one more: (n - 2) * cooldown <= T. */
  lemma UnknownKidSendRate(cfg: Config, ss: seq<State>, acts: seq<Action>, i: nat, from: int, length: nat)
    requires IsRun(cfg, ss, acts) && i < |ss|
    ensures (|Inside(ss[i].gate.sends, from, length)| - 2) * 30_000_000_000 <= length
  {
    InvAlways(cfg, ss, acts, i);
    WindowOfSends(ss[i].gate.stamps, ss[i].gate.sends, from, length);
  }

  /** Every request leaves within `d` of its stamp. */
  ghost predicate Prompt(g: Gate, d: nat) {
    forall k | 0 <= k < |g.sends| && k < |g.stamps| :: g.sends[k] - g.stamps[k] <= d
  }

  /** The bound for requests that leave promptly: (n - 1) * cooldown <= T + d. */
  lemma PromptSendRate(cfg: Config, ss: seq<State>, acts: seq<Action>, i: nat, d: nat, from: int, length: nat)
    requires IsRun(cfg, ss, acts) && i < |ss| && Prompt(ss[i].gate, d)
    ensures (|Inside(ss[i].gate.sends, from, length)| - 1) * 30_000_000_000 <= length + d
  {
    InvAlways(cfg, ss, acts, i);
    WindowOfPromptSends(ss[i].gate, d, from, length);
  }

  lemma WindowOfPromptSends(g: Gate, d: nat, from: int, length: nat)
    requires Spaced(g.stamps) && Interleaved(g.stamps, g.sends) && Prompt(g, d)
    ensures (|Inside(g.sends, from, length)| - 1) * COOLDOWN <= length + d
  {
    hide Spaced;
    var inside := Inside(g.sends, from, length);
    if inside != {} {
      var lo, hi := Extremes(inside);
      WithinExtremes(inside, lo, hi);
      assert g.sends[lo] - g.stamps[lo] <= d && g.stamps[hi] <= g.sends[hi];
      Spacing(g.stamps, lo, hi);
      CooldownMonotone(|inside| - 1, hi - lo);
    }
  }

  lemma WindowOfSends(stamps: seq<int>, sends: seq<int>, from: int, length: nat)
    requires Spaced(stamps) && Interleaved(stamps, sends)
    ensures (|Inside(sends, from, length)| - 2) * COOLDOWN <= length
  {
    hide Spaced;
    var inside := Inside(sends, from, length);
    if inside != {} {
      var lo, hi := Extremes(inside);
      WithinExtremes(inside, lo, hi);
      if lo < hi {
        assert sends[lo] <= stamps[lo + 1] && stamps[hi] <= sends[hi];
        Spacing(stamps, lo + 1, hi);
        CooldownMonotone(|inside| - 2, hi - (lo + 1));
      }
    }
  }

  // ---------- runs that meet them ----------

  function After(cfg: Config, s: State, acts: seq<Action>): Option<State>
    decreases |acts|
  {
    if acts == [] then Some(s)
    else if Enabled(s, acts[0]) then After(cfg, Next(cfg, s, acts[0]), acts[1..])
    else None
  }

  lemma {:induction false} AfterJoin(cfg: Config, s: State, a: seq<Action>, b: seq<Action>)
    requires After(cfg, s, a).Some?
    ensures After(cfg, s, a + b) == After(cfg, After(cfg, s, a).value, b)
    decreases |a|
  {
    hide Next, Enabled;
    if a == [] {
      assert a + b == b;
    } else {
      assert (a + b)[1..] == a[1..] + b;
      AfterJoin(cfg, Next(cfg, s, a[0]), a[1..], b);
    }
  }

  /** The flight between its stamp, the first one, and its request, and a kid nobody knows. */
  ghost predicate AboutToSend(s: State, c: nat, kid: string) {
    && s.ready && c !in s.callers && kid !in s.cache.keys
    && s.group.current.Some? && s.group.current.value.forKid && s.group.current.value.phase.Cleared?
    && 0 < s.gate.lastKid == s.clock && s.gate.stamps == [s.clock] && s.gate.sends == []
  }

  /** A run from the start that gets there: the first fetch succeeds, then a token comes with a kid
      the fetched set lacks. */
  lemma ReachAboutToSend(cfg: Config, s: State, resp: Response, kid: string) returns (acts: seq<Action>, s': State)
    requires Initial(cfg, s) && FetchedKeys(cfg.parse, resp).Some? && kid !in FetchedKeys(cfg.parse, resp).value
    ensures After(cfg, s, acts) == Some(s') && AboutToSend(s', 1, kid)
  {
    var s1 := ComesOnline(cfg, s, resp);
    var online := [BackgroundGo, BackgroundReply(resp), BackgroundGo];
    var s2 := CallerLaunches(cfg, s1, 0, kid);
    var launch := [Arrive(0, kid), CallerGo(0), CallerGo(0), CallerGo(0)];
    s' := ClearsGate(cfg, s2);
    var clear := [FlightGo, FlightGo];
    acts := online + (launch + clear);
    hide After;
    AfterJoin(cfg, s, online, launch + clear);
    AfterJoin(cfg, s1, launch, clear);
  }

  lemma ComesOnline(cfg: Config, s: State, resp: Response) returns (s': State)
    requires Initial(cfg, s) && FetchedKeys(cfg.parse, resp).Some?
    ensures After(cfg, s, [BackgroundGo, BackgroundReply(resp), BackgroundGo]) == Some(s')
    ensures s'.ready && s'.callers == map[] && s'.cache.keys == FetchedKeys(cfg.parse, resp).value
    ensures s'.group.current.None? && s'.clock == s.clock && s'.gate == s.gate
  {
    var a := Next(cfg, s, BackgroundGo);
    var b := Next(cfg, a, BackgroundReply(resp));
    s' := Next(cfg, b, BackgroundGo);
    hide Next;
    ThreeSteps(cfg, s, BackgroundGo, BackgroundReply(resp), BackgroundGo);
  }

  lemma ClearsGate(cfg: Config, s: State) returns (s': State)
    requires s.group.current.Some? && s.group.current.value.forKid && s.group.current.value.phase.Launched?
    requires s.gate.lastKid == 0
    ensures After(cfg, s, [FlightGo, FlightGo]) == Some(s')
    ensures s'.gate == s.gate.(lastKid := s.clock, stamps := s.gate.stamps + [s.clock]) && s'.clock == s.clock
    ensures s'.group.current == Some(s.group.current.value.(phase := Cleared))
    ensures s'.ready == s.ready && s'.callers == s.callers && s'.cache == s.cache
  {
    var a := Next(cfg, s, FlightGo);
    s' := Next(cfg, a, FlightGo);
    hide Next;
    AfterJoin(cfg, s, [FlightGo], [FlightGo]);
    assert [FlightGo] + [FlightGo] == [FlightGo, FlightGo];
  }

  /** The extra request is real.  For every delay `d` up to the cool-down, some run from the start
      lets two unknown-kid requests leave only a cool-down less `d` apart, each within `d` of its
      stamp: the first leaves `d` late and fails, and once the cool-down after its stamp is over the
      next unknown kid sends another.  With the full delay both leave at one instant. */
  lemma SendsApart(cfg: Config, s: State, resp: Response, kid: string, d: nat) returns (acts: seq<Action>, s': State)
    requires Initial(cfg, s) && FetchedKeys(cfg.parse, resp).Some? && kid !in FetchedKeys(cfg.parse, resp).value
    requires d <= COOLDOWN
    ensures After(cfg, s, acts) == Some(s')
    ensures |s'.gate.sends| == 2 && s'.gate.sends[1] - s'.gate.sends[0] == COOLDOWN - d && Prompt(s'.gate, d)
  {
    var start, m := ReachAboutToSend(cfg, s, resp, kid);
    var rest, end := SendsTwice(cfg, m, 1, kid, d);
    hide After, AboutToSend, Initial;
    AfterJoin(cfg, s, start, rest);
    acts, s' := start + rest, end;
  }

  /** Two requests at one instant, as a run. */
  lemma BackToBackSends(cfg: Config, s: State, resp: Response, kid: string) returns (ss: seq<State>, acts: seq<Action>)
    requires Initial(cfg, s) && FetchedKeys(cfg.parse, resp).Some? && kid !in FetchedKeys(cfg.parse, resp).value
    ensures IsRun(cfg, ss, acts) && ss[0] == s
    ensures |ss[|acts|].gate.sends| == 2 && ss[|acts|].gate.sends[0] == ss[|acts|].gate.sends[1]
  {
    var s';
    acts, s' := SendsApart(cfg, s, resp, kid, COOLDOWN);
    hide After, Initial;
    ss := AfterIsRun(cfg, s, acts);
  }

  /** Of the requests that left within any window of length T there are n with (n - 1) * cooldown <= T. */
  ghost predicate KeepsBound(g: Gate) {
    forall from, length: nat :: (|Inside(g.sends, from, length)| - 1) * COOLDOWN <= length
  }

  /** In every run whose requests leave within `d` of their stamps, the requests themselves keep the
      bound of one per cool-down. */
  ghost predicate SendsKeepBound(cfg: Config, d: nat) {
    forall ss: seq<State>, acts: seq<Action>, i: nat | IsRun(cfg, ss, acts) && i < |ss| && Prompt(ss[i].gate, d) ::
      KeepsBound(ss[i].gate)
  }

  /** "At most one outbound fetch per cool-down" holds of the requests that leave exactly if each
      leaves at the instant of its stamp; the least delay lets some run break it.  (Some first answer
      `resp` brings keys and some kid is not among them; else nothing unknown is ever asked for.) */
  lemma SendsKeepBoundExactly(cfg: Config, s: State, resp: Response, kid: string, d: nat)
    requires Initial(cfg, s) && FetchedKeys(cfg.parse, resp).Some? && kid !in FetchedKeys(cfg.parse, resp).value
    ensures SendsKeepBound(cfg, d) <==> d == 0
  {
    if d == 0 {
      hide IsRun, Prompt;
      forall ss: seq<State>, acts: seq<Action>, i: nat | IsRun(cfg, ss, acts) && i < |ss| && Prompt(ss[i].gate, 0)
        ensures KeepsBound(ss[i].gate) {
        forall from, length: nat ensures (|Inside(ss[i].gate.sends, from, length)| - 1) * COOLDOWN <= length {
          PromptSendRate(cfg, ss, acts, i, 0, from, length);
        }
      }
    } else {
      LateSendsBreakBound(cfg, s, resp, kid, d);
    }
  }

  lemma LateSendsBreakBound(cfg: Config, s: State, resp: Response, kid: string, d: nat)
    requires Initial(cfg, s) && FetchedKeys(cfg.parse, resp).Some? && kid !in FetchedKeys(cfg.parse, resp).value
    requires d > 0
    ensures !SendsKeepBound(cfg, d)
  {
    var e := if d <= COOLDOWN then d else COOLDOWN;
    var acts, s' := SendsApart(cfg, s, resp, kid, e);
    hide After, Initial;
    var ss := AfterIsRun(cfg, s, acts);
    hide IsRun;
    var sends, length := s'.gate.sends, COOLDOWN - e;
    assert Prompt(ss[|acts|].gate, d);
    assert Inside(sends, sends[0], length) == {0, 1};
    assert |Inside(ss[|acts|].gate.sends, sends[0], length)| == 2;
    assert !KeepsBound(ss[|acts|].gate);
  }

  /** What `After` computes is the end of a run. */
  lemma {:induction false} AfterIsRun(cfg: Config, s: State, acts: seq<Action>) returns (ss: seq<State>)
    requires Initial(cfg, s) && After(cfg, s, acts).Some?
    ensures IsRun(cfg, ss, acts) && ss[0] == s && ss[|acts|] == After(cfg, s, acts).value
    decreases |acts|
  {
    hide Next, Enabled, Initial;
    if acts == [] {
      ss := [s];
    } else {
      var front, a := acts[..|acts| - 1], acts[|acts| - 1];
      assert acts == front + [a];
      AfterPrefix(cfg, s, front, [a]);
      var before := AfterIsRun(cfg, s, front);
      var last := After(cfg, s, front).value;
      assert [a][1..] == [];
      assert After(cfg, last, [a]) == Some(Next(cfg, last, a));
      ss := before + [Next(cfg, last, a)];
      forall i | 0 <= i < |acts| ensures Enabled(ss[i], acts[i]) && ss[i + 1] == Next(cfg, ss[i], acts[i]) {
        if i < |front| { assert acts[i] == front[i] && ss[i] == before[i] && ss[i + 1] == before[i + 1]; }
      }
    }
  }

  lemma {:induction false} AfterPrefix(cfg: Config, s: State, a: seq<Action>, b: seq<Action>)
    requires After(cfg, s, a + b).Some?
    ensures After(cfg, s, a).Some? && After(cfg, After(cfg, s, a).value, b) == After(cfg, s, a + b)
    decreases |a|
  {
    hide Next, Enabled;
    if a == [] {
      assert a + b == b;
    } else {
      assert (a + b)[1..] == a[1..] + b;
      AfterPrefix(cfg, Next(cfg, s, a[0]), a[1..], b);
    }
  }

  lemma SendsTwice(cfg: Config, s: State, c: nat, kid: string, d: nat) returns (acts: seq<Action>, s': State)
    requires AboutToSend(s, c, kid) && d <= COOLDOWN
    ensures After(cfg, s, acts) == Some(s')
    ensures s'.gate.sends == [s.clock + d, s.clock + COOLDOWN]
    ensures s'.gate.stamps == [s.clock, s.clock + COOLDOWN]
  {
    var late, now := s.clock + d, s.clock + COOLDOWN;
    var first, second, third := [Tick(late), FlightGo, FlightReply(NoReply), FlightGo],
      [Arrive(c, kid), CallerGo(c), CallerGo(c), CallerGo(c)], [Tick(now), FlightGo, FlightGo, FlightGo];
    acts := first + (second + third);
    var s1 := FirstLands(cfg, s, late);
    var s2 := CallerLaunches(cfg, s1, c, kid);
    s' := SecondSends(cfg, s2, now);
    hide After;
    AfterJoin(cfg, s, first, second + third);
    AfterJoin(cfg, s1, second, third);
  }

  lemma FirstLands(cfg: Config, s: State, now: int) returns (s': State)
    requires s.group.current.Some? && s.group.current.value.phase.Cleared? && s.clock <= now
    ensures After(cfg, s, [Tick(now), FlightGo, FlightReply(NoReply), FlightGo]) == Some(s')
    ensures s'.group.current.None? && s'.ready == s.ready && s'.callers == s.callers && s'.cache == s.cache
    ensures s'.clock == now && s'.gate == s.gate.(sends := s.gate.sends + [now])
  {
    var a := Next(cfg, s, Tick(now));
    var b := Next(cfg, a, FlightGo);
    var d := Next(cfg, b, FlightReply(NoReply));
    s' := Next(cfg, d, FlightGo);
    hide Next;
    FourSteps(cfg, s, Tick(now), FlightGo, FlightReply(NoReply), FlightGo);
  }

  lemma CallerLaunches(cfg: Config, s: State, c: nat, kid: string) returns (s': State)
    requires s.ready && c !in s.callers && kid !in s.cache.keys && s.group.current.None?
    ensures After(cfg, s, [Arrive(c, kid), CallerGo(c), CallerGo(c), CallerGo(c)]) == Some(s')
    ensures s'.group.current == Some(Flight(s.group.count, true, Launched)) && s'.clock == s.clock && s'.gate == s.gate
    ensures s'.ready && s'.cache == s.cache && s'.callers.Keys == s.callers.Keys + {c}
  {
    var a := Next(cfg, s, Arrive(c, kid));
    var b := Next(cfg, a, CallerGo(c));
    var d := Next(cfg, b, CallerGo(c));
    s' := Next(cfg, d, CallerGo(c));
    hide Next;
    FourSteps(cfg, s, Arrive(c, kid), CallerGo(c), CallerGo(c), CallerGo(c));
  }

  lemma SecondSends(cfg: Config, s: State, now: int) returns (s': State)
    requires s.group.current.Some? && s.group.current.value.forKid && s.group.current.value.phase.Launched?
    requires s.clock <= now && !InCooldown(now, s.gate.lastKid)
    ensures After(cfg, s, [Tick(now), FlightGo, FlightGo, FlightGo]) == Some(s')
    ensures s'.gate.sends == s.gate.sends + [now] && s'.gate.stamps == s.gate.stamps + [now]
  {
    var a := Next(cfg, s, Tick(now));
    var b := Next(cfg, a, FlightGo);
    var d := Next(cfg, b, FlightGo);
    s' := Next(cfg, d, FlightGo);
    hide Next;
    FourSteps(cfg, s, Tick(now), FlightGo, FlightGo, FlightGo);
  }

  lemma ThreeSteps(cfg: Config, s: State, a: Action, b: Action, c: Action)
    requires Enabled(s, a)
    requires Enabled(Next(cfg, s, a), b)
    requires Enabled(Next(cfg, Next(cfg, s, a), b), c)
    ensures After(cfg, s, [a, b, c]) == Some(Next(cfg, Next(cfg, Next(cfg, s, a), b), c))
  {
    hide Next, Enabled;
    assert [a, b, c][1..] == [b, c] && [b, c][1..] == [c] && [c][1..] == [];
    var s1, s2 := Next(cfg, s, a), Next(cfg, Next(cfg, s, a), b);
    assert After(cfg, s2, [c]) == Some(Next(cfg, s2, c));
    assert After(cfg, s1, [b, c]) == Some(Next(cfg, s2, c));
  }

  lemma FourSteps(cfg: Config, s: State, a: Action, b: Action, c: Action, d: Action)
    requires Enabled(s, a)
    requires Enabled(Next(cfg, s, a), b)
    requires Enabled(Next(cfg, Next(cfg, s, a), b), c)
    requires Enabled(Next(cfg, Next(cfg, Next(cfg, s, a), b), c), d)
    ensures After(cfg, s, [a, b, c, d]) == Some(Next(cfg, Next(cfg, Next(cfg, Next(cfg, s, a), b), c), d))
  {
    hide Next, Enabled;
    assert [a, b, c, d][1..] == [b, c, d] && [b, c, d][1..] == [c, d] && [c, d][1..] == [d] && [d][1..] == [];
    var s1, s2, s3 := Next(cfg, s, a), Next(cfg, Next(cfg, s, a), b), Next(cfg, Next(cfg, Next(cfg, s, a), b), c);
    assert After(cfg, s3, [d]) == Some(Next(cfg, s3, d));
    assert After(cfg, s2, [c, d]) == Some(Next(cfg, s3, d));
    assert After(cfg, s1, [b, c, d]) == Some(Next(cfg, s3, d));
  }
}
