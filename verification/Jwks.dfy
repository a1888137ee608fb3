/** The JWKS validator as a concurrent state machine: the background goroutine (first fetch with
    back-off, slow poll, periodic refresh), the shared refresh flight of singleflight, and any
    number of request-handling callers (key-manager/internal/api/jwt_validator.go).

    Every step is one atomic action of one goroutine.  The clock is positive and never runs back. */
module Jwks {
  import opened Wrappers
  import opened JwksKeys

  // ---------- state ----------

  /** The background goroutine.  Direct and DirectPoll have an HTTP request of their own out. */
  datatype Background =
    | Trying(attempt: nat, backoff: int)
    | Direct(attempt: nat, backoff: int, request: nat)
    | Sleeping(attempt: nat, backoff: int)
    | Polling
    | DirectPoll(request: nat)
    | Fetched
    | Ticking
    | Refreshing(flight: nat)
    | Exited

  datatype Outcome = Suppressed | FetchFailed | Published(index: nat)

  /** A callback under singleflight: it starts, an unknown-kid one reads the clock and the last
      stamp, decides, and (if cleared) sends; a periodic one sends right away. */
  datatype Phase =
    | Launched
    | Judging(now: int, last: int)
    | Cleared
    | Sent(request: nat)
    | Landed(outcome: Outcome)

  datatype Flight = Flight(id: nat, forKid: bool, phase: Phase)

  /** A ValidateToken call.  `via` is the flight whose result the caller received, if it did not
      give up waiting. */
  datatype Stage =
    | Arrived
    | LookingUp
    | Missed
    | Waiting(flight: nat)
    | Rechecking(via: Option<nat>)
    | GotKey(key: PublicKey)
    | NoKey
    | NotReady

  datatype Caller = Caller(kid: string, stage: Stage)

  /** The HTTP requests that are out, and how many there have been. */
  datatype Network = Network(outstanding: set<nat>, requests: nat)

  /** The key cache, and every set published so far. */
  datatype Cache = Cache(keys: KeySet, published: seq<KeySet>)

  /** The unknown-kid gate: its last stamp (0 for none), all stamps, and the times at which
      unknown-kid requests went out. */
  datatype Gate = Gate(lastKid: int, stamps: seq<int>, sends: seq<int>)

  /** The flight in progress, the number of flights so far, and how the finished ones ended. */
  datatype Group = Group(current: Option<Flight>, count: nat, landed: map<nat, Outcome>)

  datatype State = State(
    clock: int, stopped: bool, ready: bool,
    background: Background, net: Network, cache: Cache, gate: Gate, group: Group,
    callers: map<nat, Caller>)

  datatype Config = Config(parse: Parser, maxAttempts: nat, initialBackoff: int)

  ghost predicate Initial(cfg: Config, s: State) {
    && s.clock > 0 && !s.ready && !s.stopped
    && s.background == (if cfg.maxAttempts > 0 then Trying(1, cfg.initialBackoff) else Polling)
    && s.net == Network({}, 0) && s.cache == Cache(map[], []) && s.gate == Gate(0, [], [])
    && s.group == Group(None, 0, map[]) && s.callers == map[]
  }

  // ---------- steps ----------

  datatype Action =
    | Tick(t: int)
    | Stop
    | BackgroundGo                                  // the background goroutine's next move
    | TimerWins                                     // its timer fires, and the select takes that though it is stopped
    | BackgroundReply(resp: Response)               // the answer to its own request
    | FlightGo                                      // the shared flight's next move
    | FlightReply(resp: Response)
    | Arrive(c: nat, kid: string)
    | CallerGo(c: nat)
    | GiveUp(c: nat)                                // the caller's context is cancelled while it waits

  predicate Enabled(s: State, a: Action) {
    match a
    case Tick(t) => s.clock <= t
    case Stop => true
    case BackgroundGo =>
      (match s.background
       case Direct(_, _, _) => false
       case DirectPoll(_) => false
       case Refreshing(f) => f in s.group.landed || s.stopped
       case Exited => false
       case _ => true)
    case TimerWins => s.stopped && (s.background.Polling? || s.background.Ticking?)
    case BackgroundReply(_) => s.background.Direct? || s.background.DirectPoll?
    case FlightGo => s.group.current.Some? && !s.group.current.value.phase.Sent?
    case FlightReply(_) => s.group.current.Some? && s.group.current.value.phase.Sent?
    case Arrive(c, _) => c !in s.callers
    case CallerGo(c) =>
      && c in s.callers
      && (match s.callers[c].stage
          case Waiting(f) => f in s.group.landed
          case GotKey(_) => false
          case NoKey => false
          case NotReady => false
          case _ => true)
    case GiveUp(c) => c in s.callers && s.callers[c].stage.Waiting?
  }

  function Next(cfg: Config, s: State, a: Action): State
    requires Enabled(s, a)
  {
    match a
    case Tick(t) => s.(clock := t)
    case Stop => s.(stopped := true)
    case BackgroundGo => AfterBackground(cfg, s)
    case TimerWins => AfterTimer(s)
    case BackgroundReply(resp) => AfterBackgroundReply(cfg, s, resp)
    case FlightGo => AfterFlight(s)
    case FlightReply(resp) => AfterFlightReply(cfg, s, resp)
    case Arrive(c, kid) => s.(callers := s.callers[c := Caller(kid, Arrived)])
    case CallerGo(c) => AfterCaller(s, c)
    case GiveUp(c) => s.(callers := s.callers[c := s.callers[c].(stage := Rechecking(None))])
  }

  /** Sends an HTTP request; its number is `n.requests`. */
  function Sending(n: Network): Network {
    Network(n.outstanding + {n.requests}, n.requests + 1)
  }

  function Answered(n: Network, request: nat): Network {
    n.(outstanding := n.outstanding - {request})
  }

  /** DoChan: joins the flight in progress or launches one. */
  function Joined(g: Group, forKid: bool): (r: Group)
    ensures r.current.Some?
  {
    if g.current.Some? then g else g.(current := Some(Flight(g.count, forKid, Launched)), count := g.count + 1)
  }

  /** The slow-poll timer or the refresh ticker fires. */
  function AfterTimer(s: State): State {
    if s.background.Polling? then s.(net := Sending(s.net), background := DirectPoll(s.net.requests))
    else s.(group := Joined(s.group, false), background := Refreshing(Joined(s.group, false).current.value.id))
  }

  function AfterBackground(cfg: Config, s: State): State {
    match s.background
    case Trying(n, b) =>
      if s.stopped then s.(background := Exited)
      else s.(net := Sending(s.net), background := Direct(n, b, s.net.requests))
    case Sleeping(n, b) => s.(background := Trying(n + 1, 2 * b))
    case Polling => if s.stopped then s.(background := Exited) else AfterTimer(s)
    case Fetched => s.(ready := true, background := Ticking)
    case Ticking => if s.stopped then s.(background := Exited) else AfterTimer(s)
    case Refreshing(_) => s.(background := Ticking)
    case _ => s
  }

  /** The cache after a response: new keys if it brought any. */
  function Publish(cfg: Config, c: Cache, resp: Response): Cache {
    match FetchedKeys(cfg.parse, resp)
    case Some(keys) => Cache(keys, c.published + [keys])
    case None => c
  }

  function AfterBackgroundReply(cfg: Config, s: State, resp: Response): State
    requires s.background.Direct? || s.background.DirectPoll?
  {
    s.(net := Answered(s.net, s.background.request),
       cache := Publish(cfg, s.cache, resp),
       background :=
         if FetchedKeys(cfg.parse, resp).Some? then Fetched
         else if s.background.Direct? && s.background.attempt < cfg.maxAttempts
             then Sleeping(s.background.attempt, s.background.backoff)
         else Polling)
  }

  function InPhase(g: Group, p: Phase): Group
    requires g.current.Some?
  {
    g.(current := Some(g.current.value.(phase := p)))
  }

  function AfterFlight(s: State): State
    requires s.group.current.Some?
  {
    var f := s.group.current.value;
    match f.phase
    case Launched =>
      if f.forKid then s.(group := InPhase(s.group, Judging(s.clock, s.gate.lastKid)))
      else s.(group := InPhase(s.group, Sent(s.net.requests)), net := Sending(s.net))
    case Judging(now, last) =>
      if InCooldown(now, last) then s.(group := InPhase(s.group, Landed(Suppressed)))
      else s.(group := InPhase(s.group, Cleared), gate := s.gate.(lastKid := now, stamps := s.gate.stamps + [now]))
    case Cleared =>
      s.(group := InPhase(s.group, Sent(s.net.requests)), net := Sending(s.net),
         gate := s.gate.(sends := s.gate.sends + [s.clock]))
    case Landed(o) => s.(group := Group(None, s.group.count, s.group.landed[f.id := o]))
    case Sent(_) => s
  }

  function AfterFlightReply(cfg: Config, s: State, resp: Response): State
    requires s.group.current.Some? && s.group.current.value.phase.Sent?
  {
    s.(net := Answered(s.net, s.group.current.value.phase.request),
       cache := Publish(cfg, s.cache, resp),
       group := InPhase(s.group,
         Landed(if FetchedKeys(cfg.parse, resp).Some? then Published(|s.cache.published|) else FetchFailed)))
  }

  function AfterCaller(s: State, c: nat): State
    requires c in s.callers
  {
    var caller := s.callers[c];
    match caller.stage
    case Arrived => s.(callers := s.callers[c := caller.(stage := if s.ready then LookingUp else NotReady)])
    case LookingUp =>
      var stage := if caller.kid in s.cache.keys then GotKey(s.cache.keys[caller.kid]) else Missed;
      s.(callers := s.callers[c := caller.(stage := stage)])
    case Missed =>
      s.(group := Joined(s.group, true),
         callers := s.callers[c := caller.(stage := Waiting(Joined(s.group, true).current.value.id))])
    case Waiting(f) => s.(callers := s.callers[c := caller.(stage := Rechecking(Some(f)))])
    case Rechecking(_) =>
      var stage := if caller.kid in s.cache.keys then GotKey(s.cache.keys[caller.kid]) else NoKey;
      s.(callers := s.callers[c := caller.(stage := stage)])
    case _ => s
  }

  // ---------- one request at a time ----------

  predicate BeforeReady(b: Background) {
    b.Trying? || b.Direct? || b.Sleeping? || b.Polling? || b.DirectPoll? || b.Fetched?
  }

  function OwnRequest(b: Background): set<nat> {
    if b.Direct? || b.DirectPoll? then {b.request} else {}
  }

  function FlightRequest(f: Option<Flight>): set<nat> {
    if f.Some? && f.value.phase.Sent? then {f.value.phase.request} else {}
  }

  /** Nothing is shared before the validator is ready, and afterwards everything is. */
  ghost predicate Exclusive(n: Network, b: Background, ready: bool, f: Option<Flight>) {
    && n.outstanding == OwnRequest(b) + FlightRequest(f)
    && (forall r :: r in n.outstanding ==> r < n.requests)
    && (BeforeReady(b) ==> !ready)
    && (b.Ticking? || b.Refreshing? ==> ready)
    && (f.Some? ==> ready)
  }

  ghost predicate CallersReady(callers: map<nat, Caller>, ready: bool) {
    forall c :: c in callers && !callers[c].stage.Arrived? && !callers[c].stage.NotReady? ==> ready
  }

  ghost predicate Sharing(s: State) {
    Exclusive(s.net, s.background, s.ready, s.group.current) && CallersReady(s.callers, s.ready)
  }

  lemma SharingKept(cfg: Config, s: State, a: Action)
    requires Sharing(s) && Enabled(s, a)
    ensures Sharing(Next(cfg, s, a))
  {
    hide FetchedKeys, InCooldown;
    if a.CallerGo? || a.GiveUp? {
      assert s.callers[a.c].stage.Arrived? || s.callers[a.c].stage.NotReady? || s.ready;
    }
  }

  /** At most one JWKS request is in flight, over the first fetches, the periodic refresh and all
      refreshes that requests trigger. */
  lemma OneRequestAtATime(s: State)
    requires Sharing(s)
    ensures |s.net.outstanding| <= 1
  {
    if s.group.current.None? {
      assert s.net.outstanding == OwnRequest(s.background);
    } else {
      assert s.net.outstanding == FlightRequest(s.group.current);
    }
  }

  // ---------- the cache ----------

  /** The cache holds what the latest successful fetch parsed, and that is never empty. */
  ghost predicate CacheGood(c: Cache, ready: bool, b: Background) {
    && c.keys == (if c.published == [] then map[] else c.published[|c.published| - 1])
    && (forall i :: 0 <= i < |c.published| ==> c.published[i] != map[])
    && (ready || b.Fetched? ==> c.published != [])
  }

  lemma CacheGoodKept(cfg: Config, s: State, a: Action)
    requires CacheGood(s.cache, s.ready, s.background) && Enabled(s, a)
    ensures var s' := Next(cfg, s, a); CacheGood(s'.cache, s'.ready, s'.background)
  {
    match a
    case BackgroundReply(resp) => PublishGood(cfg, s, resp); hide Publish, FetchedKeys;
    case FlightReply(resp) => PublishGood(cfg, s, resp); hide Publish, FetchedKeys;
    case _ => hide Publish;
  }

  lemma PublishGood(cfg: Config, s: State, resp: Response)
    requires CacheGood(s.cache, s.ready, s.background)
    ensures CacheGood(Publish(cfg, s.cache, resp), s.ready, s.background)
    ensures FetchedKeys(cfg.parse, resp).Some? ==> CacheGood(Publish(cfg, s.cache, resp), s.ready, Fetched)
  {}

  /** Readiness is never withdrawn, and only a fetch that brought RSA keys touches the cache,
      which then holds exactly those. */
  lemma CacheStep(cfg: Config, s: State, a: Action)
    requires Enabled(s, a)
    ensures s.ready ==> Next(cfg, s, a).ready
    ensures Next(cfg, s, a).cache != s.cache ==>
      && (a.BackgroundReply? || a.FlightReply?) && a.resp.Body?
      && var keys := ParseKeys(cfg.parse, a.resp.keys);
         keys != map[] && Next(cfg, s, a).cache == Cache(keys, s.cache.published + [keys])
    ensures (a.BackgroundReply? || a.FlightReply?) && a.resp.Body? && ParseKeys(cfg.parse, a.resp.keys) != map[] ==>
      Next(cfg, s, a).cache.keys == ParseKeys(cfg.parse, a.resp.keys)
  {}

  // ---------- flights ----------

  ghost predicate GroupGood(g: Group, published: nat) {
    && (g.current.Some? ==> g.current.value.id < g.count && g.current.value.id !in g.landed)
    && (forall f :: f in g.landed ==> f < g.count)
    && (forall f :: 0 <= f < g.count ==> f in g.landed || (g.current.Some? && g.current.value.id == f))
    && (g.current.Some? && g.current.value.phase.Landed? && g.current.value.phase.outcome.Published? ==>
          g.current.value.phase.outcome.index < published)
    && (forall f :: f in g.landed && g.landed[f].Published? ==> g.landed[f].index < published)
  }

  ghost predicate CallersGood(callers: map<nat, Caller>, g: Group) {
    && (forall c :: c in callers && callers[c].stage.Waiting? ==> callers[c].stage.flight < g.count)
    && (forall c :: c in callers && callers[c].stage.Rechecking? && callers[c].stage.via.Some? ==>
          callers[c].stage.via.value in g.landed)
  }

  ghost predicate FlightsGood(s: State) {
    GroupGood(s.group, |s.cache.published|) && CallersGood(s.callers, s.group)
  }

  lemma JoinedGood(g: Group, forKid: bool, published: nat)
    requires GroupGood(g, published)
    ensures GroupGood(Joined(g, forKid), published)
    ensures Joined(g, forKid).current.value.id < Joined(g, forKid).count
  {}

  lemma LandedGood(g: Group, published: nat, o: Outcome)
    requires GroupGood(g, published) && g.current.Some? && g.current.value.phase == Landed(o)
    ensures GroupGood(Group(None, g.count, g.landed[g.current.value.id := o]), published)
  {}

  ghost predicate MovedOn(g: Group, g': Group, p: Phase, published: nat) {
    && g.current.Some? && g' == InPhase(g, p)
    && (p.Landed? && p.outcome.Published? ==> p.outcome.index < published)
  }

  /** Every step leaves the group alone, moves the flight on, joins or launches one, or lets it land. */
  lemma GroupStep(cfg: Config, s: State, a: Action)
    requires Enabled(s, a)
    ensures var g, g' := s.group, Next(cfg, s, a).group;
      || g' == g
      || (exists kid :: g' == Joined(g, kid))
      || (a.FlightGo? && g.current.value.phase.Landed?
          && g' == Group(None, g.count, g.landed[g.current.value.id := g.current.value.phase.outcome]))
      || exists p :: MovedOn(g, g', p, |Next(cfg, s, a).cache.published|)
    ensures |s.cache.published| <= |Next(cfg, s, a).cache.published|
  {
    hide FetchedKeys, InCooldown;
    match a
    case BackgroundGo => assert Joined(s.group, false) == Joined(s.group, false);
    case TimerWins => assert Joined(s.group, false) == Joined(s.group, false);
    case CallerGo(_) => assert Joined(s.group, true) == Joined(s.group, true);
    case FlightGo =>
      var p := AfterFlight(s).group.current;
      if p.Some? && !s.group.current.value.phase.Landed? {
        assert MovedOn(s.group, AfterFlight(s).group, p.value.phase, |s.cache.published|);
      }
    case FlightReply(resp) =>
      var s' := AfterFlightReply(cfg, s, resp);
      assert MovedOn(s.group, s'.group, s'.group.current.value.phase, |s'.cache.published|);
    case _ =>
  }

  lemma GroupGoodKept(cfg: Config, s: State, a: Action)
    requires GroupGood(s.group, |s.cache.published|) && Enabled(s, a)
    ensures GroupGood(Next(cfg, s, a).group, |Next(cfg, s, a).cache.published|)
  {
    GroupStep(cfg, s, a);
    hide Next, Enabled;
    var g, g' := s.group, Next(cfg, s, a).group;
    if exists kid :: g' == Joined(g, kid) {
      var kid :| g' == Joined(g, kid);
      JoinedGood(g, kid, |s.cache.published|);
    } else if a.FlightGo? && g.current.Some? && g.current.value.phase.Landed? {
      LandedGood(g, |s.cache.published|, g.current.value.phase.outcome);
    }
  }

  lemma CallersGoodKept(cfg: Config, s: State, a: Action)
    requires CallersGood(s.callers, s.group) && Enabled(s, a)
    requires s.group.current.Some? ==> s.group.current.value.id < s.group.count
    ensures CallersGood(Next(cfg, s, a).callers, Next(cfg, s, a).group)
  {
    if a.CallerGo? || a.GiveUp? || a.Arrive? {
      CallerKeepsCallers(cfg, s, a);
    } else {
      OthersLeaveCallers(cfg, s, a);
      hide Next, Enabled;
    }
  }

  lemma OthersLeaveCallers(cfg: Config, s: State, a: Action)
    requires Enabled(s, a) && !a.CallerGo? && !a.GiveUp? && !a.Arrive?
    ensures var s' := Next(cfg, s, a);
      s'.callers == s.callers && s.group.count <= s'.group.count && s.group.landed.Keys <= s'.group.landed.Keys
  {
    hide FetchedKeys, InCooldown;
  }

  lemma CallerKeepsCallers(cfg: Config, s: State, a: Action)
    requires CallersGood(s.callers, s.group) && Enabled(s, a)
    requires a.CallerGo? || a.GiveUp? || a.Arrive?
    requires s.group.current.Some? ==> s.group.current.value.id < s.group.count
    ensures CallersGood(Next(cfg, s, a).callers, Next(cfg, s, a).group)
  {}

  lemma FlightsGoodKept(cfg: Config, s: State, a: Action)
    requires FlightsGood(s) && Enabled(s, a)
    ensures FlightsGood(Next(cfg, s, a))
  {
    GroupGoodKept(cfg, s, a);
    CallersGoodKept(cfg, s, a);
  }

  // ---------- back-off ----------

  /** The active attempts are numbered 1 to the budget and their pauses double from the first. */
  ghost predicate BackoffGood(cfg: Config, b: Background) {
    b.Trying? || b.Direct? || b.Sleeping? ==>
      1 <= b.attempt <= cfg.maxAttempts && b.backoff == Pause(cfg.initialBackoff, b.attempt - 1)
        && (b.Sleeping? ==> b.attempt < cfg.maxAttempts)
  }

  lemma BackoffGoodKept(cfg: Config, s: State, a: Action)
    requires BackoffGood(cfg, s.background) && Enabled(s, a)
    ensures BackoffGood(cfg, Next(cfg, s, a).background)
  {
    hide FetchedKeys, InCooldown;
  }

  // ---------- the rate of unknown-kid fetches ----------

  /** Each request goes out between its own stamp and the next one. */
  ghost predicate Interleaved(stamps: seq<int>, sends: seq<int>) {
    && |sends| <= |stamps| <= |sends| + 1
    && (forall i :: 0 <= i < |sends| ==> stamps[i] <= sends[i])
    && (forall i :: 0 < i < |stamps| ==> sends[i - 1] <= stamps[i])
  }

  ghost predicate RateGood(clock: int, g: Gate, f: Option<Flight>) {
    && clock > 0
    && g.lastKid == LastOf(g.stamps) && (g.stamps != [] ==> g.lastKid > 0)
    && LastOf(g.stamps) <= clock && LastOf(g.sends) <= clock
    && Spaced(g.stamps) && Interleaved(g.stamps, g.sends)
    && |g.stamps| == |g.sends| + (if f.Some? && f.value.phase.Cleared? then 1 else 0)
    && (f.Some? && f.value.phase.Judging? ==>
          && f.value.phase.last == g.lastKid && 0 < f.value.phase.now <= clock
          && g.lastKid <= f.value.phase.now && LastOf(g.sends) <= f.value.phase.now)
  }

  predicate AtTheGate(f: Option<Flight>) {
    f.Some? && (f.value.phase.Judging? || f.value.phase.Cleared?)
  }

  /** Only the flight and the clock move what the rate depends on. */
  lemma OthersLeaveRate(cfg: Config, s: State, a: Action)
    requires Enabled(s, a) && !a.FlightGo? && !a.Tick?
    ensures var s' := Next(cfg, s, a);
      && s'.clock == s.clock && s'.gate == s.gate
      && (s'.group.current == s.group.current || (!AtTheGate(s'.group.current) && !AtTheGate(s.group.current)))
  {
    hide FetchedKeys;
  }

  lemma StampKeepsSpacing(stamps: seq<int>, sends: seq<int>, now: int)
    requires Spaced(stamps) && Interleaved(stamps, sends) && |stamps| == |sends|
    requires stamps != [] ==> now - LastOf(stamps) >= COOLDOWN
    requires LastOf(sends) <= now
    ensures Spaced(stamps + [now]) && Interleaved(stamps + [now], sends) && LastOf(stamps + [now]) == now
  {
    StampKeepsSpaced(stamps, now);
  }

  lemma SendKeepsSpacing(stamps: seq<int>, sends: seq<int>, now: int)
    requires Interleaved(stamps, sends) && |stamps| == |sends| + 1 && LastOf(stamps) <= now
    ensures Interleaved(stamps, sends + [now]) && LastOf(sends + [now]) == now
  {}

  lemma RateFlight(s: State)
    requires RateGood(s.clock, s.gate, s.group.current) && Enabled(s, FlightGo)
    ensures var s' := AfterFlight(s); RateGood(s'.clock, s'.gate, s'.group.current)
  {
    hide Spaced, Interleaved, LastOf;
    var g := s.gate;
    if s.group.current.value.phase.Judging? {
      var now := s.group.current.value.phase.now;
      if !InCooldown(now, g.lastKid) { StampKeepsSpacing(g.stamps, g.sends, now); }
    } else if s.group.current.value.phase.Cleared? {
      SendKeepsSpacing(g.stamps, g.sends, s.clock);
    }
  }

  lemma RateGoodKept(cfg: Config, s: State, a: Action)
    requires RateGood(s.clock, s.gate, s.group.current) && Enabled(s, a)
    ensures var s' := Next(cfg, s, a); RateGood(s'.clock, s'.gate, s'.group.current)
  {
    hide AfterFlight, AfterBackground, AfterCaller, AfterBackgroundReply, AfterFlightReply;
    match a
    case FlightGo => RateFlight(s);
    case Tick(_) =>
    case _ => OthersLeaveRate(cfg, s, a);
  }

  // ---------- all runs ----------

  ghost predicate Inv(cfg: Config, s: State) {
    && Sharing(s) && CacheGood(s.cache, s.ready, s.background) && FlightsGood(s)
    && RateGood(s.clock, s.gate, s.group.current) && BackoffGood(cfg, s.background)
  }

  lemma StepKeepsInv(cfg: Config, s: State, a: Action)
    requires Inv(cfg, s) && Enabled(s, a)
    ensures Inv(cfg, Next(cfg, s, a))
  {
    hide Next, Enabled, Sharing, CacheGood, FlightsGood, RateGood, BackoffGood;
    SharingKept(cfg, s, a);
    CacheGoodKept(cfg, s, a);
    FlightsGoodKept(cfg, s, a);
    RateGoodKept(cfg, s, a);
    BackoffGoodKept(cfg, s, a);
  }

  ghost predicate IsRun(cfg: Config, ss: seq<State>, acts: seq<Action>) {
    && |ss| == |acts| + 1 && Initial(cfg, ss[0])
    && forall i :: 0 <= i < |acts| ==> Enabled(ss[i], acts[i]) && ss[i + 1] == Next(cfg, ss[i], acts[i])
  }

  lemma {:induction false} InvAlways(cfg: Config, ss: seq<State>, acts: seq<Action>, i: nat)
    requires IsRun(cfg, ss, acts) && i < |ss|
    ensures Inv(cfg, ss[i])
    ensures |ss[i].net.outstanding| <= 1
  {
    hide Next, Enabled, Sharing;
    if i == 0 {
      InitialInv(cfg, ss[0]);
    } else {
      InvAlways(cfg, ss, acts, i - 1);
      StepKeepsInv(cfg, ss[i - 1], acts[i - 1]);
    }
    OneRequestAtATime(ss[i]);
  }

  lemma InitialInv(cfg: Config, s: State)
    requires Initial(cfg, s)
    ensures Inv(cfg, s)
  {}

  lemma GoodOverRun(cfg: Config, ss: seq<State>, acts: seq<Action>, i: nat)
    requires IsRun(cfg, ss, acts) && i < |ss|
    ensures GroupGood(ss[i].group, |ss[i].cache.published|)
    ensures CacheGood(ss[i].cache, ss[i].ready, ss[i].background)
  {
    InvAlways(cfg, ss, acts, i);
    hide IsRun, Sharing, RateGood, BackoffGood, GroupGood, CacheGood, CallersGood;
  }

  /** One step of a run. */
  lemma StepOf(cfg: Config, ss: seq<State>, acts: seq<Action>, i: nat)
    requires IsRun(cfg, ss, acts) && i < |acts|
    ensures Enabled(ss[i], acts[i]) && ss[i + 1] == Next(cfg, ss[i], acts[i])
  {}

  // ---------- the cache over a run ----------

  predicate IsReply(a: Action) {
    a.BackgroundReply? || a.FlightReply?
  }

  /** The key set of the latest answer that brought RSA keys; no keys if none did. */
  function LatestFetch(cfg: Config, acts: seq<Action>): KeySet {
    if acts == [] then map[]
    else
      var a := acts[|acts| - 1];
      if IsReply(a) && FetchedKeys(cfg.parse, a.resp).Some? then FetchedKeys(cfg.parse, a.resp).value
      else LatestFetch(cfg, acts[..|acts| - 1])
  }

  lemma {:induction false} CacheIsLatestFetch(cfg: Config, ss: seq<State>, acts: seq<Action>, i: nat)
    requires IsRun(cfg, ss, acts) && i < |ss|
    ensures ss[i].cache.keys == LatestFetch(cfg, acts[..i])
  {
    if i > 0 {
      CacheIsLatestFetch(cfg, ss, acts, i - 1);
      CacheStep(cfg, ss[i - 1], acts[i - 1]);
      hide Next, Enabled;
      assert acts[..i][..i - 1] == acts[..i - 1];
    }
  }

  /** Once ready, the validator stays ready, and its cache is the key set of the latest answer that
      brought keys, which is never empty: failed and key-less answers in between leave it. */
  lemma {:induction false} ReadyMeansKeys(cfg: Config, ss: seq<State>, acts: seq<Action>, i: nat, j: nat)
    requires IsRun(cfg, ss, acts) && i <= j < |ss| && ss[i].ready
    ensures ss[j].ready && ss[j].cache.keys == LatestFetch(cfg, acts[..j]) && ss[j].cache.keys != map[]
    decreases j
  {
    hide Next, Enabled, GroupGood;
    CacheIsLatestFetch(cfg, ss, acts, j);
    GoodOverRun(cfg, ss, acts, j);
    if i < j {
      ReadyMeansKeys(cfg, ss, acts, i, j - 1);
      StepOf(cfg, ss, acts, j - 1);
      CacheStep(cfg, ss[j - 1], acts[j - 1]);
    }
    hide IsRun;
  }

  // ---------- shared flights over a run ----------

  /** Step `t` answered flight `f`, and the answer parsed to `keys`. */
  ghost predicate FlightFetched(cfg: Config, ss: seq<State>, acts: seq<Action>, t: nat, f: nat, keys: KeySet)
    requires |ss| == |acts| + 1
  {
    && t < |acts| && acts[t].FlightReply?
    && ss[t].group.current.Some? && ss[t].group.current.value.id == f
    && FetchedKeys(cfg.parse, acts[t].resp) == Some(keys)
  }

  /** How far flight `f` has come, if it published: the index of its key set. */
  ghost predicate PublishedAs(g: Group, f: nat, n: nat) {
    || (f in g.landed && g.landed[f] == Published(n))
    || (g.current.Some? && g.current.value.id == f && g.current.value.phase == Landed(Published(n)))
  }

  lemma PublishedStep(cfg: Config, s: State, a: Action, f: nat, n: nat)
    requires Enabled(s, a) && PublishedAs(Next(cfg, s, a).group, f, n)
    ensures PublishedAs(s.group, f, n)
         || (a.FlightReply? && s.group.current.value.id == f && n == |s.cache.published|
             && FetchedKeys(cfg.parse, a.resp).Some?
             && Next(cfg, s, a).cache.published == s.cache.published + [FetchedKeys(cfg.parse, a.resp).value])
  {
    hide FetchedKeys, InCooldown;
  }

  lemma PublishedGrows(cfg: Config, s: State, a: Action)
    requires Enabled(s, a)
    ensures s.cache.published <= Next(cfg, s, a).cache.published
    ensures s.cache != Next(cfg, s, a).cache ==> |s.cache.published| < |Next(cfg, s, a).cache.published|
  {
    hide FetchedKeys, InCooldown;
  }

  /** Every key set a flight is recorded to have published is the one its own request fetched. */
  lemma {:induction false} FlightPublishesItsSet(cfg: Config, ss: seq<State>, acts: seq<Action>, i: nat, f: nat, n: nat)
    requires IsRun(cfg, ss, acts) && i < |ss| && PublishedAs(ss[i].group, f, n)
    ensures n < |ss[i].cache.published|
    ensures exists t: nat :: t < i && FlightFetched(cfg, ss, acts, t, f, ss[i].cache.published[n])
  {
    if i > 0 {
      var s, a := ss[i - 1], acts[i - 1];
      StepOf(cfg, ss, acts, i - 1);
      hide Next, Enabled, PublishedAs;
      PublishedStep(cfg, s, a, f, n);
      PublishedGrows(cfg, s, a);
      if PublishedAs(s.group, f, n) {
        FlightPublishesItsSet(cfg, ss, acts, i - 1, f, n);
        var t: nat :| t < i - 1 && FlightFetched(cfg, ss, acts, t, f, s.cache.published[n]);
        assert FlightFetched(cfg, ss, acts, t, f, ss[i].cache.published[n]);
      } else {
        assert FlightFetched(cfg, ss, acts, i - 1, f, ss[i].cache.published[n]);
      }
    }
  }

  /** In every run a waiting caller's flight has landed or is the one in the air: nobody waits for
      a flight that is gone. */
  lemma WaitersAreServed(cfg: Config, ss: seq<State>, acts: seq<Action>, i: nat, c: nat)
    requires IsRun(cfg, ss, acts) && i < |ss| && c in ss[i].callers && ss[i].callers[c].stage.Waiting?
    ensures var f := ss[i].callers[c].stage.flight;
      f in ss[i].group.landed || (ss[i].group.current.Some? && ss[i].group.current.value.id == f)
  {
    InvAlways(cfg, ss, acts, i);
  }

  /** Flight `f` published the key set that is in the cache now. */
  ghost predicate Latest(s: State, f: nat) {
    f in s.group.landed && s.group.landed[f].Published? && s.group.landed[f].index + 1 == |s.cache.published|
  }

  /** A caller that waited for flight `f`: it waits still, is about to look again, or has looked
      after the landing, and then, if the flight's key set is still current, got what that has. */
  ghost predicate Sharer(s: State, c: nat, kid: string, f: nat) {
    && c in s.callers && s.callers[c].kid == kid
    && match s.callers[c].stage
       case Waiting(g) => g == f
       case Rechecking(via) => via == Some(f) && f in s.group.landed
       case GotKey(key) => f in s.group.landed && (Latest(s, f) ==> kid in s.cache.keys && key == s.cache.keys[kid])
       case NoKey => f in s.group.landed && (Latest(s, f) ==> kid !in s.cache.keys)
       case _ => false
  }

  lemma LandedStays(cfg: Config, s: State, a: Action, f: nat)
    requires Enabled(s, a) && GroupGood(s.group, |s.cache.published|) && f in s.group.landed
    ensures f in Next(cfg, s, a).group.landed && Next(cfg, s, a).group.landed[f] == s.group.landed[f]
  {
    GroupStep(cfg, s, a);
    hide Next, Enabled;
  }

  /** A set that is the latest now, by a flight that had landed, was the latest before. */
  lemma LatestBefore(cfg: Config, s: State, a: Action, f: nat)
    requires Enabled(s, a) && GroupGood(s.group, |s.cache.published|) && f in s.group.landed
    requires Latest(Next(cfg, s, a), f)
    ensures Latest(s, f) && Next(cfg, s, a).cache == s.cache
  {
    LandedStays(cfg, s, a, f);
    PublishedGrows(cfg, s, a);
    hide Next, Enabled;
  }

  lemma OthersLeaveCaller(cfg: Config, s: State, a: Action, c: nat)
    requires Enabled(s, a) && c in s.callers && a != CallerGo(c) && a != GiveUp(c)
    ensures c in Next(cfg, s, a).callers && Next(cfg, s, a).callers[c] == s.callers[c]
  {
    hide FetchedKeys, InCooldown;
  }

  lemma SharerStep(cfg: Config, s: State, a: Action, c: nat, kid: string, f: nat)
    requires Enabled(s, a) && GroupGood(s.group, |s.cache.published|) && Sharer(s, c, kid, f) && a != GiveUp(c)
    ensures Sharer(Next(cfg, s, a), c, kid, f)
  {
    if a == CallerGo(c) {
      assert Next(cfg, s, a) == AfterCaller(s, c);
    } else {
      OthersLeaveCaller(cfg, s, a, c);
      if f in s.group.landed {
        LandedStays(cfg, s, a, f);
        if Latest(Next(cfg, s, a), f) { LatestBefore(cfg, s, a, f); }
      }
      hide Next, Enabled;
    }
  }

  lemma SharerStarts(s: State, c: nat, f: nat)
    requires c in s.callers && s.callers[c].stage == Waiting(f)
    ensures Sharer(s, c, s.callers[c].kid, f)
  {}

  lemma {:induction false} SharerAlways(cfg: Config, ss: seq<State>, acts: seq<Action>, i: nat, k: nat, c: nat, f: nat)
    requires IsRun(cfg, ss, acts) && i <= k < |ss|
    requires c in ss[i].callers && ss[i].callers[c].stage == Waiting(f)
    requires forall t :: i <= t < k ==> acts[t] != GiveUp(c)
    ensures Sharer(ss[k], c, ss[i].callers[c].kid, f)
    decreases k
  {
    hide Next, Enabled, Sharer, GroupGood, CacheGood;
    if i < k {
      SharerAlways(cfg, ss, acts, i, k - 1, c, f);
      GoodOverRun(cfg, ss, acts, k - 1);
      StepOf(cfg, ss, acts, k - 1);
      hide IsRun;
      SharerStep(cfg, ss[k - 1], acts[k - 1], c, ss[i].callers[c].kid, f);
    } else {
      hide IsRun;
      SharerStarts(ss[i], c, f);
    }
  }

  lemma Rechecks(cfg: Config, s: State, c: nat)
    requires c in s.callers && s.callers[c].stage.Rechecking?
    ensures Enabled(s, CallerGo(c)) && c in Next(cfg, s, CallerGo(c)).callers
    ensures var kid := s.callers[c].kid;
      Next(cfg, s, CallerGo(c)).callers[c].stage == if kid in s.cache.keys then GotKey(s.cache.keys[kid]) else NoKey
  {}

  /** The caller has its key if the set in the cache has its kid and failed only if it has not,
      unless it has yet to look; then it can, and will find it so. */
  ghost predicate Resolved(cfg: Config, s: State, c: nat, kid: string, f: nat) {
    && c in s.callers && s.callers[c].kid == kid
    && match s.callers[c].stage
       case Waiting(g) => g == f && Enabled(s, CallerGo(c))
       case Rechecking(via) =>
         && via == Some(f) && Enabled(s, CallerGo(c))
         && Next(cfg, s, CallerGo(c)).callers[c].stage
            == if kid in s.cache.keys then GotKey(s.cache.keys[kid]) else NoKey
       case GotKey(key) => kid in s.cache.keys && key == s.cache.keys[kid]
       case NoKey => kid !in s.cache.keys
       case _ => false
  }

  lemma SharerResolved(cfg: Config, s: State, c: nat, kid: string, f: nat)
    requires Sharer(s, c, kid, f) && Latest(s, f)
    ensures Resolved(cfg, s, c, kid, f)
  {
    if s.callers[c].stage.Rechecking? { Rechecks(cfg, s, c); }
    hide Next;
  }

  lemma LatestIsItsFlights(cfg: Config, ss: seq<State>, acts: seq<Action>, k: nat, f: nat)
    requires IsRun(cfg, ss, acts) && k < |ss| && Latest(ss[k], f)
    ensures exists t: nat :: t < k && FlightFetched(cfg, ss, acts, t, f, ss[k].cache.keys)
  {
    GoodOverRun(cfg, ss, acts, k);
    hide Next, Enabled, FlightFetched, GroupGood;
    var n := |ss[k].cache.published| - 1;
    assert PublishedAs(ss[k].group, f, n);
    hide Latest, PublishedAs;
    FlightPublishesItsSet(cfg, ss, acts, k, f, n);
    hide IsRun;
  }

  /** Over any run: a caller that joined a flight and does not give up, at any later moment at which
      the flight has published and no later fetch has replaced its set.  The cache is then exactly
      the set that the flight's own request fetched, and the caller is resolved by it. */
  lemma SharedFetchResolves(cfg: Config, ss: seq<State>, acts: seq<Action>, i: nat, k: nat, c: nat, f: nat)
    requires IsRun(cfg, ss, acts) && i <= k < |ss|
    requires c in ss[i].callers && ss[i].callers[c].stage == Waiting(f)
    requires forall t :: i <= t < k ==> acts[t] != GiveUp(c)
    requires Latest(ss[k], f)
    ensures exists t: nat :: t < k && FlightFetched(cfg, ss, acts, t, f, ss[k].cache.keys)
    ensures Resolved(cfg, ss[k], c, ss[i].callers[c].kid, f)
  {
    hide Next, Enabled, FlightFetched, Resolved, Sharer, Latest;
    SharerAlways(cfg, ss, acts, i, k, c, f);
    SharerResolved(cfg, ss[k], c, ss[i].callers[c].kid, f);
    LatestIsItsFlights(cfg, ss, acts, k, f);
  }
}
