/** The validator's goroutines, move by move, in the code's own terms
    (key-manager/internal/api/jwt_validator.go). */
module JwksSteps {
  import opened Wrappers
  import opened JwksKeys
  import opened Jwks

  /** The answer brought usable keys. */
  predicate Good(cfg: Config, resp: Response) {
    resp.Body? && ParseKeys(cfg.parse, resp.keys) != map[]
  }

  // ---------- the background goroutine ----------

  /** An attempt that fails is followed by a pause and another one, until the budget is spent; then
      come slow polls, and an answer with keys ends either. */
  ghost predicate AnswerTaken(cfg: Config, b: Background, resp: Response, b': Background) {
    if Good(cfg, resp) then b' == Fetched
    else
      match b
      case Direct(n, pause, _) => b' == if n < cfg.maxAttempts then Sleeping(n, pause) else Polling
      case DirectPoll(_) => b' == Polling
      case _ => false
  }

  /** The goroutine goes down only after Stop, and at its next chance. */
  ghost predicate EndsIfStopped(s: State, a: Action, b': Background) {
    b' == Exited && s.background != Exited <==>
      a.BackgroundGo? && s.stopped && (s.background.Trying? || s.background.Polling? || s.background.Ticking?)
  }

  lemma BackgroundStep(cfg: Config, s: State, a: Action)
    requires Enabled(s, a)
    ensures var b, s' := s.background, Next(cfg, s, a);
      && EndsIfStopped(s, a, s'.background)
      && (a.BackgroundReply? ==> AnswerTaken(cfg, b, a.resp, s'.background))
      && (a.BackgroundGo? && b.Sleeping? ==> s'.background == Trying(b.attempt + 1, 2 * b.backoff))
      && (a.BackgroundGo? && b.Fetched? ==> s'.ready && s'.background == Ticking)
      && (a.BackgroundGo? && b.Refreshing? ==> s'.background == Ticking)
      && (s'.ready && !s.ready ==> a.BackgroundGo? && b.Fetched?)
      && (s'.background != b ==> a.BackgroundGo? || a.BackgroundReply? || a.TimerWins?)
  {
    hide InCooldown;
  }

  /** Exited means stopped, at every moment of every run. */
  lemma {:induction false} ExitedMeansStopped(cfg: Config, ss: seq<State>, acts: seq<Action>, i: nat)
    requires IsRun(cfg, ss, acts) && i < |ss| && ss[i].background.Exited?
    ensures ss[i].stopped
  {
    if i > 0 {
      StepOf(cfg, ss, acts, i - 1);
      BackgroundStep(cfg, ss[i - 1], acts[i - 1]);
      StoppedStays(cfg, ss[i - 1], acts[i - 1]);
      hide Next, Enabled;
      if ss[i - 1].background.Exited? { ExitedMeansStopped(cfg, ss, acts, i - 1); }
    }
  }

  lemma StoppedStays(cfg: Config, s: State, a: Action)
    requires Enabled(s, a)
    ensures s.stopped ==> Next(cfg, s, a).stopped
  {
    hide FetchedKeys, InCooldown;
  }

  // ---------- flights ----------

  /** `g'` has the flight of `g` in progress, or a new one that has not started. */
  ghost predicate JoinsOrLaunches(g: Group, g': Group, forKid: bool) {
    if g.current.Some? then g' == g
    else g'.current == Some(Flight(g.count, forKid, Launched)) && g'.count == g.count + 1 && g'.landed == g.landed
  }

  /** The refresh ticker and a caller whose kid is missing share a flight in progress; the ticker
      launches one that is not for a kid, the caller one that is. */
  lemma WhoLaunches(cfg: Config, s: State, a: Action)
    requires Enabled(s, a)
    ensures var s' := Next(cfg, s, a);
      && (s.background.Ticking? && (a.TimerWins? || (a.BackgroundGo? && !s.stopped)) ==>
            && JoinsOrLaunches(s.group, s'.group, false)
            && s'.background == Refreshing(s'.group.current.value.id))
      && (a.CallerGo? && s.callers[a.c].stage.Missed? ==>
            && JoinsOrLaunches(s.group, s'.group, true)
            && s'.callers[a.c].stage == Waiting(s'.group.current.value.id))
      && (s'.group.count != s.group.count ==>
            || s.background.Ticking?
            || (a.CallerGo? && s.callers[a.c].stage.Missed?))
  {
    hide FetchedKeys, InCooldown;
  }

  /** The flight's HTTP request goes out. */
  ghost predicate SendsNow(s: State, s': State)
    requires s.group.current.Some?
  {
    && s'.group.current == Some(s.group.current.value.(phase := Sent(s.net.requests)))
    && s'.net == Network(s.net.outstanding + {s.net.requests}, s.net.requests + 1)
  }

  /** A flight that is not for a kid sends at once and leaves the gate alone.  One for a kid reads the
      clock and the stamp, and goes on exactly if there is none or it is 30 s old; it then stamps the
      time it read and sends. */
  lemma FlightStep(cfg: Config, s: State)
    requires Enabled(s, FlightGo)
    ensures var f, s' := s.group.current.value, Next(cfg, s, FlightGo);
      match f.phase
      case Launched =>
        && s'.gate == s.gate
        && (f.forKid ==> s'.group.current == Some(f.(phase := Judging(s.clock, s.gate.lastKid))) && s'.net == s.net)
        && (!f.forKid ==> SendsNow(s, s'))
      case Judging(now, last) =>
        s'.net == s.net
        && (if last == 0 || now - last >= 30_000_000_000 then
              s'.group.current == Some(f.(phase := Cleared)) && s'.gate.lastKid == now
            else s'.group.current == Some(f.(phase := Landed(Suppressed))) && s'.gate == s.gate)
      case Cleared => SendsNow(s, s') && s'.gate.lastKid == s.gate.lastKid
      case Landed(o) => s'.group.current == None && s'.group.landed == s.group.landed[f.id := o] && s'.gate == s.gate
      case Sent(_) => true
  {}

  /** An answer lands the flight and, if it brought usable keys, replaces the cache by them. */
  lemma FlightAnswered(cfg: Config, s: State, resp: Response)
    requires Enabled(s, FlightReply(resp))
    ensures var s' := Next(cfg, s, FlightReply(resp));
      && s'.group.current.Some? && s'.group.current.value.id == s.group.current.value.id && s'.gate == s.gate
      && (if Good(cfg, resp) then
            && s'.cache.keys == ParseKeys(cfg.parse, resp.keys)
            && s'.group.current.value.phase == Landed(Published(|s.cache.published|))
          else s'.cache == s.cache && s'.group.current.value.phase == Landed(FetchFailed))
  {}

  // ---------- nothing is stuck ----------

  /** The shared flight is under way and can move on: by itself, or with an answer of any kind. */
  ghost predicate FlightMoves(s: State, f: nat) {
    && s.group.current.Some? && s.group.current.value.id == f
    && (Enabled(s, FlightGo) || forall resp :: Enabled(s, FlightReply(resp)))
  }

  ghost predicate RefreshCounted(s: State) {
    s.background.Refreshing? ==> s.background.flight < s.group.count
  }

  lemma RefreshStep(cfg: Config, s: State, a: Action)
    requires Enabled(s, a) && RefreshCounted(s) && GroupGood(s.group, |s.cache.published|)
    ensures RefreshCounted(Next(cfg, s, a))
  {
    hide FetchedKeys, InCooldown;
  }

  lemma {:induction false} RefreshAlways(cfg: Config, ss: seq<State>, acts: seq<Action>, i: nat)
    requires IsRun(cfg, ss, acts) && i < |ss|
    ensures RefreshCounted(ss[i])
  {
    if i > 0 {
      StepOf(cfg, ss, acts, i - 1);
      RefreshAlways(cfg, ss, acts, i - 1);
      InvAlways(cfg, ss, acts, i - 1);
      hide Next, Enabled, Sharing, CacheGood, RateGood, BackoffGood, RefreshCounted;
      RefreshStep(cfg, ss[i - 1], acts[i - 1]);
    }
  }

  lemma FlightCanMove(s: State, f: nat)
    requires GroupGood(s.group, |s.cache.published|) && f < s.group.count
    ensures f in s.group.landed || FlightMoves(s, f)
  {
    if f !in s.group.landed { assert s.group.current.Some? && s.group.current.value.id == f; }
  }

  /** At every moment of every run each caller has its result, or can take its next step, or waits for
      a flight that can move on; and so does the background goroutine, which may also wait for an
      answer to a request of its own. */
  lemma NothingStuck(cfg: Config, ss: seq<State>, acts: seq<Action>, i: nat)
    requires IsRun(cfg, ss, acts) && i < |ss|
    ensures forall c :: c in ss[i].callers ==>
      var stage := ss[i].callers[c].stage;
      || stage.GotKey? || stage.NoKey? || stage.NotReady?
      || Enabled(ss[i], CallerGo(c))
      || (stage.Waiting? && FlightMoves(ss[i], stage.flight))
    ensures
      || ss[i].background.Exited?
      || Enabled(ss[i], BackgroundGo) || (forall resp :: Enabled(ss[i], BackgroundReply(resp)))
      || (ss[i].background.Refreshing? && FlightMoves(ss[i], ss[i].background.flight))
  {
    var s := ss[i];
    InvAlways(cfg, ss, acts, i);
    RefreshAlways(cfg, ss, acts, i);
    hide Next, Sharing, CacheGood, RateGood, BackoffGood, GroupGood, FlightMoves, IsRun;
    forall c | c in s.callers && s.callers[c].stage.Waiting?
      ensures s.callers[c].stage.flight in s.group.landed || FlightMoves(s, s.callers[c].stage.flight) {
      FlightCanMove(s, s.callers[c].stage.flight);
    }
    if s.background.Refreshing? { FlightCanMove(s, s.background.flight); }
  }
}
