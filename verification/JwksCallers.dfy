/** What becomes of each token's key lookup among all the others
    (ValidateToken in key-manager/internal/api/jwt_validator.go). */
module JwksCallers {
  import opened Wrappers
  import opened JwksKeys
  import opened Jwks

  // ---------- single looks ----------

  /** At step `t` the caller looks into the cache, for the first time or again after waiting. */
  ghost predicate LooksAt(ss: seq<State>, acts: seq<Action>, t: nat, c: nat, again: bool) {
    && t < |acts| && t < |ss| && acts[t] == CallerGo(c) && c in ss[t].callers
    && if again then ss[t].callers[c].stage.Rechecking? else ss[t].callers[c].stage.LookingUp?
  }

  /** It finds `key`: the one the cache holds for its kid at that step. */
  ghost predicate Finds(ss: seq<State>, acts: seq<Action>, t: nat, c: nat, again: bool, kid: string, key: PublicKey) {
    LooksAt(ss, acts, t, c, again) && kid in ss[t].cache.keys && ss[t].cache.keys[kid] == key
  }

  ghost predicate Misses(ss: seq<State>, acts: seq<Action>, t: nat, c: nat, again: bool, kid: string) {
    LooksAt(ss, acts, t, c, again) && kid !in ss[t].cache.keys
  }

  ghost predicate MissedBefore(ss: seq<State>, acts: seq<Action>, i: nat, c: nat, kid: string) {
    exists t: nat :: t < i && Misses(ss, acts, t, c, false, kid)
  }

  ghost predicate MissedTwice(ss: seq<State>, acts: seq<Action>, i: nat, c: nat, kid: string) {
    exists t: nat, u: nat :: t < u < i && Misses(ss, acts, t, c, false, kid) && Misses(ss, acts, u, c, true, kid)
  }

  ghost predicate FoundBefore(ss: seq<State>, acts: seq<Action>, i: nat, c: nat, kid: string, key: PublicKey) {
    || (exists t: nat :: t < i && Finds(ss, acts, t, c, false, kid, key))
    || (exists t: nat, u: nat ::
          t < u < i && Misses(ss, acts, t, c, false, kid) && Finds(ss, acts, u, c, true, kid, key))
  }

  ghost predicate AskedTooEarly(ss: seq<State>, acts: seq<Action>, i: nat, c: nat) {
    exists t: nat :: t < i && t < |acts| && t < |ss| && acts[t] == CallerGo(c) && !ss[t].ready
  }

  /** How the caller came to where it stands. */
  ghost predicate Story(ss: seq<State>, acts: seq<Action>, i: nat, c: nat, caller: Caller) {
    match caller.stage
    case Arrived => true
    case LookingUp => true
    case Missed => MissedBefore(ss, acts, i, c, caller.kid)
    case Waiting(_) => MissedBefore(ss, acts, i, c, caller.kid)
    case Rechecking(_) => MissedBefore(ss, acts, i, c, caller.kid)
    case GotKey(key) => FoundBefore(ss, acts, i, c, caller.kid, key)
    case NoKey => MissedTwice(ss, acts, i, c, caller.kid)
    case NotReady => AskedTooEarly(ss, acts, i, c)
  }

  lemma StoryGoesOn(ss: seq<State>, acts: seq<Action>, i: nat, c: nat, caller: Caller)
    requires Story(ss, acts, i, c, caller)
    ensures Story(ss, acts, i + 1, c, caller)
  {
    hide LooksAt, Misses, Finds;
    if MissedBefore(ss, acts, i, c, caller.kid) {
      var t: nat :| t < i && Misses(ss, acts, t, c, false, caller.kid);
      assert t < i + 1 && Misses(ss, acts, t, c, false, caller.kid);
    }
    if MissedTwice(ss, acts, i, c, caller.kid) {
      var t: nat, u: nat :| t < u < i && Misses(ss, acts, t, c, false, caller.kid)
        && Misses(ss, acts, u, c, true, caller.kid);
      assert t < u < i + 1;
    }
    if AskedTooEarly(ss, acts, i, c) {
      var t: nat :| t < i && t < |acts| && t < |ss| && acts[t] == CallerGo(c) && !ss[t].ready;
      assert t < i + 1;
    }
    if caller.stage.GotKey? { FoundGoesOn(ss, acts, i, c, caller.kid, caller.stage.key); }
  }

  lemma FoundGoesOn(ss: seq<State>, acts: seq<Action>, i: nat, c: nat, kid: string, key: PublicKey)
    requires FoundBefore(ss, acts, i, c, kid, key)
    ensures FoundBefore(ss, acts, i + 1, c, kid, key)
  {
    hide LooksAt, Misses, Finds;
    if t: nat :| t < i && Finds(ss, acts, t, c, false, kid, key) {
      assert t < i + 1 && Finds(ss, acts, t, c, false, kid, key);
    } else {
      var t: nat, u: nat :| t < u < i && Misses(ss, acts, t, c, false, kid) && Finds(ss, acts, u, c, true, kid, key);
      assert t < u < i + 1;
    }
  }

  /** The caller's own step, in the source's terms. */
  lemma CallerStep(cfg: Config, s: State, c: nat)
    requires Enabled(s, CallerGo(c))
    ensures c in Next(cfg, s, CallerGo(c)).callers && Next(cfg, s, CallerGo(c)).callers[c].kid == s.callers[c].kid
    ensures var kid, stage' := s.callers[c].kid, Next(cfg, s, CallerGo(c)).callers[c].stage;
      match s.callers[c].stage
      case Arrived => if s.ready then stage'.LookingUp? else stage'.NotReady?
      case LookingUp => if kid in s.cache.keys then stage' == GotKey(s.cache.keys[kid]) else stage'.Missed?
      case Missed => stage'.Waiting?
      case Waiting(f) => stage' == Rechecking(Some(f))
      case Rechecking(_) => if kid in s.cache.keys then stage' == GotKey(s.cache.keys[kid]) else stage'.NoKey?
      case _ => false
  {}

  lemma OwnStory(cfg: Config, ss: seq<State>, acts: seq<Action>, i: nat, c: nat)
    requires i + 1 < |ss| && i < |acts| && acts[i] == CallerGo(c)
    requires Enabled(ss[i], CallerGo(c)) && ss[i + 1] == Next(cfg, ss[i], CallerGo(c))
    requires Story(ss, acts, i, c, ss[i].callers[c])
    ensures c in ss[i + 1].callers && Story(ss, acts, i + 1, c, ss[i + 1].callers[c])
  {
    CallerStep(cfg, ss[i], c);
    hide Next;
    var kid := ss[i].callers[c].kid;
    match ss[i].callers[c].stage
    case Arrived => assert !ss[i].ready ==> AskedTooEarly(ss, acts, i + 1, c);
    case LookingUp =>
      assert LooksAt(ss, acts, i, c, false);
      if kid in ss[i].cache.keys {
        assert Finds(ss, acts, i, c, false, kid, ss[i].cache.keys[kid]);
      } else {
        assert Misses(ss, acts, i, c, false, kid);
      }
    case Rechecking(_) =>
      var t: nat :| t < i && Misses(ss, acts, t, c, false, kid);
      assert LooksAt(ss, acts, i, c, true);
      if kid in ss[i].cache.keys {
        assert Finds(ss, acts, i, c, true, kid, ss[i].cache.keys[kid]);
      } else {
        assert Misses(ss, acts, i, c, true, kid);
      }
    case Missed =>
      var t: nat :| t < i && Misses(ss, acts, t, c, false, kid);
      assert t < i + 1;
    case Waiting(_) =>
      var t: nat :| t < i && Misses(ss, acts, t, c, false, kid);
      assert t < i + 1;
    case _ =>
  }

  lemma GiveUpStory(cfg: Config, ss: seq<State>, acts: seq<Action>, i: nat, c: nat)
    requires i + 1 < |ss| && Enabled(ss[i], GiveUp(c)) && ss[i + 1] == Next(cfg, ss[i], GiveUp(c))
    requires Story(ss, acts, i, c, ss[i].callers[c])
    ensures c in ss[i + 1].callers && Story(ss, acts, i + 1, c, ss[i + 1].callers[c])
  {
    StoryGoesOn(ss, acts, i, c, ss[i].callers[c]);
  }

  lemma NewCaller(cfg: Config, s: State, a: Action, c: nat)
    requires Enabled(s, a) && c !in s.callers && c in Next(cfg, s, a).callers
    ensures Next(cfg, s, a).callers[c].stage.Arrived?
  {
    hide FetchedKeys, InCooldown;
  }

  /** Over every run, what a caller has come to has happened to it.  In particular: it has a key only
      if the cache held that key for its kid when it looked, the first time, or again after missing
      it once; and it has failed only if its kid was missing both times. */
  lemma {:induction false} StoryAlways(cfg: Config, ss: seq<State>, acts: seq<Action>, i: nat, c: nat)
    requires IsRun(cfg, ss, acts) && i < |ss| && c in ss[i].callers
    ensures Story(ss, acts, i, c, ss[i].callers[c])
  {
    hide Next, Enabled, Story;
    if i > 0 {
      StepOf(cfg, ss, acts, i - 1);
      var s, a := ss[i - 1], acts[i - 1];
      if c in s.callers {
        StoryAlways(cfg, ss, acts, i - 1, c);
        if a == CallerGo(c) {
          OwnStory(cfg, ss, acts, i - 1, c);
        } else if a == GiveUp(c) {
          GiveUpStory(cfg, ss, acts, i - 1, c);
        } else {
          OthersLeaveCaller(cfg, s, a, c);
          StoryGoesOn(ss, acts, i - 1, c, s.callers[c]);
        }
      } else {
        NewCaller(cfg, s, a, c);
        ArrivedStory(ss, acts, i, c);
      }
    }
  }

  lemma ArrivedStory(ss: seq<State>, acts: seq<Action>, i: nat, c: nat)
    requires i < |ss| && c in ss[i].callers && ss[i].callers[c].stage.Arrived?
    ensures Story(ss, acts, i, c, ss[i].callers[c])
  {}

  // ---------- a cached key is always served ----------

  predicate Settled(stage: Stage) {
    stage.GotKey? || stage.NoKey? || stage.NotReady?
  }

  lemma {:induction false} SettledStays(cfg: Config, ss: seq<State>, acts: seq<Action>, i: nat, j: nat, c: nat)
    requires IsRun(cfg, ss, acts) && i <= j < |ss| && c in ss[i].callers && Settled(ss[i].callers[c].stage)
    ensures c in ss[j].callers && ss[j].callers[c] == ss[i].callers[c]
    decreases j
  {
    hide Next;
    if i < j {
      SettledStays(cfg, ss, acts, i, j - 1, c);
      StepOf(cfg, ss, acts, j - 1);
      OthersLeaveCaller(cfg, ss[j - 1], acts[j - 1], c);
    }
  }

  /** A look at a cache that holds the kid touches nothing but the caller. */
  lemma HitTouchesNothing(cfg: Config, s: State, c: nat)
    requires Enabled(s, CallerGo(c)) && s.callers[c].stage.LookingUp? && s.callers[c].kid in s.cache.keys
    ensures Next(cfg, s, CallerGo(c)) == s.(callers := Next(cfg, s, CallerGo(c)).callers)
  {}

  /** A caller that looks when the cache holds its kid gets exactly the key cached then, for good,
      and no flight is started or request sent for it. */
  lemma CachedKeyIsServed(cfg: Config, ss: seq<State>, acts: seq<Action>, t: nat, j: nat, c: nat, kid: string)
    requires IsRun(cfg, ss, acts) && t < j < |ss| && LooksAt(ss, acts, t, c, false)
    requires ss[t].callers[c].kid == kid && kid in ss[t].cache.keys
    ensures c in ss[j].callers && ss[j].callers[c] == Caller(kid, GotKey(ss[t].cache.keys[kid]))
    ensures ss[t + 1] == ss[t].(callers := ss[t + 1].callers)
  {
    StepOf(cfg, ss, acts, t);
    CallerStep(cfg, ss[t], c);
    HitTouchesNothing(cfg, ss[t], c);
    hide Next;
    SettledStays(cfg, ss, acts, t + 1, j, c);
  }

  /** A token is refused for an unknown kid only if its kid was missing at its first look and again
      at its second. */
  lemma RefusedOnlyIfMissingTwice(cfg: Config, ss: seq<State>, acts: seq<Action>, i: nat, c: nat)
    requires IsRun(cfg, ss, acts) && i < |ss| && c in ss[i].callers && ss[i].callers[c].stage.NoKey?
    ensures MissedTwice(ss, acts, i, c, ss[i].callers[c].kid)
  {
    StoryAlways(cfg, ss, acts, i, c);
  }

  /** The kid a caller came with is the one it keeps. */
  lemma {:induction false} KidKept(cfg: Config, ss: seq<State>, acts: seq<Action>, i: nat, j: nat, c: nat)
    requires IsRun(cfg, ss, acts) && i <= j < |ss| && c in ss[i].callers
    ensures c in ss[j].callers && ss[j].callers[c].kid == ss[i].callers[c].kid
    decreases j
  {
    hide Next, Enabled;
    if i < j {
      KidKept(cfg, ss, acts, i, j - 1, c);
      StepOf(cfg, ss, acts, j - 1);
      KidStep(cfg, ss[j - 1], acts[j - 1], c);
    }
  }

  lemma KidStep(cfg: Config, s: State, a: Action, c: nat)
    requires Enabled(s, a) && c in s.callers
    ensures c in Next(cfg, s, a).callers && Next(cfg, s, a).callers[c].kid == s.callers[c].kid
  {
    if a == CallerGo(c) {
      CallerStep(cfg, s, c);
    } else if a != GiveUp(c) {
      OthersLeaveCaller(cfg, s, a, c);
    }
  }
}
