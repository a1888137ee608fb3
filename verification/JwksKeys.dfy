/** The JWKS validator's own critical sections (key-manager/internal/api/jwt_validator.go): what a
    fetch publishes, what the unknown-kid gate decides, what a lookup returns. */
module JwksKeys {
  import opened Wrappers

  /** A JSON Web Key and a JSON Web Key Set, sections 4 and 5 of RFC 7517. */
  datatype Jwk = Jwk(kty: string, kid: string, use: string, n: string, e: string)

  datatype PublicKey = PublicKey(n: int, e: int)

  /** parseRSAPublicKey: base64 and big-endian decoding, which may fail. */
  type Parser = Jwk -> Option<PublicKey>

  type KeySet = map<string, PublicKey>

  predicate Usable(parse: Parser, k: Jwk) {
    k.kty == "RSA" && parse(k).Some?
  }

  /** `k` is the last usable key of the set with this kid. */
  ghost predicate LastWithKid(parse: Parser, keys: seq<Jwk>, kid: string, i: nat) {
    && i < |keys| && keys[i].kty == "RSA" && parse(keys[i]).Some? && keys[i].kid == kid
    && forall j :: i < j < |keys| && keys[j].kid == kid ==> !(keys[j].kty == "RSA" && parse(keys[j]).Some?)
  }

  function ParseKeys(parse: Parser, keys: seq<Jwk>): KeySet {
    if keys == [] then map[]
    else
      var rest := ParseKeys(parse, keys[..|keys| - 1]);
      var k := keys[|keys| - 1];
      if Usable(parse, k) then rest[k.kid := parse(k).value] else rest
  }

  /** Non-RSA and unreadable keys are skipped, and of several keys with one kid the last counts. */
  lemma {:induction false} ParseKeysMeaning(parse: Parser, keys: seq<Jwk>, kid: string)
    ensures kid in ParseKeys(parse, keys) <==> exists i: nat :: LastWithKid(parse, keys, kid, i)
    ensures forall i: nat :: LastWithKid(parse, keys, kid, i) ==>
      kid in ParseKeys(parse, keys) && ParseKeys(parse, keys)[kid] == parse(keys[i]).value
  {
    if keys != [] {
      var n := |keys| - 1;
      var front := keys[..n];
      ParseKeysMeaning(parse, front, kid);
      if Usable(parse, keys[n]) && keys[n].kid == kid {
        assert LastWithKid(parse, keys, kid, n);
      } else {
        forall i: nat ensures LastWithKid(parse, keys, kid, i) <==> LastWithKid(parse, front, kid, i) {
          if LastWithKid(parse, keys, kid, i) { assert front[i] == keys[i]; }
        }
      }
    }
  }

  datatype Response = NoReply | BadStatus(code: nat) | Undecodable | Body(keys: seq<Jwk>)

  /** What a response makes of the cache; None when fetchPublicKeys returns an error. */
  function FetchedKeys(parse: Parser, r: Response): Option<KeySet> {
    if r.Body? && ParseKeys(parse, r.keys) != map[] then Some(ParseKeys(parse, r.keys)) else None
  }

  /** unknownKIDCooldown in nanoseconds. */
  const COOLDOWN: int := 30_000_000_000

  predicate InCooldown(now: int, last: int) {
    last != 0 && now - last < COOLDOWN
  }

  // ---------- times a cool-down apart ----------

  /** Consecutive stamps are at least a cool-down apart. */
  ghost predicate Spaced(stamps: seq<int>) {
    forall i :: 0 < i < |stamps| ==> stamps[i] - stamps[i - 1] >= COOLDOWN
  }

  function LastOf(times: seq<int>): int {
    if times == [] then 0 else times[|times| - 1]
  }

  lemma StampKeepsSpaced(stamps: seq<int>, now: int)
    requires Spaced(stamps) && (stamps != [] ==> now - LastOf(stamps) >= COOLDOWN)
    ensures Spaced(stamps + [now]) && LastOf(stamps + [now]) == now
  {
    var after := stamps + [now];
    forall i | 0 < i < |after| ensures after[i] - after[i - 1] >= COOLDOWN {
      if i < |stamps| { assert after[i] == stamps[i] && after[i - 1] == stamps[i - 1]; }
    }
  }

  lemma {:induction false} Spacing(times: seq<int>, i: nat, j: nat)
    requires i <= j < |times|
    requires Spaced(times)
    ensures times[j] - times[i] >= (j - i) * COOLDOWN
  {
    if i < j {
      Spacing(times, i, j - 1);
      assert (j - i) * COOLDOWN == (j - 1 - i) * COOLDOWN + COOLDOWN;
    }
  }

  /** The positions whose time falls into the window. */
  function Inside(times: seq<int>, from: int, length: int): set<nat> {
    set k: nat | k < |times| && from <= times[k] <= from + length
  }

  lemma {:induction false} Extremes(s: set<nat>) returns (lo: nat, hi: nat)
    requires s != {}
    ensures lo in s && hi in s && forall k :: k in s ==> lo <= k <= hi
    decreases |s|
  {
    var x :| x in s;
    if s == {x} {
      lo, hi := x, x;
    } else {
      lo, hi := Extremes(s - {x});
      assert forall k :: k in s ==> k == x || k in s - {x};
      if x < lo { lo := x; }
      if x > hi { hi := x; }
    }
  }

  lemma {:induction false} WithinExtremes(s: set<nat>, lo: nat, hi: nat)
    requires lo <= hi && forall k :: k in s ==> lo <= k <= hi
    ensures |s| <= hi - lo + 1
    decreases hi
  {
    if lo < hi {
      WithinExtremes(s - {hi}, lo, hi - 1);
    } else {
      assert s <= {lo};
      assert s == {} || s == {lo};
    }
  }

  lemma CooldownMonotone(a: int, b: int)
    requires a <= b
    ensures a * COOLDOWN <= b * COOLDOWN
  {}

  lemma WindowOfStamps(stamps: seq<int>, from: int, length: nat)
    requires Spaced(stamps)
    ensures (|Inside(stamps, from, length)| - 1) * COOLDOWN <= length
  {
    hide Spaced;
    var inside := Inside(stamps, from, length);
    if inside != {} {
      var lo, hi := Extremes(inside);
      WithinExtremes(inside, lo, hi);
      Spacing(stamps, lo, hi);
      CooldownMonotone(|inside| - 1, hi - lo);
    }
  }

  /** The pause after `n` others, each twice the one before. */
  function Pause(first: int, n: nat): int {
    if n == 0 then first else 2 * Pause(first, n - 1)
  }

  ghost predicate Doubling(pauses: seq<int>, first: int) {
    forall k :: 0 <= k < |pauses| ==> pauses[k] == Pause(first, k)
  }

  /** What the surroundings do during start-up: `stop(n)` when Stop has been called before attempt
      `n`, the answer to each attempt, and the answers to the slow polls until Stop ends them. */
  datatype Startup = Startup(stop: nat -> bool, answer: nat -> Response, polls: seq<Response>)

  predicate Succeeds(parse: Parser, r: Response) {
    FetchedKeys(parse, r).Some?
  }

  /** Attempt `n` is made: no earlier one succeeded or was stopped, and neither is this one stopped. */
  ghost predicate Reached(parse: Parser, env: Startup, n: nat) {
    && (forall k: nat :: 1 <= k < n ==> !Succeeds(parse, env.answer(k)))
    && (forall k: nat :: 1 <= k <= n ==> !env.stop(k))
  }

  ghost predicate OnlineAtAttempt(parse: Parser, env: Startup, max: nat, n: nat) {
    1 <= n <= max && Reached(parse, env, n) && Succeeds(parse, env.answer(n))
  }

  ghost predicate OnlineAtPoll(parse: Parser, env: Startup, max: nat, i: nat) {
    && (forall k: nat :: 1 <= k <= max ==> !env.stop(k) && !Succeeds(parse, env.answer(k)))
    && FirstSuccess(parse, env.polls, i)
  }

  ghost predicate FirstSuccess(parse: Parser, answers: seq<Response>, i: nat) {
    i < |answers| && Succeeds(parse, answers[i]) && forall j :: 0 <= j < i ==> !Succeeds(parse, answers[j])
  }

  class JWTValidator {
    const parse: Parser
    var publicKeys: KeySet
    var ready: bool
    var lastKIDRefresh: int
    ghost var stamps: seq<int> // the times at which unknown-kid fetches were cleared

    /** Ready means there are keys, and the fetches for unknown kids keep their distance. */
    ghost predicate Valid()
      reads this
    {
      && (ready ==> publicKeys != map[])
      && Spaced(stamps) && lastKIDRefresh == LastOf(stamps) && (stamps != [] ==> lastKIDRefresh > 0)
    }

    constructor (parse: Parser)
      ensures Valid() && this.parse == parse && publicKeys == map[] && !ready && stamps == []
    {
      this.parse, publicKeys, ready, lastKIDRefresh, stamps := parse, map[], false, 0, [];
    }

    /** A failed or key-less fetch leaves the cache as it was. */
    method FetchPublicKeys(resp: Response) returns (ok: bool)
      requires Valid()
      modifies this`publicKeys
      ensures Valid()
      ensures ok <==> FetchedKeys(parse, resp).Some?
      ensures ok ==> publicKeys != map[]
      ensures publicKeys == if ok then FetchedKeys(parse, resp).value else old(publicKeys)
    {
      if !resp.Body? { return false; }
      var keys: KeySet := map[];
      for i := 0 to |resp.keys|
        invariant keys == ParseKeys(parse, resp.keys[..i])
      {
        var k := resp.keys[i];
        assert resp.keys[..i + 1][..i] == resp.keys[..i];
        if k.kty != "RSA" { continue; }
        var publicKey := parse(k);
        if publicKey.None? { continue; }
        keys := keys[k.kid := publicKey.value];
      }
      assert resp.keys[..|resp.keys|] == resp.keys;
      if keys == map[] { return false; }
      publicKeys := keys;
      ok := true;
    }

    method SlowPoll(polls: seq<Response>) returns (online: bool)
      requires Valid()
      modifies this`publicKeys, this`ready
      ensures Valid()
      ensures forall i: nat :: FirstSuccess(parse, polls, i) ==>
        online && publicKeys == FetchedKeys(parse, polls[i]).value
      ensures online ==> exists i: nat :: FirstSuccess(parse, polls, i)
      ensures ready == (old(ready) || online) && (!online ==> publicKeys == old(publicKeys))
    {
      hide FetchedKeys, Spaced, LastOf;
      for i := 0 to |polls|
        invariant forall j :: 0 <= j < i ==> !Succeeds(parse, polls[j])
        invariant Valid() && publicKeys == old(publicKeys) && ready == old(ready)
      {
        var ok := FetchPublicKeys(polls[i]);
        if ok {
          ready := true;
          assert FirstSuccess(parse, polls, i);
          return true;
        }
      }
      return false;
    }

    /** The start-up: at most `max` attempts with doubling pauses in between, then the slow poll.  It
        comes online at the first answer with RSA keys and otherwise changes nothing. */
    method InitialFetch(max: nat, initialBackoff: int, env: Startup) returns (online: bool, ghost pauses: seq<int>)
      requires Valid()
      modifies this`publicKeys, this`ready
      ensures Valid()
      ensures forall n: nat :: OnlineAtAttempt(parse, env, max, n) ==>
        online && publicKeys == FetchedKeys(parse, env.answer(n)).value && |pauses| == n - 1
      ensures forall i: nat :: OnlineAtPoll(parse, env, max, i) ==>
        online && publicKeys == FetchedKeys(parse, env.polls[i]).value
      ensures online ==>
        || (exists n: nat :: OnlineAtAttempt(parse, env, max, n))
        || exists i: nat :: OnlineAtPoll(parse, env, max, i)
      ensures ready == (old(ready) || online) && (!online ==> publicKeys == old(publicKeys))
      ensures (|pauses| < max || pauses == []) && Doubling(pauses, initialBackoff)
    {
      hide FetchedKeys, Spaced, LastOf;
      pauses := [];
      var backoff := initialBackoff;
      for attempt := 1 to max + 1
        invariant forall k: nat :: 1 <= k < attempt ==> !env.stop(k) && !Succeeds(parse, env.answer(k))
        invariant Valid() && publicKeys == old(publicKeys) && ready == old(ready)
        invariant |pauses| == if attempt <= max then attempt - 1 else if max == 0 then 0 else max - 1
        invariant attempt <= max ==> backoff == Pause(initialBackoff, attempt - 1)
        invariant Doubling(pauses, initialBackoff)
      {
        if env.stop(attempt) { return false, pauses; }
        var ok := FetchPublicKeys(env.answer(attempt));
        if ok {
          ready := true;
          assert OnlineAtAttempt(parse, env, max, attempt);
          return true, pauses;
        }
        if attempt < max {
          pauses := pauses + [backoff];
          backoff := backoff * 2;
        }
      }
      online := SlowPoll(env.polls);
      if online {
        ghost var i: nat :| FirstSuccess(parse, env.polls, i);
        assert OnlineAtPoll(parse, env, max, i);
      }
    }

    /** The gate inside the shared flight.  On a positive clock that does not run back, a fetch is
        cleared exactly if every earlier one was cleared at least a cool-down ago; so however often
        the gate is asked, of the fetches cleared within any window of length T there are n with
        (n - 1) * cool-down <= T. */
    method GateUnknownKID(now: int) returns (cleared: bool)
      requires Valid() && 0 < now && LastOf(stamps) <= now
      modifies this`lastKIDRefresh, this`stamps
      ensures Valid()
      ensures cleared <==> forall t :: t in old(stamps) ==> now - t >= 30_000_000_000
      ensures stamps == if cleared then old(stamps) + [now] else old(stamps)
      ensures forall from: int, length: nat :: (|Inside(stamps, from, length)| - 1) * COOLDOWN <= length
    {
      var last := lastKIDRefresh;
      LastIsLatest(stamps);
      if last != 0 && now - last < COOLDOWN {
        assert LastOf(stamps) in stamps;
        cleared := false;
      } else {
        StampKeepsSpaced(stamps, now);
        lastKIDRefresh, stamps := now, stamps + [now];
        cleared := true;
      }
      forall from: int, length: nat ensures (|Inside(stamps, from, length)| - 1) * COOLDOWN <= length {
        WindowOfStamps(stamps, from, length);
      }
    }

    method LookUp(kid: string) returns (key: Option<PublicKey>)
      ensures key == if kid in publicKeys then Some(publicKeys[kid]) else None
    {
      key := if kid in publicKeys then Some(publicKeys[kid]) else None;
    }

    /** The key for a token's kid: from the cache, or after one guarded refresh that `resp` answers.
        The cache changes only for a kid it lacks, only past the gate, and only to a fetched set. */
    method KeyFor(kid: string, now: int, resp: Response) returns (key: Option<PublicKey>)
      requires Valid() && 0 < now && LastOf(stamps) <= now
      modifies this`publicKeys, this`lastKIDRefresh, this`stamps
      ensures Valid()
      ensures publicKeys == if kid !in old(publicKeys) && stamps != old(stamps) && FetchedKeys(parse, resp).Some?
        then FetchedKeys(parse, resp).value else old(publicKeys)
      ensures stamps != old(stamps) <==>
              kid !in old(publicKeys) && forall t :: t in old(stamps) ==> now - t >= 30_000_000_000
      ensures key.Some? <==> kid in publicKeys
      ensures key.Some? ==> key.value == publicKeys[kid]
    {
      key := LookUp(kid);
      if key.Some? { return; }
      var cleared := GateUnknownKID(now);
      if cleared {
        assert |stamps| == |old(stamps)| + 1;
        var _ := FetchPublicKeys(resp);
      }
      key := LookUp(kid);
    }
  }

  lemma {:induction false} LastIsLatest(stamps: seq<int>)
    requires Spaced(stamps)
    ensures forall t :: t in stamps ==> t <= LastOf(stamps)
  {
    forall i | 0 <= i < |stamps| ensures stamps[i] <= LastOf(stamps) {
      Spacing(stamps, i, |stamps| - 1);
      assert (|stamps| - 1 - i) * COOLDOWN >= 0;
    }
  }
}
