/** That the controllers come to rest: left alone, with requests that succeed, they run out of work
    after a bounded number of steps, and every policy is then current
    (operator/internal/controller/apikeys.go and the two model controllers). */
module Settling {
  import opened Wrappers
  import opened Text
  import opened Policies
  import opened Freshness

  /** A step of a controller in which nothing fails and nothing is put off. */
  predicate Own(a: Action) {
    match a
    case Deliver(_, listed) => listed
    case Take(_) => true
    case Fire(_) => true
    case ReadIds(_) => true
    case ReadNames(_) => true
    case Skip(_) => true
    case Write(_, _) => true
    case _ => false
  }

  predicate Idle(s: State) {
    s.queue == {} && s.later == {} && s.pending == multiset{} && s.working == map[]
  }

  // ---------- how much is left to do ----------

  function Reading(s: State): set<Request> {
    set r | r in s.working && s.working[r].wanted && s.working[r].progress.Started?
  }

  function Halfway(s: State): set<Request> {
    set r | r in s.working && s.working[r].wanted && s.working[r].progress.HasIds?
  }

  function Ending(s: State): set<Request> {
    set r | r in s.working && !(s.working[r].wanted && !s.working[r].progress.HasBoth?)
  }

  function Passes(s: State): nat {
    3 * |Reading(s)| + 2 * |Halfway(s)| + |Ending(s)|
  }

  /** An upper bound on the steps that are left: a queued request needs four, one that is put off five,
      and an event can queue every model. */
  function Bound(s: State): nat {
    Passes(s) + 4 * |s.queue| + 5 * |s.later| + (4 * |s.models| + 1) * |s.pending|
  }

  lemma PassBegins(s: State, r: Request)
    requires Enabled(s, Take(r))
    ensures Passes(Next(s, Take(r))) <= Passes(s) + 3
  {
    var s' := Next(s, Take(r));
    if Wanted(s, r) {
      assert Reading(s') == Reading(s) + {r} && Halfway(s') == Halfway(s) && Ending(s') == Ending(s);
    } else {
      assert Reading(s') == Reading(s) && Halfway(s') == Halfway(s) && Ending(s') == Ending(s) + {r};
    }
  }

  lemma PassReadsIds(s: State, r: Request)
    requires Enabled(s, ReadIds(r))
    ensures Passes(Next(s, ReadIds(r))) < Passes(s)
  {
    hide OwnIds;
    var s' := Next(s, ReadIds(r));
    assert r in Reading(s);
    assert Reading(s') == Reading(s) - {r} && Halfway(s') == Halfway(s) + {r} && Ending(s') == Ending(s);
  }

  lemma PassReadsNames(s: State, r: Request)
    requires Enabled(s, ReadNames(r))
    ensures Passes(Next(s, ReadNames(r))) < Passes(s)
  {
    hide PooledNames;
    var s' := Next(s, ReadNames(r));
    assert r in Halfway(s);
    assert Reading(s') == Reading(s) && Halfway(s') == Halfway(s) - {r} && Ending(s') == Ending(s) + {r};
  }

  lemma PassEnds(s: State, a: Action)
    requires Enabled(s, a) && (a.Skip? || a.Write?)
    ensures Passes(Next(s, a)) < Passes(s)
  {
    hide RenderedFrom;
    var s' := Next(s, a);
    assert a.r in Ending(s);
    assert Reading(s') == Reading(s) && Halfway(s') == Halfway(s) && Ending(s') == Ending(s) - {a.r};
  }

  lemma UnionSize<T>(a: set<T>, b: set<T>)
    ensures |a + b| <= |a| + |b|
  {
    assert a + b == a + (b - a) && |a + (b - a)| == |a| + |b - a|;
    assert |b| == |b - a| + |b * a| by { assert b == (b - a) + (b * a); }
  }

  lemma OneLess(c: nat, n: nat)
    requires n > 0
    ensures c * (n - 1) == c * n - c
  {}

  /** What nobody but the outside changes. */
  ghost predicate SameOutside(s: State, s': State) {
    s'.secrets == s.secrets && s'.models == s.models && s'.external == s.external
  }

  lemma DeliverCounts(s: State, kind: Kind)
    requires Enabled(s, Deliver(kind, true))
    ensures Bound(Next(s, Deliver(kind, true))) < Bound(s)
  {
    var s' := Next(s, Deliver(kind, true));
    var more := OfKind(s.models, kind);
    assert Reading(s') == Reading(s) && Halfway(s') == Halfway(s) && Ending(s') == Ending(s);
    UnionSize(s.queue, more);
    assert |more| <= |s.models| by { assert s.models == more + (s.models - more); }
    assert |s'.pending| == |s.pending| - 1;
    OneLess(4 * |s.models| + 1, |s.pending|);
  }

  lemma QueueCounts(s: State, a: Action)
    requires Enabled(s, a) && (a.Take? || a.Fire?)
    ensures Bound(Next(s, a)) < Bound(s)
  {
    var s' := Next(s, a);
    if a.Take? {
      PassBegins(s, a.r);
      assert |s'.queue| == |s.queue| - 1;
    } else {
      assert Reading(s') == Reading(s) && Halfway(s') == Halfway(s) && Ending(s') == Ending(s);
      assert |s'.later| == |s.later| - 1;
      UnionSize(s.queue, {a.r});
    }
  }

  /** Every such step brings the end nearer and touches neither Secrets nor models. */
  lemma OwnStepCounts(s: State, a: Action)
    requires Enabled(s, a) && Own(a)
    ensures Bound(Next(s, a)) < Bound(s) && SameOutside(s, Next(s, a))
  {
    match a
    case Deliver(kind, _) => DeliverCounts(s, kind); hide Bound;
    case Take(_) => QueueCounts(s, a); hide Bound;
    case Fire(_) => QueueCounts(s, a); hide Bound;
    case ReadIds(r) => PassReadsIds(s, r); hide Passes;
    case ReadNames(r) => PassReadsNames(s, r); hide Passes;
    case Skip(_) => PassEnds(s, a); hide Passes;
    case Write(_, _) => PassEnds(s, a); hide Passes;
  }

  // ---------- there is always a next step ----------

  lemma {:induction false} Inserted(s: seq<string>, x: string) returns (t: seq<string>)
    requires Increasing(s) && x !in s
    ensures Increasing(t) && Elements(t) == Elements(s) + {x}
  {
    if s == [] {
      t := [x];
    } else {
      BeforeTotal(x, s[0]);
      TailElements(s);
      if Before(x, s[0]) {
        t := [x] + s;
        forall j | 0 <= j < |s| ensures Before(x, s[j]) {
          if j > 0 { BeforeTransitive(x, s[0], s[j]); }
        }
      } else {
        var u := Inserted(s[1..], x);
        t := [s[0]] + u;
        forall y | y in u ensures Before(s[0], y) {
          assert y in Elements(s[1..]) + {x};
          if y != x {
            var j :| 0 <= j < |s[1..]| && s[1..][j] == y;
            assert Before(s[0], s[j + 1]);
          }
        }
        assert Elements(t) == {s[0]} + Elements(u);
      }
    }
  }

  lemma {:induction false} Sorted(items: set<string>) returns (s: seq<string>)
    ensures Increasing(s) && Elements(s) == items
    decreases |items|
  {
    if items == {} {
      s := [];
    } else {
      var x :| x in items;
      var t := Sorted(items - {x});
      assert x !in Elements(t);
      s := Inserted(t, x);
    }
  }

  lemma RenderingExists(ids: set<string>, names: set<string>) returns (p: Policy)
    ensures RenderedFrom(p, ids, names)
  {
    var refs := Sorted(names);
    var list := Sorted(ids);
    p := Policy(refs, BuildAPIKeyAuthorization(list));
  }

  /** A controller with work left has a next step. */
  lemma GoesOn(s: State) returns (a: Action)
    requires !Idle(s)
    ensures Enabled(s, a) && Own(a)
  {
    if r :| r in s.working {
      var pass := s.working[r];
      if !pass.wanted {
        a := Skip(r);
      } else {
        match pass.progress
        case Started => a := ReadIds(r);
        case HasIds(_) => a := ReadNames(r);
        case HasBoth(ids, names) =>
          var p := RenderingExists(ids, names);
          a := Write(r, p);
      }
    } else if r :| r in s.queue {
      a := Take(r);
    } else if r :| r in s.later {
      a := Fire(r);
    } else {
      var kind :| kind in s.pending;
      a := Deliver(kind, true);
    }
  }

  // ---------- coming to rest ----------

  /** The controllers go on from `ss[0]` by their own successful steps. */
  ghost predicate IsCalm(ss: seq<State>, acts: seq<Action>) {
    && |ss| == |acts| + 1
    && forall j :: 0 <= j < |acts| ==> Enabled(ss[j], acts[j]) && Own(acts[j]) && ss[j + 1] == Next(ss[j], acts[j])
  }

  lemma {:induction false} CalmIsShort(ss: seq<State>, acts: seq<Action>, i: nat)
    requires IsCalm(ss, acts) && i < |ss|
    ensures i + Bound(ss[i]) <= Bound(ss[0]) && SameOutside(ss[0], ss[i])
  {
    hide Next, Enabled, Own, Bound;
    if i > 0 {
      CalmIsShort(ss, acts, i - 1);
      OwnStepCounts(ss[i - 1], acts[i - 1]);
    }
  }

  lemma {:induction false} CalmKeepsInv(ss: seq<State>, acts: seq<Action>, i: nat)
    requires IsCalm(ss, acts) && i < |ss| && Inv(ss[0])
    ensures Inv(ss[i])
  {
    hide Next, Enabled, Inv;
    if i > 0 {
      CalmKeepsInv(ss, acts, i - 1);
      assert Benign(ss[i - 1], acts[i - 1]);
      StepKeepsInv(ss[i - 1], acts[i - 1]);
    }
  }

  /** However the controllers go on, if nothing changes from outside and nothing fails, they stop
      within the bound, and they stop only when idle, with every wanted policy the rendering of the
      Secrets as they are. */
  lemma CalmEndsCurrent(ss: seq<State>, acts: seq<Action>, r: Request)
    requires IsCalm(ss, acts) && Inv(ss[0])
    ensures |acts| <= Bound(ss[0])
    ensures var end := ss[|acts|];
      (forall a :: Own(a) ==> !Enabled(end, a)) ==>
        Idle(end) && (Wanted(ss[0], r) ==> UpToDateWith(end, ss[0].secrets, r))
  {
    hide Next, Enabled, Own, Bound, Inv, Wanted, UpToDate;
    CalmIsShort(ss, acts, |acts|);
    CalmKeepsInv(ss, acts, |acts|);
    var end := ss[|acts|];
    if !Idle(end) {
      var a := GoesOn(end);
    } else if Wanted(end, r) {
      IdleMeansUpToDate(end, r);
    }
    assert Wanted(ss[0], r) == Wanted(end, r) by { SameWanted(ss[0], end, r); }
    IsUpToDate(end, r);
  }

  ghost predicate UpToDateWith(s: State, secrets: Secrets, r: Request) {
    r in s.policies && IsRendering(s.policies[r], secrets, r.name)
  }

  lemma SameWanted(s: State, s': State, r: Request)
    requires SameOutside(s, s')
    ensures Wanted(s, r) == Wanted(s', r)
  {}

  lemma IsUpToDate(s: State, r: Request)
    ensures UpToDate(s, r) == UpToDateWith(s, s.secrets, r)
  {}

  /** They can always get there. */
  lemma {:induction false} CanSettle(s: State) returns (ss: seq<State>, acts: seq<Action>)
    ensures IsCalm(ss, acts) && ss[0] == s && Idle(ss[|acts|])
    decreases Bound(s)
  {
    if Idle(s) {
      ss, acts := [s], [];
    } else {
      var a := GoesOn(s);
      OwnStepCounts(s, a);
      hide Next, Enabled, Own, Bound;
      ss, acts := CanSettle(Next(s, a));
      ss, acts := Prepended(s, a, ss, acts);
    }
  }

  lemma Prepended(s: State, a: Action, ss: seq<State>, acts: seq<Action>) returns (ss': seq<State>, acts': seq<Action>)
    requires Enabled(s, a) && Own(a) && IsCalm(ss, acts) && ss[0] == Next(s, a)
    ensures IsCalm(ss', acts') && ss'[0] == s && |acts'| == |acts| + 1 && ss'[|acts'|] == ss[|acts|]
  {
    hide Next, Enabled, Own;
    ss', acts' := [s] + ss, [a] + acts;
    forall j | 0 <= j < |acts'|
      ensures Enabled(ss'[j], acts'[j]) && Own(acts'[j]) && ss'[j + 1] == Next(ss'[j], acts'[j]) {
      if j > 0 { assert acts'[j] == acts[j - 1] && ss'[j] == ss[j - 1] && ss'[j + 1] == ss[j]; }
    }
  }
}
