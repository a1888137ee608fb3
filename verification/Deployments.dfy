/** When an LLMModel's Deployment is updated in place and when it is replaced
    (reconcileModelServiceResources and modelConfigHash in
    operator/internal/controller/llmmodel_controller.go). */
module Deployments {
  import opened Wrappers

  /** `rest` is every field of the model that a change of does not force a new download. */
  datatype Model = Model(name: string, source: string, storageType: string, image: string, revision: string,
                         modelName: string, rest: string)

  /** Digest: the first eight bytes of SHA-256 in hex.  Build: the Deployment spec for a model. */
  datatype Env = Env(digest: string -> string, build: Model -> string)

  function ConfigText(m: Model): string {
    m.name + m.source + m.storageType + m.image + m.revision + m.modelName
  }

  function ModelConfigHash(env: Env, m: Model): string {
    env.digest(ConfigText(m))
  }

  ghost predicate DigestNonEmpty(env: Env) {
    forall s :: env.digest(s) != ""
  }

  /** `hash` is the annotation, "" when it is absent.  `incarnation` changes when the object is
      deleted and created again, `version` at every write. */
  datatype Deployment = Deployment(incarnation: nat, version: nat, hash: string, spec: string)

  datatype Cluster = Cluster(deployment: Option<Deployment>, clock: nat)

  /** What a pass has fetched: the model, then the Deployment, perhaps from a cache that lags. */
  datatype Reading = Reading(model: Model, seen: Option<Deployment>)

  predicate Stale(env: Env, r: Reading) {
    r.seen.Some? && r.seen.value.hash != "" && r.seen.value.hash != ModelConfigHash(env, r.model)
  }

  /** The write that follows: create, replace (by deleting) or update if still the version read. */
  function Write(env: Env, r: Reading, c: Cluster): Cluster {
    var hash, spec := ModelConfigHash(env, r.model), env.build(r.model);
    if r.seen.None? then
      if c.deployment.Some? then c // AlreadyExists
      else Cluster(Some(Deployment(c.clock, c.clock, hash, spec)), c.clock + 1)
    else if Stale(env, r) then Cluster(None, c.clock)
    else if c.deployment.Some? && c.deployment.value.version == r.seen.value.version then
      Cluster(Some(c.deployment.value.(version := c.clock, hash := hash, spec := spec)), c.clock + 1)
    else c // Conflict or NotFound
  }

  // ---------- a run: passes with lagging reads, among other writers ----------

  datatype State = State(model: Model, cluster: Cluster, history: set<Deployment>, reading: Option<Reading>)

  datatype Action =
    | EditModel(m: Model)
    | Remove                            // somebody deletes the Deployment
    | CreatePlain(spec: string)         // somebody creates one without the annotation
    | EditSpec(spec: string)            // somebody edits its spec or status
    | Read(seen: Option<Deployment>)    // a pass starts; it may be shown any earlier Deployment
    | Finish                            // its write goes through, or is refused
    | GiveUp                            // an API call fails

  ghost predicate Enabled(s: State, a: Action) {
    match a
    case EditModel(_) => true
    case Remove => s.cluster.deployment.Some?
    case CreatePlain(_) => s.cluster.deployment.None?
    case EditSpec(_) => s.cluster.deployment.Some?
    case Read(seen) => s.reading.None? && (seen.Some? ==> seen.value in s.history)
    case Finish => s.reading.Some?
    case GiveUp => s.reading.Some?
  }

  function With(s: State, c: Cluster): State {
    s.(cluster := c, history := if c.deployment.Some? then s.history + {c.deployment.value} else s.history)
  }

  function Next(env: Env, s: State, a: Action): State
    requires Enabled(s, a)
  {
    var c := s.cluster;
    match a
    case EditModel(m) => s.(model := m)
    case Remove => With(s, c.(deployment := None))
    case CreatePlain(spec) => With(s, Cluster(Some(Deployment(c.clock, c.clock, "", spec)), c.clock + 1))
    case EditSpec(spec) => With(s, Cluster(Some(c.deployment.value.(version := c.clock, spec := spec)), c.clock + 1))
    case Read(seen) => s.(reading := Some(Reading(s.model, seen)))
    case Finish => With(s, Write(env, s.reading.value, c)).(reading := None)
    case GiveUp => s.(reading := None)
  }

  ghost predicate Dated(history: set<Deployment>, clock: nat) {
    forall d | d in history :: d.version < clock && d.incarnation < clock
  }

  ghost predicate VersionsUnique(history: set<Deployment>) {
    forall d, e | d in history && e in history && d.version == e.version :: d == e
  }

  /** A hash, once set, is what later versions of the same incarnation carry. */
  ghost predicate HashSettled(history: set<Deployment>) {
    forall d, e | d in history && e in history && d.hash != ""
                  && d.incarnation == e.incarnation && d.version <= e.version ::
      e.hash == d.hash
  }

  ghost predicate Latest(history: set<Deployment>, deployment: Option<Deployment>) {
    deployment.Some? ==>
      && deployment.value in history
      && forall d | d in history && d.incarnation == deployment.value.incarnation ::
           d.version <= deployment.value.version
  }

  ghost predicate Inv(s: State) {
    && Dated(s.history, s.cluster.clock)
    && VersionsUnique(s.history)
    && HashSettled(s.history)
    && Latest(s.history, s.cluster.deployment)
    && (s.reading.Some? && s.reading.value.seen.Some? ==> s.reading.value.seen.value in s.history)
  }

  /** Recording a version that no earlier one has. */
  lemma Recorded(history: set<Deployment>, clock: nat, d: Deployment)
    requires Dated(history, clock) && VersionsUnique(history) && HashSettled(history)
    requires d.version == clock && d.incarnation <= clock
    requires forall e | e in history && e.incarnation == d.incarnation && e.hash != "" :: e.hash == d.hash
    ensures Dated(history + {d}, clock + 1) && VersionsUnique(history + {d}) && HashSettled(history + {d})
    ensures Latest(history + {d}, Some(d))
  {}

  /** A write by a pass keeps a hash that is set, because its read was of this very version. */
  lemma WriteKeepsInv(env: Env, s: State)
    requires Inv(s) && s.reading.Some?
    ensures Inv(With(s, Write(env, s.reading.value, s.cluster)).(reading := None))
  {
    var r, c := s.reading.value, s.cluster;
    var c' := Write(env, r, c);
    if c' == c {
      if c.deployment.Some? { assert s.history + {c.deployment.value} == s.history; }
    } else if c'.deployment.Some? {
      if r.seen.Some? {
        assert r.seen.value == c.deployment.value;
        forall e | e in s.history && e.incarnation == c'.deployment.value.incarnation && e.hash != ""
          ensures e.hash == c'.deployment.value.hash {
          assert e.version <= c.deployment.value.version;
          assert c.deployment.value.hash == e.hash;
        }
      }
      Recorded(s.history, c.clock, c'.deployment.value);
    }
  }

  lemma StepKeepsInv(env: Env, s: State, a: Action)
    requires Inv(s) && Enabled(s, a)
    ensures Inv(Next(env, s, a))
  {
    match a
    case Finish => WriteKeepsInv(env, s);
    case CreatePlain(spec) => Recorded(s.history, s.cluster.clock, Next(env, s, a).cluster.deployment.value);
    case EditSpec(spec) => EditKeepsInv(env, s, spec);
    case _ =>
  }

  lemma EditKeepsInv(env: Env, s: State, spec: string)
    requires Inv(s) && s.cluster.deployment.Some?
    ensures Inv(Next(env, s, EditSpec(spec)))
  {
    var was, d := s.cluster.deployment.value, Next(env, s, EditSpec(spec)).cluster.deployment.value;
    forall e | e in s.history && e.incarnation == d.incarnation && e.hash != "" ensures e.hash == d.hash {
      assert e.version <= was.version;
    }
    Recorded(s.history, s.cluster.clock, d);
  }

  ghost predicate Initial(s: State) {
    s.cluster == Cluster(None, 0) && s.history == {} && s.reading.None?
  }

  ghost predicate IsRun(env: Env, run: seq<State>, acts: seq<Action>) {
    && |run| == |acts| + 1
    && Initial(run[0])
    && forall i | 0 <= i < |acts| :: Enabled(run[i], acts[i]) && run[i + 1] == Next(env, run[i], acts[i])
  }

  lemma {:induction false} InvAlways(env: Env, run: seq<State>, acts: seq<Action>, i: nat)
    requires IsRun(env, run, acts) && i < |run|
    ensures Inv(run[i])
  {
    hide Inv, Next, Enabled;
    if i == 0 {
      InitialInv(run[0]);
    } else {
      InvAlways(env, run, acts, i - 1);
      StepKeepsInv(env, run[i - 1], acts[i - 1]);
    }
  }

  lemma InitialInv(s: State)
    requires Initial(s)
    ensures Inv(s)
  {}

  lemma {:induction false} HistoryGrows(env: Env, run: seq<State>, acts: seq<Action>, i: nat, j: nat)
    requires IsRun(env, run, acts) && i <= j < |run|
    ensures run[i].history <= run[j].history
    decreases j
  {
    if i < j { HistoryGrows(env, run, acts, i, j - 1); }
  }

  /** Whatever edits, deletions, lagging reads and failed calls a run contains, a Deployment that
      carries a hash keeps it until it is replaced by another incarnation. */
  lemma HashForLife(env: Env, run: seq<State>, acts: seq<Action>, i: nat, j: nat)
    requires IsRun(env, run, acts) && i <= j < |run|
    requires run[i].cluster.deployment.Some? && run[j].cluster.deployment.Some?
    requires run[i].cluster.deployment.value.incarnation == run[j].cluster.deployment.value.incarnation
    requires run[i].cluster.deployment.value.hash != ""
    ensures run[j].cluster.deployment.value.hash == run[i].cluster.deployment.value.hash
  {
    InvAlways(env, run, acts, i);
    InvAlways(env, run, acts, j);
    HistoryGrows(env, run, acts, i, j);
  }

  /** A pass that writes into an incarnation with a hash has fetched a model with that hash, and
      leaves that model's spec there. */
  lemma InPlaceMeansSameHash(env: Env, s: State)
    requires Inv(s) && s.reading.Some? && s.cluster.deployment.Some?
    requires var c' := Write(env, s.reading.value, s.cluster);
      && c' != s.cluster && c'.deployment.Some?
      && c'.deployment.value.incarnation == s.cluster.deployment.value.incarnation
    ensures s.cluster.deployment.value.hash in {"", ModelConfigHash(env, s.reading.value.model)}
    ensures var d := Write(env, s.reading.value, s.cluster).deployment.value;
      d.hash == ModelConfigHash(env, s.reading.value.model) && d.spec == env.build(s.reading.value.model)
  {}

  // ---------- a pass with nobody in between ----------

  /** The cluster as the reconciler sees and writes it. */
  class ServiceReconciler {
    const env: Env
    var cluster: Cluster

    constructor (env: Env, cluster: Cluster)
      ensures this.env == env && this.cluster == cluster
    {
      this.env, this.cluster := env, cluster;
    }

    method ReconcileDeployment(model: Model, getFails: bool, writeFails: bool) returns (failed: bool)
      modifies this
      ensures failed == (getFails || writeFails)
      ensures cluster == Pass(env, model, old(cluster), getFails || writeFails)
    {
      var hash := ModelConfigHash(env, model);
      if getFails { return true; }
      if writeFails { return true; }
      match cluster.deployment {
        case Some(existing) =>
          if existing.hash != "" && existing.hash != hash {
            cluster := cluster.(deployment := None);
            return false;
          }
          var updated := existing.(spec := env.build(model), version := cluster.clock);
          updated := updated.(hash := hash);
          cluster := Cluster(Some(updated), cluster.clock + 1);
        case None =>
          cluster := Cluster(Some(Deployment(cluster.clock, cluster.clock, hash, env.build(model))), cluster.clock + 1);
      }
      return false;
    }
  }

  function Pass(env: Env, m: Model, c: Cluster, fault: bool): Cluster {
    if fault then c else Write(env, Reading(m, c.deployment), c)
  }

  function Passes(env: Env, m: Model, c: Cluster, faults: seq<bool>): Cluster
    decreases |faults|
  {
    if faults == [] then c else Passes(env, m, Pass(env, m, c, faults[0]), faults[1..])
  }

  function Successes(faults: seq<bool>): nat {
    if faults == [] then 0 else (if faults[0] then 0 else 1) + Successes(faults[1..])
  }

  ghost predicate UpToDate(env: Env, m: Model, c: Cluster) {
    && c.deployment.Some?
    && c.deployment.value.hash == ModelConfigHash(env, m)
    && c.deployment.value.spec == env.build(m)
  }

  predicate MustReplace(env: Env, m: Model, c: Cluster) {
    Stale(env, Reading(m, c.deployment))
  }

  /** Up to date stays up to date, in the same incarnation. */
  lemma {:induction false} StaysUpToDate(env: Env, m: Model, c: Cluster, faults: seq<bool>)
    requires UpToDate(env, m, c)
    ensures var c' := Passes(env, m, c, faults);
      UpToDate(env, m, c') && c'.deployment.value.incarnation == c.deployment.value.incarnation
    decreases |faults|
  {
    if faults != [] { StaysUpToDate(env, m, Pass(env, m, c, faults[0]), faults[1..]); }
  }

  /** For a model that is not edited: with failed passes in any places, one successful pass is
      enough exactly when the Deployment need not be replaced, and two always are. */
  lemma {:induction false} Converges(env: Env, m: Model, c: Cluster, faults: seq<bool>)
    ensures Successes(faults) >= 2 ==> UpToDate(env, m, Passes(env, m, c, faults))
    ensures Successes(faults) == 1 ==> (UpToDate(env, m, Passes(env, m, c, faults)) <==> !MustReplace(env, m, c))
    ensures Successes(faults) == 0 ==> Passes(env, m, c, faults) == c
    decreases |faults|
  {
    if faults != [] {
      var c' := Pass(env, m, c, faults[0]);
      Converges(env, m, c', faults[1..]);
      if !faults[0] && !MustReplace(env, m, c) { StaysUpToDate(env, m, c', faults[1..]); }
    }
  }

  /** The old incarnation survives the passes exactly when it carried no other configuration. */
  lemma {:induction false} ReplacedExactly(env: Env, m: Model, c: Cluster, faults: seq<bool>)
    requires c.deployment.Some? && c.deployment.value.incarnation < c.clock && Successes(faults) >= 2
    ensures UpToDate(env, m, Passes(env, m, c, faults))
    ensures Passes(env, m, c, faults).deployment.value.incarnation == c.deployment.value.incarnation
       <==> c.deployment.value.hash in {"", ModelConfigHash(env, m)}
    decreases |faults|
  {
    Converges(env, m, c, faults);
    if faults[0] {
      ReplacedExactly(env, m, c, faults[1..]);
    } else if !MustReplace(env, m, c) {
      StaysUpToDate(env, m, Pass(env, m, c, false), faults[1..]);
    } else {
      FromNothing(env, m, Pass(env, m, c, false), faults[1..]);
    }
  }

  lemma {:induction false} FromNothing(env: Env, m: Model, c: Cluster, faults: seq<bool>)
    requires c.deployment.None? && Successes(faults) >= 1
    ensures var d := Passes(env, m, c, faults).deployment; d.Some? && d.value.incarnation == c.clock
    decreases |faults|
  {
    if faults[0] {
      FromNothing(env, m, c, faults[1..]);
    } else {
      StaysUpToDate(env, m, Pass(env, m, c, false), faults[1..]);
    }
  }

  // ---------- which edits the hash sees ----------

  function Parts(m: Model): seq<string> {
    [m.name, m.source, m.storageType, m.image, m.revision, m.modelName]
  }

  function Join(parts: seq<string>): string {
    if parts == [] then "" else parts[0] + Join(parts[1..])
  }

  lemma {:induction false} JoinFront(parts: seq<string>, last: string)
    ensures Join(parts + [last]) == Join(parts) + last
  {
    if parts != [] {
      JoinFront(parts[1..], last);
      assert (parts + [last])[1..] == parts[1..] + [last];
    }
  }

  lemma JoinedParts(m: Model)
    ensures Join(Parts(m)) == ConfigText(m)
  {
    var p := Parts(m);
    forall k: nat | k < 6 ensures Join(p[..k + 1]) == Join(p[..k]) + p[k] {
      JoinFront(p[..k], p[k]);
      assert p[..k + 1] == p[..k] + [p[k]];
    }
    assert Join(p[..0 + 1]) == "" + p[0];
    assert Join(p[..1 + 1]) == p[0] + p[1];
    assert Join(p[..2 + 1]) == p[0] + p[1] + p[2];
    assert Join(p[..3 + 1]) == p[0] + p[1] + p[2] + p[3];
    assert Join(p[..4 + 1]) == p[0] + p[1] + p[2] + p[3] + p[4];
    assert p[..5 + 1] == p;
  }

  lemma {:induction false} SameLengthsJoin(a: seq<string>, b: seq<string>)
    requires |a| == |b| && Join(a) == Join(b)
    requires forall i :: 0 <= i < |a| ==> |a[i]| == |b[i]|
    ensures a == b
  {
    if a != [] {
      var n := |a[0]|;
      assert a[0] == Join(a)[..n] && b[0] == Join(b)[..n];
      assert Join(a[1..]) == Join(a)[n..] && Join(b[1..]) == Join(b)[n..];
      SameLengthsJoin(a[1..], b[1..]);
      assert a == [a[0]] + a[1..] && b == [b[0]] + b[1..];
    }
  }

  lemma {:induction false} JoinLength(a: seq<string>, b: seq<string>, k: nat)
    requires |a| == |b| && k < |a|
    requires forall i :: 0 <= i < |a| && i != k ==> |a[i]| == |b[i]|
    ensures |Join(a)| - |Join(b)| == |a[k]| - |b[k]|
  {
    if k == 0 {
      if |a| > 1 {
        JoinLength(a[1..], b[1..], 0);
      }
    } else {
      JoinLength(a[1..], b[1..], k - 1);
    }
  }

  /** The fields are joined without separators, so the text is blind to a shift across a boundary.
      It is not blind when at most one of the six fields changes its length: then two models have
      the same text only if they agree on all six. */
  lemma OneLengthChangedIsSeen(m: Model, n: Model, k: nat)
    requires k < 6
    requires forall i :: 0 <= i < 6 && i != k ==> |Parts(m)[i]| == |Parts(n)[i]|
    ensures ConfigText(m) == ConfigText(n) <==> Parts(m) == Parts(n)
  {
    JoinedParts(m);
    JoinedParts(n);
    if ConfigText(m) == ConfigText(n) {
      JoinLength(Parts(m), Parts(n), k);
      SameLengthsJoin(Parts(m), Parts(n));
    }
  }

  /** The edit concerns one of the six hashed fields at most, and others at will. */
  predicate OneHashedFieldEdited(m: Model, n: Model) {
    n.(rest := m.rest) in [m.(name := n.name), m.(source := n.source), m.(storageType := n.storageType),
                           m.(image := n.image), m.(revision := n.revision), m.(modelName := n.modelName)]
  }

  /** So, if the digest tells the two texts apart, such an edit replaces the Deployment exactly when
      it does change one of those fields; every other edit updates it in place. */
  lemma EditReplaces(env: Env, m: Model, n: Model, c: Cluster)
    requires DigestNonEmpty(env) && OneHashedFieldEdited(m, n)
    requires env.digest(ConfigText(m)) == env.digest(ConfigText(n)) ==> ConfigText(m) == ConfigText(n)
    requires UpToDate(env, m, c)
    ensures MustReplace(env, n, c) <==> n.(rest := m.rest) != m
  {
    var x := n.(rest := m.rest);
    var k := if x == m.(name := n.name) then 0 else if x == m.(source := n.source) then 1
        else if x == m.(storageType := n.storageType) then 2 else if x == m.(image := n.image) then 3
        else if x == m.(revision := n.revision) then 4 else 5;
    OneLengthChangedIsSeen(m, n, k);
    assert Parts(m) == Parts(n) <==> x == m by {
      if Parts(m) == Parts(n) {
        forall i | 0 <= i < 6 ensures Parts(m)[i] == Parts(n)[i] {}
        assert Parts(m)[0] == m.name && Parts(m)[1] == m.source && Parts(m)[2] == m.storageType;
        assert Parts(m)[3] == m.image && Parts(m)[4] == m.revision && Parts(m)[5] == m.modelName;
        assert Parts(n)[0] == n.name && Parts(n)[1] == n.source && Parts(n)[2] == n.storageType;
        assert Parts(n)[3] == n.image && Parts(n)[4] == n.revision && Parts(n)[5] == n.modelName;
      }
    }
  }

  /** A shift across the boundary between two fields goes unseen: the Deployment is updated in place. */
  lemma BoundaryShiftUnseen(env: Env, c: Cluster)
    requires UpToDate(env, Model("m", "huggingface", "pvc", "img:1", "2", "org/x", ""), c)
    ensures !MustReplace(env, Model("m", "huggingface", "pvc", "img:12", "", "org/x", ""), c)
  {
    assert ConfigText(Model("m", "huggingface", "pvc", "img:1", "2", "org/x", "")) == "mhuggingfacepvcimg:12org/x";
    assert ConfigText(Model("m", "huggingface", "pvc", "img:12", "", "org/x", "")) == "mhuggingfacepvcimg:12org/x";
  }
}
