/** The control plane's status commit: a per-field three-way merge inside a compare-and-swap
    retry loop, with a guard against writing from a stale generation.

    Several reconciles may be in flight, each started from a cached, possibly old snapshot of
    the object, while users edit the spec. */
module StatusCommit {
  import opened Results

  datatype SecretRef = SecretRef(name: string, key: string)
  datatype Condition = Condition(kind: string, status: string, observedGeneration: int, reason: string, message: string)

  datatype Status = Status(
    observedGeneration: int,
    readyReplicas: int,
    url: string,
    operatorTokenSecretRef: Option<SecretRef>,
    operatorAccessReady: bool,
    licenseLastApplied: Option<int>,
    licenseLastAppliedHash: string,
    licenseTier: string,
    entitlementsLastChecked: Option<int>,
    externalProvisionerDaemonsEntitlement: string,
    phase: string,
    conditions: seq<Condition>)

  // ----- Fields as values, for stating the merge once for all of them -----

  datatype Field =
    | ObservedGeneration | ReadyReplicas | Url | OperatorTokenSecretRef | OperatorAccessReady
    | LicenseLastApplied | LicenseLastAppliedHash | LicenseTier | EntitlementsLastChecked
    | ExternalProvisionerDaemonsEntitlement | Phase | Conditions

  datatype Value =
    | Int(i: int) | Str(s: string) | Bool(b: bool) | Ref(r: Option<SecretRef>) | Time(t: Option<int>) | Conds(cs: seq<Condition>)

  function Get(s: Status, f: Field): Value {
    match f
    case ObservedGeneration => Int(s.observedGeneration)
    case ReadyReplicas => Int(s.readyReplicas)
    case Url => Str(s.url)
    case OperatorTokenSecretRef => Ref(s.operatorTokenSecretRef)
    case OperatorAccessReady => Bool(s.operatorAccessReady)
    case LicenseLastApplied => Time(s.licenseLastApplied)
    case LicenseLastAppliedHash => Str(s.licenseLastAppliedHash)
    case LicenseTier => Str(s.licenseTier)
    case EntitlementsLastChecked => Time(s.entitlementsLastChecked)
    case ExternalProvisionerDaemonsEntitlement => Str(s.externalProvisionerDaemonsEntitlement)
    case Phase => Str(s.phase)
    case Conditions => Conds(s.conditions)
  }

  /** Statuses are equal exactly when all their fields are. */
  lemma SameFields(a: Status, b: Status)
    ensures a == b <==> forall f :: Get(a, f) == Get(b, f)
  {
    if forall f :: Get(a, f) == Get(b, f) {
      assert Get(a, ObservedGeneration) == Get(b, ObservedGeneration);
      assert Get(a, ReadyReplicas) == Get(b, ReadyReplicas);
      assert Get(a, Url) == Get(b, Url);
      assert Get(a, OperatorTokenSecretRef) == Get(b, OperatorTokenSecretRef);
      assert Get(a, OperatorAccessReady) == Get(b, OperatorAccessReady);
      assert Get(a, LicenseLastApplied) == Get(b, LicenseLastApplied);
      assert Get(a, LicenseLastAppliedHash) == Get(b, LicenseLastAppliedHash);
      assert Get(a, LicenseTier) == Get(b, LicenseTier);
      assert Get(a, EntitlementsLastChecked) == Get(b, EntitlementsLastChecked);
      assert Get(a, ExternalProvisionerDaemonsEntitlement) == Get(b, ExternalProvisionerDaemonsEntitlement);
      assert Get(a, Phase) == Get(b, Phase);
      assert Get(a, Conditions) == Get(b, Conditions);
    }
  }

  /** What one reconcile changed: its own base against what it wants. */
  datatype Delta = Delta(base: Status, next: Status) {
    predicate Touches(f: Field) {
      Get(base, f) != Get(next, f)
    }
  }

  /** Applies to the latest status the fields this reconcile changed, and no others. */
  function Merge(d: Delta, latest: Status): Status {
    Status(
      if d.base.observedGeneration != d.next.observedGeneration then d.next.observedGeneration else latest.observedGeneration,
      if d.base.readyReplicas != d.next.readyReplicas then d.next.readyReplicas else latest.readyReplicas,
      if d.base.url != d.next.url then d.next.url else latest.url,
      if d.base.operatorTokenSecretRef != d.next.operatorTokenSecretRef then d.next.operatorTokenSecretRef else latest.operatorTokenSecretRef,
      if d.base.operatorAccessReady != d.next.operatorAccessReady then d.next.operatorAccessReady else latest.operatorAccessReady,
      if d.base.licenseLastApplied != d.next.licenseLastApplied then d.next.licenseLastApplied else latest.licenseLastApplied,
      if d.base.licenseLastAppliedHash != d.next.licenseLastAppliedHash then d.next.licenseLastAppliedHash else latest.licenseLastAppliedHash,
      if d.base.licenseTier != d.next.licenseTier then d.next.licenseTier else latest.licenseTier,
      if d.base.entitlementsLastChecked != d.next.entitlementsLastChecked then d.next.entitlementsLastChecked else latest.entitlementsLastChecked,
      if d.base.externalProvisionerDaemonsEntitlement != d.next.externalProvisionerDaemonsEntitlement
        then d.next.externalProvisionerDaemonsEntitlement else latest.externalProvisionerDaemonsEntitlement,
      if d.base.phase != d.next.phase then d.next.phase else latest.phase,
      if d.base.conditions != d.next.conditions then d.next.conditions else latest.conditions)
  }

  lemma MergeIsPerField(d: Delta, latest: Status, f: Field)
    ensures Get(Merge(d, latest), f) == if d.Touches(f) then Get(d.next, f) else Get(latest, f)
  {
    match f {
      case ObservedGeneration =>
      case ReadyReplicas =>
      case Url =>
      case OperatorTokenSecretRef =>
      case OperatorAccessReady =>
      case LicenseLastApplied =>
      case LicenseLastAppliedHash =>
      case LicenseTier =>
      case EntitlementsLastChecked =>
      case ExternalProvisionerDaemonsEntitlement =>
      case Phase =>
      case Conditions =>
    }
  }

  // ----- The object, its writers and their steps -----

  datatype Snapshot = Snapshot(version: nat, generation: int, status: Status)

  /** `history` holds every state the object has been in, the current one last; `commits` the
      deltas written so far, in order. */
  datatype Writer =
    | Idle
    | Pending(delta: Delta)
    | Fetched(delta: Delta, latest: Snapshot)

  datatype System = System(history: seq<Snapshot>, commits: seq<Delta>, writers: map<nat, Writer>)

  predicate HasObject(s: System) {
    s.history != []
  }

  function Current(s: System): Snapshot
    requires HasObject(s)
  {
    s.history[|s.history| - 1]
  }

  function WriterOf(s: System, w: nat): Writer {
    if w in s.writers then s.writers[w] else Idle
  }

  datatype Step =
    | EditSpec
    | EditMeta
    /** A reconcile starts from the cached snapshot `cached` and wants status `next`. */
    | Begin(w: nat, cached: nat, next: Status)
    | Fetch(w: nat)
    /** The guarded merge and the update call, whether or not its answer gets back. */
    | Commit(w: nat)
    /** The update call fails before reaching the store, or the reconcile is given up. */
    | GiveUp(w: nat)

  /** The guard and the merge decide whether an update is attempted at all. */
  function Attempt(d: Delta, latest: Snapshot): Option<Status> {
    if d.next.observedGeneration > 0 && latest.generation != d.next.observedGeneration then None
    else if Merge(d, latest.status) == latest.status then None
    else Some(Merge(d, latest.status))
  }

  function Advance(s: System, snap: Snapshot): System
    requires HasObject(s)
  {
    s.(history := s.history + [snap])
  }

  /** A step that is not enabled leaves the system as it is. */
  function Next(s: System, step: Step): (r: System)
    requires HasObject(s)
    ensures HasObject(r)
  {
    var cur := Current(s);
    match step
    case EditSpec => Advance(s, Snapshot(cur.version + 1, cur.generation + 1, cur.status))
    case EditMeta => Advance(s, cur.(version := cur.version + 1))
    case Begin(w, cached, next) =>
      if !(cached < |s.history|) then s
      else
        var c := s.history[cached];
        var want := next.(observedGeneration := c.generation);
        if c.status == want then s else s.(writers := s.writers[w := Pending(Delta(c.status, want))])
    case Fetch(w) =>
      var wr := WriterOf(s, w);
      if wr.Pending? then s.(writers := s.writers[w := Fetched(wr.delta, cur)]) else s
    case Commit(w) =>
      var wr := WriterOf(s, w);
      if !wr.Fetched? then s
      else
        var merged := Attempt(wr.delta, wr.latest);
        if merged.None? then s.(writers := s.writers[w := Idle])
        else if wr.latest.version != cur.version then s.(writers := s.writers[w := Pending(wr.delta)])
        else System(s.history + [Snapshot(cur.version + 1, cur.generation, merged.value)],
                    s.commits + [wr.delta], s.writers[w := Idle])
    case GiveUp(w) => s.(writers := s.writers[w := Idle])
  }

  function Run(s: System, steps: seq<Step>): (r: System)
    requires HasObject(s)
    ensures HasObject(r)
    decreases |steps|
  {
    if steps == [] then s else Run(Next(s, steps[0]), steps[1..])
  }

  // ----- Commit order decides every field -----

  function Fold(start: Status, ds: seq<Delta>): Status {
    if ds == [] then start else Merge(ds[|ds| - 1], Fold(start, ds[..|ds| - 1]))
  }

  /** The value written by the last delta that touched `f`, or the starting value. */
  function LastWritten(start: Status, ds: seq<Delta>, f: Field): Value {
    if ds == [] then Get(start, f)
    else if ds[|ds| - 1].Touches(f) then Get(ds[|ds| - 1].next, f)
    else LastWritten(start, ds[..|ds| - 1], f)
  }

  lemma {:induction false} FoldIsLastWritten(start: Status, ds: seq<Delta>, f: Field)
    ensures Get(Fold(start, ds), f) == LastWritten(start, ds, f)
  {
    if ds != [] {
      FoldIsLastWritten(start, ds[..|ds| - 1], f);
      MergeIsPerField(ds[|ds| - 1], Fold(start, ds[..|ds| - 1]), f);
    }
  }

  /** Versions identify snapshots, the observed generation only grows and never passes the
      generation, and every writer works from something that was really stored. */
  ghost predicate Inv(s: System, start: Status) {
    && HasObject(s)
    && HistoryOk(s.history)
    && Current(s).status == Fold(start, s.commits)
    && (forall w :: w in s.writers ==> WriterOk(s, s.writers[w]))
  }

  ghost predicate SnapshotOk(x: Snapshot) {
    0 <= x.status.observedGeneration <= x.generation && x.generation >= 1
  }

  ghost predicate Precedes(x: Snapshot, y: Snapshot) {
    x.version < y.version && x.generation <= y.generation && x.status.observedGeneration <= y.status.observedGeneration
  }

  ghost predicate HistoryOk(h: seq<Snapshot>) {
    && (forall i :: 0 <= i < |h| ==> SnapshotOk(h[i]))
    && (forall i, j :: 0 <= i < j < |h| ==> Precedes(h[i], h[j]))
  }

  lemma HistoryGrows(h: seq<Snapshot>, x: Snapshot)
    requires HistoryOk(h) && h != [] && SnapshotOk(x) && Precedes(h[|h| - 1], x)
    ensures HistoryOk(h + [x])
  {
    forall i | 0 <= i < |h| ensures Precedes(h[i], x) {
      assert i < |h| - 1 ==> Precedes(h[i], h[|h| - 1]);
    }
  }

  lemma VersionsIdentify(h: seq<Snapshot>, k: nat)
    requires HistoryOk(h) && k < |h| && h[k].version == h[|h| - 1].version
    ensures k == |h| - 1
  {
  }

  ghost predicate WriterOk(s: System, wr: Writer) {
    && (!wr.Idle? ==> DeltaOk(s, wr.delta))
    && (wr.Fetched? ==> wr.latest in s.history)
  }

  ghost predicate DeltaOk(s: System, d: Delta) {
    exists i :: 0 <= i < |s.history| && s.history[i].status == d.base && s.history[i].generation == d.next.observedGeneration
  }

  lemma MoreHistoryKeepsWriters(s: System, s': System, snap: Snapshot)
    requires forall w :: w in s.writers ==> WriterOk(s, s.writers[w])
    requires s'.history == s.history + [snap]
    ensures forall w :: w in s.writers ==> WriterOk(s', s.writers[w])
  {
    forall w | w in s.writers ensures WriterOk(s', s.writers[w]) {
      var wr := s.writers[w];
      if !wr.Idle? {
        var i :| 0 <= i < |s.history| && s.history[i].status == wr.delta.base && s.history[i].generation == wr.delta.next.observedGeneration;
        assert s'.history[i] == s.history[i];
      }
      if wr.Fetched? {
        var i :| 0 <= i < |s.history| && s.history[i] == wr.latest;
        assert s'.history[i] == s.history[i];
      }
    }
  }

  predicate Commits(s: System, step: Step)
    requires HasObject(s)
  {
    Next(s, step).commits != s.commits
  }

  /** At a commit the merged observed generation is the object's generation, also when base and
      next already agreed on it. */
  lemma CommitObservesGeneration(s: System, start: Status, w: nat)
    requires Inv(s, start) && Commits(s, Commit(w))
    ensures var s' := Next(s, Commit(w));
            && Current(s').status.observedGeneration == Current(s').generation == Current(s).generation
            && Current(s').status == Merge(s.writers[w].delta, Current(s).status)
  {
    hide Merge;
    var wr := s.writers[w];
    var cur := Current(s);
    MergeIsPerField(wr.delta, cur.status, ObservedGeneration);
    var k :| 0 <= k < |s.history| && s.history[k] == wr.latest;
    VersionsIdentify(s.history, k);
    var i :| 0 <= i < |s.history| && s.history[i].status == wr.delta.base && s.history[i].generation == wr.delta.next.observedGeneration;
    assert SnapshotOk(s.history[i]) && SnapshotOk(cur);
    assert i < |s.history| - 1 ==> Precedes(s.history[i], cur);
  }

  lemma EditKeepsInv(s: System, start: Status, x: Snapshot)
    requires Inv(s, start) && Precedes(Current(s), x) && x.status == Current(s).status
    ensures Inv(Advance(s, x), start)
  {
    assert SnapshotOk(Current(s));
    HistoryGrows(s.history, x);
    MoreHistoryKeepsWriters(s, Advance(s, x), x);
  }

  lemma CommitKeepsInv(s: System, start: Status, w: nat)
    requires Inv(s, start)
    ensures Inv(Next(s, Commit(w)), start)
    ensures Current(s).status.observedGeneration <= Current(Next(s, Commit(w))).status.observedGeneration
  {
    hide Merge;
    var s' := Next(s, Commit(w));
    if Commits(s, Commit(w)) {
      CommitObservesGeneration(s, start, w);
      assert SnapshotOk(Current(s));
      HistoryGrows(s.history, Current(s'));
      MoreHistoryKeepsWriters(s, s', Current(s'));
      assert s'.commits[..|s'.commits| - 1] == s.commits;
    } else {
      WritersOnly(s, s', start);
    }
  }

  lemma WritersOnly(s: System, s': System, start: Status)
    requires Inv(s, start) && s'.history == s.history && s'.commits == s.commits
    requires forall w :: w in s'.writers ==> WriterOk(s, s'.writers[w])
    ensures Inv(s', start)
  {
    forall w | w in s'.writers ensures WriterOk(s', s'.writers[w]) {
      assert WriterOk(s, s'.writers[w]);
    }
  }

  lemma NextKeepsInv(s: System, start: Status, step: Step)
    requires Inv(s, start)
    ensures Inv(Next(s, step), start)
    ensures Current(s).status.observedGeneration <= Current(Next(s, step)).status.observedGeneration
    ensures Commits(s, step) ==> Current(Next(s, step)).status.observedGeneration == Current(Next(s, step)).generation
  {
    var s' := Next(s, step);
    match step {
      case EditSpec => EditKeepsInv(s, start, Current(s'));
      case EditMeta => EditKeepsInv(s, start, Current(s'));
      case Begin(w, cached, next) =>
        if s' != s {
          assert DeltaOk(s, s'.writers[w].delta);
          WritersOnly(s, s', start);
        }
      case Fetch(w) => WritersOnly(s, s', start);
      case Commit(w) =>
        CommitKeepsInv(s, start, w);
        if Commits(s, step) {
          CommitObservesGeneration(s, start, w);
        }
      case GiveUp(w) => WritersOnly(s, s', start);
    }
  }

  ghost predicate Initial(s: System) {
    && |s.history| == 1 && s.commits == [] && s.writers == map[]
    && 0 <= s.history[0].status.observedGeneration <= s.history[0].generation && s.history[0].generation >= 1
  }

  lemma {:induction false} RunKeepsInv(s: System, start: Status, steps: seq<Step>)
    requires Inv(s, start)
    ensures Inv(Run(s, steps), start)
    ensures Current(s).status.observedGeneration <= Current(Run(s, steps)).status.observedGeneration
    decreases |steps|
  {
    if steps != [] {
      NextKeepsInv(s, start, steps[0]);
      RunKeepsInv(Next(s, steps[0]), start, steps[1..]);
    }
  }

  /** For every interleaving of reconciles with stale bases, retries and spec edits, each field
      of the stored status holds the value of the last committed delta that touched it, so a
      committed change is never lost to a writer that did not touch that field. */
  lemma EveryFieldIsLastWritten(s: System, steps: seq<Step>, f: Field)
    requires Initial(s)
    ensures var r := Run(s, steps);
            Get(Current(r).status, f) == LastWritten(Current(s).status, r.commits, f)
  {
    RunKeepsInv(s, Current(s).status, steps);
    FoldIsLastWritten(Current(s).status, Run(s, steps).commits, f);
  }

  /** Over the same runs the stored observed generation never decreases, never exceeds the
      generation, and equals it right after every commit. */
  lemma ObservedGenerationIsSound(s: System, steps: seq<Step>, step: Step)
    requires Initial(s)
    ensures var r := Run(s, steps);
            var r' := Next(r, step);
            && Current(r).status.observedGeneration <= Current(r').status.observedGeneration <= Current(r').generation
            && (Commits(r, step) ==> Current(r').status.observedGeneration == Current(r').generation)
  {
    RunKeepsInv(s, Current(s).status, steps);
    NextKeepsInv(Run(s, steps), Current(s).status, step);
  }

  // ----- What an attempt writes -----

  /** The reconcile worked on the generation it finds. */
  predicate Timely(d: Delta, latest: Snapshot) {
    d.next.observedGeneration <= 0 || latest.generation == d.next.observedGeneration
  }

  /** Everything the reconcile changed is in the status. */
  ghost predicate Landed(d: Delta, s: Status) {
    forall f :: d.Touches(f) ==> Get(s, f) == Get(d.next, f)
  }

  /** An update is attempted if and only if it is timely and some field the reconcile changed is
      not in place yet; it then puts every such field in place and leaves the others. */
  lemma AttemptMeaning(d: Delta, latest: Snapshot)
    ensures Attempt(d, latest).Some? <==> Timely(d, latest) && !Landed(d, latest.status)
    ensures Attempt(d, latest).Some? ==>
              forall f :: Get(Attempt(d, latest).value, f) == if d.Touches(f) then Get(d.next, f) else Get(latest.status, f)
  {
    hide Merge, Get;
    forall f ensures Get(Merge(d, latest.status), f) == if d.Touches(f) then Get(d.next, f) else Get(latest.status, f) {
      MergeIsPerField(d, latest.status, f);
    }
    SameFields(Merge(d, latest.status), latest.status);
  }

  // ----- The retry loop -----

  lemma {:induction false} RunAppend(s: System, a: seq<Step>, b: seq<Step>)
    requires HasObject(s)
    ensures Run(s, a + b) == Run(Run(s, a), b)
    decreases |a|
  {
    if a == [] {
      assert a + b == b;
    } else {
      assert (a + b)[0] == a[0] && (a + b)[1..] == a[1..] + b;
      RunAppend(Next(s, a[0]), a[1..], b);
    }
  }

  predicate LeavesAlone(w: nat, step: Step) {
    (step.Begin? || step.Fetch? || step.Commit? || step.GiveUp?) ==> step.w != w
  }

  lemma {:induction false} OthersKeepWriter(s: System, w: nat, steps: seq<Step>)
    requires HasObject(s) && forall i :: 0 <= i < |steps| ==> LeavesAlone(w, steps[i])
    ensures WriterOf(Run(s, steps), w) == WriterOf(s, w)
    decreases |steps|
  {
    if steps != [] {
      assert LeavesAlone(w, steps[0]);
      OthersKeepWriter(Next(s, steps[0]), w, steps[1..]);
    }
  }

  const MAX_ATTEMPTS := 5

  /** What others do between the read and the write of round `k`. */
  function MeanwhileOf(meanwhile: seq<seq<Step>>, k: nat): seq<Step> {
    if k < |meanwhile| then meanwhile[k] else []
  }

  /** The steps of the first `n` rounds of the loop: a read, what others do meanwhile, a write. */
  function Rounds(w: nat, meanwhile: seq<seq<Step>>, n: nat): seq<Step> {
    if n == 0 then []
    else
      Rounds(w, meanwhile, n - 1) + ([Fetch(w)] + MeanwhileOf(meanwhile, n - 1) + [Commit(w)])
  }

  function After(start: System, w: nat, meanwhile: seq<seq<Step>>, n: nat): (s: System)
    requires HasObject(start)
    ensures HasObject(s)
  {
    Run(start, Rounds(w, meanwhile, n))
  }

  function Round(s: System, w: nat, others: seq<Step>): (r: System)
    requires HasObject(s)
    ensures HasObject(r)
  {
    Next(Run(Next(s, Fetch(w)), others), Commit(w))
  }

  lemma AfterNone(start: System, w: nat, meanwhile: seq<seq<Step>>)
    requires HasObject(start)
    ensures After(start, w, meanwhile, 0) == start
  {
  }

  lemma GivingUpEnds(s: System, w: nat)
    requires HasObject(s)
    ensures WriterOf(Next(s, GiveUp(w)), w).Idle?
  {
  }

  lemma AfterOneMore(start: System, w: nat, meanwhile: seq<seq<Step>>, n: nat, others: seq<Step>)
    requires HasObject(start)
    requires others == MeanwhileOf(meanwhile, n)
    ensures After(start, w, meanwhile, n + 1) == Round(After(start, w, meanwhile, n), w, others)
  {
    var s := After(start, w, meanwhile, n);
    RunAppend(start, Rounds(w, meanwhile, n), [Fetch(w)] + others + [Commit(w)]);
    RunAppend(s, [Fetch(w)] + others, [Commit(w)]);
    RunAppend(s, [Fetch(w)], others);
    RunOne(s, Fetch(w));
    RunOne(Run(Next(s, Fetch(w)), others), Commit(w));
  }

  /** Someone else wrote the object between the read and the write of this round. */
  predicate Disturbed(s: System, w: nat, others: seq<Step>)
    requires HasObject(s)
  {
    Current(Run(Next(s, Fetch(w)), others)).version != Current(s).version
  }

  /** One round: it is repeated if and only if there was something to write and someone else
      wrote in between; without anything to write it writes nothing; otherwise it writes exactly
      its own changes. */
  lemma RoundMeaning(s: System, w: nat, others: seq<Step>)
    requires HasObject(s) && WriterOf(s, w).Pending?
    requires forall i :: 0 <= i < |others| ==> LeavesAlone(w, others[i])
    ensures var d := WriterOf(s, w).delta;
            var mid := Run(Next(s, Fetch(w)), others);
            var end := Round(s, w, others);
            var wants := Timely(d, Current(s)) && !Landed(d, Current(s).status);
            && WriterOf(end, w) == (if wants && Disturbed(s, w, others) then Pending(d) else Idle)
            && (!wants || Disturbed(s, w, others) ==> end.history == mid.history && end.commits == mid.commits)
            && (wants && !Disturbed(s, w, others) ==> end.commits == mid.commits + [d] && Landed(d, Current(end).status))
  {
    hide Merge, Landed, Timely, Attempt;
    var d := WriterOf(s, w).delta;
    OthersKeepWriter(Next(s, Fetch(w)), w, others);
    AttemptMeaning(d, Current(s));
    if Attempt(d, Current(s)).Some? {
      AttemptLands(d, Current(s));
    }
  }

  lemma AttemptLands(d: Delta, latest: Snapshot)
    requires Attempt(d, latest).Some?
    ensures Landed(d, Attempt(d, latest).value)
  {
    AttemptMeaning(d, latest);
  }

  /** In a reachable state, a timely round that nobody disturbs ends with everything this
      reconcile changed in the stored status. */
  lemma UndisturbedRoundLands(s: System, start: Status, w: nat, others: seq<Step>)
    requires Inv(s, start) && WriterOf(s, w).Pending? && Timely(WriterOf(s, w).delta, Current(s))
    requires forall i :: 0 <= i < |others| ==> LeavesAlone(w, others[i])
    requires !Disturbed(s, w, others)
    ensures WriterOf(Round(s, w, others), w).Idle? && Landed(WriterOf(s, w).delta, Current(Round(s, w, others)).status)
  {
    hide Merge, Landed, Timely, HistoryOk;
    RoundMeaning(s, w, others);
    var read := Next(s, Fetch(w));
    NextKeepsInv(s, start, Fetch(w));
    RunKeepsInv(read, start, others);
    OthersKeepWriter(read, w, others);
    var mid := Run(read, others);
    assert WriterOk(mid, mid.writers[w]);
    var k :| 0 <= k < |mid.history| && mid.history[k] == Current(s);
    VersionsIdentify(mid.history, k);
  }

  lemma OneRound(s: System, w: nat, others: seq<Step>, d: Delta, first: Status)
    requires HasObject(s) && WriterOf(s, w) == Pending(d)
    requires forall i :: 0 <= i < |others| ==> LeavesAlone(w, others[i])
    ensures var end := Round(s, w, others);
            && (WriterOf(end, w) == Pending(d) || WriterOf(end, w).Idle?)
            && (WriterOf(end, w).Pending? ==> Disturbed(s, w, others))
            && (Inv(s, first) ==> Inv(end, first))
            && (Inv(s, first) && !Disturbed(s, w, others) && Timely(d, Current(s)) ==> Landed(d, Current(end).status))
  {
    hide Inv, Landed, Timely, Disturbed, Next, Run;
    RoundMeaning(s, w, others);
    if Inv(s, first) {
      NextKeepsInv(s, first, Fetch(w));
      RunKeepsInv(Next(s, Fetch(w)), first, others);
      NextKeepsInv(Run(Next(s, Fetch(w)), others), first, Commit(w));
      if !Disturbed(s, w, others) && Timely(d, Current(s)) {
        UndisturbedRoundLands(s, first, w, others);
      }
    }
  }

  /** A reconcile that starts from the current object and meets nobody stores exactly the status
      it wants, for the current generation. */
  lemma UndisturbedReconcileStores(s: System, w: nat, next: Status)
    requires HasObject(s) && WriterOf(s, w).Idle? && Current(s).generation >= 1
    ensures var end := Run(s, [Begin(w, |s.history| - 1, next), Fetch(w), Commit(w)]);
            && Current(end).status == next.(observedGeneration := Current(s).generation)
            && WriterOf(end, w).Idle?
  {
    hide Merge;
    var steps := [Begin(w, |s.history| - 1, next), Fetch(w), Commit(w)];
    var want := next.(observedGeneration := Current(s).generation);
    MergeOntoBase(Delta(Current(s).status, want));
    var a := Next(s, steps[0]);
    var b := Next(a, Fetch(w));
    assert Run(s, steps) == Next(b, Commit(w)) by {
      hide Next;
      assert steps == [steps[0]] + ([Fetch(w)] + [Commit(w)]);
      RunAppend(s, [steps[0]], [Fetch(w)] + [Commit(w)]);
      RunAppend(a, [Fetch(w)], [Commit(w)]);
      RunOne(s, steps[0]);
      RunOne(a, Fetch(w));
      RunOne(b, Commit(w));
    }
    assert WriterOf(a, w) == if Current(s).status == want then Idle else Pending(Delta(Current(s).status, want));
  }

  lemma MergeOntoBase(d: Delta)
    ensures Merge(d, d.base) == d.next
  {
  }

  /** One call of the commit loop. Between its read and its write of round `k`, others take the
      steps `meanwhile[k]`. It repeats exactly while the write conflicts, at most five rounds,
      and all it does are steps of the system, so the guarantees over runs cover it. */
  method ReconcileStatus(start: System, w: nat, meanwhile: seq<seq<Step>>, ghost first: Status)
    returns (end: System, rounds: nat, conflict: bool)
    requires HasObject(start) && WriterOf(start, w).Pending?
    requires forall k, i :: 0 <= k < |meanwhile| && 0 <= i < |meanwhile[k]| ==> LeavesAlone(w, meanwhile[k][i])
    ensures 1 <= rounds <= 5
    ensures forall k :: 0 <= k < rounds ==> WriterOf(After(start, w, meanwhile, k), w).Pending?
    ensures conflict == WriterOf(After(start, w, meanwhile, rounds), w).Pending?
    ensures conflict ==> rounds == 5
    ensures end == if conflict then Next(After(start, w, meanwhile, rounds), GiveUp(w)) else After(start, w, meanwhile, rounds)
    ensures WriterOf(end, w).Idle?
    ensures forall k :: 0 <= k < rounds - 1 ==> Disturbed(After(start, w, meanwhile, k), w, MeanwhileOf(meanwhile, k))
    ensures var read, others := After(start, w, meanwhile, rounds - 1), MeanwhileOf(meanwhile, rounds - 1);
            && (conflict ==> Disturbed(read, w, others))
            && (Inv(start, first) && !Disturbed(read, w, others) && Timely(WriterOf(start, w).delta, Current(read)) ==>
                  Landed(WriterOf(start, w).delta, Current(end).status))
  {
    hide Next, Run, Rounds, Merge, Inv, Landed, Timely, Disturbed, After;
    AfterNone(start, w, meanwhile);
    ghost var d := WriterOf(start, w).delta;
    ghost var read, between := start, [];
    end, rounds, conflict := start, 0, true;
    while rounds < MAX_ATTEMPTS && conflict
      invariant 0 <= rounds <= MAX_ATTEMPTS
      invariant HasObject(end) && end == After(start, w, meanwhile, rounds)
      invariant forall k :: 0 <= k < rounds ==> WriterOf(After(start, w, meanwhile, k), w).Pending?
      invariant if conflict then WriterOf(end, w) == Pending(d) else WriterOf(end, w).Idle? && rounds >= 1
      invariant forall k :: 0 <= k < rounds - 1 ==> Disturbed(After(start, w, meanwhile, k), w, MeanwhileOf(meanwhile, k))
      invariant Inv(start, first) ==> Inv(end, first)
      invariant HasObject(read)
      invariant rounds >= 1 ==>
                  && read == After(start, w, meanwhile, rounds - 1) && between == MeanwhileOf(meanwhile, rounds - 1)
                  && (conflict ==> Disturbed(read, w, between))
                  && (Inv(start, first) && !Disturbed(read, w, between) && Timely(d, Current(read)) ==> Landed(d, Current(end).status))
    {
      var others := MeanwhileOf(meanwhile, rounds);
      AfterOneMore(start, w, meanwhile, rounds, others);
      OneRound(end, w, others, d, first);
      read, between := end, others;
      var fetched := Next(end, Fetch(w));
      var disturbed := Run(fetched, others);
      end := Next(disturbed, Commit(w));
      conflict := WriterOf(end, w).Pending?;
      rounds := rounds + 1;
    }
    if conflict {
      GivingUpEnds(end, w);
      end := Next(end, GiveUp(w));
    }
  }

  lemma RunOne(s: System, step: Step)
    requires HasObject(s)
    ensures Run(s, [step]) == Next(s, step)
  {
    assert [step][1..] == [];
  }
}
