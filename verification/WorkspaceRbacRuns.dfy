/** Runs over many control planes: users create, edit and delete control planes and edit RBAC
    objects of their own, while the operator reconciles with calls that may fail. */
module WorkspaceRbacRuns {
  import opened Text
  import opened WorkspaceRbac

  /** The cluster, and the trimmed UIDs of every control plane there ever was. */
  datatype State = State(world: World, uids: set<string>)

  datatype Step =
    | Create(cp: Key, plane: Plane)
    | Edit(cp: Key, spec: Spec)
    | Delete(cp: Key)
    | Vanish(cp: Key)
    | Reconcile(cp: Key)
    | Others

  /** Writes by others: an object they leave changed does not carry a control plane's UID. */
  ghost predicate ByOthers<B>(before: Store<B>, after: Store<B>, uids: set<string>) {
    forall k :: k in after ==> (k in before && after[k] == before[k]) || UidOf(after[k]) !in uids
  }

  /** The API server never reuses a UID. */
  ghost predicate Fresh(s: State, uid: string) {
    && uid != "" && uid !in s.uids
    && (forall k :: k in s.world.roles ==> UidOf(s.world.roles[k]) != uid)
    && (forall k :: k in s.world.bindings ==> UidOf(s.world.bindings[k]) != uid)
  }

  ghost predicate Next(s: State, step: Step, s': State) {
    var w, w' := s.world, s'.world;
    match step
    case Create(cp, plane) =>
      && cp !in w.planes && Fresh(s, TrimSpace(plane.uid))
      && s' == State(w.(planes := w.planes[cp := plane]), s.uids + {TrimSpace(plane.uid)})
    case Edit(cp, spec) =>
      cp in w.planes && s' == s.(world := w.(planes := w.planes[cp := w.planes[cp].(spec := spec)]))
    case Delete(cp) =>
      cp in w.planes && s' == s.(world := w.(planes := w.planes[cp := w.planes[cp].(deleting := true)]))
    case Vanish(cp) =>
      cp in w.planes && w.planes[cp].deleting && !w.planes[cp].finalizer && s' == s.(world := w.(planes := w.planes - {cp}))
    case Reconcile(cp) =>
      Reconciled(w, w', cp) && s'.uids == s.uids
    case Others =>
      && s'.uids == s.uids && w'.planes == w.planes
      && ByOthers(w.roles, w'.roles, s.uids) && ByOthers(w.bindings, w'.bindings, s.uids)
  }

  /** The object's stamp leads to a living control plane that carries the finalizer. */
  predicate Backed<B>(r: Resource<B>, planes: map<Key, Plane>) {
    var cp := Key(Get(r.labels, NAMESPACE_LABEL), Get(r.labels, NAME_LABEL));
    cp in planes && planes[cp].finalizer && Stamped(r, cp, planes[cp].uid)
  }

  ghost predicate AllBacked<B>(store: Store<B>, planes: map<Key, Plane>, uids: set<string>) {
    forall k :: k in store && UidOf(store[k]) in uids ==> Backed(store[k], planes)
  }

  ghost predicate KnownUids(planes: map<Key, Plane>, uids: set<string>) {
    && "" !in uids
    && (forall cp :: cp in planes ==> TrimSpace(planes[cp].uid) in uids)
    && (forall a, b :: a in planes && b in planes && TrimSpace(planes[a].uid) == TrimSpace(planes[b].uid) ==> a == b)
  }

  ghost predicate Inv(s: State) {
    && KnownUids(s.world.planes, s.uids)
    && AllBacked(s.world.roles, s.world.planes, s.uids)
    && AllBacked(s.world.bindings, s.world.planes, s.uids)
  }

  // ----- One step -----

  lemma StampedIsBacked<B>(r: Resource<B>, cp: Key, planes: map<Key, Plane>)
    requires cp in planes && planes[cp].finalizer && Stamped(r, cp, planes[cp].uid)
    ensures Backed(r, planes)
  {
    ListedHasIdentity(r, cp);
  }

  /** A reconcile keeps one store backed. */
  lemma ReconcileKeepsBacked<B>(before: Store<B>, after: Store<B>, planes: map<Key, Plane>, planes': map<Key, Plane>, cp: Key, uids: set<string>)
    requires AllBacked(before, planes, uids) && KnownUids(planes, uids)
    requires cp in planes && cp in planes' && planes' == planes[cp := planes'[cp]]
    requires planes'[cp] == planes[cp].(finalizer := planes'[cp].finalizer)
    requires OnlyOrStamped(before, after, cp, planes[cp].uid)
    requires !planes'[cp].finalizer ==> Only(before, after)
    requires !planes'[cp].finalizer && planes[cp].finalizer ==> NoneLeft(after, cp, planes[cp].uid)
    ensures AllBacked(after, planes', uids)
  {
    hide TrimSpace, Listed, HasOwnerUid, UidOf, Labels;
    forall k | k in after && UidOf(after[k]) in uids ensures Backed(after[k], planes') {
      if planes'[cp].finalizer && Stamped(after[k], cp, planes[cp].uid) {
        StampedIsBacked(after[k], cp, planes');
      }
    }
  }

  lemma PlanesKeepBacked<B>(store: Store<B>, planes: map<Key, Plane>, planes': map<Key, Plane>, uids: set<string>)
    requires AllBacked(store, planes, uids)
    requires forall cp :: cp in planes && planes[cp].finalizer ==>
               cp in planes' && planes'[cp].finalizer && planes'[cp].uid == planes[cp].uid
    ensures AllBacked(store, planes', uids)
  {
    hide Stamped, UidOf;
  }

  lemma NextKeepsInv(s: State, step: Step, s': State)
    requires Inv(s) && Next(s, step, s')
    ensures Inv(s')
  {
    hide TrimSpace, Stamped, UidOf, OnlyOrStamped, Only, NoneLeft, AllBacked, Backed, ByOthers;
    var w, w' := s.world, s'.world;
    if step.Reconcile? {
      if step.cp in w.planes {
        ReconcileKeepsBacked(w.roles, w'.roles, w.planes, w'.planes, step.cp, s.uids);
        ReconcileKeepsBacked(w.bindings, w'.bindings, w.planes, w'.planes, step.cp, s.uids);
      }
    } else if step.Others? {
      OthersKeepBacked(w.roles, w'.roles, w.planes, s.uids);
      OthersKeepBacked(w.bindings, w'.bindings, w.planes, s.uids);
    } else {
      PlanesKeepBacked(w.roles, w.planes, w'.planes, s.uids);
      PlanesKeepBacked(w.bindings, w.planes, w'.planes, s.uids);
      if step.Create? {
        FreshKeepsBacked(w.roles, w'.planes, s.uids, TrimSpace(step.plane.uid));
        FreshKeepsBacked(w.bindings, w'.planes, s.uids, TrimSpace(step.plane.uid));
      }
    }
  }

  lemma OthersKeepBacked<B>(before: Store<B>, after: Store<B>, planes: map<Key, Plane>, uids: set<string>)
    requires AllBacked(before, planes, uids) && ByOthers(before, after, uids)
    ensures AllBacked(after, planes, uids)
  {
    hide UidOf, Backed;
  }

  lemma FreshKeepsBacked<B>(store: Store<B>, planes: map<Key, Plane>, uids: set<string>, uid: string)
    requires AllBacked(store, planes, uids) && forall k :: k in store ==> UidOf(store[k]) != uid
    ensures AllBacked(store, planes, uids + {uid})
  {
    hide UidOf, Backed;
  }

  // ----- Whole runs -----

  ghost predicate IsRun(states: seq<State>, steps: seq<Step>) {
    && |states| == |steps| + 1
    && forall i :: 0 <= i < |steps| ==> Next(states[i], steps[i], states[i + 1])
  }

  lemma {:induction false} RunKeepsInv(states: seq<State>, steps: seq<Step>)
    requires IsRun(states, steps) && Inv(states[0])
    ensures forall i :: 0 <= i < |states| ==> Inv(states[i])
    decreases |steps|
  {
    hide Inv, Next;
    if steps != [] {
      var n := |steps| - 1;
      assert forall i :: 0 <= i < n ==> steps[..n][i] == steps[i];
      RunKeepsInv(states[..|steps|], steps[..n]);
      assert forall i :: 0 <= i < |steps| ==> states[..|steps|][i] == states[i];
      NextKeepsInv(states[n], steps[n], states[n + 1]);
    }
  }

  /** In every run from a cluster without control planes, whatever service account names,
      namespace lists and switches it goes through and whichever calls fail: an object that
      carries the UID of some control plane exists only while that control plane exists and
      holds the finalizer. */
  lemma ObjectsOnlyUnderFinalizer(states: seq<State>, steps: seq<Step>, i: nat, uid: string)
    requires IsRun(states, steps) && states[0].world.planes == map[] && states[0].uids == {}
    requires i < |states| && uid in states[i].uids
    requires forall cp :: cp in states[i].world.planes && TrimSpace(states[i].world.planes[cp].uid) == uid ==>
               !states[i].world.planes[cp].finalizer
    ensures forall k :: k in states[i].world.roles ==> UidOf(states[i].world.roles[k]) != uid
    ensures forall k :: k in states[i].world.bindings ==> UidOf(states[i].world.bindings[k]) != uid
  {
    hide TrimSpace, Next, Listed;
    assert Inv(states[0]);
    RunKeepsInv(states, steps);
    assert Inv(states[i]);
  }

  /** A deleted control plane goes away: after the deletion one reconcile that succeeds, as every
      reconcile does whose calls work, leaves nothing between it and its removal, and no object
      with its UID. */
  lemma DeletedPlaneVanishes(hash: ScopeHash, s: State, s1: State, s2: State, cp: Key)
    requires Inv(s) && Next(s, Delete(cp), s1) && Next(s1, Reconcile(cp), s2)
    requires Achieved(hash, s1.world, s2.world, cp)
    ensures Next(s2, Vanish(cp), s2.(world := s2.world.(planes := s2.world.planes - {cp})))
    ensures var uid := TrimSpace(s.world.planes[cp].uid);
            && (forall k :: k in s2.world.roles ==> UidOf(s2.world.roles[k]) != uid)
            && (forall k :: k in s2.world.bindings ==> UidOf(s2.world.bindings[k]) != uid)
  {
    hide TrimSpace, UidOf, AllBacked, Achieved, Reconciled, KnownUids;
    assert Inv(s2) by {
      hide Inv, Next;
      NextKeepsInv(s, Delete(cp), s1);
      NextKeepsInv(s1, Reconcile(cp), s2);
    }
    AchievedRemovesFinalizer(hash, s1.world, s2.world, cp);
    NobodysUid(s2.world.roles, s2.world.planes, s2.uids, cp);
    NobodysUid(s2.world.bindings, s2.world.planes, s2.uids, cp);
  }

  lemma AchievedRemovesFinalizer(hash: ScopeHash, w: World, w': World, cp: Key)
    requires Reconciled(w, w', cp) && Achieved(hash, w, w', cp) && cp in w.planes && w.planes[cp].deleting
    ensures cp in w'.planes && w'.planes[cp] == w.planes[cp].(finalizer := false)
  {
    hide TrimSpace, Listed, Outcome, Nameable, UidOf, NoneLeft, OnlyOrStamped, Only;
  }

  lemma NobodysUid<B>(store: Store<B>, planes: map<Key, Plane>, uids: set<string>, cp: Key)
    requires AllBacked(store, planes, uids) && KnownUids(planes, uids) && cp in planes && !planes[cp].finalizer
    ensures forall k :: k in store ==> UidOf(store[k]) != TrimSpace(planes[cp].uid)
  {
    hide TrimSpace, Listed;
  }
}
