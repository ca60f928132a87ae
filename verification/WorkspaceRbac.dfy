/** Workspace RBAC of a control plane: one Role and one RoleBinding in every workspace namespace,
    found again by labels and an owner annotation because owner references cannot cross
    namespaces, and removed under a finalizer before the control plane goes away. */
module WorkspaceRbac {
  import opened Results
  import opened Text
  import opened WorkspaceNames

  // ----- Objects -----

  datatype Key = Key(namespace: string, name: string)
  datatype Owner = Owner(group: string, version: string, kind: string, name: string, uid: string)

  datatype Resource<B> = Resource(labels: map<string, string>, annotations: map<string, string>,
                                  controller: Option<Owner>, body: B)

  datatype Rule = Rule(groups: seq<string>, resources: seq<string>, verbs: seq<string>)
  datatype RoleRef = RoleRef(group: string, kind: string, name: string)
  datatype Subject = Subject(kind: string, name: string, namespace: string)
  datatype Binding = Binding(roleRef: RoleRef, subjects: seq<Subject>)

  type Store<B> = map<Key, Resource<B>>
  type Roles = Store<seq<Rule>>
  type Bindings = Store<Binding>

  datatype Spec = Spec(serviceAccount: string, workspacePerms: Option<bool>, deployments: Option<bool>,
                       extraRules: seq<Rule>, namespaces: seq<string>)
  datatype Plane = Plane(uid: string, finalizer: bool, deleting: bool, spec: Spec)

  /** The eight hex digits derived from a control plane's namespace and name. */
  type ScopeHash = (string, string) -> string

  // ----- Identity -----

  const NAME_LABEL := "coder.com/control-plane"
  const NAMESPACE_LABEL := "coder.com/control-plane-namespace"
  const UID_ANNOTATION := "coder.com/workspace-rbac-owner-uid"
  const GROUP := "coder.com"
  const VERSION := "v1alpha1"
  const KIND := "CoderControlPlane"
  const RBAC_GROUP := "rbac.authorization.k8s.io"

  function Labels(cp: Key): map<string, string> {
    map["app.kubernetes.io/name" := "coder-control-plane",
        "app.kubernetes.io/instance" := cp.name,
        "app.kubernetes.io/managed-by" := "coder-k8s",
        NAME_LABEL := cp.name,
        NAMESPACE_LABEL := cp.namespace]
  }

  function Get(m: map<string, string>, key: string): string {
    if key in m then m[key] else ""
  }

  /** The label selector of the control plane's list calls. */
  predicate Listed<B>(r: Resource<B>, cp: Key) {
    forall l :: l in Labels(cp) ==> l in r.labels && r.labels[l] == Labels(cp)[l]
  }

  predicate HasIdentityLabels<B>(r: Resource<B>, cp: Key) {
    Get(r.labels, NAME_LABEL) == cp.name && Get(r.labels, NAMESPACE_LABEL) == cp.namespace
  }

  function UidOf<B>(r: Resource<B>): string {
    TrimSpace(Get(r.annotations, UID_ANNOTATION))
  }

  predicate HasOwnerUid<B>(r: Resource<B>, uid: string) {
    TrimSpace(uid) != "" && UidOf(r) == TrimSpace(uid)
  }

  predicate OwnedBy<B>(r: Resource<B>, cp: Key, uid: string) {
    r.controller == Some(Owner(GROUP, VERSION, KIND, cp.name, uid))
  }

  /** Setting a controller reference is refused while another object controls the resource;
      an older reference to a control plane of the same name is replaced. */
  predicate ControlledByOther<B>(store: Store<B>, k: Key, cp: Key) {
    k in store && store[k].controller.Some? &&
    var c := store[k].controller.value; !(c.group == GROUP && c.kind == KIND && c.name == cp.name)
  }

  predicate ManagedRole(k: Key, r: Resource<seq<Rule>>, cp: Key, uid: string, roleName: string) {
    || OwnedBy(r, cp, uid)
    || (HasIdentityLabels(r, cp) && (HasOwnerUid(r, uid) || (k.namespace != cp.namespace && k.name == roleName)))
  }

  predicate ManagedBinding(k: Key, r: Resource<Binding>, cp: Key, uid: string, roleName: string, bindingName: string, account: string) {
    || OwnedBy(r, cp, uid)
    || (&& HasIdentityLabels(r, cp)
        && (|| HasOwnerUid(r, uid)
            || (&& k.namespace != cp.namespace && k.name == bindingName
                && r.body.roleRef == RoleRef(RBAC_GROUP, "Role", roleName)
                && r.body.subjects == [Subject("ServiceAccount", account, cp.namespace)])))
  }

  // ----- Desired objects -----

  function AccountName(cp: Key, spec: Spec): string {
    if spec.serviceAccount != "" then spec.serviceAccount else cp.name
  }

  function ScopedFor(hash: ScopeHash, cp: Key, account: string, suffix: string): Option<string> {
    if TrimSpace(cp.namespace) == "" || TrimSpace(cp.name) == "" then None
    else ScopedName(account, hash(cp.namespace, cp.name), suffix)
  }

  /** The account name that cleanup assumes. */
  function CleanupAccount(cp: Key, spec: Spec): string {
    var account := TrimSpace(AccountName(cp, spec));
    if account == "" then cp.name else account
  }

  function OrDefault(explicit: Option<bool>): bool {
    if explicit.None? then true else explicit.value
  }

  const ALL_VERBS := ["get", "list", "watch", "create", "update", "patch", "delete", "deletecollection"]

  function Rules(spec: Spec): seq<Rule> {
    [Rule([""], ["pods"], ALL_VERBS), Rule([""], ["persistentvolumeclaims"], ALL_VERBS)]
    + (if OrDefault(spec.deployments) then [Rule(["apps"], ["deployments"], ALL_VERBS)] else [])
    + spec.extraRules
  }

  /** A resource as this control plane writes it. */
  function Ours<B>(cp: Key, uid: string, namespace: string, body: B): Resource<B> {
    Resource(Labels(cp), map[UID_ANNOTATION := TrimSpace(uid)],
             if namespace == cp.namespace then Some(Owner(GROUP, VERSION, KIND, cp.name, uid)) else None, body)
  }

  function TargetList(cp: Key, spec: Spec): seq<string> {
    [cp.namespace] + spec.namespaces
  }

  /** The distinct trimmed namespaces among the first `n` targets. */
  function Targets(cp: Key, spec: Spec, n: nat): set<string>
    requires n <= |TargetList(cp, spec)|
  {
    set i | 0 <= i < n :: TrimSpace(TargetList(cp, spec)[i])
  }

  function KeysIn(namespaces: set<string>, name: string): set<Key> {
    set ns | ns in namespaces :: Key(ns, name)
  }

  function Desired<B>(cp: Key, uid: string, namespaces: set<string>, name: string, body: B): Store<B> {
    map k | k in KeysIn(namespaces, name) :: Ours(cp, uid, k.namespace, body)
  }

  function BindingBody(cp: Key, account: string, roleName: string): Binding {
    Binding(RoleRef(RBAC_GROUP, "Role", roleName), [Subject("ServiceAccount", account, cp.namespace)])
  }

  // ----- What a reconcile achieves -----

  function ManagedRoles(roles: Roles, cp: Key, uid: string, roleName: string): set<Key> {
    set k | k in roles && Listed(roles[k], cp) && ManagedRole(k, roles[k], cp, uid, roleName)
  }

  function ManagedBindings(bindings: Bindings, cp: Key, uid: string, roleName: string, bindingName: string, account: string): set<Key> {
    set k | k in bindings && Listed(bindings[k], cp) && ManagedBinding(k, bindings[k], cp, uid, roleName, bindingName, account)
  }

  /** The desired objects are in place, the other managed ones are gone, the rest is untouched. */
  ghost predicate Converged<B>(before: Store<B>, after: Store<B>, managed: set<Key>, desired: Store<B>) {
    && (forall k :: k in after <==> k in desired || (k in before && k !in managed))
    && (forall k :: k in after ==> after[k] == if k in desired then desired[k] else before[k])
  }

  /** Something between the two: only desired objects were written, only managed ones deleted. */
  ghost predicate Partly<B>(before: Store<B>, after: Store<B>, managed: set<Key>, desired: Store<B>) {
    && (forall k :: k in after ==> (k in before && after[k] == before[k]) || (k in desired && after[k] == desired[k]))
    && (forall k :: k in before && k !in managed ==> k in after)
  }

  function JoinedKey(k: Key): string {
    k.namespace + "/" + k.name
  }

  /** The API server admits no slash in a namespace name. */
  predicate Plain<B>(store: Store<B>) {
    forall k :: k in store ==> '/' !in k.namespace
  }

  /** Under that rule the joined keys of cleanup's keep sets identify objects. */
  lemma JoinedKeyIsInjective(a: Key, b: Key)
    requires '/' !in a.namespace && '/' !in b.namespace && JoinedKey(a) == JoinedKey(b)
    ensures a == b
  {
    CutJoin(a.namespace, '/', a.name);
    CutJoin(b.namespace, '/', b.name);
  }

  // ----- Cleanup and writes -----

  /** Deletes the listed resources that are managed and not kept. */
  method DeleteManaged<B>(store: Store<B>, cp: Key, keep: set<string>, managed: (Key, Resource<B>) -> bool,
                          list: bool, delete: Key -> Call) returns (after: Store<B>, ok: bool)
    ensures after.Keys <= store.Keys && forall k :: k in after ==> after[k] == store[k]
    ensures forall k :: k in store && k !in after ==> Listed(store[k], cp) && managed(k, store[k]) && JoinedKey(k) !in keep
    ensures ok ==> forall k :: k in after && Listed(after[k], cp) && managed(k, after[k]) ==> JoinedKey(k) in keep
    ensures ok ==> list && forall k :: k in store && k !in after ==> delete(k).Done?
    ensures list && (forall k :: delete(k).Done?) ==> ok
  {
    after := store;
    if !list {
      return after, false;
    }
    var items := set k | k in store && Listed(store[k], cp);
    while items != {}
      invariant items <= store.Keys && forall k :: k in items ==> Listed(store[k], cp)
      invariant after.Keys <= store.Keys && forall k :: k in after ==> after[k] == store[k]
      invariant forall k :: k in store && k !in after ==> Listed(store[k], cp) && managed(k, store[k]) && JoinedKey(k) !in keep
      invariant forall k :: k in after && Listed(after[k], cp) && managed(k, after[k]) ==> JoinedKey(k) in keep || k in items
      invariant forall k :: k in store && k !in after ==> delete(k).Done?
      decreases items
    {
      var k :| k in items;
      if JoinedKey(k) !in keep && managed(k, store[k]) {
        var call := delete(k);
        if call.Done? || call.applied {
          after := after - {k};
        }
        if !call.Done? {
          return after, false;
        }
      }
      items := items - {k};
    }
    ok := true;
  }

  /** Creates or updates one resource so that it is as this control plane wants it. */
  method CreateOrUpdate<B>(store: Store<B>, k: Key, cp: Key, wanted: Resource<B>, call: Call) returns (after: Store<B>, ok: bool)
    ensures ok ==> call.Done? && after == store[k := wanted] && '/' !in k.namespace
    ensures after == store || (after == store[k := wanted] && '/' !in k.namespace)
    ensures k.namespace == cp.namespace && k in store && store[k].controller.Some? ==>
              var c := store[k].controller.value;
              c.group != GROUP || c.kind != KIND || c.name != cp.name ==> !ok && after == store
    ensures call.Done? && '/' !in k.namespace && !(k.namespace == cp.namespace && ControlledByOther(store, k, cp)) ==> ok
  {
    if (k.namespace == cp.namespace && ControlledByOther(store, k, cp)) || '/' in k.namespace {
      return store, false;
    }
    after := if call.Done? || call.applied then store[k := wanted] else store;
    ok := call.Done?;
  }

  // ----- The reconciler -----

  lemma OursIsManaged<B>(cp: Key, uid: string, namespace: string, body: B)
    requires TrimSpace(uid) != ""
    ensures var r := Ours(cp, uid, namespace, body);
            Listed(r, cp) && HasIdentityLabels(r, cp) && HasOwnerUid(r, uid) && UidOf(r) == TrimSpace(uid)
  {
    TrimMeaning(uid);
    hide TrimSpace;
    assert |NAME_LABEL| != |NAMESPACE_LABEL|;
  }

  /** After a converged reconcile the managed Roles are exactly the desired ones, one in each
      target namespace. */
  lemma ConvergedRolesAreExact(before: Roles, after: Roles, cp: Key, uid: string, roleName: string, namespaces: set<string>, body: seq<Rule>)
    requires TrimSpace(uid) != ""
    requires Converged(before, after, ManagedRoles(before, cp, uid, roleName), Desired(cp, uid, namespaces, roleName, body))
    ensures ManagedRoles(after, cp, uid, roleName) == KeysIn(namespaces, roleName)
    ensures |KeysIn(namespaces, roleName)| == |namespaces|
  {
    hide TrimSpace, Labels, Listed, HasIdentityLabels, HasOwnerUid, OwnedBy, UidOf;
    forall k | k in KeysIn(namespaces, roleName) ensures k in ManagedRoles(after, cp, uid, roleName) {
      OursIsManaged(cp, uid, k.namespace, body);
    }
    KeysInCount(namespaces, roleName);
  }

  lemma ConvergedBindingsAreExact(before: Bindings, after: Bindings, cp: Key, uid: string, roleName: string, bindingName: string,
                                  account: string, namespaces: set<string>, body: Binding)
    requires TrimSpace(uid) != ""
    requires Converged(before, after, ManagedBindings(before, cp, uid, roleName, bindingName, account),
                       Desired(cp, uid, namespaces, bindingName, body))
    ensures ManagedBindings(after, cp, uid, roleName, bindingName, account) == KeysIn(namespaces, bindingName)
    ensures |KeysIn(namespaces, bindingName)| == |namespaces|
  {
    hide TrimSpace, Labels, Listed, HasIdentityLabels, HasOwnerUid, OwnedBy, UidOf;
    forall k | k in KeysIn(namespaces, bindingName) ensures k in ManagedBindings(after, cp, uid, roleName, bindingName, account) {
      OursIsManaged(cp, uid, k.namespace, body);
    }
    KeysInCount(namespaces, bindingName);
  }

  lemma {:induction false} KeysInCount(namespaces: set<string>, name: string)
    ensures |KeysIn(namespaces, name)| == |namespaces|
    decreases |namespaces|
  {
    if namespaces != {} {
      var ns :| ns in namespaces;
      KeysInCount(namespaces - {ns}, name);
      assert KeysIn(namespaces, name) == KeysIn(namespaces - {ns}, name) + {Key(ns, name)};
    }
  }

  /** How the API calls of one reconcile end. */
  datatype Api = Api(addFinalizer: Call, reload: bool, serviceAccount: bool,
                     writeRole: string -> Call, writeBinding: string -> Call,
                     listRoles: bool, deleteRole: Key -> Call, listBindings: bool, deleteBinding: Key -> Call,
                     removeFinalizer: Call) {
    ghost predicate AllWork() {
      && addFinalizer.Done? && reload && serviceAccount && listRoles && listBindings && removeFinalizer.Done?
      && (forall ns :: writeRole(ns).Done? && writeBinding(ns).Done?)
      && (forall k :: deleteRole(k).Done? && deleteBinding(k).Done?)
    }
  }

  /** The names cleanup works with. */
  datatype Names = Names(role: string, binding: string, account: string)

  function CleanupNames(hash: ScopeHash, cp: Key, spec: Spec): Option<Names> {
    var account := CleanupAccount(cp, spec);
    var role, binding := ScopedFor(hash, cp, account, ROLE_SUFFIX), ScopedFor(hash, cp, account, "");
    if role.None? || binding.None? then None else Some(Names(role.value, binding.value, account))
  }

  function MyRoles(roles: Roles, cp: Key, uid: string, names: Names): set<Key> {
    ManagedRoles(roles, cp, uid, names.role)
  }

  function MyBindings(bindings: Bindings, cp: Key, uid: string, names: Names): set<Key> {
    ManagedBindings(bindings, cp, uid, names.role, names.binding, names.account)
  }

  function Joined(keys: set<Key>): set<string> {
    set k | k in keys :: JoinedKey(k)
  }

  class Cluster {
    var roles: Roles
    var bindings: Bindings
    var planes: map<Key, Plane>

    ghost predicate Valid()
      reads this
    {
      Plain(roles) && Plain(bindings)
    }

    /** Deletes this control plane's managed objects except those at the kept keys. */
    method CleanupManaged(hash: ScopeHash, cp: Key, plane: Plane, keepRoles: set<string>, keepBindings: set<string>,
                          ghost rolesKept: set<Key>, ghost bindingsKept: set<Key>, api: Api) returns (ok: bool)
      requires Valid() && Plainly(rolesKept) && Plainly(bindingsKept)
      requires keepRoles == Joined(rolesKept) && keepBindings == Joined(bindingsKept)
      modifies this`roles, this`bindings
      ensures Valid()
      ensures CleanupNames(hash, cp, plane.spec).None? ==> !ok && roles == old(roles) && bindings == old(bindings)
      ensures CleanupNames(hash, cp, plane.spec).Some? ==>
                var names := CleanupNames(hash, cp, plane.spec).value;
                && Cleaned(old(roles), roles, MyRoles(old(roles), cp, plane.uid, names), rolesKept, ok)
                && Cleaned(old(bindings), bindings, MyBindings(old(bindings), cp, plane.uid, names), bindingsKept, ok)
      ensures CleanupNames(hash, cp, plane.spec).Some? && api.AllWork() ==> ok
    {
      hide ScopedFor, TrimSpace, Listed, ManagedRole, ManagedBinding, CleanupAccount;
      var n := CleanupNames(hash, cp, plane.spec);
      if n.None? {
        return false;
      }
      var names := n.value;
      ghost var r0, b0 := roles, bindings;
      roles, ok := DeleteManaged(roles, cp, keepRoles, (k, r) => ManagedRole(k, r, cp, plane.uid, names.role), api.listRoles, api.deleteRole);
      KeptIsKept(r0, rolesKept);
      KeptIsKept(b0, bindingsKept);
      if ok {
        bindings, ok := DeleteManaged(bindings, cp, keepBindings,
                                      (k, r) => ManagedBinding(k, r, cp, plane.uid, names.role, names.binding, names.account),
                                      api.listBindings, api.deleteBinding);
      }
    }

    /** Writes the Role and RoleBinding of every distinct target namespace, in list order. */
    method WriteTargets(cp: Key, plane: Plane, names: Names, account: string, api: Api)
      returns (ok: bool, keepRoles: set<string>, keepBindings: set<string>)
      requires Valid()
      modifies this`roles, this`bindings
      ensures Valid()
      ensures Partly(old(roles), roles, {}, AllRoles(cp, plane, names))
      ensures Partly(old(bindings), bindings, {}, AllBindings(cp, plane, names, account))
      ensures ok ==>
                && roles == old(roles) + AllRoles(cp, plane, names)
                && bindings == old(bindings) + AllBindings(cp, plane, names, account)
                && keepRoles == Joined(AllRoles(cp, plane, names).Keys)
                && keepBindings == Joined(AllBindings(cp, plane, names, account).Keys)
                && Plain(AllRoles(cp, plane, names)) && Plain(AllBindings(cp, plane, names, account))
      ensures ok ==> forall i :: 0 <= i < |TargetList(cp, plane.spec)| ==> TrimSpace(TargetList(cp, plane.spec)[i]) != ""
      ensures api.AllWork() && Writable(old(roles), old(bindings), cp, plane, names) ==> ok
    {
      hide TrimSpace, Rules, Ours, ControlledByOther, Written, Partly, Desired, Joined, BindingBody, Plain, Plainly, KeysIn;
      var list := TargetList(cp, plane.spec);
      var seen: set<string> := {};
      keepRoles, keepBindings := {}, {};
      ghost var r0, b0 := roles, bindings;
      ghost var all := Targets(cp, plane.spec, |list|);
      var rules, body := Rules(plane.spec), BindingBody(cp, account, names.role);
      DesiredNone(r0, cp, plane.uid, names.role, rules);
      DesiredNone(b0, cp, plane.uid, names.binding, body);
      for i := 0 to |list|
        invariant seen == Targets(cp, plane.spec, i) && forall j :: 0 <= j < i ==> TrimSpace(list[j]) != ""
        invariant Written(r0, roles, cp, plane.uid, seen, names.role, rules, keepRoles)
        invariant Written(b0, bindings, cp, plane.uid, seen, names.binding, body, keepBindings)
      {
        var ns := TrimSpace(list[i]);
        TargetsGrow(cp, plane.spec, i);
        WrittenMeaning(r0, roles, cp, plane.uid, seen, all, names.role, rules, keepRoles);
        WrittenMeaning(b0, bindings, cp, plane.uid, seen, all, names.binding, body, keepBindings);
        if ns == "" {
          ok := false;
          return;
        }
        if ns !in seen {
          roles, ok, keepRoles := WriteTarget(r0, roles, cp, plane.uid, seen, all, ns, names.role, rules, keepRoles, api.writeRole(ns));
          if !ok {
            return;
          }
          bindings, ok, keepBindings :=
            WriteTarget(b0, bindings, cp, plane.uid, seen, all, ns, names.binding, body, keepBindings, api.writeBinding(ns));
          if !ok {
            return;
          }
        } else {
          assert seen + {ns} == seen;
        }
        seen := seen + {ns};
      }
      WrittenMeaning(r0, roles, cp, plane.uid, seen, all, names.role, rules, keepRoles);
      WrittenMeaning(b0, bindings, cp, plane.uid, seen, all, names.binding, body, keepBindings);
      ok := true;
    }

    /** Converges the control plane's workspace RBAC; on failure only desired objects were
        written and only managed ones deleted. */
    method ReconcileWorkspaceRBAC(hash: ScopeHash, cp: Key, plane: Plane, api: Api) returns (ok: bool)
      requires Valid()
      modifies this`roles, this`bindings
      ensures Valid()
      ensures ok ==> Nameable(hash, cp, plane)
      ensures ok && OrDefault(plane.spec.workspacePerms) ==>
                forall i :: 0 <= i < |TargetList(cp, plane.spec)| ==> TrimSpace(TargetList(cp, plane.spec)[i]) != ""
      ensures !Nameable(hash, cp, plane) ==> roles == old(roles) && bindings == old(bindings)
      ensures Nameable(hash, cp, plane) ==>
                var names := CleanupNames(hash, cp, plane.spec).value;
                && Outcome(old(roles), roles, MyRoles(old(roles), cp, plane.uid, names), WantedRoles(cp, plane, names), ok)
                && Outcome(old(bindings), bindings, MyBindings(old(bindings), cp, plane.uid, names), WantedBindings(cp, plane, names), ok)
      ensures api.AllWork() && CanConverge(hash, cp, plane, old(roles), old(bindings)) ==> ok
    {
      hide TrimSpace, Targets, Desired, ManagedRole, ManagedBinding, Listed, ScopedName, Partly, Converged, Writable, Joined, Rules, Plainly;
      var account := AccountName(cp, plane.spec);
      var roleName, bindingName := ScopedFor(hash, cp, account, ROLE_SUFFIX), ScopedFor(hash, cp, account, "");
      if TrimSpace(account) != "" {
        CleanupNamesAgree(hash, cp, plane.spec);
      }
      if TrimSpace(account) == "" || TrimSpace(plane.uid) == "" || roleName.None? || bindingName.None? {
        return false;
      }
      var names := Names(roleName.value, bindingName.value, TrimSpace(account));
      ghost var r0, b0 := roles, bindings;
      NothingJoined();
      if !OrDefault(plane.spec.workspacePerms) {
        ok := CleanupManaged(hash, cp, plane, {}, {}, {}, {}, api);
        CleanedIsOutcome(r0, r0, roles, MyRoles(r0, cp, plane.uid, names), MyRoles(r0, cp, plane.uid, names), map[], ok);
        CleanedIsOutcome(b0, b0, bindings, MyBindings(b0, cp, plane.uid, names), MyBindings(b0, cp, plane.uid, names), map[], ok);
        return;
      }
      ghost var wr, wb := AllRoles(cp, plane, names), AllBindings(cp, plane, names, account);
      var keepRoles, keepBindings;
      ok, keepRoles, keepBindings := WriteTargets(cp, plane, names, account, api);
      if !ok {
        PartlyIsOutcome(r0, roles, MyRoles(r0, cp, plane.uid, names), wr);
        PartlyIsOutcome(b0, bindings, MyBindings(b0, cp, plane.uid, names), wb);
        return;
      }
      ghost var r1, b1 := roles, bindings;
      PlainlyKept(wr);
      PlainlyKept(wb);
      ok := CleanupManaged(hash, cp, plane, keepRoles, keepBindings, wr.Keys, wb.Keys, api);
      CleanedIsOutcome(r0, r1, roles, MyRoles(r0, cp, plane.uid, names), MyRoles(r1, cp, plane.uid, names), wr, ok);
      CleanedIsOutcome(b0, b1, bindings, MyBindings(b0, cp, plane.uid, names), MyBindings(b1, cp, plane.uid, names), wb, ok);
    }

    /** Adds the finalizer and reloads the control plane; when it reports success the finalizer
        is stored. */
    method EnsureFinalizer(cp: Key, api: Api) returns (ok: bool)
      requires cp in planes
      modifies this`planes
      ensures planes == old(planes) || planes == old(planes)[cp := old(planes)[cp].(finalizer := true)]
      ensures ok ==> planes[cp].finalizer && (old(planes)[cp].finalizer || (api.addFinalizer.Done? && api.reload))
      ensures api.AllWork() ==> ok
    {
      if planes[cp].finalizer {
        return true;
      }
      if api.addFinalizer.Done? || api.addFinalizer.applied {
        planes := planes[cp := planes[cp].(finalizer := true)];
      }
      ok := api.addFinalizer.Done? && api.reload;
    }

    /** Removes everything managed, then the finalizer. */
    method FinalizeWorkspaceRBAC(hash: ScopeHash, cp: Key, api: Api) returns (ok: bool)
      requires Valid() && cp in planes
      modifies this
      ensures Valid()
      ensures planes == old(planes) || planes == old(planes)[cp := old(planes)[cp].(finalizer := false)]
      ensures Only(old(roles), roles) && Only(old(bindings), bindings)
      ensures ok ==> !planes[cp].finalizer && (old(planes)[cp].finalizer ==> api.removeFinalizer.Done?)
      ensures !planes[cp].finalizer && old(planes)[cp].finalizer ==>
                NoneLeft(roles, cp, planes[cp].uid) && NoneLeft(bindings, cp, planes[cp].uid)
      ensures api.AllWork() && CleanupNames(hash, cp, old(planes)[cp].spec).Some? ==> ok && !planes[cp].finalizer
    {
      hide TrimSpace, Listed, ScopedFor, CleanupAccount, Joined, NoneLeft, MyRoles, MyBindings, Only, Cleaned, Plain;
      ghost var r0, b0 := roles, bindings;
      SameIsOnly(r0);
      SameIsOnly(b0);
      if !planes[cp].finalizer {
        return true;
      }
      NothingJoined();
      ok := CleanupManaged(hash, cp, planes[cp], {}, {}, {}, {}, api);
      if CleanupNames(hash, cp, planes[cp].spec).Some? {
        CleanedIsClear(r0, roles, b0, bindings, cp, planes[cp].uid, CleanupNames(hash, cp, planes[cp].spec).value, ok);
      }
      if !ok {
        return;
      }
      if api.removeFinalizer.Done? || api.removeFinalizer.applied {
        planes := planes[cp := planes[cp].(finalizer := false)];
      }
      ok := api.removeFinalizer.Done?;
    }

    /** The RBAC part of one reconcile of the control plane at `cp`. */
    method Reconcile(hash: ScopeHash, cp: Key, api: Api) returns (ok: bool)
      requires Valid()
      modifies this
      ensures Valid()
      ensures Reconciled(World(old(roles), old(bindings), old(planes)), World(roles, bindings, planes), cp)
      ensures ok ==> Achieved(hash, World(old(roles), old(bindings), old(planes)), World(roles, bindings, planes), cp)
      ensures api.AllWork() && CanSucceed(hash, cp, World(old(roles), old(bindings), old(planes))) ==> ok
      ensures cp in old(planes) && !old(planes)[cp].deleting && !api.serviceAccount ==>
                !ok && roles == old(roles) && bindings == old(bindings)
    {
      hide CleanupNames, Nameable, Outcome, MyRoles, MyBindings, WantedRoles, WantedBindings, NoneLeft, Writable, Plain, CanConverge;
      if cp !in planes {
        return true;
      }
      ghost var r0, b0 := roles, bindings;
      SameIsOnly(r0);
      SameIsOnly(b0);
      if planes[cp].deleting {
        ok := FinalizeWorkspaceRBAC(hash, cp, api);
        OnlyIsStamped(r0, roles, cp, planes[cp].uid);
        OnlyIsStamped(b0, bindings, cp, planes[cp].uid);
        return;
      }
      OnlyIsStamped(r0, roles, cp, planes[cp].uid);
      OnlyIsStamped(b0, bindings, cp, planes[cp].uid);
      FinalizerDoesNotMatter(hash, cp, planes[cp], roles, bindings);
      ok := EnsureFinalizer(cp, api);
      if !ok {
        return;
      }
      if !api.serviceAccount {
        return false;
      }
      ok := ReconcileWorkspaceRBAC(hash, cp, planes[cp], api);
      if Nameable(hash, cp, planes[cp]) {
        WantedIsStamped(r0, roles, b0, bindings, hash, cp, planes[cp], ok);
      }
    }
  }

  predicate Plainly(keys: set<Key>) {
    forall k :: k in keys ==> '/' !in k.namespace
  }

  /** Only managed keys outside `kept` went away, all of them when done. */
  ghost predicate Cleaned<B>(before: Store<B>, after: Store<B>, managed: set<Key>, kept: set<Key>, done: bool) {
    && after.Keys <= before.Keys
    && (forall k :: k in after ==> after[k] == before[k])
    && (forall k :: k in before && k !in after ==> k in managed && k !in kept)
    && (done ==> forall k :: k in after && k in managed ==> k in kept)
  }

  lemma KeptIsKept<B>(store: Store<B>, kept: set<Key>)
    requires Plain(store) && Plainly(kept)
    ensures forall k :: k in store ==> (JoinedKey(k) in Joined(kept) <==> k in kept)
  {
    forall k | k in store && JoinedKey(k) in Joined(kept) ensures k in kept {
      var k' :| k' in kept && JoinedKey(k') == JoinedKey(k);
      JoinedKeyIsInjective(k, k');
    }
  }

  // ----- The write loop -----

  function AllRoles(cp: Key, plane: Plane, names: Names): Roles {
    Desired(cp, plane.uid, Targets(cp, plane.spec, |TargetList(cp, plane.spec)|), names.role, Rules(plane.spec))
  }

  function AllBindings(cp: Key, plane: Plane, names: Names, account: string): Bindings {
    Desired(cp, plane.uid, Targets(cp, plane.spec, |TargetList(cp, plane.spec)|), names.binding, BindingBody(cp, account, names.role))
  }

  /** Every target namespace is well formed, and nobody else controls an object this control
      plane wants to control. */
  ghost predicate Writable(roles: Roles, bindings: Bindings, cp: Key, plane: Plane, names: Names) {
    && (forall i :: 0 <= i < |TargetList(cp, plane.spec)| ==>
          var ns := TrimSpace(TargetList(cp, plane.spec)[i]); ns != "" && '/' !in ns)
    && !ControlledByOther(roles, Key(cp.namespace, names.role), cp)
    && !ControlledByOther(bindings, Key(cp.namespace, names.binding), cp)
  }

  /** The loop's progress on one store. */
  ghost predicate Written<B>(before: Store<B>, now: Store<B>, cp: Key, uid: string, seen: set<string>, name: string, body: B,
                             keep: set<string>) {
    && now == before + Desired(cp, uid, seen, name, body)
    && Plain(before) && Plain(now) && Plainly(KeysIn(seen, name))
    && keep == Joined(KeysIn(seen, name))
  }

  lemma DesiredNone<B>(before: Store<B>, cp: Key, uid: string, name: string, body: B)
    requires Plain(before)
    ensures Written(before, before, cp, uid, {}, name, body, {})
  {
    assert KeysIn({}, name) == {};
  }

  lemma TargetsGrow(cp: Key, spec: Spec, n: nat)
    requires n < |TargetList(cp, spec)|
    ensures Targets(cp, spec, n + 1) == Targets(cp, spec, n) + {TrimSpace(TargetList(cp, spec)[n])}
    ensures Targets(cp, spec, n + 1) <= Targets(cp, spec, |TargetList(cp, spec)|)
  {
  }

  lemma WrittenMeaning<B>(before: Store<B>, now: Store<B>, cp: Key, uid: string, seen: set<string>, all: set<string>, name: string,
                          body: B, keep: set<string>)
    requires Written(before, now, cp, uid, seen, name, body, keep) && seen <= all
    ensures Partly(before, now, {}, Desired(cp, uid, all, name, body)) && Plain(now)
    ensures var d := Desired(cp, uid, seen, name, body); now == before + d && keep == Joined(d.Keys) && Plain(d)
  {
    hide Joined, Ours;
    assert Desired(cp, uid, seen, name, body).Keys == KeysIn(seen, name);
  }

  /** One write of the loop. */
  method WriteTarget<B>(ghost before: Store<B>, now: Store<B>, cp: Key, uid: string, ghost seen: set<string>, ghost all: set<string>,
                        ns: string, name: string, body: B, keep: set<string>, call: Call)
    returns (after: Store<B>, ok: bool, keep': set<string>)
    requires Written(before, now, cp, uid, seen, name, body, keep) && ns !in seen && ns in all && seen <= all
    ensures ok ==> Written(before, after, cp, uid, seen + {ns}, name, body, keep')
    ensures Partly(before, after, {}, Desired(cp, uid, all, name, body)) && Plain(after)
    ensures call.Done? && '/' !in ns && !(ns == cp.namespace && ControlledByOther(before, Key(ns, name), cp)) ==> ok
  {
    hide Written, Partly, Desired, Joined, Ours;
    var k := Key(ns, name);
    after, ok := CreateOrUpdate(now, k, cp, Ours(cp, uid, ns, body), call);
    keep' := if ok then keep + {JoinedKey(k)} else keep;
    UntouchedSoFar(before, now, cp, uid, seen, ns, name, body, keep);
    WrittenMeaning(before, now, cp, uid, seen, all, name, body, keep);
    PartlyMore(before, now, cp, uid, all, ns, name, body);
    if ok {
      WrittenMore(before, now, cp, uid, seen, ns, name, body, keep);
    }
  }

  lemma UntouchedSoFar<B>(before: Store<B>, now: Store<B>, cp: Key, uid: string, seen: set<string>, ns: string, name: string, body: B,
                          keep: set<string>)
    requires Written(before, now, cp, uid, seen, name, body, keep) && ns !in seen
    ensures ControlledByOther(now, Key(ns, name), cp) == ControlledByOther(before, Key(ns, name), cp)
  {
    var k := Key(ns, name);
    assert (k in now <==> k in before) && (k in now ==> now[k] == before[k]);
  }

  lemma PartlyMore<B>(before: Store<B>, now: Store<B>, cp: Key, uid: string, all: set<string>, ns: string, name: string, body: B)
    requires Partly(before, now, {}, Desired(cp, uid, all, name, body)) && ns in all
    ensures Partly(before, now[Key(ns, name) := Ours(cp, uid, ns, body)], {}, Desired(cp, uid, all, name, body))
  {
    hide Ours;
    assert Key(ns, name) in KeysIn(all, name);
  }

  lemma WrittenMore<B>(before: Store<B>, now: Store<B>, cp: Key, uid: string, seen: set<string>, ns: string, name: string, body: B,
                       keep: set<string>)
    requires Written(before, now, cp, uid, seen, name, body, keep) && '/' !in ns
    ensures Written(before, now[Key(ns, name) := Ours(cp, uid, ns, body)], cp, uid, seen + {ns}, name, body,
                    keep + {JoinedKey(Key(ns, name))})
  {
    hide Ours, Desired, Joined, JoinedKey, KeysIn;
    KeysInMore(seen, ns, name);
    DesiredMore(cp, uid, seen, ns, name, body);
    JoinedMore(KeysIn(seen, name), Key(ns, name));
    var d := Desired(cp, uid, seen, name, body);
    assert before + d[Key(ns, name) := Ours(cp, uid, ns, body)] == (before + d)[Key(ns, name) := Ours(cp, uid, ns, body)];
  }

  lemma KeysInMore(seen: set<string>, ns: string, name: string)
    ensures KeysIn(seen + {ns}, name) == KeysIn(seen, name) + {Key(ns, name)}
  {
  }

  lemma DesiredMore<B>(cp: Key, uid: string, seen: set<string>, ns: string, name: string, body: B)
    ensures Desired(cp, uid, seen + {ns}, name, body) == Desired(cp, uid, seen, name, body)[Key(ns, name) := Ours(cp, uid, ns, body)]
  {
    hide Ours;
    KeysInMore(seen, ns, name);
  }

  lemma JoinedMore(keys: set<Key>, k: Key)
    ensures Joined(keys + {k}) == Joined(keys) + {JoinedKey(k)}
  {
  }

  // ----- Putting a reconcile together -----

  /** The control plane has an identity and its objects have names. */
  predicate Nameable(hash: ScopeHash, cp: Key, plane: Plane) {
    TrimSpace(AccountName(cp, plane.spec)) != "" && TrimSpace(plane.uid) != "" && CleanupNames(hash, cp, plane.spec).Some?
  }

  /** Nothing in the request or the cluster stands in the way of a reconcile. */
  ghost predicate CanConverge(hash: ScopeHash, cp: Key, plane: Plane, roles: Roles, bindings: Bindings) {
    && Nameable(hash, cp, plane)
    && (OrDefault(plane.spec.workspacePerms) ==> Writable(roles, bindings, cp, plane, CleanupNames(hash, cp, plane.spec).value))
  }

  /** What the control plane wants to exist: nothing while workspace permissions are off. */
  function WantedRoles(cp: Key, plane: Plane, names: Names): Roles {
    if OrDefault(plane.spec.workspacePerms) then AllRoles(cp, plane, names) else map[]
  }

  function WantedBindings(cp: Key, plane: Plane, names: Names): Bindings {
    if OrDefault(plane.spec.workspacePerms) then AllBindings(cp, plane, names, AccountName(cp, plane.spec)) else map[]
  }

  ghost predicate Outcome<B>(before: Store<B>, after: Store<B>, managed: set<Key>, wanted: Store<B>, done: bool) {
    Partly(before, after, managed, wanted) && (done ==> Converged(before, after, managed, wanted))
  }

  lemma CleanupNamesAgree(hash: ScopeHash, cp: Key, spec: Spec)
    requires TrimSpace(AccountName(cp, spec)) != ""
    ensures var account := AccountName(cp, spec);
            var role, binding := ScopedFor(hash, cp, account, ROLE_SUFFIX), ScopedFor(hash, cp, account, "");
            CleanupNames(hash, cp, spec) ==
              if role.None? || binding.None? then None else Some(Names(role.value, binding.value, TrimSpace(account)))
  {
    TrimMeaning(AccountName(cp, spec));
    hide TrimSpace;
  }

  lemma NothingJoined()
    ensures Joined({}) == {} && Plainly({})
  {
  }

  lemma PlainlyKept<B>(wanted: Store<B>)
    requires Plain(wanted)
    ensures Plainly(wanted.Keys)
  {
  }

  /** Cleaning up after the wanted objects were laid over the store. */
  lemma CleanedIsOutcome<B>(before: Store<B>, mid: Store<B>, after: Store<B>, managed: set<Key>, managedMid: set<Key>, wanted: Store<B>, done: bool)
    requires mid == before + wanted && Cleaned(mid, after, managedMid, wanted.Keys, done)
    requires forall k :: k in before && k !in wanted ==> (k in managedMid <==> k in managed)
    ensures Outcome(before, after, managed, wanted, done)
  {
    forall k | k in before && k !in managed ensures k in after {
      assert k in mid;
    }
    forall k | k in wanted ensures k in after {
      assert k in mid;
    }
  }

  lemma PartlyIsOutcome<B>(before: Store<B>, after: Store<B>, managed: set<Key>, wanted: Store<B>)
    requires Partly(before, after, {}, wanted)
    ensures Outcome(before, after, managed, wanted, false)
  {
  }

  // ----- What other steps need to know of a reconcile -----

  datatype World = World(roles: Roles, bindings: Bindings, planes: map<Key, Plane>)

  predicate Stamped<B>(r: Resource<B>, cp: Key, uid: string) {
    Listed(r, cp) && HasOwnerUid(r, uid)
  }

  ghost predicate Only<B>(before: Store<B>, after: Store<B>) {
    forall k :: k in after ==> k in before && after[k] == before[k]
  }

  ghost predicate OnlyOrStamped<B>(before: Store<B>, after: Store<B>, cp: Key, uid: string) {
    forall k :: k in after ==> (k in before && after[k] == before[k]) || Stamped(after[k], cp, uid)
  }

  ghost predicate NoneLeft<B>(store: Store<B>, cp: Key, uid: string) {
    forall k :: k in store ==> !Stamped(store[k], cp, uid)
  }

  /** A reconcile touches the finalizer of its own control plane only; it writes objects only
      under the finalizer and with its own stamp; and it takes the finalizer away only when no
      object with its stamp is left. */
  ghost predicate Reconciled(w: World, w': World, cp: Key) {
    if cp !in w.planes then w' == w
    else
      && cp in w'.planes
      && var p, p' := w.planes[cp], w'.planes[cp];
      && p' == p.(finalizer := p'.finalizer) && w'.planes == w.planes[cp := p']
      && OnlyOrStamped(w.roles, w'.roles, cp, p.uid) && OnlyOrStamped(w.bindings, w'.bindings, cp, p.uid)
      && (!p'.finalizer ==> Only(w.roles, w'.roles) && Only(w.bindings, w'.bindings))
      && (!p'.finalizer && p.finalizer ==> NoneLeft(w'.roles, cp, p.uid) && NoneLeft(w'.bindings, cp, p.uid))
  }

  /** What a reconcile that reports success has achieved: a control plane being deleted has lost
      the finalizer, and with it every object with its stamp; any other holds the finalizer and
      its objects are exactly as wanted. */
  ghost predicate Achieved(hash: ScopeHash, w: World, w': World, cp: Key) {
    cp in w.planes ==>
      && cp in w'.planes
      && var p := w'.planes[cp];
      if p.deleting then
        !p.finalizer && (w.planes[cp].finalizer ==> NoneLeft(w'.roles, cp, p.uid) && NoneLeft(w'.bindings, cp, p.uid))
      else
        && p.finalizer && Nameable(hash, cp, p)
        && var names := CleanupNames(hash, cp, p.spec).value;
        && Outcome(w.roles, w'.roles, MyRoles(w.roles, cp, p.uid, names), WantedRoles(cp, p, names), true)
        && Outcome(w.bindings, w'.bindings, MyBindings(w.bindings, cp, p.uid, names), WantedBindings(cp, p, names), true)
  }

  /** Nothing but failing calls can keep a reconcile of this control plane from succeeding. */
  ghost predicate CanSucceed(hash: ScopeHash, cp: Key, w: World) {
    cp in w.planes ==>
      var p := w.planes[cp];
      if p.deleting then CleanupNames(hash, cp, p.spec).Some? else CanConverge(hash, cp, p, w.roles, w.bindings)
  }

  lemma FinalizerDoesNotMatter(hash: ScopeHash, cp: Key, plane: Plane, roles: Roles, bindings: Bindings)
    ensures CanConverge(hash, cp, plane.(finalizer := true), roles, bindings) == CanConverge(hash, cp, plane, roles, bindings)
  {
    hide CleanupNames, TrimSpace, ControlledByOther;
  }

  lemma SameIsOnly<B>(store: Store<B>)
    ensures Only(store, store)
  {
  }

  lemma CleanedIsClear(r0: Roles, roles: Roles, b0: Bindings, bindings: Bindings, cp: Key, uid: string, names: Names, ok: bool)
    requires Cleaned(r0, roles, MyRoles(r0, cp, uid, names), {}, ok)
    requires Cleaned(b0, bindings, MyBindings(b0, cp, uid, names), {}, ok)
    ensures Only(r0, roles) && Only(b0, bindings)
    ensures ok ==> NoneLeft(roles, cp, uid) && NoneLeft(bindings, cp, uid)
  {
    hide TrimSpace, HasOwnerUid, OwnedBy, Listed, HasIdentityLabels;
    forall k | ok && k in roles ensures !Stamped(roles[k], cp, uid) {
      ListedHasIdentity(roles[k], cp);
      assert k !in MyRoles(r0, cp, uid, names);
    }
    forall k | ok && k in bindings ensures !Stamped(bindings[k], cp, uid) {
      ListedHasIdentity(bindings[k], cp);
      assert k !in MyBindings(b0, cp, uid, names);
    }
  }

  lemma ListedHasIdentity<B>(r: Resource<B>, cp: Key)
    ensures Listed(r, cp) ==> HasIdentityLabels(r, cp)
  {
    assert |NAME_LABEL| != |NAMESPACE_LABEL|;
    assert NAME_LABEL in Labels(cp) && NAMESPACE_LABEL in Labels(cp);
  }

  lemma OnlyIsStamped<B>(before: Store<B>, after: Store<B>, cp: Key, uid: string)
    requires Only(before, after)
    ensures OnlyOrStamped(before, after, cp, uid)
  {
  }

  lemma WantedIsStamped(r0: Roles, roles: Roles, b0: Bindings, bindings: Bindings, hash: ScopeHash, cp: Key, plane: Plane, ok: bool)
    requires Nameable(hash, cp, plane)
    requires var names := CleanupNames(hash, cp, plane.spec).value;
             && Outcome(r0, roles, MyRoles(r0, cp, plane.uid, names), WantedRoles(cp, plane, names), ok)
             && Outcome(b0, bindings, MyBindings(b0, cp, plane.uid, names), WantedBindings(cp, plane, names), ok)
    ensures OnlyOrStamped(r0, roles, cp, plane.uid) && OnlyOrStamped(b0, bindings, cp, plane.uid)
  {
    hide TrimSpace, Targets, Listed, HasOwnerUid, UidOf, MyRoles, MyBindings, CleanupNames, Rules, BindingBody, Ours;
    var names := CleanupNames(hash, cp, plane.spec).value;
    forall k | k in WantedRoles(cp, plane, names) ensures Stamped(WantedRoles(cp, plane, names)[k], cp, plane.uid) {
      OursIsManaged(cp, plane.uid, k.namespace, Rules(plane.spec));
    }
    forall k | k in WantedBindings(cp, plane, names) ensures Stamped(WantedBindings(cp, plane, names)[k], cp, plane.uid) {
      OursIsManaged(cp, plane.uid, k.namespace, BindingBody(cp, AccountName(cp, plane.spec), names.role));
    }
  }

  // ----- The result of a successful reconcile -----

  /** The distinct target namespaces; none while workspace permissions are off. */
  function WantedNamespaces(cp: Key, plane: Plane): set<string> {
    if OrDefault(plane.spec.workspacePerms) then Targets(cp, plane.spec, |TargetList(cp, plane.spec)|) else {}
  }

  /** The target namespaces are the control plane's own and the listed ones, trimmed, unless the
      permissions are switched off. */
  lemma WantedNamespacesMeaning(cp: Key, plane: Plane, namespace: string)
    ensures namespace in WantedNamespaces(cp, plane) <==>
            plane.spec.workspacePerms != Some(false) &&
            (namespace == TrimSpace(cp.namespace) ||
             exists i :: 0 <= i < |plane.spec.namespaces| && namespace == TrimSpace(plane.spec.namespaces[i]))
  {
    hide TrimSpace;
    var list := TargetList(cp, plane.spec);
    assert list[0] == cp.namespace && forall i :: 0 <= i < |plane.spec.namespaces| ==> list[i + 1] == plane.spec.namespaces[i];
  }

  /** Both names end in the hash of this control plane's namespace and name. */
  lemma NamesCarryTheHash(hash: ScopeHash, cp: Key, spec: Spec)
    requires CleanupNames(hash, cp, spec).Some?
    requires |hash(cp.namespace, cp.name)| == 8 && Trimmed(hash(cp.namespace, cp.name))
    ensures var names, h := CleanupNames(hash, cp, spec).value, hash(cp.namespace, cp.name);
            && EndsWith(names.role, "-" + h + "-workspace-perms") && EndsWith(names.binding, "-" + h)
            && |names.role| <= 253 && |names.binding| <= 253
  {
    hide ScopedName, CleanupAccount, EndsWith;
    var account, h := CleanupAccount(cp, spec), hash(cp.namespace, cp.name);
    ScopedNameMeaning(account, h, ROLE_SUFFIX);
    ScopedNameMeaning(account, h, "");
    assert "-" + h + "" == "-" + h;
  }

  /** A successful reconcile leaves as managed exactly one Role and one RoleBinding in each
      distinct target namespace, each as desired, and leaves every other object alone unless it
      was managed before. */
  lemma SuccessIsExact(before: World, after: World, cp: Key, plane: Plane, names: Names)
    requires TrimSpace(plane.uid) != ""
    requires Outcome(before.roles, after.roles, MyRoles(before.roles, cp, plane.uid, names), WantedRoles(cp, plane, names), true)
    requires Outcome(before.bindings, after.bindings, MyBindings(before.bindings, cp, plane.uid, names), WantedBindings(cp, plane, names), true)
    ensures var namespaces := WantedNamespaces(cp, plane);
            && MyRoles(after.roles, cp, plane.uid, names) == KeysIn(namespaces, names.role)
            && MyBindings(after.bindings, cp, plane.uid, names) == KeysIn(namespaces, names.binding)
            && |MyRoles(after.roles, cp, plane.uid, names)| == |namespaces| == |MyBindings(after.bindings, cp, plane.uid, names)|
    ensures forall k :: k in before.roles && k !in MyRoles(before.roles, cp, plane.uid, names) && k !in WantedRoles(cp, plane, names) ==>
              k in after.roles && after.roles[k] == before.roles[k]
    ensures forall k :: k in before.bindings && k !in MyBindings(before.bindings, cp, plane.uid, names) && k !in WantedBindings(cp, plane, names) ==>
              k in after.bindings && after.bindings[k] == before.bindings[k]
  {
    hide TrimSpace, Listed, ManagedRole, ManagedBinding, Targets, Rules, BindingBody, KeysIn;
    var namespaces := WantedNamespaces(cp, plane);
    var body := BindingBody(cp, AccountName(cp, plane.spec), names.role);
    NothingDesired(cp, plane.uid, names.role, Rules(plane.spec));
    NothingDesired(cp, plane.uid, names.binding, body);
    ConvergedRolesAreExact(before.roles, after.roles, cp, plane.uid, names.role, namespaces, Rules(plane.spec));
    ConvergedBindingsAreExact(before.bindings, after.bindings, cp, plane.uid, names.role, names.binding, names.account, namespaces, body);
  }

  lemma NothingDesired<B>(cp: Key, uid: string, name: string, body: B)
    ensures Desired(cp, uid, {}, name, body) == map[]
  {
  }

  // ----- What is removed, and what the account may do -----

  /** An object outside the wanted keys is removed by a successful reconcile if and only if it is
      found by the labels and is controlled by this control plane, carries its UID, or stands, in
      another namespace, under the name its Role or RoleBinding would have. */
  lemma RemovalIsExact(before: World, after: World, cp: Key, plane: Plane, names: Names, k: Key)
    requires TrimSpace(plane.uid) != ""
    requires Outcome(before.roles, after.roles, MyRoles(before.roles, cp, plane.uid, names), WantedRoles(cp, plane, names), true)
    requires Outcome(before.bindings, after.bindings, MyBindings(before.bindings, cp, plane.uid, names), WantedBindings(cp, plane, names), true)
    ensures k in before.roles && k !in WantedRoles(cp, plane, names) ==>
              var r := before.roles[k];
              (k !in after.roles <==>
                 Listed(r, cp) &&
                 (|| r.controller == Some(Owner(GROUP, VERSION, KIND, cp.name, plane.uid))
                  || UidOf(r) == TrimSpace(plane.uid)
                  || (k.namespace != cp.namespace && k.name == names.role)))
    ensures k in before.bindings && k !in WantedBindings(cp, plane, names) ==>
              var r := before.bindings[k];
              (k !in after.bindings <==>
                 Listed(r, cp) &&
                 (|| r.controller == Some(Owner(GROUP, VERSION, KIND, cp.name, plane.uid))
                  || UidOf(r) == TrimSpace(plane.uid)
                  || (k.namespace != cp.namespace && k.name == names.binding && r.body == BindingBody(cp, names.account, names.role))))
  {
    hide TrimSpace, Listed, HasIdentityLabels, UidOf, WantedRoles, WantedBindings;
    if k in before.roles {
      ListedHasIdentity(before.roles[k], cp);
    }
    if k in before.bindings {
      ListedHasIdentity(before.bindings[k], cp);
    }
  }

  predicate Grants(rules: seq<Rule>, group: string, resource: string, verb: string) {
    exists i :: 0 <= i < |rules| && group in rules[i].groups && resource in rules[i].resources && verb in rules[i].verbs
  }

  /** What the operator grants by itself: full access to pods and volume claims, and to
      deployments unless that is switched off. */
  predicate Standard(spec: Spec, group: string, resource: string, verb: string) {
    && verb in {"get", "list", "watch", "create", "update", "patch", "delete", "deletecollection"}
    && (|| (group == "" && resource in {"pods", "persistentvolumeclaims"})
        || (group == "apps" && resource == "deployments" && spec.deployments != Some(false)))
  }

  /** The rules grant exactly that and what the extra rules grant. */
  lemma RulesGrant(spec: Spec, group: string, resource: string, verb: string)
    ensures Grants(Rules(spec), group, resource, verb) <==>
            Standard(spec, group, resource, verb) || Grants(spec.extraRules, group, resource, verb)
  {
    var rules := Rules(spec);
    var n := |rules| - |spec.extraRules|;
    assert forall i :: 0 <= i < |spec.extraRules| ==> rules[n + i] == spec.extraRules[i];
    assert rules[0] == Rule([""], ["pods"], ALL_VERBS) && rules[1] == Rule([""], ["persistentvolumeclaims"], ALL_VERBS);
    assert n == 3 ==> rules[2] == Rule(["apps"], ["deployments"], ALL_VERBS);
    if Grants(spec.extraRules, group, resource, verb) {
      var i :| 0 <= i < |spec.extraRules| && group in spec.extraRules[i].groups
               && resource in spec.extraRules[i].resources && verb in spec.extraRules[i].verbs;
      assert rules[n + i] == spec.extraRules[i];
    }
  }

  /** The subject may do this through the named RoleBinding of the namespace. */
  predicate Allows(w: World, namespace: string, binding: string, subject: Subject, group: string, resource: string, verb: string) {
    Key(namespace, binding) in w.bindings &&
    var b := w.bindings[Key(namespace, binding)].body;
    && subject in b.subjects
    && b.roleRef.group == RBAC_GROUP && b.roleRef.kind == "Role" && Key(namespace, b.roleRef.name) in w.roles
    && Grants(w.roles[Key(namespace, b.roleRef.name)].body, group, resource, verb)
  }

  /** After a successful reconcile the control plane's service account, and no one else, has
      through its RoleBinding in each target namespace exactly the specified access; in other
      namespaces there is no RoleBinding of the control plane. */
  lemma AccountHasExactlyItsAccess(before: World, after: World, cp: Key, plane: Plane, names: Names, namespace: string,
                                   subject: Subject, group: string, resource: string, verb: string)
    requires TrimSpace(plane.uid) != ""
    requires Outcome(before.roles, after.roles, MyRoles(before.roles, cp, plane.uid, names), WantedRoles(cp, plane, names), true)
    requires Outcome(before.bindings, after.bindings, MyBindings(before.bindings, cp, plane.uid, names), WantedBindings(cp, plane, names), true)
    ensures namespace in WantedNamespaces(cp, plane) ==>
              (Allows(after, namespace, names.binding, subject, group, resource, verb) <==>
                 && subject == Subject("ServiceAccount", if plane.spec.serviceAccount != "" then plane.spec.serviceAccount else cp.name, cp.namespace)
                 && (Standard(plane.spec, group, resource, verb) || Grants(plane.spec.extraRules, group, resource, verb)))
    ensures namespace !in WantedNamespaces(cp, plane) ==>
              forall k :: k in MyBindings(after.bindings, cp, plane.uid, names) ==> k.namespace != namespace
  {
    hide TrimSpace, Rules, Grants, Standard, MyRoles, MyBindings, Outcome, WantedNamespaces, WantedRoles, WantedBindings;
    SuccessIsExact(before, after, cp, plane, names);
    if namespace in WantedNamespaces(cp, plane) {
      WantedObjectsStand(before, after, cp, plane, names, namespace);
      RulesGrant(plane.spec, group, resource, verb);
    }
  }

  lemma OursCarries<B>(cp: Key, uid: string, namespace: string, body: B)
    ensures var r := Ours(cp, uid, namespace, body);
            && r.body == body && Listed(r, cp) && UidOf(r) == TrimSpace(uid)
            && r.controller == if namespace == cp.namespace then Some(Owner("coder.com", "v1alpha1", "CoderControlPlane", cp.name, uid)) else None
  {
    TrimMeaning(uid);
    hide TrimSpace;
  }

  /** What stands at the target keys after a successful reconcile: controlled by the control plane
      in its own namespace and by no one elsewhere, found again by labels and UID. */
  lemma WantedObjectsStand(before: World, after: World, cp: Key, plane: Plane, names: Names, namespace: string)
    requires Outcome(before.roles, after.roles, MyRoles(before.roles, cp, plane.uid, names), WantedRoles(cp, plane, names), true)
    requires Outcome(before.bindings, after.bindings, MyBindings(before.bindings, cp, plane.uid, names), WantedBindings(cp, plane, names), true)
    requires namespace in WantedNamespaces(cp, plane)
    ensures var r, b := Key(namespace, names.role), Key(namespace, names.binding);
            && r in after.roles && after.roles[r].body == Rules(plane.spec)
            && b in after.bindings && after.bindings[b].body == BindingBody(cp, AccountName(cp, plane.spec), names.role)
            && var c := if namespace == cp.namespace then Some(Owner("coder.com", "v1alpha1", "CoderControlPlane", cp.name, plane.uid)) else None;
            && after.roles[r].controller == c && after.bindings[b].controller == c
            && Listed(after.roles[r], cp) && Listed(after.bindings[b], cp)
            && UidOf(after.roles[r]) == TrimSpace(plane.uid) && UidOf(after.bindings[b]) == TrimSpace(plane.uid)
  {
    hide TrimSpace, Listed, UidOf, Ours, Rules, Targets, MyRoles, MyBindings, BindingBody;
    OursCarries(cp, plane.uid, namespace, Rules(plane.spec));
    OursCarries(cp, plane.uid, namespace, BindingBody(cp, AccountName(cp, plane.spec), names.role));
    var r, b := Key(namespace, names.role), Key(namespace, names.binding);
    assert r in KeysIn(WantedNamespaces(cp, plane), names.role) && b in KeysIn(WantedNamespaces(cp, plane), names.binding);
    assert r in WantedRoles(cp, plane, names) && b in WantedBindings(cp, plane, names);
  }
}
