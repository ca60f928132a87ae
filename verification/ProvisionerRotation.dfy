/** The provisioner-key rotation protocol: one reconcile keeps three stores in step, namely
    the baseline recorded in the object's status, the key Secret and coderd's key table.

    Every remote call may fail before or after taking effect, the process may die during any
    of them, and the Secret may vanish between being read and being written. */
module ProvisionerRotation {
  import opened KeyTable

  type Hash = Tags -> string
  /** Secret name to data key to value. */
  type Secrets = map<string, map<string, string>>

  /** What the spec and the referenced control plane ask for, defaults resolved. */
  datatype Desired = Desired(org: string, keyName: string, tags: Tags, cpRef: string, cpUrl: string,
                             secretName: string, secretKey: string)

  /** The baseline last applied; "" (0 for the id) means not recorded. */
  datatype Status = Status(org: string, keyName: string, tagsHash: string, cpRef: string, cpUrl: string, keyId: nat)

  datatype World = World(keys: Keys, secrets: Secrets, status: Status, finalizer: bool)

  function Ref(d: Desired): KeyRef {
    KeyRef(d.cpUrl, d.org, d.keyName)
  }

  function OrElse(recorded: string, fallback: string): string {
    if recorded == "" then fallback else recorded
  }

  /** The key the status speaks of, each blank field falling back to the desired one. */
  function Recorded(s: Status, d: Desired): KeyRef {
    KeyRef(OrElse(s.cpUrl, d.cpUrl), OrElse(s.org, d.org), OrElse(s.keyName, d.keyName))
  }

  predicate Usable(secrets: Secrets, d: Desired) {
    d.secretName in secrets && d.secretKey in secrets[d.secretName] && secrets[d.secretName][d.secretKey] != ""
  }

  predicate Drift(hash: Hash, s: Status, d: Desired) {
    || (s.org != "" && s.org != d.org)
    || (s.keyName != "" && s.keyName != d.keyName)
    || (s.tagsHash != "" && s.tagsHash != hash(d.tags))
    || (s.cpRef != "" && s.cpRef != d.cpRef)
    || (s.cpUrl != "" && s.cpUrl != d.cpUrl)
  }

  predicate Incomplete(s: Status) {
    s.org == "" || s.tagsHash == "" || s.cpRef == "" || s.cpUrl == ""
  }

  predicate JudgedSteady(hash: Hash, s: Status, d: Desired) {
    !Drift(hash, s, d) && !Incomplete(s)
  }

  datatype Plan = Rotate | Recover | Backfill | Steady

  function PlanFor(hash: Hash, w: World, d: Desired): Plan {
    if Drift(hash, w.status, d) then Rotate
    else if !Usable(w.secrets, d) then Recover
    else if Incomplete(w.status) then Backfill
    else Steady
  }

  /** The outcome of every call one reconcile may make. `proceed` is false when one of the
      gates before the key logic stops it (control plane, operator token, entitlement, reads). */
  datatype Faults = Faults(proceed: bool, dropOld: Reply,
                           mint1: Mint, ensure1: Reply, drop2: Reply, mint2: Mint, ensure2: Reply,
                           vanish: bool, writeSecret: Reply, writeStatus: Reply)

  datatype Outcome = Outcome(completed: bool, ensureCalls: nat, removeCalls: nat)

  datatype Obtained = Fresh(id: nat, material: string) | NoKey

  // ----- Specification of one reconcile -----

  /** Obtain plaintext for `ref`: create the key, or replace it when it already exists. */
  function Obtain(keys: Keys, ref: KeyRef, tags: Tags, f: Faults): (Keys, Obtained, nat, nat) {
    var (k1, r1) := EnsureKey(keys, ref, tags, f.mint1, f.ensure1);
    match r1
    case Created(id, m) => (k1, Fresh(id, m), 1, 0)
    case Existing(_) =>
      var (k2, gone) := RemoveKey(k1, ref, f.drop2);
      if !gone.Gone? then (k2, NoKey, 1, 1)
      else
        var (k3, r2) := EnsureKey(k2, ref, tags, f.mint2, f.ensure2);
        (k3, if r2.Created? then Fresh(r2.id, r2.material) else NoKey, 2, 1)
    case _ => (k1, NoKey, 1, 0)
  }

  function SecretsAfter(secrets: Secrets, d: Desired, material: string): Secrets {
    var data := if d.secretName in secrets then secrets[d.secretName] else map[];
    secrets[d.secretName := if material != "" then data[d.secretKey := material] else data]
  }

  /** Secret write, then status write. */
  function Persist(w: World, d: Desired, material: string, status: Status, f: Faults): (World, bool) {
    var secrets := if f.vanish then w.secrets - {d.secretName} else w.secrets;
    var w0 := w.(secrets := secrets);
    var written := SecretsAfter(secrets, d, material);
    if !Usable(written, d) then (w0, false)
    else
      var w1 := if f.writeSecret.Effective() then w0.(secrets := written) else w0;
      if !f.writeSecret.Done? then (w1, false)
      else if status == w.status then (w1, true)
      else (if f.writeStatus.Effective() then w1.(status := status) else w1, f.writeStatus.Done?)
  }

  function Stamp(hash: Hash, d: Desired, id: nat): Status {
    Status(d.org, d.keyName, hash(d.tags), d.cpRef, d.cpUrl, id)
  }

  function Reconciled(hash: Hash, w: World, d: Desired, f: Faults): (World, Outcome) {
    if !w.finalizer then
      (w.(finalizer := f.writeStatus.Effective()), Outcome(false, 0, 0))
    else if !f.proceed then
      (w, Outcome(false, 0, 0))
    else if PlanFor(hash, w, d).Steady? then
      var (w', ok) := Persist(w, d, "", w.status.(keyName := OrElse(w.status.keyName, d.keyName)), f);
      (w', Outcome(ok, 0, 0))
    else
      var rotating := PlanFor(hash, w, d).Rotate?;
      var (k0, gone) := if rotating then RemoveKey(w.keys, Recorded(w.status, d), f.dropOld) else (w.keys, Gone);
      var r0 := if rotating then 1 else 0;
      if gone.RemoveCrashed? then (w.(keys := k0), Outcome(false, 0, r0))
      else
        var (k1, got, e, r) := Obtain(k0, Ref(d), d.tags, f);
        if got.NoKey? then (w.(keys := k1), Outcome(false, e, r0 + r))
        else
          var (w', ok) := Persist(w.(keys := k1), d, got.material, Stamp(hash, d, got.id), f);
          (w', Outcome(ok, e, r0 + r))
  }

  /** Removal of the object: best-effort delete of the recorded key, then of the finalizer. */
  function Finalized(w: World, d: Desired, cpFound: bool, tokenReady: bool, drop: Reply, write: Reply): World {
    if !w.finalizer then w
    else
      var attempt := cpFound && tokenReady && OrElse(w.status.cpUrl, d.cpUrl) != "";
      var (k, gone) := if attempt then RemoveKey(w.keys, Recorded(w.status, d), drop) else (w.keys, Gone);
      w.(keys := k, finalizer := gone.RemoveCrashed? || !write.Effective())
  }

  // ----- The controller, step by step -----

  class Cluster {
    var keys: Keys
    var secrets: Secrets
    var status: Status
    var finalizer: bool

    function View(): World
      reads this
    {
      World(keys, secrets, status, finalizer)
    }

    /** Looks the key up in a listing, creates it when it is not there, and looks it up again. */
    method EnsureProvisionerKey(list: Lister, ref: KeyRef, tags: Tags, mint: Mint, reply: Reply) returns (r: Ensured)
      requires ListsKeys(list)
      modifies this`keys
      ensures (keys, r) == EnsureKey(old(keys), ref, tags, mint, reply)
    {
      var lost := if reply.Crashed? then EnsureCrashed else EnsureFailed;
      if ref.url == "" || ref.name == "" {
        return lost;
      }
      var existing := LookUp(list(keys, ref.url, ref.org), keys, ref);
      if existing.One? {
        if !reply.Done? || existing.row.id == 0 {
          return lost;
        }
        return Existing(existing.row.id);
      }
      if reply.Effective() {
        keys := keys[ref := Key(mint.id, tags, mint.material)];
      }
      if !reply.Done? || mint.material == "" {
        return lost;
      }
      var created := LookUp(list(keys, ref.url, ref.org), keys, ref);
      if !created.One? || created.row.id == 0 {
        return lost;
      }
      return Created(created.row.id, mint.material);
    }

    method DeleteProvisionerKey(ref: KeyRef, reply: Reply) returns (r: Removed)
      modifies this`keys
      ensures (keys, r) == RemoveKey(old(keys), ref, reply)
    {
      if ref.url != "" && ref.name != "" {
        if reply.Effective() {
          keys := keys - {ref};
        }
        if reply.Done? {
          return Gone;
        }
      }
      return if reply.Crashed? then RemoveCrashed else RemoveFailed;
    }

    method EnsureProvisionerKeySecret(d: Desired, material: string, reply: Reply) returns (ok: bool)
      modifies this`secrets
      ensures var written := SecretsAfter(old(secrets), d, material);
              && secrets == (if Usable(written, d) && reply.Effective() then written else old(secrets))
              && ok == (Usable(written, d) && reply.Done?)
    {
      var data := if d.secretName in secrets then secrets[d.secretName] else map[];
      if material != "" {
        data := data[d.secretKey := material];
      }
      if d.secretKey !in data || data[d.secretKey] == "" {
        return false;
      }
      if reply.Effective() {
        secrets := secrets[d.secretName := data];
      }
      return reply.Done?;
    }

    /** Create the key, or delete and recreate it when coderd already has it, so that its
        plaintext is known. */
    method ObtainKey(list: Lister, ref: KeyRef, tags: Tags, f: Faults) returns (got: Obtained, ensureCalls: nat, removeCalls: nat)
      requires ListsKeys(list)
      modifies this`keys
      ensures (keys, got, ensureCalls, removeCalls) == Obtain(old(keys), ref, tags, f)
    {
      var response := EnsureProvisionerKey(list, ref, tags, f.mint1, f.ensure1);
      if response.Created? {
        return Fresh(response.id, response.material), 1, 0;
      }
      if !response.Existing? {
        return NoKey, 1, 0;
      }
      var gone := DeleteProvisionerKey(ref, f.drop2);
      if !gone.Gone? {
        return NoKey, 1, 1;
      }
      var rotated := EnsureProvisionerKey(list, ref, tags, f.mint2, f.ensure2);
      if !rotated.Created? {
        return NoKey, 2, 1;
      }
      return Fresh(rotated.id, rotated.material), 2, 1;
    }

    method PersistKey(d: Desired, material: string, applied: Status, f: Faults) returns (ok: bool)
      modifies this`secrets, this`status
      ensures (View(), ok) == Persist(old(View()), d, material, applied, f)
    {
      if f.vanish {
        secrets := secrets - {d.secretName};
      }
      ok := EnsureProvisionerKeySecret(d, material, f.writeSecret);
      if ok && applied != status {
        if f.writeStatus.Effective() {
          status := applied;
        }
        ok := f.writeStatus.Done?;
      }
    }

    /** The key part of a reconcile. Rotation, recovery and backfill obtain the key by the same
        calls in the same order, so they share that step. */
    method Reconcile(list: Lister, hash: Hash, d: Desired, f: Faults) returns (o: Outcome)
      requires ListsKeys(list)
      modifies this
      ensures (View(), o) == Reconciled(hash, old(View()), d, f)
    {
      if !finalizer {
        finalizer := f.writeStatus.Effective();
        return Outcome(false, 0, 0);
      }
      if !f.proceed {
        return Outcome(false, 0, 0);
      }
      var applied := status.(keyName := OrElse(status.keyName, d.keyName));
      var material := "";
      var ensureCalls, removeCalls := 0, 0;
      var driftDetected := Drift(hash, status, d);

      if driftDetected {
        var gone := DeleteProvisionerKey(Recorded(status, d), f.dropOld);
        removeCalls := 1;
        if gone.RemoveCrashed? {
          return Outcome(false, 0, 1);
        }
        // Any other failure is logged and the new key is created anyway.
      }
      if driftDetected || !Usable(secrets, d) || Incomplete(status) {
        var got, e, r := ObtainKey(list, Ref(d), d.tags, f);
        ensureCalls, removeCalls := e, removeCalls + r;
        if got.NoKey? {
          return Outcome(false, ensureCalls, removeCalls);
        }
        material := got.material;
        applied := Status(d.org, d.keyName, hash(d.tags), d.cpRef, d.cpUrl, got.id);
      }
      var ok := PersistKey(d, material, applied, f);
      return Outcome(ok, ensureCalls, removeCalls);
    }

    method ReconcileDeletion(d: Desired, cpFound: bool, tokenReady: bool, drop: Reply, write: Reply)
      modifies this
      ensures View() == Finalized(old(View()), d, cpFound, tokenReady, drop, write)
    {
      if !finalizer {
        return;
      }
      var url := OrElse(status.cpUrl, d.cpUrl);
      if url != "" && cpFound && tokenReady {
        var gone := DeleteProvisionerKey(KeyRef(url, OrElse(status.org, d.org), OrElse(status.keyName, d.keyName)), drop);
        if gone.RemoveCrashed? {
          return;
        }
      }
      finalizer := !write.Effective();
    }
  }

  // ----- Runs -----

  datatype Site = Site(w: World, d: Desired)

  datatype Event =
    | Reconcile(f: Faults)
    | SecretDeleted(name: string)
    | SpecEdited(d: Desired)

  function Step(hash: Hash, x: Site, e: Event): Site {
    match e
    case Reconcile(f) => x.(w := Reconciled(hash, x.w, x.d, f).0)
    case SecretDeleted(name) => x.(w := x.w.(secrets := x.w.secrets - {name}))
    case SpecEdited(d) => x.(d := d)
  }

  function Run(hash: Hash, x: Site, es: seq<Event>): Site
    decreases |es|
  {
    if es == [] then x else Run(hash, Step(hash, x, es[0]), es[1..])
  }

  /** The Secret holds the plaintext of the live key, and that key carries the desired tags. */
  predicate Live(hash: Hash, w: World, d: Desired)
    requires Usable(w.secrets, d)
  {
    && Ref(d) in w.keys
    && w.keys[Ref(d)].material == w.secrets[d.secretName][d.secretKey]
    && hash(w.keys[Ref(d)].tags) == hash(d.tags)
  }

  /** Whenever the controller would leave everything alone, leaving it alone is right. */
  predicate SecretIsLive(hash: Hash, x: Site) {
    JudgedSteady(hash, x.w.status, x.d) && Usable(x.w.secrets, x.d) ==> Live(hash, x.w, x.d)
  }

  function SecretValue(secrets: Secrets, d: Desired): string {
    if Usable(secrets, d) then secrets[d.secretName][d.secretKey] else ""
  }

  /** An edit that does not resurrect an older baseline over a usable Secret. An editor can
      check it without asking coderd. */
  predicate EditSafe(hash: Hash, x: Site, d: Desired) {
    JudgedSteady(hash, x.w.status, d) && Usable(x.w.secrets, d) ==>
      && JudgedSteady(hash, x.w.status, x.d)
      && Ref(d) == Ref(x.d) && SecretValue(x.w.secrets, d) == SecretValue(x.w.secrets, x.d)
  }

  function WithKeys(x: Site, keys: Keys): Site {
    x.(w := x.w.(keys := keys))
  }

  /** The condition is exact: it holds if and only if the edit is right whatever coderd holds. */
  lemma EditSafeIsExact(hash: Hash, x: Site, d: Desired)
    ensures EditSafe(hash, x, d) <==>
            forall keys :: SecretIsLive(hash, WithKeys(x, keys)) ==> SecretIsLive(hash, WithKeys(x, keys).(d := d))
  {
    if !EditSafe(hash, x, d) {
      var key := Key(1, x.d.tags, SecretValue(x.w.secrets, x.d));
      var keys := if Usable(x.w.secrets, x.d) && JudgedSteady(hash, x.w.status, x.d) then map[Ref(x.d) := key] else map[];
      assert SecretIsLive(hash, WithKeys(x, keys)) && !SecretIsLive(hash, WithKeys(x, keys).(d := d));
    }
  }

  predicate Gated(hash: Hash, x: Site, es: seq<Event>)
    decreases |es|
  {
    es != [] ==>
      && (es[0].SpecEdited? ==> EditSafe(hash, x, es[0].d))
      && Gated(hash, Step(hash, x, es[0]), es[1..])
  }

  /** The status records exactly the desired identity, as it does after a completed reconcile. */
  predicate Settled(hash: Hash, s: Status, d: Desired) {
    s == Stamp(hash, d, s.keyId) && d.keyName != "" && !Incomplete(s)
  }

  /** Waiting for a completed reconcile, and pointing only at fresh Secret keys, is enough. */
  lemma SettledEditsAreSafe(hash: Hash, x: Site, d: Desired)
    requires Settled(hash, x.w.status, x.d)
    requires !Usable(x.w.secrets, d) || (d.secretName == x.d.secretName && d.secretKey == x.d.secretKey)
    ensures EditSafe(hash, x, d)
  {
  }

  lemma ObtainMeaning(keys: Keys, ref: KeyRef, tags: Tags, f: Faults)
    ensures var (keys', got, e, r) := Obtain(keys, ref, tags, f);
            && keys' - {ref} == keys - {ref}
            && e <= 2 && r <= 1
            && (got.Fresh? ==> got.material != "" && ref in keys' && keys'[ref] == Key(got.id, tags, got.material))
  {
    EnsureKeyMeaning(keys, ref, tags, f.mint1, f.ensure1);
    var (k1, r1) := EnsureKey(keys, ref, tags, f.mint1, f.ensure1);
    var (k2, gone) := RemoveKey(k1, ref, f.drop2);
    assert k2 - {ref} == k1 - {ref};
    EnsureKeyMeaning(k2, ref, tags, f.mint2, f.ensure2);
  }

  /** The table after the best-effort delete that opens a rotation. */
  function AfterDrop(hash: Hash, w: World, d: Desired, f: Faults): (Keys, Removed) {
    if PlanFor(hash, w, d).Rotate? then RemoveKey(w.keys, Recorded(w.status, d), f.dropOld) else (w.keys, Gone)
  }

  /** The status moves only once the Secret holds the offered plaintext; a Secret changes only
      to hold it, or to vanish. */
  lemma PersistMeaning(w: World, d: Desired, material: string, status: Status, f: Faults)
    ensures var (w', ok) := Persist(w, d, material, status, f);
            && w'.keys == w.keys && w'.finalizer == w.finalizer
            && (w'.status == w.status || w'.status == status)
            && SecretValue(w'.secrets, d) in {"", SecretValue(w.secrets, d), material}
            && ((ok || w'.status != w.status) ==>
                  && SecretValue(w'.secrets, d) != ""
                  && (material != "" ==> SecretValue(w'.secrets, d) == material))
            && (ok ==> w'.status == status)
            && (!f.vanish && f.writeSecret.Done? && f.writeStatus.Done? && (material != "" || Usable(w.secrets, d)) ==> ok)
  {
  }

  /** What a reconcile that is not steady does to the three stores. */
  lemma KeyTouchMeaning(hash: Hash, w: World, d: Desired, f: Faults)
    requires w.finalizer && f.proceed && !PlanFor(hash, w, d).Steady?
    ensures var (w', o) := Reconciled(hash, w, d, f);
            && w'.finalizer && o.ensureCalls <= 2 && o.removeCalls <= 2
            && (w'.status == w.status || w'.status == Stamp(hash, d, w'.status.keyId))
            && (w'.status != w.status || o.completed ==>
                  && Usable(w'.secrets, d) && Live(hash, w', d)
                  && (o.completed ==> w'.status == Stamp(hash, d, w'.keys[Ref(d)].id)))
            && (SecretValue(w'.secrets, d) in {"", SecretValue(w.secrets, d)} || (Usable(w'.secrets, d) && Live(hash, w', d)))
  {
    var (k0, gone) := AfterDrop(hash, w, d, f);
    if !gone.RemoveCrashed? {
      ObtainMeaning(k0, Ref(d), d.tags, f);
      var (k1, got, _, _) := Obtain(k0, Ref(d), d.tags, f);
      if got.Fresh? {
        PersistMeaning(w.(keys := k1), d, got.material, Stamp(hash, d, got.id), f);
      }
    }
  }

  lemma ReconcileKeepsSecretLive(hash: Hash, x: Site, f: Faults)
    requires SecretIsLive(hash, x)
    ensures SecretIsLive(hash, Step(hash, x, Reconcile(f)))
  {
    var w, d := x.w, x.d;
    if w.finalizer && f.proceed {
      if PlanFor(hash, w, d).Steady? {
        PersistMeaning(w, d, "", w.status.(keyName := OrElse(w.status.keyName, d.keyName)), f);
      } else {
        KeyTouchMeaning(hash, w, d, f);
      }
    }
  }

  /** In every gated run, with any faults and any Secret deletions, a status that matches over
      a usable Secret means the Secret holds the live key with the desired tags. */
  lemma {:induction false} RunsKeepSecretLive(hash: Hash, x: Site, es: seq<Event>)
    requires SecretIsLive(hash, x) && Gated(hash, x, es)
    ensures SecretIsLive(hash, Run(hash, x, es))
    decreases |es|
  {
    if es != [] {
      match es[0] {
        case Reconcile(f) => ReconcileKeepsSecretLive(hash, x, f);
        case SecretDeleted(_) =>
        case SpecEdited(_) =>
      }
      RunsKeepSecretLive(hash, Step(hash, x, es[0]), es[1..]);
    }
  }

  /** The gate cannot be dropped: from every settled, live state, editing to any drifting spec,
      dying after the old key is gone and reverting the edit leaves a matching status over a
      usable Secret whose key no longer exists. */
  lemma RevertMidRotationBreaks(hash: Hash, x: Site, d: Desired, f: Faults)
    requires Settled(hash, x.w.status, x.d) && Usable(x.w.secrets, x.d) && Live(hash, x.w, x.d)
    requires x.w.finalizer && f.proceed && f.dropOld == Crashed(true)
    requires Drift(hash, x.w.status, d)
    ensures var es := [SpecEdited(d), Reconcile(f), SpecEdited(x.d)];
            && !Gated(hash, x, es)
            && SecretIsLive(hash, x) && !SecretIsLive(hash, Run(hash, x, es))
  {
    var es := [SpecEdited(d), Reconcile(f), SpecEdited(x.d)];
    var x1 := Step(hash, x, es[0]);
    var x2 := Step(hash, x1, es[1]);
    var x3 := Step(hash, x2, es[2]);
    assert Recorded(x.w.status, d) == Ref(x.d);
    assert x3 == Site(x.w.(keys := x.w.keys - {Ref(x.d)}), x.d);
    assert es[1..][0] == es[1] && es[1..][1..] == [es[2]] && [es[2]][1..] == [];
    assert Run(hash, x, es) == Run(hash, x1, es[1..]) == Run(hash, x2, [es[2]]) == Run(hash, x3, []) == x3;
    assert Gated(hash, x, es) ==> Gated(hash, x1, es[1..]) && Gated(hash, x2, es[1..][1..]);
    assert !EditSafe(hash, x2, x.d);
  }

  // ----- Convergence -----

  predicate ValidDesired(hash: Hash, d: Desired) {
    d.org != "" && d.keyName != "" && hash(d.tags) != "" && d.cpRef != "" && d.cpUrl != ""
  }

  predicate Clean(f: Faults) {
    && f.proceed && !f.vanish
    && f.dropOld.Done? && f.ensure1.Done? && f.drop2.Done? && f.ensure2.Done?
    && f.writeSecret.Done? && f.writeStatus.Done?
    && f.mint1.material != "" && f.mint1.id != 0 && f.mint2.material != "" && f.mint2.id != 0
  }

  /** coderd gave the key a proper id, if it has the key. */
  predicate ProperId(keys: Keys, ref: KeyRef) {
    ref in keys ==> keys[ref].id != 0
  }

  predicate Consistent(hash: Hash, w: World, d: Desired) {
    Settled(hash, w.status, d) && Usable(w.secrets, d) && Live(hash, w, d)
  }

  /** One failure-free reconcile makes the three stores agree, within two ensure and two
      delete calls. The recorded key id is the live one exactly when the reconcile touched the
      key or the id was already right. */
  lemma CleanReconcileConverges(hash: Hash, w: World, d: Desired, f: Faults)
    requires SecretIsLive(hash, Site(w, d)) && ValidDesired(hash, d) && ProperId(w.keys, Ref(d))
    requires Clean(f) && w.finalizer
    ensures var (w', o) := Reconciled(hash, w, d, f);
            && o.completed && o.ensureCalls <= 2 && o.removeCalls <= 2
            && Consistent(hash, w', d)
            && (w'.status.keyId == w'.keys[Ref(d)].id <==>
                  !PlanFor(hash, w, d).Steady? || w.status.keyId == w.keys[Ref(d)].id)
  {
    if PlanFor(hash, w, d).Steady? {
      PersistMeaning(w, d, "", w.status.(keyName := OrElse(w.status.keyName, d.keyName)), f);
    } else {
      CleanReconcileCompletes(hash, w, d, f);
      KeyTouchMeaning(hash, w, d, f);
    }
  }

  lemma CleanReconcileCompletes(hash: Hash, w: World, d: Desired, f: Faults)
    requires ValidDesired(hash, d) && ProperId(w.keys, Ref(d)) && Clean(f) && w.finalizer && !PlanFor(hash, w, d).Steady?
    ensures Reconciled(hash, w, d, f).1.completed
  {
    var (k0, _) := AfterDrop(hash, w, d, f);
    assert ProperId(k0, Ref(d));
    var (k1, got, _, _) := Obtain(k0, Ref(d), d.tags, f);
    assert got.Fresh? && got.material != "";
    PersistMeaning(w.(keys := k1), d, got.material, Stamp(hash, d, got.id), f);
  }

  /** After that, further reconciles make no key call and change nothing, whatever fails. */
  lemma SettledIsQuiet(hash: Hash, w: World, d: Desired, f: Faults)
    requires Settled(hash, w.status, d) && Usable(w.secrets, d) && w.finalizer && !f.vanish
    ensures Reconciled(hash, w, d, f).0 == w
    ensures Reconciled(hash, w, d, f).1.ensureCalls == 0 && Reconciled(hash, w, d, f).1.removeCalls == 0
  {
    assert w.secrets[d.secretName := w.secrets[d.secretName]] == w.secrets;
  }

  lemma ConvergesThenQuiet(hash: Hash, w: World, d: Desired, f: Faults, g: Faults)
    requires SecretIsLive(hash, Site(w, d)) && ValidDesired(hash, d) && ProperId(w.keys, Ref(d))
    requires Clean(f) && w.finalizer && !g.vanish
    ensures var w1 := Reconciled(hash, w, d, f).0;
            var (w2, o) := Reconciled(hash, w1, d, g);
            w2 == w1 && o.ensureCalls == 0 && o.removeCalls == 0
  {
    CleanReconcileConverges(hash, w, d, f);
    SettledIsQuiet(hash, Reconciled(hash, w, d, f).0, d, g);
  }

  /** A reconcile that starts without the finalizer adds it and does nothing else; one that is
      stopped by a gate before the key logic does nothing at all. */
  lemma GatesComeFirst(hash: Hash, w: World, d: Desired, f: Faults)
    requires !w.finalizer || !f.proceed
    ensures var (w', o) := Reconciled(hash, w, d, f);
            && o == Outcome(false, 0, 0)
            && w' == w.(finalizer := w.finalizer || f.writeStatus.Effective())
  {
  }

  /** From any state that satisfies the invariant, a new object included, two failure-free
      reconciles make the three stores agree under the finalizer. */
  lemma ConvergesFromAnywhere(hash: Hash, x: Site, g: Faults, f: Faults)
    requires SecretIsLive(hash, x) && ValidDesired(hash, x.d) && ProperId(x.w.keys, Ref(x.d)) && Clean(g) && Clean(f)
    ensures var y := Run(hash, x, [Reconcile(g), Reconcile(f)]);
            y.d == x.d && Consistent(hash, y.w, x.d) && y.w.finalizer
  {
    var y := Step(hash, x, Reconcile(g));
    var es := [Reconcile(g), Reconcile(f)];
    assert es[1..] == [es[1]] && [es[1]][1..] == [];
    assert Run(hash, x, es) == Run(hash, y, [es[1]]) == Run(hash, Step(hash, y, es[1]), []);
    if x.w.finalizer {
      CleanReconcileConverges(hash, x.w, x.d, g);
      SettledIsQuiet(hash, y.w, x.d, f);
      CleanKeepsFinalizer(hash, x.w, x.d, g);
    } else {
      GatesComeFirst(hash, x.w, x.d, g);
      CleanReconcileConverges(hash, y.w, x.d, f);
      CleanKeepsFinalizer(hash, y.w, x.d, f);
    }
  }

  lemma CleanKeepsFinalizer(hash: Hash, w: World, d: Desired, f: Faults)
    requires w.finalizer
    ensures Reconciled(hash, w, d, f).0.finalizer
  {
    if f.proceed {
      if PlanFor(hash, w, d).Steady? {
        PersistMeaning(w, d, "", w.status.(keyName := OrElse(w.status.keyName, d.keyName)), f);
      } else {
        KeyTouchMeaning(hash, w, d, f);
      }
    }
  }

  /** A deleted Secret is replaced: the next failure-free reconcile obtains a new key for it. */
  lemma DeletedSecretIsReplaced(hash: Hash, x: Site, f: Faults)
    requires Consistent(hash, x.w, x.d) && x.w.finalizer && ValidDesired(hash, x.d) && ProperId(x.w.keys, Ref(x.d)) && Clean(f)
    ensures var y := Run(hash, x, [SecretDeleted(x.d.secretName)]);
            && !Usable(y.w.secrets, x.d) && y.w == x.w.(secrets := y.w.secrets)
            && Reconciled(hash, y.w, x.d, f).1 == Outcome(true, 2, 1)
            && Consistent(hash, Reconciled(hash, y.w, x.d, f).0, x.d)
  {
    var es := [SecretDeleted(x.d.secretName)];
    var y := Step(hash, x, es[0]);
    assert es[1..] == [];
    assert Run(hash, x, es) == Run(hash, y, []) == y;
    assert PlanFor(hash, y.w, x.d) == Recover;
    CleanReconcileConverges(hash, y.w, x.d, f);
  }

  /** Nothing but the managed key of the managed Secret changes, unless the Secret vanished. */
  ghost predicate OtherDataKept(before: Secrets, after: Secrets, d: Desired) {
    && (forall name :: name in before && name != d.secretName ==> name in after && after[name] == before[name])
    && (forall name :: name in after && name != d.secretName ==> name in before)
    && (d.secretName in before ==> d.secretName in after && after[d.secretName] - {d.secretKey} == before[d.secretName] - {d.secretKey})
  }

  /** A reconcile leaves other Secrets, and the other data of its own Secret, as they are. */
  lemma ReconcileKeepsOtherData(hash: Hash, w: World, d: Desired, f: Faults)
    requires !f.vanish
    ensures OtherDataKept(w.secrets, Reconciled(hash, w, d, f).0.secrets, d)
  {
    hide OtherDataKept, Persist, Obtain;
    SameDataKept(w.secrets, d);
    if w.finalizer && f.proceed {
      if PlanFor(hash, w, d).Steady? {
        PersistKeepsOtherData(w, d, "", w.status.(keyName := OrElse(w.status.keyName, d.keyName)), f);
      } else {
        var (k0, gone) := AfterDrop(hash, w, d, f);
        if !gone.RemoveCrashed? {
          var (k1, got, _, _) := Obtain(k0, Ref(d), d.tags, f);
          if got.Fresh? {
            PersistKeepsOtherData(w.(keys := k1), d, got.material, Stamp(hash, d, got.id), f);
          }
        }
      }
    }
  }

  lemma PersistKeepsOtherData(w: World, d: Desired, material: string, status: Status, f: Faults)
    requires !f.vanish
    ensures OtherDataKept(w.secrets, Persist(w, d, material, status, f).0.secrets, d)
  {
    hide OtherDataKept, SecretsAfter, Usable;
    WriteKeepsOtherData(w.secrets, d, material);
    SameDataKept(w.secrets, d);
  }

  lemma WriteKeepsOtherData(secrets: Secrets, d: Desired, material: string)
    ensures OtherDataKept(secrets, SecretsAfter(secrets, d, material), d)
  {
    if d.secretName in secrets {
      var data := secrets[d.secretName];
      assert data[d.secretKey := material] - {d.secretKey} == data - {d.secretKey};
    }
  }

  lemma SameDataKept(secrets: Secrets, d: Desired)
    ensures OtherDataKept(secrets, secrets, d)
  {
  }

  /** When the status write is lost after a recovery, the state is otherwise consistent but
      names the old key id, and every later steady reconcile keeps it. */
  lemma LostStatusWriteStrandsKeyId(hash: Hash, w: World, d: Desired, f: Faults, g: Faults)
    requires Settled(hash, w.status, d) && d.secretName !in w.secrets && w.finalizer
    requires Ref(d) in w.keys && w.keys[Ref(d)].id == w.status.keyId != 0
    requires Clean(f.(writeStatus := Done)) && f.writeStatus == Failed(false) && f.mint2.id != w.status.keyId
    requires !g.vanish
    ensures var w1 := Reconciled(hash, w, d, f).0;
            && Consistent(hash, w1, d) && w1.status.keyId != w1.keys[Ref(d)].id
            && Reconciled(hash, w1, d, g).0 == w1
  {
    var w1 := Reconciled(hash, w, d, f).0;
    assert PlanFor(hash, w, d) == Recover;
    ObtainMeaning(w.keys, Ref(d), d.tags, f);
    SettledIsQuiet(hash, w1, d, g);
  }

  // ----- No key is leaked -----

  /** Keys in coderd that belong to this provisioner, `foreign` being everyone else's. */
  function Own(w: World, foreign: set<KeyRef>): set<KeyRef> {
    w.keys.Keys - foreign
  }

  predicate NothingLeaked(x: Site, foreign: set<KeyRef>) {
    && Own(x.w, foreign) <= Identities(x)
    && (Own(x.w, foreign) != {} ==> x.w.finalizer)
    && Identities(x) !! foreign
  }

  /** The recorded and the desired identity. */
  function Identities(x: Site): set<KeyRef> {
    {Recorded(x.w.status, x.d), Ref(x.d)}
  }

  /** An edit after which the recorded and the desired identity still cover what they covered
      before. Without the finalizer there is nothing to cover. An editor can check it without
      asking coderd. */
  predicate EditTracks(x: Site, d: Desired, foreign: set<KeyRef>) {
    && Identities(x.(d := d)) !! foreign
    && (x.w.finalizer ==> Identities(x) <= Identities(x.(d := d)))
  }

  /** The condition is exact: it holds if and only if the edit loses sight of no key whatever
      coderd holds. */
  lemma EditTracksIsExact(x: Site, d: Desired, foreign: set<KeyRef>)
    requires Identities(x) !! foreign
    ensures EditTracks(x, d, foreign) <==>
            forall keys :: NothingLeaked(WithKeys(x, keys), foreign) ==> NothingLeaked(WithKeys(x, keys).(d := d), foreign)
  {
    if !EditTracks(x, d, foreign) {
      var keys: Keys := if x.w.finalizer then map ref | ref in Identities(x) :: Key(1, map[], "") else map[];
      assert keys.Keys == if x.w.finalizer then Identities(x) else {};
      assert Own(WithKeys(x, keys).w, foreign) == keys.Keys;
      assert NothingLeaked(WithKeys(x, keys), foreign) && !NothingLeaked(WithKeys(x, keys).(d := d), foreign);
    }
  }

  /** Waiting for a completed reconcile is enough. */
  lemma SettledEditsTrack(hash: Hash, x: Site, d: Desired, foreign: set<KeyRef>)
    requires Settled(hash, x.w.status, x.d) && Ref(x.d) !in foreign && Ref(d) !in foreign
    ensures EditTracks(x, d, foreign)
  {
    assert Recorded(x.w.status, d) == Recorded(x.w.status, x.d) == Ref(x.d);
  }

  /** The reconcile is a rotation away from an existing key under another identity, and the
      delete of that key is refused without effect. The reconcile goes on regardless. */
  predicate Abandons(hash: Hash, x: Site, f: Faults) {
    && PlanFor(hash, x.w, x.d).Rotate? && f.dropOld == Failed(false)
    && Recorded(x.w.status, x.d) in x.w.keys && Recorded(x.w.status, x.d) != Ref(x.d)
  }

  /** Edits keep track of the keys, or come while there is none, and no reconcile abandons a
      key. */
  predicate Careful(hash: Hash, x: Site, es: seq<Event>, foreign: set<KeyRef>)
    decreases |es|
  {
    es != [] ==>
      && (es[0].SpecEdited? ==>
            && ValidDesired(hash, es[0].d)
            && (EditTracks(x, es[0].d, foreign) ||
                (Own(x.w, foreign) == {} && Identities(x.(d := es[0].d)) !! foreign)))
      && (es[0].Reconcile? ==> !Abandons(hash, x, es[0].f))
      && Careful(hash, Step(hash, x, es[0]), es[1..], foreign)
  }

  lemma DropLeavesDesired(hash: Hash, x: Site, f: Faults, foreign: set<KeyRef>)
    requires NothingLeaked(x, foreign) && ValidDesired(hash, x.d) && !Abandons(hash, x, f)
    ensures var (k0, gone) := AfterDrop(hash, x.w, x.d, f);
            && k0.Keys <= x.w.keys.Keys
            && (!gone.RemoveCrashed? && !PlanFor(hash, x.w, x.d).Steady? ==> k0.Keys - foreign <= {Ref(x.d)})
  {
    var w, d := x.w, x.d;
    var (k0, gone) := AfterDrop(hash, w, d, f);
    if PlanFor(hash, w, d).Rotate? {
      assert ValidRef(Recorded(w.status, d));
      if !gone.RemoveCrashed? {
        assert k0.Keys - foreign <= Own(w, foreign);
        assert Recorded(w.status, d) in k0 ==> Recorded(w.status, d) == Ref(d);
      }
    } else {
      assert Recorded(w.status, d) == Ref(d);
    }
  }

  lemma ObtainAddsOnly(keys: Keys, ref: KeyRef, tags: Tags, f: Faults)
    ensures Obtain(keys, ref, tags, f).0.Keys <= keys.Keys + {ref}
  {
    ObtainMeaning(keys, ref, tags, f);
    var k1 := Obtain(keys, ref, tags, f).0;
    forall r | r in k1 && r != ref ensures r in keys {
      assert r in k1 - {ref};
    }
  }

  lemma ReconcileLeaksNothing(hash: Hash, x: Site, f: Faults, foreign: set<KeyRef>)
    requires NothingLeaked(x, foreign) && ValidDesired(hash, x.d) && !Abandons(hash, x, f)
    ensures NothingLeaked(Step(hash, x, Reconcile(f)), foreign)
  {
    var w, d := x.w, x.d;
    if w.finalizer && f.proceed {
      if PlanFor(hash, w, d).Steady? {
        PersistMeaning(w, d, "", w.status.(keyName := OrElse(w.status.keyName, d.keyName)), f);
      } else {
        DropLeavesDesired(hash, x, f, foreign);
        var (k0, gone) := AfterDrop(hash, w, d, f);
        if !gone.RemoveCrashed? {
          ObtainAddsOnly(k0, Ref(d), d.tags, f);
          var (k1, got, _, _) := Obtain(k0, Ref(d), d.tags, f);
          if got.Fresh? {
            PersistMeaning(w.(keys := k1), d, got.material, Stamp(hash, d, got.id), f);
          }
        }
      }
    }
  }

  /** Over every careful run the keys this provisioner created and did not delete are within
      the recorded and the desired identity, and only exist under the finalizer. */
  lemma {:induction false} RunsLeakNothing(hash: Hash, x: Site, es: seq<Event>, foreign: set<KeyRef>)
    requires NothingLeaked(x, foreign) && ValidDesired(hash, x.d) && Careful(hash, x, es, foreign)
    ensures NothingLeaked(Run(hash, x, es), foreign)
    decreases |es|
  {
    if es != [] {
      match es[0] {
        case Reconcile(f) => ReconcileLeaksNothing(hash, x, f, foreign);
        case SecretDeleted(_) =>
        case SpecEdited(d) => assert Identities(x.(d := d)) == Identities(Step(hash, x, es[0]));
      }
      RunsLeakNothing(hash, Step(hash, x, es[0]), es[1..], foreign);
    }
  }

  /** A completed reconcile leaves exactly the desired key. */
  lemma CompletedOwnsExactlyDesired(hash: Hash, x: Site, f: Faults, foreign: set<KeyRef>)
    requires NothingLeaked(x, foreign) && ValidDesired(hash, x.d) && !Abandons(hash, x, f)
    requires SecretIsLive(hash, x)
    requires Reconciled(hash, x.w, x.d, f).1.completed
    ensures var w' := Reconciled(hash, x.w, x.d, f).0;
            Own(w', foreign) == {Ref(x.d)} && Settled(hash, w'.status, x.d)
  {
    ReconcileLeaksNothing(hash, x, f, foreign);
    var w, d := x.w, x.d;
    if PlanFor(hash, w, d).Steady? {
      PersistMeaning(w, d, "", w.status.(keyName := OrElse(w.status.keyName, d.keyName)), f);
    } else {
      KeyTouchMeaning(hash, w, d, f);
    }
  }

  /** The delete of the recorded key is attempted and takes effect. */
  predicate Deletes(w: World, d: Desired, cpFound: bool, tokenReady: bool, drop: Reply) {
    w.finalizer && cpFound && tokenReady && ValidRef(Recorded(w.status, d)) && drop.Effective()
  }

  /** However the deletion of the object goes, none of its keys is left if and only if it owned
      at most the recorded one, where that is deleted, and none otherwise. The finalizer goes
      regardless, unless the process dies in the delete or the write has no effect. */
  lemma DeletionIsExact(w: World, d: Desired, cpFound: bool, tokenReady: bool, drop: Reply, write: Reply, foreign: set<KeyRef>)
    ensures var w' := Finalized(w, d, cpFound, tokenReady, drop, write);
            var url := Recorded(w.status, d).url;
            && (Own(w', foreign) == {} <==>
                  Own(w, foreign) <= if Deletes(w, d, cpFound, tokenReady, drop) then {Recorded(w.status, d)} else {})
            && (w'.finalizer <==>
                  w.finalizer && (!write.Effective() || (drop.Crashed? && cpFound && tokenReady && url != "")))
  {
    var w' := Finalized(w, d, cpFound, tokenReady, drop, write);
    if Deletes(w, d, cpFound, tokenReady, drop) {
      assert w'.keys == w.keys - {Recorded(w.status, d)};
      assert Own(w', foreign) == Own(w, foreign) - {Recorded(w.status, d)};
    } else {
      assert w'.keys == w.keys;
    }
  }

  /** Deleting the object after a completed reconcile, even if the spec was edited since,
      leaves none of its keys behind once its prerequisites are there. */
  lemma DeletionLeavesNothing(hash: Hash, w: World, applied: Desired, d: Desired, drop: Reply, write: Reply, foreign: set<KeyRef>)
    requires Own(w, foreign) <= {Ref(applied)} && Settled(hash, w.status, applied) && w.finalizer
    requires drop.Done? && write.Done?
    ensures var w' := Finalized(w, d, true, true, drop, write);
            Own(w', foreign) == {} && !w'.finalizer
  {
    assert Recorded(w.status, d) == Ref(applied);
    DeletionIsExact(w, d, true, true, drop, write, foreign);
  }

  /** Deleting the object after a rotation to another identity whose status write was lost
      leaves the new key behind: the status still names the old one. */
  lemma DeletionAfterLostStatusWriteLeaks(hash: Hash, x: Site, d: Desired, f: Faults, drop: Reply, write: Reply, foreign: set<KeyRef>)
    requires Settled(hash, x.w.status, x.d) && x.w.finalizer
    requires ValidDesired(hash, d) && Ref(d) != Ref(x.d) && Ref(d) !in foreign && ProperId(x.w.keys, Ref(d))
    requires f.writeStatus == Failed(false) && Clean(f.(writeStatus := Done)) && drop.Done? && write.Done?
    ensures var w1 := Reconciled(hash, x.w, d, f).0;
            var w2 := Finalized(w1, d, true, true, drop, write);
            Ref(d) in Own(w2, foreign) && !w2.finalizer
  {
    LostStatusWriteKeepsOldIdentity(hash, x, d, f);
    assert Recorded(x.w.status, d) == Ref(x.d);
  }

  lemma LostStatusWriteKeepsOldIdentity(hash: Hash, x: Site, d: Desired, f: Faults)
    requires Settled(hash, x.w.status, x.d) && x.w.finalizer
    requires ValidDesired(hash, d) && Ref(d) != Ref(x.d) && ProperId(x.w.keys, Ref(d))
    requires f.writeStatus == Failed(false) && Clean(f.(writeStatus := Done))
    ensures var w1 := Reconciled(hash, x.w, d, f).0;
            w1.status == x.w.status && Ref(d) in w1.keys && w1.finalizer
  {
    assert Recorded(x.w.status, d) == Ref(x.d);
    var (k0, _) := AfterDrop(hash, x.w, d, f);
    assert ProperId(k0, Ref(d));
    ObtainMeaning(k0, Ref(d), d.tags, f);
    var (k1, got, _, _) := Obtain(k0, Ref(d), d.tags, f);
    assert got.Fresh?;
    PersistMeaning(x.w.(keys := k1), d, got.material, Stamp(hash, d, got.id), f);
  }

  // ----- Abandoned keys -----

  /** A completed reconcile keeps the provisioner's keys within its identities if and only if it
      did not abandon a key. One that does not complete loses sight of an abandoned key if and
      only if its status write took effect. */
  lemma LeaksExactlyWhenAbandoning(hash: Hash, x: Site, f: Faults, foreign: set<KeyRef>)
    requires NothingLeaked(x, foreign) && ValidDesired(hash, x.d)
    ensures var (w', o) := Reconciled(hash, x.w, x.d, f);
            var kept := NothingLeaked(Step(hash, x, Reconcile(f)), foreign);
            && (kept <==> !(Abandons(hash, x, f) && w'.status != x.w.status))
            && (o.completed ==> (kept <==> !Abandons(hash, x, f)))
  {
    if !Abandons(hash, x, f) {
      ReconcileLeaksNothing(hash, x, f, foreign);
    } else if x.w.finalizer && f.proceed {
      KeyTouchMeaning(hash, x.w, x.d, f);
      AbandonedKeyRemains(hash, x, f);
      assert Recorded(x.w.status, x.d) in Own(Reconciled(hash, x.w, x.d, f).0, foreign);
      AbandoningAddsOnly(hash, x, f);
    }
  }

  lemma AbandoningAddsOnly(hash: Hash, x: Site, f: Faults)
    requires Abandons(hash, x, f) && x.w.finalizer && f.proceed
    ensures Reconciled(hash, x.w, x.d, f).0.keys.Keys <= x.w.keys.Keys + {Ref(x.d)}
  {
    var w, d := x.w, x.d;
    ObtainAddsOnly(w.keys, Ref(d), d.tags, f);
    assert AfterDrop(hash, w, d, f).0 == w.keys;
    var (k1, got, _, _) := Obtain(w.keys, Ref(d), d.tags, f);
    if got.Fresh? {
      PersistMeaning(w.(keys := k1), d, got.material, Stamp(hash, d, got.id), f);
    }
  }

  /** Right after the reconcile that abandoned it, the old key is still in coderd. */
  lemma AbandonedKeyRemains(hash: Hash, x: Site, f: Faults)
    requires Abandons(hash, x, f)
    ensures Recorded(x.w.status, x.d) in Reconciled(hash, x.w, x.d, f).0.keys
  {
    var w, d := x.w, x.d;
    var left := Recorded(w.status, d);
    ObtainMeaning(w.keys, Ref(d), d.tags, f);
    var (k1, got, _, _) := Obtain(w.keys, Ref(d), d.tags, f);
    assert left in w.keys - {Ref(d)};
    assert left in k1 - {Ref(d)};
    assert AfterDrop(hash, w, d, f).0 == w.keys;
    if got.Fresh? {
      PersistMeaning(w.(keys := k1), d, got.material, Stamp(hash, d, got.id), f);
    }
  }

  /** The status names a whole identity, and neither it nor the spec is that of `ref`. */
  predicate Elsewhere(x: Site, ref: KeyRef) {
    && x.w.status.org != "" && x.w.status.keyName != "" && x.w.status.cpUrl != ""
    && Recorded(x.w.status, x.d) != ref && Ref(x.d) != ref
  }

  /** An abandoned key stays through every run whose edits do not return to its identity. */
  lemma {:induction false} AbandonedKeyStays(hash: Hash, x: Site, es: seq<Event>, ref: KeyRef)
    requires Elsewhere(x, ref) && ValidDesired(hash, x.d) && ref in x.w.keys
    requires forall i :: 0 <= i < |es| && es[i].SpecEdited? ==> ValidDesired(hash, es[i].d) && Ref(es[i].d) != ref
    ensures ref in Run(hash, x, es).w.keys && Elsewhere(Run(hash, x, es), ref)
    decreases |es|
  {
    if es != [] {
      match es[0] {
        case Reconcile(f) => ReconcileLeavesOthers(hash, x, f, ref);
        case SecretDeleted(_) =>
        case SpecEdited(_) =>
      }
      AbandonedKeyStays(hash, Step(hash, x, es[0]), es[1..], ref);
    }
  }

  lemma ReconcileLeavesOthers(hash: Hash, x: Site, f: Faults, ref: KeyRef)
    requires Elsewhere(x, ref) && ValidDesired(hash, x.d) && ref in x.w.keys
    ensures ref in Step(hash, x, Reconcile(f)).w.keys && Elsewhere(Step(hash, x, Reconcile(f)), ref)
  {
    var w, d := x.w, x.d;
    if w.finalizer && f.proceed {
      if PlanFor(hash, w, d).Steady? {
        PersistMeaning(w, d, "", w.status.(keyName := OrElse(w.status.keyName, d.keyName)), f);
      } else {
        var (k0, gone) := AfterDrop(hash, w, d, f);
        assert ref in k0;
        if !gone.RemoveCrashed? {
          ObtainMeaning(k0, Ref(d), d.tags, f);
          var (k1, got, _, _) := Obtain(k0, Ref(d), d.tags, f);
          assert ref in k0 - {Ref(d)};
          assert ref in k1 - {Ref(d)};
          if got.Fresh? {
            PersistMeaning(w.(keys := k1), d, got.material, Stamp(hash, d, got.id), f);
          }
        }
      }
    }
  }

  /** The edit condition cannot be dropped: edit, rotate with the status write lost, and edit
      again to a third identity. The key of the second one is then in nobody's sight, and stays
      so until an edit returns to it. */
  lemma EditBeforeCompletionLeaks(hash: Hash, x: Site, b: Desired, c: Desired, f: Faults, foreign: set<KeyRef>)
    requires Settled(hash, x.w.status, x.d) && x.w.finalizer
    requires ValidDesired(hash, b) && Ref(b) != Ref(x.d) && Ref(b) !in foreign && ProperId(x.w.keys, Ref(b))
    requires f.writeStatus == Failed(false) && Clean(f.(writeStatus := Done)) && Ref(c) != Ref(b)
    ensures var y := Step(hash, Site(x.w, b), Reconcile(f));
            var z := Run(hash, x, [SpecEdited(b), Reconcile(f), SpecEdited(c)]);
            && z == y.(d := c) && !EditTracks(y, c, foreign)
            && Ref(b) in Own(z.w, foreign) && !NothingLeaked(z, foreign) && Elsewhere(z, Ref(b))
  {
    var es := [SpecEdited(b), Reconcile(f), SpecEdited(c)];
    LostStatusWriteKeepsOldIdentity(hash, x, b, f);
    assert Recorded(x.w.status, c) == Ref(x.d);
    assert es[1..][0] == es[1] && es[1..][1..] == [es[2]] && [es[2]][1..] == [];
    var y := Step(hash, Site(x.w, b), es[1]);
    assert Run(hash, x, es) == Run(hash, Site(x.w, b), es[1..]) == Run(hash, y, [es[2]]) == Run(hash, y.(d := c), []);
  }

  /** Returning to its identity reclaims it: after an edit back to `d` and one failure-free
      reconcile, the abandoned key has been replaced and the provisioner owns only that one. */
  lemma ReturningReclaims(hash: Hash, x: Site, d: Desired, f: Faults, foreign: set<KeyRef>)
    requires Settled(hash, x.w.status, x.d) && x.w.finalizer && ValidDesired(hash, d) && Ref(d) != Ref(x.d)
    requires Own(x.w, foreign) <= {Ref(x.d), Ref(d)} && Ref(x.d) !in foreign && Ref(d) !in foreign && ProperId(x.w.keys, Ref(d))
    requires Clean(f)
    ensures var (w', o) := Reconciled(hash, x.w, d, f);
            o.completed && Consistent(hash, w', d) && Own(w', foreign) == {Ref(d)}
  {
    assert Recorded(x.w.status, d) == Ref(x.d);
    CleanReconcileCompletes(hash, x.w, d, f);
    KeyTouchMeaning(hash, x.w, d, f);
    CompletedOwnsExactlyDesired(hash, Site(x.w, d), f, foreign);
  }

  /** A refused delete during a rotation to another identity does leak the old key: the run
      completes and the old key is outside both the recorded and the desired identity. */
  lemma RefusedDeleteLeaks(hash: Hash, x: Site, d: Desired, f: Faults, foreign: set<KeyRef>)
    requires Settled(hash, x.w.status, x.d) && Ref(x.d) in x.w.keys && Ref(x.d) !in foreign
    requires ValidDesired(hash, d) && Ref(d) != Ref(x.d) && ProperId(x.w.keys, Ref(d))
    requires x.w.finalizer && f.dropOld == Failed(false) && Clean(f.(dropOld := Done))
    ensures var y := Step(hash, Site(x.w, d), Reconcile(f));
            && Settled(hash, y.w.status, d) && Ref(x.d) in Own(y.w, foreign)
            && !NothingLeaked(y, foreign)
  {
    assert Recorded(x.w.status, d) == Ref(x.d);
    assert AfterDrop(hash, x.w, d, f) == (x.w.keys, RemoveFailed);
    ObtainMeaning(x.w.keys, Ref(d), d.tags, f);
    var (k1, got, _, _) := Obtain(x.w.keys, Ref(d), d.tags, f);
    assert Ref(x.d) in k1 by {
      assert Ref(x.d) in x.w.keys - {Ref(d)};
      assert Ref(x.d) in k1 - {Ref(d)};
    }
    assert got.Fresh?;
    PersistMeaning(x.w.(keys := k1), d, got.material, Stamp(hash, d, got.id), f);
  }
}
