/** Uploading the configured license to coderd, and what the control plane's status says about
    it. The status is persisted by the per-field commit, from possibly stale bases, and a
    commit may be lost after the upload took effect. */
module LicenseUpload {
  import opened Results
  import opened Text
  import opened StatusCommit

  // ----- Conditions -----

  const LICENSE_APPLIED := "LicenseApplied"

  function Find(conditions: seq<Condition>, kind: string): Option<Condition> {
    if conditions == [] then None
    else if conditions[0].kind == kind then Some(conditions[0])
    else Find(conditions[1..], kind)
  }

  /** Replaces the condition of that kind, or adds it. */
  function SetCondition(conditions: seq<Condition>, c: Condition): seq<Condition> {
    if conditions == [] then [c]
    else if conditions[0].kind == c.kind then [c] + conditions[1..]
    else [conditions[0]] + SetCondition(conditions[1..], c)
  }

  lemma {:induction false} SetThenFind(conditions: seq<Condition>, c: Condition, kind: string)
    ensures Find(SetCondition(conditions, c), kind) == if kind == c.kind then Some(c) else Find(conditions, kind)
  {
    if conditions != [] && conditions[0].kind != c.kind {
      SetThenFind(conditions[1..], c, kind);
    }
  }

  /** The status reports the license as applied. */
  predicate Applied(s: Status) {
    var c := Find(s.conditions, LICENSE_APPLIED);
    c.Some? && c.value.status == "True"
  }

  // ----- Answers -----

  datatype Secret = Value(text: string) | Missing | Unreadable

  /** An upload that ended in an error may have taken effect nevertheless. */
  datatype AddReply = Accepted | SdkError(code: int, message: string, detail: string, applied: bool) | OtherError(applied: bool)
  datatype HasReply = Answer(any: bool) | HasSdkError(code: int) | HasOtherError

  /** What one reconcile meets; `message` is the text it puts in the condition. */
  datatype Input = Input(configured: bool, generation: int, url: string, tokenSecret: Secret, licenseSecretName: string,
                         licenseSecret: Secret, has: HasReply, add: AddReply, now: int, message: string)

  /** The hash of a license, and lower-casing of coderd's messages. */
  datatype Platform = Platform(hash: string -> string, lower: string -> string)

  ghost predicate HexHash(p: Platform) {
    forall jwt: string :: p.hash(jwt) != ""
  }

  predicate Contains(s: string, part: string) {
    part <= s || (s != "" && Contains(s[1..], part))
  }

  /** coderd's way of saying that it has this license already, told by the text of the error. */
  predicate IsDuplicate(p: Platform, reply: AddReply) {
    reply.SdkError? &&
    var text := p.lower(TrimSpace(reply.message + " " + reply.detail));
    Contains(text, "licenses_jwt_key") || Contains(text, "duplicate key") || Contains(text, "already exists")
  }

  predicate Confirms(p: Platform, reply: AddReply) {
    reply.Accepted? || IsDuplicate(p, reply)
  }

  predicate Stores(reply: AddReply) {
    reply.Accepted? || reply.applied
  }

  // ----- The decision -----

  datatype Decision = Abort | Decision(calls: bool, records: bool, status: string, reason: string, requeue: bool)

  /** An error answer by its HTTP status. */
  function Refusal(code: int): Decision {
    if code == 404 then Decision(false, false, "False", "NotSupported", false)
    else if code == 401 || code == 403 then Decision(false, false, "False", "Forbidden", true)
    else Decision(false, false, "False", "Error", true)
  }

  /** The license to upload, once every precondition holds. */
  function License(input: Input, s: Status): Option<string> {
    if && input.configured && s.phase == "Ready" && s.operatorAccessReady && s.operatorTokenSecretRef.Some?
       && input.tokenSecret.Value? && input.licenseSecret.Value? && TrimSpace(input.licenseSecret.text) != ""
       && TrimSpace(input.url) != "" && TrimSpace(s.operatorTokenSecretRef.value.name) != "" && TrimSpace(input.licenseSecretName) != ""
    then Some(TrimSpace(input.licenseSecret.text)) else None
  }

  predicate Recorded(p: Platform, s: Status, jwt: string) {
    s.licenseLastApplied.Some? && s.licenseLastAppliedHash == p.hash(jwt)
  }

  function Decide(p: Platform, input: Input, s: Status): Decision {
    if !input.configured then Decision(false, false, "Unknown", "Pending", false)
    else if s.phase != "Ready" || !s.operatorAccessReady || s.operatorTokenSecretRef.None? then Decision(false, false, "False", "Pending", false)
    else if TrimSpace(input.url) == "" || TrimSpace(s.operatorTokenSecretRef.value.name) == "" then Abort
    else if input.tokenSecret.Missing? then Decision(false, false, "False", "SecretMissing", true)
    else if input.tokenSecret.Unreadable? then Decision(false, false, "False", "Error", true)
    else if TrimSpace(input.licenseSecretName) == "" then Abort
    else if input.licenseSecret.Missing? then Decision(false, false, "False", "SecretMissing", true)
    else if input.licenseSecret.Unreadable? then Decision(false, false, "False", "Error", true)
    else
      var jwt := TrimSpace(input.licenseSecret.text);
      var recorded := Recorded(p, s, jwt);
      if jwt == "" then Decision(false, false, "False", "SecretMissing", true)
      else if recorded && input.has.HasSdkError? then Refusal(input.has.code)
      else if recorded && input.has.HasOtherError? then Decision(false, false, "False", "Error", true)
      else if recorded && input.has.any then Decision(false, false, "True", "Applied", false)
      else if Confirms(p, input.add) then Decision(true, true, "True", "Applied", false)
      else if input.add.SdkError? then Refusal(input.add.code).(calls := true)
      else Decision(true, false, "False", "Error", true)
  }

  /** The status after the decision; an aborted reconcile persists nothing. */
  function NextStatus(p: Platform, input: Input, s: Status): Status {
    var d := Decide(p, input, s);
    if d.Abort? then s
    else
      var s1 := Marked(s, input, d.status, d.reason);
      if d.records then
        s1.(licenseLastApplied := Some(input.now), licenseLastAppliedHash := p.hash(TrimSpace(input.licenseSecret.text)))
      else s1
  }

  /** An upload is attempted exactly when everything is in place and no upload of this license
      is recorded or coderd answers that it has no license at all. */
  lemma UploadsOnlyWhenNeeded(p: Platform, input: Input, s: Status)
    ensures var d := Decide(p, input, s);
            (d.Decision? && d.calls) <==>
              var jwt := License(input, s);
              jwt.Some? && (!Recorded(p, s, jwt.value) || input.has == Answer(false))
  {
    hide TrimSpace, Confirms;
  }

  /** What the new status claims: True only for a license that coderd confirmed in this very
      call, or that was recorded before and is not denied now. */
  lemma ClaimsAreBacked(p: Platform, input: Input, s: Status)
    requires Decide(p, input, s).Decision?
    ensures var next, d := NextStatus(p, input, s), Decide(p, input, s);
            && Applied(next) == (d.status == "True")
            && (d.records <==> d.calls && Confirms(p, input.add))
            && (d.records ==> Applied(next) && next.licenseLastApplied.Some? && next.licenseLastAppliedHash == p.hash(License(input, s).value))
            && (!d.records ==> next.licenseLastApplied == s.licenseLastApplied && next.licenseLastAppliedHash == s.licenseLastAppliedHash)
            && (Applied(next) && !d.records ==> Recorded(p, s, License(input, s).value) && input.has == Answer(true))
    ensures var next, d := NextStatus(p, input, s), Decide(p, input, s);
            && Find(next.conditions, LICENSE_APPLIED) == Some(Condition("LicenseApplied", d.status, input.generation, d.reason, input.message))
            && (forall kind :: kind != LICENSE_APPLIED ==> Find(next.conditions, kind) == Find(s.conditions, kind))
            && (d.records ==> next.licenseLastApplied == Some(input.now))
            && s == next.(conditions := s.conditions, licenseLastApplied := s.licenseLastApplied,
                          licenseLastAppliedHash := s.licenseLastAppliedHash)
  {
    hide TrimSpace, Confirms;
    var d := Decide(p, input, s);
    var c := Condition(LICENSE_APPLIED, d.status, input.generation, d.reason, input.message);
    forall kind: string ensures Find(SetCondition(s.conditions, c), kind) == if kind == LICENSE_APPLIED then Some(c) else Find(s.conditions, kind) {
      SetThenFind(s.conditions, c, kind);
    }
  }

  predicate FoundAt(s: string, part: string, i: nat) {
    i + |part| <= |s| && s[i..i + |part|] == part
  }

  lemma {:induction false} ContainsMeaning(s: string, part: string)
    ensures Contains(s, part) <==> exists i :: FoundAt(s, part, i)
    decreases |s|
  {
    hide FoundAt;
    forall i: nat ensures FoundAt(s, part, i) <==> if i == 0 then part <= s else s != "" && FoundAt(s[1..], part, i - 1) {
      FoundNext(s, part, i);
    }
    if s != "" {
      ContainsMeaning(s[1..], part);
      if i: nat :| FoundAt(s[1..], part, i) {
        assert FoundAt(s, part, i + 1);
      }
    }
    assert part <= s ==> FoundAt(s, part, 0);
  }

  lemma FoundNext(s: string, part: string, i: nat)
    ensures FoundAt(s, part, i) <==> if i == 0 then part <= s else s != "" && FoundAt(s[1..], part, i - 1)
  {
    if i > 0 && i + |part| <= |s| {
      assert s[1..][i - 1..i - 1 + |part|] == s[i..i + |part|];
    }
  }

  /** An error is taken for "already there" if and only if it is coderd's own and one of three
      phrases stands somewhere in its lower-cased text. */
  lemma DuplicateIsToldByPhrase(p: Platform, reply: AddReply)
    ensures IsDuplicate(p, reply) <==>
            reply.SdkError? && exists phrase, i ::
              && phrase in {"licenses_jwt_key", "duplicate key", "already exists"}
              && FoundAt(p.lower(TrimSpace(reply.message + " " + reply.detail)), phrase, i)
  {
    hide TrimSpace, Contains, FoundAt;
    if reply.SdkError? {
      var text := p.lower(TrimSpace(reply.message + " " + reply.detail));
      ContainsMeaning(text, "licenses_jwt_key");
      ContainsMeaning(text, "duplicate key");
      ContainsMeaning(text, "already exists");
    }
  }

  /** How a failed upload is reported, by coderd's HTTP status, and when the reconcile comes back:
      after every failure except an unsupported API, and not while it waits for the control
      plane, which wakes it up. */
  lemma FailuresAreReported(p: Platform, input: Input, s: Status)
    requires Decide(p, input, s).Decision?
    ensures var d := Decide(p, input, s);
            && (d.requeue <==> d.status == "False" && d.reason !in {"Pending", "NotSupported"})
            && (d.status == "True" <==> d.reason == "Applied")
            && (d.calls && !d.records ==>
                  var code := if input.add.SdkError? then input.add.code else 0;
                  d.reason == if code == 404 then "NotSupported" else if code in {401, 403} then "Forbidden" else "Error")
  {
    hide TrimSpace, IsDuplicate;
  }

  /** coderd's licenses after the reconcile. */
  function LicensesAfter(p: Platform, input: Input, s: Status, licenses: set<string>): set<string> {
    var d := Decide(p, input, s);
    if d.Decision? && d.calls && Stores(input.add) then licenses + {TrimSpace(input.licenseSecret.text)} else licenses
  }

  /** coderd as the license stage of a reconcile sees it. */
  class Coderd {
    var licenses: set<string>

    /** The license stage: `next` is the status to persist, none when the reconcile aborts. */
    method ReconcileLicense(p: Platform, input: Input, s: Status) returns (next: Option<Status>, requeue: bool)
      modifies this
      ensures var d := Decide(p, input, s);
              && next == (if d.Abort? then None else Some(NextStatus(p, input, s)))
              && requeue == (d.Decision? && d.requeue)
      ensures licenses == LicensesAfter(p, input, s, old(licenses))
    {
      hide TrimSpace, SetCondition, IsDuplicate;
      if !input.configured {
        return Some(Marked(s, input, "Unknown", "Pending")), false;
      }
      if s.phase != "Ready" || !s.operatorAccessReady || s.operatorTokenSecretRef.None? {
        return Some(Marked(s, input, "False", "Pending")), false;
      }
      if TrimSpace(input.url) == "" || TrimSpace(s.operatorTokenSecretRef.value.name) == "" {
        return None, false;
      }
      if !input.tokenSecret.Value? {
        return Some(Marked(s, input, "False", if input.tokenSecret.Missing? then "SecretMissing" else "Error")), true;
      }
      if TrimSpace(input.licenseSecretName) == "" {
        return None, false;
      }
      if !input.licenseSecret.Value? {
        return Some(Marked(s, input, "False", if input.licenseSecret.Missing? then "SecretMissing" else "Error")), true;
      }
      var jwt := TrimSpace(input.licenseSecret.text);
      if jwt == "" {
        return Some(Marked(s, input, "False", "SecretMissing")), true;
      }
      var hash := p.hash(jwt);
      if s.licenseLastApplied.Some? && s.licenseLastAppliedHash == hash {
        if !input.has.Answer? {
          var d := Refusal(if input.has.HasSdkError? then input.has.code else 0);
          return Some(Marked(s, input, "False", d.reason)), d.requeue;
        }
        if input.has.any {
          return Some(Marked(s, input, "True", "Applied")), false;
        }
      }
      if Stores(input.add) {
        licenses := licenses + {jwt};
      }
      if !Confirms(p, input.add) {
        var d := Refusal(if input.add.SdkError? then input.add.code else 0);
        return Some(Marked(s, input, "False", d.reason)), d.requeue;
      }
      var recorded := s.(licenseLastApplied := Some(input.now), licenseLastAppliedHash := hash);
      return Some(Marked(recorded, input, "True", "Applied")), false;
    }
  }

  function Marked(s: Status, input: Input, status: string, reason: string): Status {
    s.(conditions := SetCondition(s.conditions, Condition(LICENSE_APPLIED, status, input.generation, reason, input.message)))
  }

  // ----- Healing -----

  /** coderd is up and answers truthfully. */
  predicate Truthful(p: Platform, input: Input, jwt: string, licenses: set<string>) {
    && input.has == Answer(licenses != {})
    && (if jwt in licenses then IsDuplicate(p, input.add) && !input.add.applied else input.add.Accepted?)
  }

  /** Losing the status write after an upload heals: whatever the status says, with the license
      in coderd one undisturbed reconcile reports and records it, adds nothing to coderd, and
      the next one neither uploads nor changes what is recorded. */
  lemma LostWriteHeals(p: Platform, input: Input, again: Input, s: Status, licenses: set<string>)
    requires var jwt := License(input, s); jwt.Some? && jwt.value in licenses && Truthful(p, input, jwt.value, licenses)
    requires again.(now := input.now, message := input.message, generation := input.generation) == input
    ensures var jwt, next := License(input, s).value, NextStatus(p, input, s);
            && Applied(next) && Recorded(p, next, jwt) && LicensesAfter(p, input, s, licenses) == licenses
            && Decide(p, again, next) == Decision(false, false, "True", "Applied", false)
            && Applied(NextStatus(p, again, next))
            && NextStatus(p, again, next).licenseLastApplied == next.licenseLastApplied
            && NextStatus(p, again, next).licenseLastAppliedHash == next.licenseLastAppliedHash
  {
    hide IsDuplicate;
    UploadsOnlyWhenNeeded(p, input, s);
    ClaimsAreBacked(p, input, s);
    var next := NextStatus(p, input, s);
    assert License(again, next) == License(input, s);
    UploadsOnlyWhenNeeded(p, again, next);
    ClaimsAreBacked(p, again, next);
  }

  /** An undisturbed reconcile always reports the license as applied, but coderd then has it
      exactly when it had it before or the upload was not skipped. It is skipped on the strength
      of some license being there, not necessarily this one. */
  lemma PresentAfterReconcile(p: Platform, input: Input, s: Status, licenses: set<string>)
    requires License(input, s).Some? && Truthful(p, input, License(input, s).value, licenses)
    ensures var jwt := License(input, s).value;
            && Applied(NextStatus(p, input, s)) && Recorded(p, NextStatus(p, input, s), jwt)
            && (jwt in LicensesAfter(p, input, s, licenses) <==> jwt in licenses || !Recorded(p, s, jwt) || licenses == {})
  {
    hide IsDuplicate;
    UploadsOnlyWhenNeeded(p, input, s);
    ClaimsAreBacked(p, input, s);
  }

  /** The case left open exists: a recorded license that coderd lost while keeping another. */
  lemma ReplacedLicenseGoesUnnoticed()
    ensures exists p: Platform, input: Input, s: Status, licenses: set<string> ::
              && License(input, s).Some? && Truthful(p, input, License(input, s).value, licenses)
              && Applied(NextStatus(p, input, s)) && License(input, s).value !in LicensesAfter(p, input, s, licenses)
  {
    hide TrimSpace, IsDuplicate, Find, SetCondition, Decide, NextStatus, LicensesAfter;
    var p := Platform((jwt: string) => "h", (t: string) => t);
    var input := Input(true, 1, "u", Value("t"), "n", Value("a"), Answer(true), Accepted, 0, "");
    var s := Status(1, 1, "u", Some(SecretRef("n", "k")), true, Some(0), "h", "", None, "", "Ready", []);
    var licenses := {"b"};
    assert TrimSpace("a") == "a" && TrimSpace("u") == "u" && TrimSpace("n") == "n" by {
      TrimMeaning("a");
      TrimMeaning("u");
      TrimMeaning("n");
    }
    assert License(input, s) == Some("a") && "a" !in licenses;
    PresentAfterReconcile(p, input, s, licenses);
  }

  // ----- Runs with stale bases and lost commits -----

  /** Everything that was ever persisted, coderd's licenses, the licenses coderd has confirmed,
      and the reconciles that have not committed yet. */
  datatype State = State(history: seq<Status>, licenses: set<string>, confirmed: set<string>, pending: map<nat, Delta>)

  datatype Step =
    | Start(id: nat, base: nat, before: Status, input: Input, next: Status)
    | Commit(id: nat)
    | Lose(id: nat)
    | Admin(licenses: set<string>)

  /** The other stages of a reconcile leave the license fields and condition alone. */
  predicate SameLicense(a: Status, b: Status) {
    && a.licenseLastApplied == b.licenseLastApplied && a.licenseLastAppliedHash == b.licenseLastAppliedHash
    && Find(a.conditions, LICENSE_APPLIED) == Find(b.conditions, LICENSE_APPLIED)
  }

  function Stored(st: State): Status
    requires st.history != []
  {
    st.history[|st.history| - 1]
  }

  /** A reconcile starts from any persisted status, however old. */
  predicate Enabled(p: Platform, st: State, step: Step) {
    match step
    case Start(_, base, before, input, next) =>
      && base < |st.history| && SameLicense(before, st.history[base])
      && Decide(p, input, before).Decision? && SameLicense(next, NextStatus(p, input, before))
    case Commit(id) => id in st.pending && st.history != []
    case Lose(id) => id in st.pending
    case Admin(_) => true
  }

  function After(p: Platform, st: State, step: Step): State
    requires Enabled(p, st, step)
  {
    match step
    case Start(id, base, before, input, next) =>
      st.(licenses := LicensesAfter(p, input, before, st.licenses),
          confirmed := if Decide(p, input, before).records then st.confirmed + {TrimSpace(input.licenseSecret.text)} else st.confirmed,
          pending := st.pending[id := Delta(st.history[base], next)])
    case Commit(id) =>
      st.(history := st.history + [Merge(st.pending[id], Stored(st))], pending := st.pending - {id})
    case Lose(id) =>
      st.(pending := st.pending - {id})
    case Admin(licenses) =>
      st.(licenses := licenses)
  }

  ghost predicate ConfirmedHash(p: Platform, confirmed: set<string>, h: string) {
    exists jwt :: jwt in confirmed && p.hash(jwt) == h
  }

  /** The record is complete or absent, was confirmed, and stands behind the condition. */
  ghost predicate RecordOk(p: Platform, s: Status, confirmed: set<string>) {
    && (s.licenseLastApplied.Some? <==> s.licenseLastAppliedHash != "")
    && (s.licenseLastApplied.Some? ==> ConfirmedHash(p, confirmed, s.licenseLastAppliedHash))
    && (Applied(s) ==> s.licenseLastApplied.Some?)
  }

  ghost predicate Inv(p: Platform, st: State) {
    && st.history != []
    && (forall i :: 0 <= i < |st.history| ==> RecordOk(p, st.history[i], st.confirmed))
    && (forall i :: 0 <= i < |st.history| && st.history[i].licenseLastApplied.Some? ==> Stored(st).licenseLastApplied.Some?)
    && (forall id :: id in st.pending ==> PendingOk(p, st, st.pending[id]))
  }

  ghost predicate PendingOk(p: Platform, st: State, d: Delta) {
    && d.base in st.history
    && RecordOk(p, d.next, st.confirmed)
    && (d.base.licenseLastApplied.Some? ==> d.next.licenseLastApplied.Some?)
  }

  lemma MoreConfirmed(p: Platform, s: Status, confirmed: set<string>, more: set<string>)
    requires RecordOk(p, s, confirmed) && confirmed <= more
    ensures RecordOk(p, s, more)
  {
    if s.licenseLastApplied.Some? {
      var jwt :| jwt in confirmed && p.hash(jwt) == s.licenseLastAppliedHash;
      assert jwt in more;
    }
  }

  /** A reconcile from a sound base wants a sound status. */
  lemma NextIsSound(p: Platform, base: Status, before: Status, input: Input, next: Status, confirmed: set<string>)
    requires HexHash(p) && RecordOk(p, base, confirmed) && SameLicense(before, base)
    requires Decide(p, input, before).Decision? && SameLicense(next, NextStatus(p, input, before))
    ensures var more := if Decide(p, input, before).records then confirmed + {TrimSpace(input.licenseSecret.text)} else confirmed;
            RecordOk(p, next, more) && (base.licenseLastApplied.Some? ==> next.licenseLastApplied.Some?)
  {
    ClaimsAreBacked(p, input, before);
    hide TrimSpace, Confirms, SetCondition;
    var more := if Decide(p, input, before).records then confirmed + {TrimSpace(input.licenseSecret.text)} else confirmed;
    if Decide(p, input, before).records {
      assert TrimSpace(input.licenseSecret.text) in more;
    } else {
      MoreConfirmed(p, base, confirmed, more);
    }
  }

  /** Merging a sound wish into a sound status is sound, even from an old base. */
  lemma MergeIsSound(p: Platform, d: Delta, latest: Status, confirmed: set<string>)
    requires RecordOk(p, d.base, confirmed) && RecordOk(p, d.next, confirmed) && RecordOk(p, latest, confirmed)
    requires d.base.licenseLastApplied.Some? ==> d.next.licenseLastApplied.Some? && latest.licenseLastApplied.Some?
    ensures RecordOk(p, Merge(d, latest), confirmed)
    ensures latest.licenseLastApplied.Some? ==> Merge(d, latest).licenseLastApplied.Some?
  {
    hide ConfirmedHash, Find;
  }

  lemma NextKeepsInv(p: Platform, st: State, step: Step)
    requires HexHash(p) && Inv(p, st) && Enabled(p, st, step)
    ensures Inv(p, After(p, st, step))
  {
    hide RecordOk, Merge, Decide, NextStatus, SameLicense, LicensesAfter, TrimSpace;
    var st' := After(p, st, step);
    match step {
      case Start(id, base, before, input, next) =>
        NextIsSound(p, st.history[base], before, input, next, st.confirmed);
        forall s | RecordOk(p, s, st.confirmed) ensures RecordOk(p, s, st'.confirmed) {
          MoreConfirmed(p, s, st.confirmed, st'.confirmed);
        }
      case Commit(id) =>
        var d := st.pending[id];
        assert PendingOk(p, st, d);
        MergeIsSound(p, d, Stored(st), st.confirmed);
      case Lose(id) =>
      case Admin(_) =>
    }
  }

  ghost predicate IsRun(p: Platform, states: seq<State>, steps: seq<Step>) {
    && |states| == |steps| + 1
    && forall i :: 0 <= i < |steps| ==> Enabled(p, states[i], steps[i]) && states[i + 1] == After(p, states[i], steps[i])
  }

  lemma {:induction false} RunKeepsInv(p: Platform, states: seq<State>, steps: seq<Step>)
    requires HexHash(p) && IsRun(p, states, steps) && Inv(p, states[0])
    ensures Inv(p, states[|steps|])
    decreases |steps|
  {
    hide Inv, Enabled, After;
    if steps != [] {
      var n := |steps| - 1;
      RunKeepsInv(p, states[..|steps|], steps[..n]);
      assert states[n + 1] == After(p, states[n], steps[n]);
      NextKeepsInv(p, states[n], steps[n]);
    }
  }

  /** In every run of reconciles with stale bases, interleaved and lost commits and an
      administrator changing coderd's licenses: a persisted status that says the license is
      applied records the hash of a license that coderd accepted or reported as a duplicate. */
  lemma PersistedClaimIsBacked(p: Platform, states: seq<State>, steps: seq<Step>)
    requires HexHash(p) && IsRun(p, states, steps)
    requires var st := states[0]; |st.history| == 1 && st.pending == map[] && st.confirmed == {} && NothingRecorded(st.history[0])
    ensures var st := states[|steps|];
            st.history != [] &&
            (Applied(Stored(st)) ==> ConfirmedHash(p, st.confirmed, Stored(st).licenseLastAppliedHash))
  {
    hide Enabled, After, Applied;
    assert Inv(p, states[0]) by {
      assert RecordOk(p, states[0].history[0], {});
    }
    RunKeepsInv(p, states, steps);
    var st := states[|steps|];
    assert RecordOk(p, Stored(st), st.confirmed);
  }

  predicate NothingRecorded(s: Status) {
    s.licenseLastApplied.None? && s.licenseLastAppliedHash == "" && !Applied(s)
  }

  /** A lost commit heals in the run: with the license in coderd, a reconcile that starts from the
      stored status, meets a truthful coderd and commits undisturbed leaves a stored status that
      reports and records the license, and coderd as it was. */
  lemma RunHeals(p: Platform, st: State, id: nat, input: Input)
    requires st.history != [] && License(input, Stored(st)).Some?
    requires License(input, Stored(st)).value in st.licenses && Truthful(p, input, License(input, Stored(st)).value, st.licenses)
    ensures var s, jwt := Stored(st), License(input, Stored(st)).value;
            var start := Start(id, |st.history| - 1, s, input, NextStatus(p, input, s));
            && Enabled(p, st, start) && Enabled(p, After(p, st, start), Step.Commit(id))
            && var end := After(p, After(p, st, start), Step.Commit(id));
            && end.history == st.history + [Stored(end)] && end.licenses == st.licenses
            && Applied(Stored(end)) && Recorded(p, Stored(end), jwt)
  {
    hide IsDuplicate, Merge, TrimSpace, Find, SetCondition;
    var s := Stored(st);
    LostWriteHeals(p, input, input, s, st.licenses);
    MergeOntoBase(Delta(s, NextStatus(p, input, s)));
  }
}
