/** File updates of a template: compare with the active version, merge, upload, wait for the
    build, promote, and check that the promotion took effect. */
module TemplateUpdates {
  import opened Results
  import opened TemplatePaths
  import opened TemplateArchive
  import opened TemplateBuild
  import opened TemplateMerge
  import BuildWait
  import Utf8

  // ----- What an update does to the active archive -----

  ghost predicate Served(a: Archive) {
    a.packed <= MAX_ZIP && Readable(a.entries)
  }

  ghost predicate SameText(a: Archive, files: Files) {
    View(a.entries, true) == Normal(files)
  }

  /** The request is valid in itself and can be combined with the active version. */
  ghost predicate Accepts(a: Archive, files: Files, pack: Packer) {
    && Served(a) && Normalizable(files)
    && Buildable(Normal(files)) && NamesFit(Normal(files)) && pack(Packed(Normal(files), map[])) <= MAX_ZIP
    && (SameText(a, files) ||
        (Mergeable(a.entries, Normal(files)) && NamesFit(Normal(files) + Kept(a.entries, Normal(files))) &&
         pack(Merged(a.entries, Normal(files))) <= MAX_ZIP))
  }

  ghost function Updated(a: Archive, files: Files, pack: Packer): Archive {
    if SameText(a, files) then a
    else
      var es := Merged(a.entries, Normal(files));
      Archive(es, pack(es))
  }

  /** After an accepted update the text is exactly the request, the binary files are exactly the
      earlier ones the request does not mention, and repeating it changes nothing. */
  lemma UpdateMeaning(a: Archive, files: Files, pack: Packer)
    requires Accepts(a, files, pack)
    ensures var z := Updated(a, files, pack);
            && Served(z)
            && View(z.entries, true) == Normal(files)
            && View(z.entries, false) == View(a.entries, false) - Normal(files).Keys
            && Accepts(z, files, pack) && Updated(z, files, pack) == z
  {
    hide Validate, Utf8.Valid, Readable, Mergeable, Buildable, Packed, Merged, View, Normal, Normalizable;
    NormalIsNormal(files);
    if SameText(a, files) {
      TextIsNotBinary(a.entries);
      assert View(a.entries, false) - Normal(files).Keys == View(a.entries, false);
    } else {
      MergedReadsBack(a.entries, Normal(files));
    }
  }

  lemma TextIsNotBinary(es: seq<Entry>)
    requires Readable(es)
    ensures View(es, true).Keys !! View(es, false).Keys
  {
    hide Validate, Utf8.Valid, View;
    ViewMeaning(es, true);
    ViewMeaning(es, false);
    forall p | p in View(es, true) ensures p !in View(es, false) {
      var i :| 0 <= i < |es| && Shown(es[i], true) && Norm(es[i].name) == p;
      forall j | 0 <= j < |es| && Shown(es[j], false) ensures Norm(es[j].name) != p {
        assert i < j || j < i;
      }
    }
  }

  // ----- Sequences of updates -----

  ghost function UpdatedAll(a: Archive, fs: seq<Files>, pack: Packer): Archive {
    if fs == [] then a else Updated(UpdatedAll(a, fs[..|fs| - 1], pack), fs[|fs| - 1], pack)
  }

  ghost predicate AcceptsAll(a: Archive, fs: seq<Files>, pack: Packer) {
    fs != [] ==>
      && AcceptsAll(a, fs[..|fs| - 1], pack)
      && Accepts(UpdatedAll(a, fs[..|fs| - 1], pack), fs[|fs| - 1], pack)
  }

  /** Every normalised path that some request mentions. */
  ghost function Mentioned(fs: seq<Files>): set<string> {
    if fs == [] then {} else Mentioned(fs[..|fs| - 1]) + Normal(fs[|fs| - 1]).Keys
  }

  /** Over any sequence of accepted updates F1..Fn without other writers: the active text is
      normalised Fn, the surviving binary files are exactly the original ones mentioned in no
      Fi, and repeating Fn creates no new version. */
  lemma {:induction false} UpdatesCompose(a: Archive, fs: seq<Files>, pack: Packer)
    requires Served(a) && AcceptsAll(a, fs, pack)
    ensures var z := UpdatedAll(a, fs, pack);
            && Served(z)
            && View(z.entries, false) == View(a.entries, false) - Mentioned(fs)
            && (fs != [] ==>
                  var last := fs[|fs| - 1];
                  View(z.entries, true) == Normal(last) && Accepts(z, last, pack) && Updated(z, last, pack) == z)
    decreases |fs|
  {
    hide Validate, Utf8.Valid, Readable, View, Normal, Accepts, Updated;
    if fs == [] {
      assert View(a.entries, false) - {} == View(a.entries, false);
    } else {
      var p, last := fs[..|fs| - 1], fs[|fs| - 1];
      UpdatesCompose(a, p, pack);
      UpdateMeaning(UpdatedAll(a, p, pack), last, pack);
      assert View(a.entries, false) - Mentioned(p) - Normal(last).Keys == View(a.entries, false) - Mentioned(fs);
    }
  }

  // ----- The update call -----

  /** What the remote calls of one update do, and when the request ends. The promotion call may
      report success without having had any effect. */
  datatype Remote = Remote(upload: Call, create: Call, promote: Call, promoteSwallowed: bool, verify: Call,
                             remaining: Option<int>, canceledAt: Option<nat>)

  /** Every call of a publication works, and the build is seen to succeed. */
  ghost predicate Works(config: BuildWait.WaitConfig, backend: nat -> BuildWait.Poll, sleep: nat -> BuildWait.Sleep, remote: Remote) {
    && remote.upload.Done? && remote.create.Done? && remote.promote.Done? && !remote.promoteSwallowed && remote.verify.Done?
    && BuildWait.BuildSeen(config, remote.remaining, remote.canceledAt, backend, sleep)
  }

  datatype Prepared = Refused | Unchanged | NewVersion(archive: Archive)

  /** Everything an update decides before it changes anything remotely. */
  method Prepare(current: Archive, files: Files, order: Order, pack: Packer) returns (r: Prepared)
    requires GoOrder(order)
    ensures r == if !Accepts(current, files, pack) then Refused
                 else if SameText(current, files) then Unchanged
                 else NewVersion(Updated(current, files, pack))
  {
    hide Validate, Utf8.Valid, Readable, Mergeable, Buildable, Packed, Merged, View, Normal, Normalizable, GoOrder;
    var normalized := NormalizeFileKeys(files, order, 0);
    if normalized.None? {
      return Refused;
    }
    NormalIsNormal(files);
    var m := normalized.value;
    var prebuilt := BuildSourceZip(m, order, pack);
    if prebuilt.None? {
      return Refused;
    }
    var currentFiles := ReadSourceFiles(current);
    if currentFiles.None? {
      return Refused;
    }
    if m == currentFiles.value {
      return Unchanged;
    }
    var merged := BuildMergedSourceZip(current, m, order, pack);
    if merged.None? {
      return Refused;
    }
    return NewVersion(merged.value);
  }

  class Template {
    var versions: seq<Archive>
    var active: nat

    ghost predicate Valid()
      reads this
    {
      active < |versions|
    }

    /** Uploads an archive as a new version, waits for its build, promotes it and checks that the
        promotion took effect. A version becomes active only after its build was observed to
        succeed, and success is reported exactly when every step worked. */
    method Publish(archive: Archive, config: BuildWait.WaitConfig, backend: nat -> BuildWait.Poll,
                   sleep: nat -> BuildWait.Sleep, remote: Remote)
      returns (ok: bool, built: bool, polls: nat)
      requires Valid()
      modifies this
      ensures Valid()
      ensures active != old(active) ==> built
      ensures built ==> polls >= 1 && backend(polls - 1).Answer? && backend(polls - 1).status == BuildWait.Succeeded
      ensures versions == old(versions) || versions == old(versions) + [archive]
      ensures active == old(active) || (active == |old(versions)| && |versions| == |old(versions)| + 1)
      ensures ok ==> active == |old(versions)| && |versions| == |old(versions)| + 1
      ensures ok <==> built && remote.promote.Done? && !remote.promoteSwallowed && remote.verify.Done?
      ensures built <==> remote.upload.Done? && remote.create.Done?
                         && BuildWait.BuildSeen(config, remote.remaining, remote.canceledAt, backend, sleep)
      ensures !remote.upload.Done? ==> versions == old(versions)
    {
      hide BuildWait.BuildSeen, BuildWait.LastPoll, BuildWait.VerdictAt, BuildWait.DoneAt, BuildWait.KeepsPolling;
      ok, built, polls := false, false, 0;
      if !remote.upload.Done? {
        return;
      }
      if remote.create.Done? || remote.create.applied {
        versions := versions + [archive];
      }
      if !remote.create.Done? {
        return;
      }
      var verdict, n := BuildWait.WaitForVersion(config, remote.remaining, remote.canceledAt, backend, sleep);
      polls := n;
      if verdict.None? || !verdict.value.Built? {
        return;
      }
      built := true;
      if (remote.promote.Done? && !remote.promoteSwallowed) || (remote.promote.Failed? && remote.promote.applied) {
        active := |versions| - 1;
      }
      ok := remote.promote.Done? && remote.verify.Done? && active == |versions| - 1;
    }

    /** A refused or unchanged request changes nothing; otherwise a version holding the specified
        archive may be appended, becomes active only if it was seen to build, and success means
        that the active archive is the specified one. */
    method Update(files: Files, order: Order, pack: Packer, config: BuildWait.WaitConfig,
                  backend: nat -> BuildWait.Poll, sleep: nat -> BuildWait.Sleep, remote: Remote)
      returns (ok: bool, built: bool, polls: nat)
      requires Valid() && GoOrder(order)
      modifies this
      ensures Valid()
      ensures active != old(active) ==> built
      ensures built ==> polls >= 1 && backend(polls - 1).Answer? && backend(polls - 1).status == BuildWait.Succeeded
      ensures versions == old(versions) || versions == old(versions) + [Updated(old(versions[active]), files, pack)]
      ensures active == old(active) || (active == |old(versions)| && |versions| == |old(versions)| + 1)
      ensures ok ==> Accepts(old(versions[active]), files, pack)
                     && versions[active] == Updated(old(versions[active]), files, pack)
      ensures Accepts(old(versions[active]), files, pack) && SameText(old(versions[active]), files) ==>
                ok && versions == old(versions) && active == old(active)
      ensures !Accepts(old(versions[active]), files, pack) ==> !ok && versions == old(versions) && active == old(active)
      ensures ok <==> Accepts(old(versions[active]), files, pack) &&
                      (SameText(old(versions[active]), files) || Works(config, backend, sleep, remote))
    {
      hide Accepts, SameText, GoOrder, Updated, BuildWait.BuildSeen, BuildWait.KeepsPolling;
      ok, built, polls := false, false, 0;
      var prepared := Prepare(versions[active], files, order, pack);
      if prepared.Unchanged? {
        UnchangedIsUpdated(versions[active], files, pack);
        ok := true;
      } else if prepared.NewVersion? {
        ok, built, polls := Publish(prepared.archive, config, backend, sleep, remote);
      }
    }
  }

  lemma UnchangedIsUpdated(a: Archive, files: Files, pack: Packer)
    requires SameText(a, files)
    ensures Updated(a, files, pack) == a
  {
  }
}
