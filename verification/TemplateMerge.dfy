/** The merger: the requested text files replace every text file of the previous archive, and
    its binary files survive unless a requested path takes their place. */
module TemplateMerge {
  import opened Results
  import opened TemplatePaths
  import opened Ordering
  import opened TemplateArchive
  import opened TemplateBuild
  import Utf8

  type Headers = map<string, Header>

  // ----- What the previous archive contributes -----

  /** Bytes read from the previous archive: every file whose path is not requested. */
  function OtherBytes(es: seq<Entry>, m: Files): nat {
    if es == [] then 0
    else
      var e := es[|es| - 1];
      OtherBytes(es[..|es| - 1], m) + if IsDir(e) || Norm(e.name) in m then 0 else |e.contents|
  }

  function HeaderView(es: seq<Entry>): Headers {
    if es == [] then map[]
    else
      var h, e := HeaderView(es[..|es| - 1]), es[|es| - 1];
      if IsDir(e) then h else h[Norm(e.name) := e.header]
  }

  /** The binary files that survive. */
  function Kept(es: seq<Entry>, m: Files): Files {
    View(es, false) - m.Keys
  }

  predicate EntryMergeable(e: Entry, m: Files) {
    IsDir(e) || (Validate(e.name).Ok? && (Norm(e.name) in m || EntryReadable(e)))
  }

  predicate AllMergeable(es: seq<Entry>, m: Files) {
    forall i :: 0 <= i < |es| ==> EntryMergeable(es[i], m)
  }

  ghost predicate Scannable(es: seq<Entry>, m: Files) {
    AllMergeable(es, m) && DistinctPaths(es) && OtherBytes(es, m) <= MAX_TOTAL
  }

  // ----- The loop over the previous archive -----

  datatype MergeScan = MergeScan(headers: Headers, kept: Files, total: nat)

  function MergeEntry(s: MergeScan, e: Entry, m: Files): Option<MergeScan> {
    if IsDir(e) then Some(s)
    else if !EntryMergeable(e, m) || Norm(e.name) in s.headers then None
    else
      var s1 := s.(headers := s.headers[Norm(e.name) := e.header]);
      if Norm(e.name) in m then Some(s1)
      else if s.total + |e.contents| > MAX_TOTAL then None
      else Some(s1.(total := s.total + |e.contents|,
                    kept := if Utf8.Valid(e.contents) then s.kept else s.kept[Norm(e.name) := e.contents]))
  }

  function MergeScanAll(es: seq<Entry>, m: Files): Option<MergeScan> {
    if es == [] then Some(MergeScan(map[], map[], 0))
    else
      var s := MergeScanAll(es[..|es| - 1], m);
      if s.None? then None else MergeEntry(s.value, es[|es| - 1], m)
  }

  lemma {:induction false} FailedMergePrefixFails(es: seq<Entry>, m: Files, n: nat)
    requires n <= |es| && MergeScanAll(es[..n], m).None?
    ensures MergeScanAll(es, m).None?
    decreases |es| - n
  {
    hide Validate, Utf8.Valid;
    if n == |es| {
      assert es[..n] == es;
    } else {
      assert es[..n + 1][..n] == es[..n];
      FailedMergePrefixFails(es, m, n + 1);
    }
  }

  lemma OneMore(p: seq<Entry>, e: Entry, m: Files)
    ensures var es := p + [e];
            && OtherBytes(es, m) == OtherBytes(p, m) + (if IsDir(e) || Norm(e.name) in m then 0 else |e.contents|)
            && HeaderView(es) == (if IsDir(e) then HeaderView(p) else HeaderView(p)[Norm(e.name) := e.header])
            && View(es, false) == (if Shown(e, false) then View(p, false)[Norm(e.name) := e.contents] else View(p, false))
  {
    hide Validate, Utf8.Valid;
    assert (p + [e])[..|p|] == p;
  }

  lemma ScannableOneMore(p: seq<Entry>, e: Entry, m: Files)
    ensures Scannable(p + [e], m) <==>
            && Scannable(p, m) && EntryMergeable(e, m)
            && (IsDir(e) || Norm(e.name) !in Paths(p)) && OtherBytes(p + [e], m) <= MAX_TOTAL
  {
    hide Validate, Utf8.Valid;
    var es := p + [e];
    PathsOfPrefix(p, e);
    OneMore(p, e, m);
    assert es[|p|] == e;
    assert forall i :: 0 <= i < |p| ==> es[i] == p[i];
    if AllMergeable(es, m) {
      forall i | 0 <= i < |p| ensures EntryMergeable(p[i], m) {
        assert es[i] == p[i];
      }
    }
  }

  lemma {:induction false} HeaderPaths(es: seq<Entry>)
    ensures HeaderView(es).Keys == Paths(es)
    decreases |es|
  {
    hide Validate, Utf8.Valid;
    if es != [] {
      var p, e := es[..|es| - 1], es[|es| - 1];
      HeaderPaths(p);
      PathsOfPrefix(p, e);
      assert es == p + [e];
    }
  }

  lemma {:induction false} MergeScanMeaning(es: seq<Entry>, m: Files)
    ensures MergeScanAll(es, m).Some? <==> Scannable(es, m)
    ensures MergeScanAll(es, m).Some? ==> MergeScanAll(es, m).value == MergeScan(HeaderView(es), Kept(es, m), OtherBytes(es, m))
    decreases |es|
  {
    hide Validate, Utf8.Valid;
    if es == [] {
      assert Scannable(es, m);
    } else {
      var p, e := es[..|es| - 1], es[|es| - 1];
      MergeScanMeaning(p, m);
      ScannableOneMore(p, e, m);
      OneMore(p, e, m);
      HeaderPaths(p);
      assert es == p + [e];
      if MergeScanAll(es, m).Some? {
        KeptOneMore(p, e, m);
      }
    }
  }

  lemma KeptOneMore(p: seq<Entry>, e: Entry, m: Files)
    ensures Kept(p + [e], m) ==
            if Shown(e, false) && Norm(e.name) !in m then Kept(p, m)[Norm(e.name) := e.contents] else Kept(p, m)
  {
    hide Validate, Utf8.Valid;
    OneMore(p, e, m);
  }

  method ScanOriginal(es: seq<Entry>, m: Files) returns (r: Option<MergeScan>)
    ensures r == MergeScanAll(es, m)
  {
    hide Validate, Utf8.Valid;
    var kept: Files := map[];
    var headers: Headers := map[];
    var total: nat := 0;
    for i := 0 to |es|
      invariant MergeScanAll(es[..i], m) == Some(MergeScan(headers, kept, total))
    {
      assert es[..i + 1][..i] == es[..i];
      if MergeScanAll(es[..i + 1], m).None? {
        FailedMergePrefixFails(es, m, i + 1);
      }
      var e := es[i];
      if IsDir(e) {
        continue;
      }
      var checked := Validate(e.name);
      if checked.Rejected? || checked.path in headers {
        return None;
      }
      headers := headers[checked.path := e.header];
      if checked.path in m {
        continue;
      }
      if |e.contents| > MAX_FILE || !HasCodec(e.header) || !e.intact {
        return None;
      }
      total := total + |e.contents|;
      if total > MAX_TOTAL {
        return None;
      }
      if Utf8.Valid(e.contents) {
        continue;
      }
      kept := kept[checked.path := e.contents];
    }
    assert es[..|es|] == es;
    return Some(MergeScan(headers, kept, total));
  }

  // ----- The requested files -----

  ghost predicate DesiredOk(m: Files, before: nat) {
    (forall p :: p in m ==> Utf8.Valid(m[p]) && |m[p]| <= MAX_FILE) && before + MapTotal(m) <= MAX_TOTAL
  }

  lemma {:induction false} SumSeqGrows(s: seq<string>, size: string -> nat, n: nat)
    requires n <= |s|
    ensures SumSeq(s[..n], size) <= SumSeq(s, size)
    decreases |s| - n
  {
    if n == |s| {
      assert s[..n] == s;
    } else {
      SumSeqGrows(s, size, n + 1);
      assert s[..n + 1][..n] == s[..n];
    }
  }

  lemma RunningTotalIsPart(ps: seq<string>, m: Files, n: nat)
    requires Lists(ps, m.Keys) && n <= |ps|
    ensures SumSeq(ps[..n], SizeOf(m)) <= MapTotal(m)
    ensures n == |ps| ==> SumSeq(ps[..n], SizeOf(m)) == MapTotal(m)
    ensures n < |ps| ==> SumSeq(ps[..n + 1], SizeOf(m)) == SumSeq(ps[..n], SizeOf(m)) + SizeOf(m)(ps[n])
  {
    SumSeqIsSumSet(ps, m.Keys, SizeOf(m));
    SumSeqGrows(ps, SizeOf(m), n);
    assert n == |ps| ==> ps[..n] == ps;
    assert n < |ps| ==> ps[..n + 1][..n] == ps[..n];
  }

  ghost predicate CheckedFiles(m: Files, before: nat, qs: seq<string>, total: nat) {
    && (forall p :: p in qs ==> p in m && Utf8.Valid(m[p]) && |m[p]| <= MAX_FILE)
    && total == before + SumSeq(qs, SizeOf(m)) <= MAX_TOTAL
  }

  lemma CheckedOneMore(m: Files, before: nat, ps: seq<string>, i: nat, total: nat)
    requires Lists(ps, m.Keys) && i < |ps| && ps[i] in m && CheckedFiles(m, before, ps[..i], total)
    ensures var c := m[ps[i]];
            if Utf8.Valid(c) && |c| <= MAX_FILE && total + |c| <= MAX_TOTAL
            then CheckedFiles(m, before, ps[..i + 1], total + |c|)
            else !DesiredOk(m, before)
  {
    hide Validate, Utf8.Valid;
    RunningTotalIsPart(ps, m, i);
    RunningTotalIsPart(ps, m, i + 1);
    assert ps[..i + 1] == ps[..i] + [ps[i]];
  }

  lemma CheckedAll(m: Files, before: nat, ps: seq<string>, total: nat)
    requires Lists(ps, m.Keys) && CheckedFiles(m, before, ps, total)
    ensures DesiredOk(m, before)
  {
    hide Validate, Utf8.Valid;
    RunningTotalIsPart(ps, m, |ps|);
    assert ps[..|ps|] == ps;
    assert forall p :: p in m ==> p in ps;
  }

  method CheckDesired(m: Files, before: nat, order: Order) returns (ok: bool)
    requires GoOrder(order) && before <= MAX_TOTAL
    ensures ok == DesiredOk(m, before)
  {
    hide Validate, Utf8.Valid;
    var ps := order(1, m.Keys);
    assert Lists(ps, m.Keys);
    var total: nat := before;
    for i := 0 to |ps|
      invariant CheckedFiles(m, before, ps[..i], total)
    {
      assert ps[i] in ps;
      CheckedOneMore(m, before, ps, i, total);
      var content := m[ps[i]];
      if !Utf8.Valid(content) || |content| > MAX_FILE {
        return false;
      }
      total := total + |content|;
      if total > MAX_TOTAL {
        return false;
      }
    }
    assert ps[..|ps|] == ps;
    CheckedAll(m, before, ps, total);
    return true;
  }

  // ----- The merge -----

  ghost predicate Mergeable(es: seq<Entry>, m: Files) {
    && |es| <= MAX_FILES && |m| + |Kept(es, m)| <= MAX_FILES
    && Scannable(es, m) && DesiredOk(m, OtherBytes(es, m))
    && forall p :: p in m && p in HeaderView(es) ==> HasCodec(HeaderView(es)[p])
  }

  ghost function Merged(es: seq<Entry>, m: Files): seq<Entry> {
    Packed(m + Kept(es, m), HeaderView(es))
  }

  lemma MergedPathsListed(desired: seq<string>, binary: seq<string>, m: Files, kept: Files)
    requires Lists(desired, m.Keys) && Lists(binary, kept.Keys) && m.Keys !! kept.Keys
    ensures Lists(desired + binary, (m + kept).Keys)
  {
    var ps := desired + binary;
    forall i, j | 0 <= i < j < |ps| ensures ps[i] != ps[j] {
      assert ps[i] in (if i < |desired| then m.Keys else kept.Keys);
      assert ps[j] in (if j < |desired| then m.Keys else kept.Keys);
    }
  }

  /** Everything checked before the first byte is written, given the normalised request. */
  method CheckMerge(es: seq<Entry>, m: Files, order: Order) returns (r: Option<MergeScan>)
    requires GoOrder(order)
    ensures r == if Mergeable(es, m) then Some(MergeScan(HeaderView(es), Kept(es, m), OtherBytes(es, m))) else None
  {
    hide Validate, Utf8.Valid;
    if |m| > MAX_FILES || |es| > MAX_FILES {
      return None;
    }
    r := ScanOriginal(es, m);
    MergeScanMeaning(es, m);
    if r.None? {
      return None;
    }
    var ok := CheckDesired(m, r.value.total, order);
    if !ok || |m| + |r.value.kept| > MAX_FILES {
      return None;
    }
    ok := CodecsSupported(order(2, m.Keys), m, r.value.headers);
    if !ok {
      return None;
    }
  }

  /** Accepts exactly the mergeable pairs whose names fit, whatever the iteration orders, and writes the
      requested files and the surviving binary ones, sorted. */
  method BuildMergedSourceZip(original: Archive, desired: Files, order: Order, pack: Packer) returns (r: Option<Archive>)
    requires GoOrder(order)
    ensures var m := Normal(desired);
            var es := Merged(original.entries, m);
            r == if Normalizable(desired) && Mergeable(original.entries, m) && NamesFit(m + Kept(original.entries, m)) && pack(es) <= MAX_ZIP
                 then Some(Archive(es, pack(es))) else None
  {
    hide Validate, Utf8.Valid;
    var normalized := NormalizeFileKeys(desired, order, 0);
    if normalized.None? {
      return None;
    }
    var m := normalized.value;
    var scan := CheckMerge(original.entries, m, order);
    if scan.None? {
      return None;
    }
    var es := WriteMerged(m, scan.value.kept, scan.value.headers, order);
    if es.None? || pack(es.value) > MAX_ZIP {
      return None;
    }
    return Some(Archive(es.value, pack(es.value)));
  }

  method WriteMerged(m: Files, kept: Files, headers: Headers, order: Order) returns (r: Option<seq<Entry>>)
    requires GoOrder(order) && m.Keys !! kept.Keys
    ensures r == if NamesFit(m + kept) then Some(Packed(m + kept, headers)) else None
  {
    var names, binaries := order(2, m.Keys), order(3, kept.Keys);
    MergedPathsListed(names, binaries, m, kept);
    var paths := SortStrings(names + binaries, (m + kept).Keys);
    r := WriteEntries(paths, m + kept, headers);
  }

  /** The zip writer refuses an original header whose compression method it has no codec for. */
  method CodecsSupported(names: seq<string>, m: Files, headers: Headers) returns (ok: bool)
    requires Lists(names, m.Keys)
    ensures ok == forall p :: p in m && p in headers ==> HasCodec(headers[p])
  {
    for i := 0 to |names|
      invariant forall j :: 0 <= j < i && names[j] in headers ==> HasCodec(headers[names[j]])
    {
      assert names[i] in names;
      if names[i] in headers && !HasCodec(headers[names[i]]) {
        return false;
      }
    }
    return true;
  }

  // ----- The merge reads back -----

  lemma {:induction false} KeptBytes(es: seq<Entry>, m: Files)
    requires DistinctPaths(es)
    ensures MapTotal(Kept(es, m)) <= OtherBytes(es, m)
    decreases |es|
  {
    hide Validate, Utf8.Valid;
    if es == [] {
      assert Kept(es, m) == map[];
    } else {
      var p, e := es[..|es| - 1], es[|es| - 1];
      assert es == p + [e];
      PathsOfPrefix(p, e);
      KeptBytes(p, m);
      KeptOneMore(p, e, m);
      OneMore(p, e, m);
      ViewMeaning(p, false);
      if Shown(e, false) && Norm(e.name) !in m {
        assert Norm(e.name) !in Kept(p, m);
        MapTotalAdd(Kept(p, m), Norm(e.name), e.contents);
      }
    }
  }

  lemma {:induction false} HeaderMeaning(es: seq<Entry>, p: string)
    requires p in HeaderView(es)
    ensures exists i :: 0 <= i < |es| && !IsDir(es[i]) && Norm(es[i].name) == p && es[i].header == HeaderView(es)[p]
    decreases |es|
  {
    hide Validate, Utf8.Valid;
    var q, e := es[..|es| - 1], es[|es| - 1];
    if !IsDir(e) && Norm(e.name) == p {
      assert es[|es| - 1] == e;
    } else {
      HeaderMeaning(q, p);
      var i :| 0 <= i < |q| && !IsDir(q[i]) && Norm(q[i].name) == p && q[i].header == HeaderView(q)[p];
      assert es[i] == q[i];
    }
  }

  lemma KeptFile(es: seq<Entry>, m: Files, p: string)
    requires Scannable(es, m) && p in Kept(es, m)
    ensures IsNormal(p) && |Kept(es, m)[p]| <= MAX_FILE && !Utf8.Valid(Kept(es, m)[p]) && p !in m
  {
    hide Validate, Utf8.Valid;
    ViewMeaning(es, false);
    var i :| 0 <= i < |es| && Shown(es[i], false) && Norm(es[i].name) == p;
    assert EntryMergeable(es[i], m);
    AcceptedIsNormalForm(es[i].name);
  }

  lemma KeptHeader(es: seq<Entry>, m: Files, p: string)
    requires Scannable(es, m) && p in HeaderView(es)
    ensures !HeaderView(es)[p].dirBit && (p in Kept(es, m) ==> HasCodec(HeaderView(es)[p]))
  {
    hide Validate, Utf8.Valid;
    HeaderMeaning(es, p);
    var i :| 0 <= i < |es| && !IsDir(es[i]) && Norm(es[i].name) == p && es[i].header == HeaderView(es)[p];
    assert EntryMergeable(es[i], m);
  }

  lemma MergedSize(m: Files, kept: Files)
    requires m.Keys !! kept.Keys
    ensures |m + kept| == |m| + |kept|
  {
    assert (m + kept).Keys == m.Keys + kept.Keys;
    assert |m.Keys + kept.Keys| == |m.Keys| + |kept.Keys|;
  }

  lemma MergedFile(es: seq<Entry>, m: Files, p: string)
    requires Mergeable(es, m) && p in m + Kept(es, m) && (p in m ==> IsNormal(p))
    ensures IsNormal(p) && |(m + Kept(es, m))[p]| <= MAX_FILE
  {
    hide Validate, Utf8.Valid, SumSet, View, HeaderView, OtherBytes, DistinctPaths, AllMergeable;
    if p in Kept(es, m) {
      KeptFile(es, m, p);
    }
  }

  lemma MergeableIsPackable(es: seq<Entry>, m: Files)
    requires Mergeable(es, m) && forall p :: p in m ==> IsNormal(p)
    ensures Packable(m + Kept(es, m), HeaderView(es))
  {
    hide IsNormal, Utf8.Valid, SumSet, View, HeaderView, OtherBytes, Scannable, MapTotal, Kept, HasCodec;
    var kept := Kept(es, m);
    assert m.Keys !! kept.Keys by {
      KeptAvoids(es, m);
    }
    KeptBytes(es, m) by {
      assert Scannable(es, m);
      ScannableIsDistinct(es, m);
    }
    MapTotalUnion(m, kept);
    MergedSize(m, kept);
    forall p | p in m + kept ensures IsNormal(p) && |(m + kept)[p]| <= MAX_FILE {
      MergedFile(es, m, p);
    }
    forall p | p in m + kept && p in HeaderView(es) ensures HasCodec(HeaderView(es)[p]) && !HeaderView(es)[p].dirBit {
      KeptHeader(es, m, p);
    }
  }

  /** A readable archive can be merged with any valid request as long as both together keep within
      the limits. */
  lemma MergeableWhenItFits(es: seq<Entry>, m: Files)
    requires Readable(es) && forall p :: p in m ==> Utf8.Valid(m[p]) && |m[p]| <= MAX_FILE
    requires TotalBytes(es) + MapTotal(m) <= MAX_TOTAL && |m| + |View(es, false)| <= MAX_FILES
    ensures Mergeable(es, m)
  {
    hide Validate, Utf8.Valid, SumSet, HeaderView, View, AllMergeable, DistinctPaths, HasCodec;
    OtherBytesFit(es, m);
    FewerKeys(Kept(es, m).Keys, View(es, false).Keys);
    ReadableEntriesMerge(es, m);
  }

  lemma ReadableEntriesMerge(es: seq<Entry>, m: Files)
    requires Readable(es)
    ensures AllMergeable(es, m) && DistinctPaths(es)
    ensures forall p :: p in HeaderView(es) ==> HasCodec(HeaderView(es)[p])
  {
    hide Validate, Utf8.Valid, IsDir, HeaderView, DistinctPaths, TotalBytes, HasCodec;
    forall p | p in HeaderView(es) ensures HasCodec(HeaderView(es)[p]) {
      HeaderMeaning(es, p);
      var i :| 0 <= i < |es| && !IsDir(es[i]) && Norm(es[i].name) == p && es[i].header == HeaderView(es)[p];
      assert EntryReadable(es[i]);
    }
  }

  lemma {:induction false} OtherBytesFit(es: seq<Entry>, m: Files)
    ensures OtherBytes(es, m) <= TotalBytes(es)
    decreases |es|
  {
    hide Validate, Utf8.Valid, IsDir;
    if es != [] {
      OtherBytesFit(es[..|es| - 1], m);
    }
  }

  lemma FewerKeys(a: set<string>, b: set<string>)
    requires a <= b
    ensures |a| <= |b|
  {
    assert b == a + (b - a);
  }

  lemma KeptAvoids(es: seq<Entry>, m: Files)
    ensures m.Keys !! Kept(es, m).Keys
  {
  }

  lemma ScannableIsDistinct(es: seq<Entry>, m: Files)
    requires Scannable(es, m)
    ensures DistinctPaths(es)
  {
  }

  /** Whatever the merger accepts, the reader accepts; the text it reads is exactly the requested
      files, and the binary files exactly the previous ones at other paths, byte for byte. */
  lemma MergedReadsBack(es: seq<Entry>, m: Files)
    requires Mergeable(es, m) && forall p :: p in m ==> IsNormal(p)
    ensures Readable(Merged(es, m))
    ensures View(Merged(es, m), true) == m
    ensures View(Merged(es, m), false) == View(es, false) - m.Keys
  {
    hide Validate, Utf8.Valid;
    var kept := Kept(es, m);
    MergeableIsPackable(es, m);
    PackedReadsBack(m + kept, HeaderView(es));
    forall p | p in kept ensures !Utf8.Valid(kept[p]) && p !in m {
      KeptFile(es, m, p);
    }
    OnlyOfUnion(m, kept);
  }

  /** A merged entry keeps the header that the entry of that path had in the previous archive; a
      new path gets the default one. */
  lemma HeadersSurvive(es: seq<Entry>, m: Files, i: nat)
    requires Mergeable(es, m) && i < |Merged(es, m)|
    ensures forall j :: 0 <= j < |es| && !IsDir(es[j]) && Norm(es[j].name) == Merged(es, m)[i].name ==>
              Merged(es, m)[i].header == es[j].header
    ensures Merged(es, m)[i].name !in Paths(es) ==> Merged(es, m)[i].header == Header(false, 8, 0)
  {
    hide Validate, Utf8.Valid, IsDir, Kept, Listing;
    HeaderPaths(es);
    ScannableIsDistinct(es, m);
    var e := Merged(es, m)[i];
    if e.name in HeaderView(es) {
      HeaderMeaning(es, e.name);
      var k :| 0 <= k < |es| && !IsDir(es[k]) && Norm(es[k].name) == e.name && es[k].header == HeaderView(es)[e.name];
      assert forall j :: 0 <= j < |es| && !IsDir(es[j]) && Norm(es[j].name) == e.name ==> j == k;
    }
  }

  lemma OnlyOfUnion(m: Files, kept: Files)
    requires forall p :: p in m ==> Utf8.Valid(m[p])
    requires forall p :: p in kept ==> !Utf8.Valid(kept[p]) && p !in m
    ensures Only(m + kept, true) == m && Only(m + kept, false) == kept
  {
    hide Validate, Utf8.Valid;
  }
}
