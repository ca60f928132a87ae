/** Writing template source archives: normalisation of requested files, packing, and the plain
    builder. */
module TemplateBuild {
  import opened Results
  import opened TemplatePaths
  import opened Ordering
  import opened TemplateArchive
  import Utf8

  // ----- Normalising the requested files -----

  ghost predicate Normalizable(files: Files) {
    && (forall k :: k in files ==> Validate(k).Ok?)
    && (forall k1, k2 :: k1 in files && k2 in files && k1 != k2 ==> Norm(k1) != Norm(k2))
  }

  /** The files under their normalised paths. */
  ghost function Normal(files: Files): Files {
    map p | p in (set k | k in files :: Norm(k)) :: files[Source(files, p)]
  }

  /** A requested path with the given normalised path. */
  ghost function Source(files: Files, p: string): (k: string)
    requires exists k :: k in files && Norm(k) == p
    ensures k in files && Norm(k) == p
  {
    var k :| k in files && Norm(k) == p; k
  }

  ghost predicate IsNormalization(files: Files, m: Files) {
    && (forall k :: k in files ==> Norm(k) in m && m[Norm(k)] == files[k])
    && (forall p :: p in m ==> exists k :: k in files && Norm(k) == p)
  }

  lemma NormalMeaning(files: Files, m: Files)
    requires Normalizable(files)
    ensures IsNormalization(files, m) <==> m == Normal(files)
  {
    hide Validate, Utf8.Valid;
    if IsNormalization(files, m) {
      assert m.Keys == Normal(files).Keys;
      forall p | p in m ensures m[p] == Normal(files)[p] {
        assert Norm(Source(files, p)) == p;
      }
    }
    forall k | k in files ensures Norm(k) in Normal(files) && Normal(files)[Norm(k)] == files[k] {
      assert Source(files, Norm(k)) == k;
    }
  }

  /** Normalised files are left alone by a second normalisation. */
  lemma NormalIsNormal(files: Files)
    requires Normalizable(files)
    ensures forall p :: p in Normal(files) ==> IsNormal(p)
    ensures Normalizable(Normal(files)) && Normal(Normal(files)) == Normal(files)
  {
    hide Validate, Utf8.Valid;
    forall p | p in Normal(files) ensures IsNormal(p) {
      AcceptedIsNormalForm(Source(files, p));
    }
    NormalPathsStay(Normal(files));
  }

  lemma NormalPathsStay(m: Files)
    requires forall p :: p in m ==> IsNormal(p)
    ensures Normalizable(m) && Normal(m) == m
  {
    hide Validate, Utf8.Valid, Normal;
    assert IsNormalization(m, m);
    NormalMeaning(m, m);
  }

  /** The state of a loop over requested paths that has handled `ks`. */
  ghost predicate Handled(files: Files, ks: seq<string>, m: Files) {
    && (forall j :: 0 <= j < |ks| ==> ks[j] in files && Validate(ks[j]).Ok? && Norm(ks[j]) in m && m[Norm(ks[j])] == files[ks[j]])
    && (forall i, j :: 0 <= i < j < |ks| ==> Norm(ks[i]) != Norm(ks[j]))
    && (forall p :: p in m ==> exists j :: 0 <= j < |ks| && Norm(ks[j]) == p)
  }

  lemma HandledNone(files: Files)
    ensures Handled(files, [], map[])
  {
  }

  lemma HandledOneMore(files: Files, ks: seq<string>, m: Files, k: string)
    requires Handled(files, ks, m) && k in files && Validate(k).Ok? && Norm(k) !in m
    ensures Handled(files, ks + [k], m[Norm(k) := files[k]])
  {
    hide Validate, Utf8.Valid;
    var ks', m' := ks + [k], m[Norm(k) := files[k]];
    forall p | p in m' ensures exists j :: 0 <= j < |ks'| && Norm(ks'[j]) == p {
      if p == Norm(k) {
        assert ks'[|ks|] == k;
      } else {
        var j :| 0 <= j < |ks| && Norm(ks[j]) == p;
        assert ks'[j] == ks[j];
      }
    }
  }

  lemma HandledIsPart(files: Files, ks: seq<string>, m: Files)
    requires Handled(files, ks, m) && Normalizable(files)
    ensures m.Keys <= Normal(files).Keys && forall p :: p in m ==> m[p] == Normal(files)[p]
  {
    hide Validate, Utf8.Valid;
    NormalMeaning(files, Normal(files));
    forall p | p in m ensures p in Normal(files) && m[p] == Normal(files)[p] {
      var j :| 0 <= j < |ks| && Norm(ks[j]) == p;
    }
  }

  lemma HandledAllDistinct(files: Files, ks: seq<string>, m: Files, k1: string, k2: string)
    requires Handled(files, ks, m) && k1 in ks && k2 in ks && k1 != k2
    ensures Norm(k1) != Norm(k2)
  {
    hide Validate, Utf8.Valid;
    var i :| 0 <= i < |ks| && ks[i] == k1;
    var j :| 0 <= j < |ks| && ks[j] == k2;
    assert i < j || j < i;
  }

  lemma HandledIsNormalization(files: Files, ks: seq<string>, m: Files)
    requires Handled(files, ks, m) && forall k :: k in files ==> k in ks
    ensures IsNormalization(files, m)
  {
    hide Validate, Utf8.Valid;
    forall p | p in m ensures exists k :: k in files && Norm(k) == p {
      var j :| 0 <= j < |ks| && Norm(ks[j]) == p;
    }
  }

  lemma HandledAll(files: Files, ks: seq<string>, m: Files)
    requires Handled(files, ks, m) && Lists(ks, files.Keys)
    ensures Normalizable(files) && m == Normal(files)
  {
    hide Validate, Utf8.Valid;
    assert forall k :: k in files ==> k in ks;
    assert forall k :: k in files ==> Validate(k).Ok?;
    forall k1, k2 | k1 in files && k2 in files && k1 != k2 ensures Norm(k1) != Norm(k2) {
      HandledAllDistinct(files, ks, m, k1, k2);
    }
    HandledIsNormalization(files, ks, m);
    NormalMeaning(files, m);
  }

  lemma HandledClash(files: Files, ks: seq<string>, m: Files, k: string)
    requires Handled(files, ks, m) && k in files && k !in ks && Norm(k) in m
    ensures !Normalizable(files)
  {
    hide Validate, Utf8.Valid;
    var j :| 0 <= j < |ks| && Norm(ks[j]) == Norm(k);
    assert ks[j] in ks;
  }

  /** Whatever the iteration order: same decision, same map. */
  method NormalizeFileKeys(files: Files, order: Order, round: nat) returns (r: Option<Files>)
    requires GoOrder(order)
    ensures r == if Normalizable(files) then Some(Normal(files)) else None
  {
    hide Validate, Utf8.Valid, Handled, Normal;
    var ks := order(round, files.Keys);
    assert Lists(ks, files.Keys);
    var m: Files := map[];
    HandledNone(files);
    for i := 0 to |ks|
      invariant Handled(files, ks[..i], m)
    {
      var k := ks[i];
      assert k in ks;
      var checked := Validate(k);
      if checked.Rejected? {
        return None;
      }
      if checked.path in m {
        HandledClash(files, ks[..i], m, k);
        return None;
      }
      HandledOneMore(files, ks[..i], m, k);
      assert ks[..i + 1] == ks[..i] + [k];
      m := m[checked.path := files[k]];
    }
    assert ks[..|ks|] == ks;
    HandledAll(files, ks, m);
    return Some(m);
  }

  // ----- Packing a set of files -----

  function PackedEntry(all: Files, headers: map<string, Header>, p: string): Entry
    requires p in all
  {
    Entry(p, if p in headers then headers[p] else DEFAULT_HEADER, all[p], true)
  }

  /** The entries written for `all`, sorted by path. */
  ghost function Packed(all: Files, headers: map<string, Header>): seq<Entry> {
    var ps := Listing(all.Keys);
    seq(|ps|, i requires 0 <= i < |ps| => PackedEntry(all, headers, ps[i]))
  }

  /** The zip writer's limit on an entry's name, in bytes. */
  const MAX_NAME := 65535

  ghost predicate NamesFit(all: Files) {
    forall p :: p in all ==> |p| <= MAX_NAME
  }

  /** Writes the entries in the given order; the zip writer refuses a name that is too long. */
  method WriteEntries(paths: seq<string>, all: Files, headers: map<string, Header>) returns (r: Option<seq<Entry>>)
    requires paths == Listing(all.Keys)
    ensures r == if NamesFit(all) then Some(Packed(all, headers)) else None
  {
    hide Listing, Sorted, Less, PackedEntry;
    assert forall p :: p in paths <==> p in all;
    var es := [];
    for i := 0 to |paths|
      invariant |es| == i
      invariant forall j :: 0 <= j < i ==> |paths[j]| <= MAX_NAME
      invariant forall j :: 0 <= j < i ==> paths[j] in all && es[j] == PackedEntry(all, headers, paths[j])
    {
      assert paths[i] in paths;
      if |paths[i]| > MAX_NAME {
        return None;
      }
      es := es + [PackedEntry(all, headers, paths[i])];
    }
    assert es == Packed(all, headers) && NamesFit(all);
    return Some(es);
  }

  lemma NormalHasNoTrailingSlash(p: string)
    requires IsNormal(p)
    ensures p != "" && p[|p| - 1] != '/'
  {
    AcceptedIsNormalForm(p);
    JoinEnd(Split(p));
  }

  lemma {:induction false} JoinEnd(cs: seq<string>)
    requires cs != [] && AllPlain(cs)
    ensures Join(cs) != "" && Join(cs)[|Join(cs)| - 1] != '/'
    decreases |cs|
  {
    assert Plain(cs[0]);
    if |cs| > 1 {
      JoinEnd(cs[1..]);
    }
  }

  ghost predicate Packable(all: Files, headers: map<string, Header>) {
    && |all| <= MAX_FILES && MapTotal(all) <= MAX_TOTAL
    && (forall p :: p in all ==> IsNormal(p) && |all[p]| <= MAX_FILE)
    && (forall p :: p in all && p in headers ==> HasCodec(headers[p]) && !headers[p].dirBit)
  }

  ghost function Only(all: Files, text: bool): Files {
    map p | p in all && Utf8.Valid(all[p]) == text :: all[p]
  }

  lemma PackedShape(all: Files, headers: map<string, Header>, i: nat)
    requires Packable(all, headers) && i < |Packed(all, headers)|
    ensures var e := Packed(all, headers)[i];
            && e.name == Listing(all.Keys)[i] && e.name in all && e.contents == all[e.name]
            && !IsDir(e) && EntryReadable(e) && Norm(e.name) == e.name
  {
    var p := Listing(all.Keys)[i];
    assert p in all.Keys;
    NormalHasNoTrailingSlash(p);
  }

  /** The entries are files under normalised paths. */
  ghost predicate FilesOnly(all: Files, headers: map<string, Header>) {
    && (forall p :: p in all ==> IsNormal(p))
    && (forall p :: p in all && p in headers ==> !headers[p].dirBit)
  }

  lemma PackedName(all: Files, headers: map<string, Header>, i: nat)
    requires FilesOnly(all, headers) && i < |Packed(all, headers)|
    ensures var e := Packed(all, headers)[i];
            e.name == Listing(all.Keys)[i] && e.name in all && e.contents == all[e.name] && !IsDir(e)
  {
    hide Listing;
    assert Listing(all.Keys)[i] in all.Keys;
    NormalHasNoTrailingSlash(Listing(all.Keys)[i]);
  }

  lemma {:induction false} PackedBytes(all: Files, headers: map<string, Header>, n: nat)
    requires FilesOnly(all, headers) && n <= |Packed(all, headers)|
    ensures TotalBytes(Packed(all, headers)[..n]) == SumSeq(Listing(all.Keys)[..n], SizeOf(all))
  {
    hide Validate, Utf8.Valid, SumSet, Listing, FilesOnly, IsDir;
    var es, ps := Packed(all, headers), Listing(all.Keys);
    if n > 0 {
      PackedBytes(all, headers, n - 1);
      PackedName(all, headers, n - 1);
      assert es[..n][..n - 1] == es[..n - 1] && ps[..n][..n - 1] == ps[..n - 1];
    }
  }

  /** Whatever is packed is readable and reads back as what was packed. */
  lemma PackedReadsBack(all: Files, headers: map<string, Header>)
    requires Packable(all, headers)
    ensures Readable(Packed(all, headers))
    ensures forall text :: View(Packed(all, headers), text) == Only(all, text)
  {
    hide Validate, Utf8.Valid, Packed, Packable, View, Only, Shows;
    var es := Packed(all, headers);
    PackedIsReadable(all, headers);
    forall text ensures View(es, text) == Only(all, text) {
      PackedShows(all, headers, text);
      ViewMeaning(es, text);
      ShowsOnlyOne(es, View(es, text), Only(all, text), text);
    }
  }

  /** How many entries are packed, and how many bytes. */
  lemma PackedTotals(all: Files, headers: map<string, Header>)
    requires FilesOnly(all, headers)
    ensures |Packed(all, headers)| == |all| && TotalBytes(Packed(all, headers)) == MapTotal(all)
  {
    hide Validate, Listing, Less, SumSet, Packed, FilesOnly;
    var es, ps := Packed(all, headers), Listing(all.Keys);
    assert |es| == |ps| by {
      PackedLength(all, headers);
    }
    SortedIsDistinct(ps);
    SumSeqIsSumSet(ps, all.Keys, SizeOf(all));
    PackedBytes(all, headers, |es|);
    assert es[..|es|] == es && ps[..|ps|] == ps;
  }

  lemma PackedLength(all: Files, headers: map<string, Header>)
    ensures |Packed(all, headers)| == |Listing(all.Keys)|
  {
  }

  lemma PackedIsReadable(all: Files, headers: map<string, Header>)
    requires Packable(all, headers)
    ensures Readable(Packed(all, headers)) && DistinctPaths(Packed(all, headers))
  {
    hide Validate, Utf8.Valid, Listing, Less, SumSet, Packed, IsDir, EntryReadable, Norm, MapTotal;
    PackedEntriesOk(all, headers);
    PackedTotals(all, headers);
    SortedIsDistinct(Listing(all.Keys));
    assert AllReadable(Packed(all, headers)) && DistinctPaths(Packed(all, headers));
  }

  lemma PackedEntriesOk(all: Files, headers: map<string, Header>)
    requires Packable(all, headers)
    ensures |Packed(all, headers)| == |Listing(all.Keys)|
    ensures forall i :: 0 <= i < |Packed(all, headers)| ==>
              var e := Packed(all, headers)[i];
              !IsDir(e) && EntryReadable(e) && Norm(e.name) == Listing(all.Keys)[i]
  {
    hide Validate, Utf8.Valid, Listing, Less, SumSet, IsDir, EntryReadable, Norm, Packable;
    var es := Packed(all, headers);
    forall i | 0 <= i < |es| ensures !IsDir(es[i]) && EntryReadable(es[i]) && Norm(es[i].name) == Listing(all.Keys)[i] {
      PackedShape(all, headers, i);
    }
  }

  lemma PackedShows(all: Files, headers: map<string, Header>, text: bool)
    requires Packable(all, headers)
    ensures Shows(Packed(all, headers), Only(all, text), text)
  {
    hide Validate, Utf8.Valid, Listing, Less;
    var es, ps := Packed(all, headers), Listing(all.Keys);
    forall i | 0 <= i < |es| && Shown(es[i], text)
      ensures Norm(es[i].name) in Only(all, text) && Only(all, text)[Norm(es[i].name)] == es[i].contents
    {
      PackedShape(all, headers, i);
    }
    forall p | p in Only(all, text) ensures exists i :: 0 <= i < |es| && Shown(es[i], text) && Norm(es[i].name) == p {
      assert p in ps;
      var i :| 0 <= i < |ps| && ps[i] == p;
      PackedShape(all, headers, i);
      assert Shown(es[i], text);
    }
  }

  // ----- The plain builder -----

  ghost predicate ContentsOk(m: Files) {
    (forall p :: p in m ==> Utf8.Valid(m[p]) && |m[p]| <= MAX_FILE) && MapTotal(m) <= MAX_TOTAL
  }

  ghost predicate Buildable(files: Files) {
    |files| <= MAX_FILES && Normalizable(files) && ContentsOk(Normal(files))
  }

  lemma BadPartSpoilsAll(files: Files, ks: seq<string>, m: Files)
    requires Handled(files, ks, m) && !ContentsOk(m)
    ensures !Buildable(files)
  {
    hide Validate, Utf8.Valid;
    if Normalizable(files) {
      HandledIsPart(files, ks, m);
      MapTotalPart(m, Normal(files));
    }
  }

  lemma HandledPaths(files: Files, ks: seq<string>, m: Files, paths: seq<string>)
    requires Handled(files, ks, m) && |paths| == |ks| && forall j :: 0 <= j < |ks| ==> paths[j] == Norm(ks[j])
    ensures Lists(paths, m.Keys)
  {
    hide Validate, Utf8.Valid;
    forall p ensures p in paths <==> p in m.Keys {
      if p in m {
        var j :| 0 <= j < |ks| && Norm(ks[j]) == p;
        assert paths[j] == p;
      }
    }
  }

  /** The building loop after handling `ks`. */
  ghost predicate Built(files: Files, ks: seq<string>, m: Files, paths: seq<string>, total: int) {
    && Handled(files, ks, m) && ContentsOk(m) && total == MapTotal(m)
    && |paths| == |ks| && forall j :: 0 <= j < |ks| ==> paths[j] == Norm(ks[j])
  }

  lemma BuiltNothing(files: Files)
    ensures Built(files, [], map[], [], 0)
  {
  }

  lemma BuiltAll(files: Files, ks: seq<string>, m: Files, paths: seq<string>, total: int)
    requires Built(files, ks, m, paths, total) && Lists(ks, files.Keys) && |files| <= MAX_FILES
    ensures Buildable(files) && m == Normal(files) && Lists(paths, m.Keys)
  {
    hide Validate, Utf8.Valid, Normal, SumSet;
    HandledAll(files, ks, m);
    HandledPaths(files, ks, m, paths);
  }

  /** One more file: either it can be added, or the request as a whole is unacceptable. */
  lemma BuiltOneMore(files: Files, ks: seq<string>, m: Files, paths: seq<string>, total: int, k: string)
    requires Built(files, ks, m, paths, total) && k in files && k !in ks
    ensures var c := files[k];
            if Validate(k).Ok? && Norm(k) !in m && Utf8.Valid(c) && |c| <= MAX_FILE && total + |c| <= MAX_TOTAL
            then Built(files, ks + [k], m[Norm(k) := c], paths + [Norm(k)], total + |c|)
            else !Buildable(files)
  {
    hide Validate, Utf8.Valid;
    if Validate(k).Ok? {
      if Norm(k) in m {
        HandledClash(files, ks, m, k);
      } else {
        HandledOneMore(files, ks, m, k);
        MapTotalAdd(m, Norm(k), files[k]);
        var m' := m[Norm(k) := files[k]];
        assert m'[Norm(k)] == files[k];
        if !ContentsOk(m') {
          BadPartSpoilsAll(files, ks + [k], m');
        }
      }
    }
  }

  /** Whatever the iteration order: same decision, and the same sorted, duplicate-free archive,
      although the loop stops at the first bad file and on a running total. */
  method BuildSourceZip(files: Files, order: Order, pack: Packer) returns (r: Option<Archive>)
    requires GoOrder(order)
    ensures var es := Packed(Normal(files), map[]);
            r == if Buildable(files) && NamesFit(Normal(files)) && pack(es) <= MAX_ZIP then Some(Archive(es, pack(es))) else None
  {
    hide Validate, Utf8.Valid;
    if |files| > MAX_FILES {
      return None;
    }
    var m, paths := CheckFiles(files, order);
    if m.None? {
      return None;
    }
    paths := SortStrings(paths, m.value.Keys);
    var es := WriteEntries(paths, m.value, map[]);
    if es.None? || pack(es.value) > MAX_ZIP {
      return None;
    }
    return Some(Archive(es.value, pack(es.value)));
  }

  /** The checking loop of the builder. */
  method CheckFiles(files: Files, order: Order) returns (r: Option<Files>, paths: seq<string>)
    requires GoOrder(order) && |files| <= MAX_FILES
    ensures r == if Buildable(files) then Some(Normal(files)) else None
    ensures r.Some? ==> Lists(paths, r.value.Keys)
  {
    hide Validate, Utf8.Valid, Handled, ContentsOk, Normal, Buildable, SumSet;
    var ks := order(0, files.Keys);
    assert Lists(ks, files.Keys);
    var m: Files := map[];
    paths := [];
    var total := 0;
    BuiltNothing(files);
    for i := 0 to |ks|
      invariant Built(files, ks[..i], m, paths, total)
    {
      var k := ks[i];
      assert k in ks && k !in ks[..i];
      assert ks[..i + 1] == ks[..i] + [k];
      BuiltOneMore(files, ks[..i], m, paths, total, k);
      var content := files[k];
      var checked := Validate(k);
      if checked.Rejected? || checked.path in m {
        return None, [];
      }
      if !Utf8.Valid(content) || |content| > MAX_FILE {
        return None, [];
      }
      total := total + |content|;
      if total > MAX_TOTAL {
        return None, [];
      }
      m := m[checked.path := content];
      paths := paths + [checked.path];
    }
    assert ks[..|ks|] == ks;
    BuiltAll(files, ks, m, paths, total);
    return Some(m), paths;
  }

  lemma NormalCount(files: Files)
    requires Normalizable(files)
    ensures |Normal(files)| == |files|
  {
    hide Validate, Utf8.Valid;
    CountByNorm(files, files.Keys);
    assert Normal(files).Keys == set k | k in files.Keys :: Norm(k);
  }

  lemma {:induction false} CountByNorm(files: Files, ks: set<string>)
    requires Normalizable(files) && ks <= files.Keys
    ensures |set k | k in ks :: Norm(k)| == |ks|
    decreases |ks|
  {
    hide Validate, Utf8.Valid;
    if ks != {} {
      var x :| x in ks;
      CountByNorm(files, ks - {x});
      var rest := set k | k in ks - {x} :: Norm(k);
      assert (set k | k in ks :: Norm(k)) == rest + {Norm(x)};
      assert Norm(x) !in rest;
    }
  }

  lemma BuildableIsPackable(files: Files)
    requires Buildable(files)
    ensures Packable(Normal(files), map[])
  {
    hide Validate, Utf8.Valid, SumSet, Normal;
    NormalIsNormal(files);
    NormalCount(files);
  }

  /** Whatever the builder accepts, the reader accepts, and reads back as the normalised files
      with no binary file among them. */
  lemma BuiltReadsBack(files: Files)
    requires Buildable(files)
    ensures var es := Packed(Normal(files), map[]);
            Readable(es) && View(es, true) == Normal(files) && View(es, false) == map[]
  {
    hide Validate, Utf8.Valid;
    BuildableIsPackable(files);
    PackedReadsBack(Normal(files), map[]);
    OnlyText(Normal(files));
  }

  /** The builder refuses nothing that the reader would accept back as text: a request is buildable
      if and only if its paths are valid and distinct, all of it is text, and the archive of it is
      readable. */
  lemma BuildableIffReadable(files: Files)
    requires Normalizable(files)
    ensures Buildable(files) <==>
            (forall p :: p in Normal(files) ==> Utf8.Valid(Normal(files)[p])) && Readable(Packed(Normal(files), map[]))
  {
    hide Validate, Utf8.Valid, SumSet, Normal, Packed;
    var m := Normal(files);
    NormalIsNormal(files);
    NormalCount(files);
    if Buildable(files) {
      BuiltReadsBack(files);
    } else if Readable(Packed(m, map[])) {
      ReadableIsPackable(m);
    }
  }

  /** The packed archive of files under normalised paths is within the limits only if they are. */
  lemma ReadableIsPackable(all: Files)
    requires (forall p :: p in all ==> IsNormal(p)) && Readable(Packed(all, map[]))
    ensures Packable(all, map[])
  {
    hide Validate, Utf8.Valid, Listing, Less, SumSet, IsDir, Norm, MapTotal, Packed, TotalBytes, DistinctPaths;
    var es, ps := Packed(all, map[]), Listing(all.Keys);
    PackedTotals(all, map[]);
    PackedLength(all, map[]);
    forall p | p in all ensures |all[p]| <= MAX_FILE {
      var i :| 0 <= i < |ps| && ps[i] == p;
      PackedName(all, map[], i);
      assert EntryReadable(es[i]);
    }
  }

  lemma OnlyText(m: Files)
    requires forall p :: p in m ==> Utf8.Valid(m[p])
    ensures Only(m, true) == m && Only(m, false) == map[]
  {
    hide Validate, Utf8.Valid;
  }
}
