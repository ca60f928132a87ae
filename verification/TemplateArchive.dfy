/** Template source archives and the reader that turns one into files.

    A zip is a sequence of entries plus its packed size. Compression is a parameter (`pack`),
    and so is the order in which Go happens to iterate over a map (`order`). */
module TemplateArchive {
  import opened Results
  import opened TemplatePaths
  import opened Ordering
  import Utf8

  type Content = seq<byte>
  type Files = map<string, Content>

  const MAX_ZIP := 20 * 1024 * 1024
  const MAX_TOTAL := 40 * 1024 * 1024
  const MAX_FILES := 2000
  const MAX_FILE := 2 * 1024 * 1024

  /** The parts of a zip header that matter: the mode's directory bit, the compression method
      (0 and 8 have a codec), and everything else. */
  datatype Header = Header(dirBit: bool, codec: nat, rest: int)

  /** `intact` is false when the stored data cannot be read back. */
  datatype Entry = Entry(name: string, header: Header, contents: Content, intact: bool)
  datatype Archive = Archive(entries: seq<Entry>, packed: nat)

  type Packer = seq<Entry> -> nat
  /** The n-th iteration over a map with the given keys. */
  type Order = (nat, set<string>) -> seq<string>

  const DEFAULT_HEADER := Header(false, 8, 0)

  predicate HasCodec(h: Header) {
    h.codec == 0 || h.codec == 8
  }

  predicate IsDir(e: Entry) {
    e.header.dirBit || (e.name != "" && e.name[|e.name| - 1] == '/')
  }

  /** The normalised path; "" (never a valid path) when rejected. */
  function Norm(p: string): string {
    var c := Validate(p);
    if c.Ok? then c.path else ""
  }

  predicate IsNormal(p: string) {
    Validate(p) == Ok(p)
  }

  ghost predicate GoOrder(order: Order) {
    forall n, keys :: Lists(order(n, keys), keys)
  }

  // ----- Sizes -----

  function SizeOf(m: Files): string -> nat {
    k => if k in m then |m[k]| else 0
  }

  ghost function MapTotal(m: Files): nat {
    SumSet(m.Keys, SizeOf(m))
  }

  lemma MapTotalAdd(m: Files, k: string, c: Content)
    requires k !in m
    ensures MapTotal(m[k := c]) == MapTotal(m) + |c|
  {
    var m' := m[k := c];
    SumSetRemove(m'.Keys, SizeOf(m'), k);
    assert m'.Keys - {k} == m.Keys;
    SumSetAgree(m.Keys, SizeOf(m'), SizeOf(m));
  }

  lemma MapTotalUnion(a: Files, b: Files)
    requires a.Keys !! b.Keys
    ensures MapTotal(a + b) == MapTotal(a) + MapTotal(b)
  {
    assert (a + b).Keys == a.Keys + b.Keys;
    SumSetUnion(a.Keys, b.Keys, SizeOf(a + b));
    SumSetAgree(a.Keys, SizeOf(a + b), SizeOf(a));
    SumSetAgree(b.Keys, SizeOf(a + b), SizeOf(b));
  }

  lemma MapTotalPart(part: Files, whole: Files)
    requires part.Keys <= whole.Keys && forall k :: k in part ==> part[k] == whole[k]
    ensures MapTotal(part) <= MapTotal(whole)
  {
    var rest := whole - part.Keys;
    MapTotalUnion(part, rest);
    assert part + rest == whole;
  }

  // ----- Views of an archive -----

  function TotalBytes(es: seq<Entry>): nat {
    if es == [] then 0
    else TotalBytes(es[..|es| - 1]) + if IsDir(es[|es| - 1]) then 0 else |es[|es| - 1].contents|
  }

  predicate Shown(e: Entry, text: bool) {
    !IsDir(e) && Utf8.Valid(e.contents) == text
  }

  /** The text files (or the binary ones) of an archive, by normalised path. */
  function View(es: seq<Entry>, text: bool): Files {
    if es == [] then map[]
    else
      var m, e := View(es[..|es| - 1], text), es[|es| - 1];
      if Shown(e, text) then m[Norm(e.name) := e.contents] else m
  }

  predicate DistinctPaths(es: seq<Entry>) {
    forall i, j :: 0 <= i < j < |es| && !IsDir(es[i]) && !IsDir(es[j]) ==> Norm(es[i].name) != Norm(es[j].name)
  }

  ghost predicate Shows(es: seq<Entry>, m: Files, text: bool) {
    && (forall i :: 0 <= i < |es| && Shown(es[i], text) ==> Norm(es[i].name) in m && m[Norm(es[i].name)] == es[i].contents)
    && (forall p :: p in m ==> exists i :: 0 <= i < |es| && Shown(es[i], text) && Norm(es[i].name) == p)
  }

  lemma {:induction false} ViewMeaning(es: seq<Entry>, text: bool)
    requires DistinctPaths(es)
    ensures Shows(es, View(es, text), text)
    decreases |es|
  {
    hide Validate, Utf8.Valid;
    if es != [] {
      var p, e := es[..|es| - 1], es[|es| - 1];
      assert es == p + [e];
      PathsOfPrefix(p, e);
      ViewMeaning(p, text);
      ShowsOneMore(p, e, View(p, text), text);
    }
  }

  lemma ShowsOneMore(p: seq<Entry>, e: Entry, m: Files, text: bool)
    requires Shows(p, m, text) && (IsDir(e) || Norm(e.name) !in Paths(p))
    ensures Shows(p + [e], if Shown(e, text) then m[Norm(e.name) := e.contents] else m, text)
  {
    hide Validate, Utf8.Valid;
    var es := p + [e];
    var m' := if Shown(e, text) then m[Norm(e.name) := e.contents] else m;
    forall i | 0 <= i < |es| && Shown(es[i], text)
      ensures Norm(es[i].name) in m' && m'[Norm(es[i].name)] == es[i].contents
    {
      if i < |p| {
        assert es[i] == p[i];
        assert Norm(p[i].name) in Paths(p);
      }
    }
    forall q | q in m' ensures exists i :: 0 <= i < |es| && Shown(es[i], text) && Norm(es[i].name) == q {
      if Shown(e, text) && Norm(e.name) == q {
        assert es[|p|] == e;
      } else {
        var i :| 0 <= i < |p| && Shown(p[i], text) && Norm(p[i].name) == q;
        assert es[i] == p[i];
      }
    }
  }

  lemma ShowsOnlyOne(es: seq<Entry>, a: Files, b: Files, text: bool)
    requires Shows(es, a, text) && Shows(es, b, text)
    ensures a == b
  {
    hide Validate, Utf8.Valid;
    forall p | p in a ensures p in b && a[p] == b[p] {
      var i :| 0 <= i < |es| && Shown(es[i], text) && Norm(es[i].name) == p;
    }
    forall p | p in b ensures p in a {
      var i :| 0 <= i < |es| && Shown(es[i], text) && Norm(es[i].name) == p;
    }
  }

  // ----- The reader -----

  predicate EntryReadable(e: Entry) {
    Validate(e.name).Ok? && |e.contents| <= MAX_FILE && e.intact && HasCodec(e.header)
  }

  ghost predicate Readable(es: seq<Entry>) {
    |es| <= MAX_FILES && Acceptable(es)
  }

  /** The state of the extraction loop. */
  datatype Scan = Scan(seenPaths: set<string>, files: Files, total: nat)

  function ScanEntry(s: Scan, e: Entry): Option<Scan> {
    if IsDir(e) then Some(s)
    else if !EntryReadable(e) || Norm(e.name) in s.seenPaths || s.total + |e.contents| > MAX_TOTAL then None
    else Some(Scan(s.seenPaths + {Norm(e.name)},
                   if Utf8.Valid(e.contents) then s.files[Norm(e.name) := e.contents] else s.files,
                   s.total + |e.contents|))
  }

  function ScanAll(es: seq<Entry>): Option<Scan> {
    if es == [] then Some(Scan({}, map[], 0))
    else
      var s := ScanAll(es[..|es| - 1]);
      if s.None? then None else ScanEntry(s.value, es[|es| - 1])
  }

  lemma {:induction false} FailedPrefixFails(es: seq<Entry>, n: nat)
    requires n <= |es| && ScanAll(es[..n]).None?
    ensures ScanAll(es).None?
    decreases |es| - n
  {
    hide Validate, Utf8.Valid;
    if n == |es| {
      assert es[..n] == es;
    } else {
      assert es[..n + 1][..n] == es[..n];
      FailedPrefixFails(es, n + 1);
    }
  }

  /** The paths of the file entries. */
  ghost function Paths(es: seq<Entry>): set<string> {
    set i | 0 <= i < |es| && !IsDir(es[i]) :: Norm(es[i].name)
  }

  lemma PathsOfPrefix(p: seq<Entry>, e: Entry)
    ensures Paths(p + [e]) == if IsDir(e) then Paths(p) else Paths(p) + {Norm(e.name)}
    ensures DistinctPaths(p + [e]) <==> DistinctPaths(p) && (IsDir(e) || Norm(e.name) !in Paths(p))
  {
    hide Validate, Utf8.Valid;
    var es := p + [e];
    assert forall i :: 0 <= i < |p| ==> es[i] == p[i];
    assert es[|p|] == e;
    if DistinctPaths(es) {
      assert forall i :: 0 <= i < |p| ==> p[i] == es[i];
    }
  }

  predicate AllReadable(es: seq<Entry>) {
    forall i :: 0 <= i < |es| && !IsDir(es[i]) ==> EntryReadable(es[i])
  }

  ghost predicate Acceptable(es: seq<Entry>) {
    AllReadable(es) && DistinctPaths(es) && TotalBytes(es) <= MAX_TOTAL
  }

  lemma AcceptableOneMore(p: seq<Entry>, e: Entry)
    ensures TotalBytes(p + [e]) == TotalBytes(p) + if IsDir(e) then 0 else |e.contents|
    ensures Acceptable(p + [e]) <==>
            Acceptable(p) && (IsDir(e) || (EntryReadable(e) && Norm(e.name) !in Paths(p) && TotalBytes(p + [e]) <= MAX_TOTAL))
  {
    hide Validate, Utf8.Valid;
    AllReadableOfPrefix(p, e);
    PathsOfPrefix(p, e);
    assert (p + [e])[..|p|] == p;
  }

  /** The loop's early exits reject exactly the archives that are not readable as a whole. */
  lemma {:induction false} ScanMeaning(es: seq<Entry>)
    ensures ScanAll(es).Some? <==> Acceptable(es)
    ensures ScanAll(es).Some? ==> ScanAll(es).value == Scanned(es)
    decreases |es|
  {
    hide Acceptable, Scanned, ScanEntry, AllReadable, DistinctPaths, TotalBytes;
    if es == [] {
      NothingToScan();
    } else {
      var p, e := es[..|es| - 1], es[|es| - 1];
      assert es == p + [e];
      ScanMeaning(p);
      ScanOneMore(p, e);
    }
  }

  /** The state of the loop after these entries. */
  ghost function Scanned(es: seq<Entry>): Scan {
    Scan(Paths(es), View(es, true), TotalBytes(es))
  }

  lemma ScanOneMore(p: seq<Entry>, e: Entry)
    ensures Acceptable(p + [e]) <==> Acceptable(p) && ScanEntry(Scanned(p), e).Some?
    ensures Acceptable(p) && ScanEntry(Scanned(p), e).Some? ==> ScanEntry(Scanned(p), e).value == Scanned(p + [e])
  {
    hide Validate, Utf8.Valid, Acceptable, Paths;
    AcceptableOneMore(p, e);
    PathsOfPrefix(p, e);
    assert (p + [e])[..|p|] == p;
  }

  lemma NothingToScan()
    ensures Acceptable([]) && Scanned([]) == Scan({}, map[], 0)
  {
  }

  lemma AllReadableOfPrefix(p: seq<Entry>, e: Entry)
    ensures AllReadable(p + [e]) <==> AllReadable(p) && (IsDir(e) || EntryReadable(e))
  {
    hide Validate, Utf8.Valid;
    var es := p + [e];
    assert es[|p|] == e;
    assert forall i :: 0 <= i < |p| ==> es[i] == p[i];
    if AllReadable(es) {
      forall i | 0 <= i < |p| && !IsDir(p[i]) ensures EntryReadable(p[i]) {
        assert es[i] == p[i];
      }
    }
  }

  /** The entries that are not directories. */
  function FilesOf(es: seq<Entry>): seq<Entry> {
    if es == [] then []
    else
      var rest, e := FilesOf(es[..|es| - 1]), es[|es| - 1];
      if e.header.dirBit || (e.name != "" && e.name[|e.name| - 1] == '/') then rest else rest + [e]
  }

  /** Directory entries make no difference to the reader, whatever their name and data. */
  lemma {:induction false} DirectoriesDoNotCount(es: seq<Entry>)
    ensures ScanAll(FilesOf(es)) == ScanAll(es)
  {
    hide Validate, Utf8.Valid;
    if es != [] {
      DirectoriesDoNotCount(es[..|es| - 1]);
      assert forall e :: (FilesOf(es[..|es| - 1]) + [e])[..|FilesOf(es[..|es| - 1])|] == FilesOf(es[..|es| - 1]);
    }
  }

  /** Every other entry of a readable archive is seen under its normalised path. */
  lemma FilesAreSeen(es: seq<Entry>, i: nat)
    requires Readable(es) && i < |es|
    requires !es[i].header.dirBit && (es[i].name == "" || es[i].name[|es[i].name| - 1] != '/')
    ensures var p, seen := Norm(es[i].name), View(es, Utf8.Valid(es[i].contents));
            IsNormal(p) && p in seen && seen[p] == es[i].contents
  {
    ViewMeaning(es, Utf8.Valid(es[i].contents));
    assert EntryReadable(es[i]);
    AcceptedIsNormalForm(es[i].name);
  }

  /** The extraction loop. */
  method ScanEntries(es: seq<Entry>) returns (r: Option<Files>)
    ensures r == if ScanAll(es).Some? then Some(ScanAll(es).value.files) else None
  {
    hide Validate, Utf8.Valid;
    var files: Files := map[];
    var seenPaths: set<string> := {};
    var total: nat := 0;
    for i := 0 to |es|
      invariant ScanAll(es[..i]) == Some(Scan(seenPaths, files, total))
    {
      assert es[..i + 1][..i] == es[..i];
      if ScanAll(es[..i + 1]).None? {
        FailedPrefixFails(es, i + 1);
      }
      var e := es[i];
      if IsDir(e) {
        continue;
      }
      var checked := Validate(e.name);
      if checked.Rejected? || checked.path in seenPaths {
        return None;
      }
      seenPaths := seenPaths + {checked.path};
      if |e.contents| > MAX_FILE || !HasCodec(e.header) || !e.intact {
        return None;
      }
      total := total + |e.contents|;
      if total > MAX_TOTAL {
        return None;
      }
      if Utf8.Valid(e.contents) {
        files := files[checked.path := e.contents];
      }
    }
    assert es[..|es|] == es;
    return Some(files);
  }

  /** Accepts exactly the readable archives and returns their text view. */
  method ReadSourceFiles(a: Archive) returns (r: Option<Files>)
    ensures r == if a.packed <= MAX_ZIP && Readable(a.entries) then Some(View(a.entries, true)) else None
  {
    if a.packed > MAX_ZIP || |a.entries| > MAX_FILES {
      return None;
    }
    ScanMeaning(a.entries);
    r := ScanEntries(a.entries);
  }
}
