/** The text that the hash of a provisioner's tags is taken of. Drift of the tags is decided on
    that hash alone. */
module TagsHash {
  import opened Results
  import opened Text
  import opened Ordering
  import opened KeyTable

  const NUL := '\0'

  /** Keys and values, each closed by a NUL. */
  function Written(keys: seq<string>, tags: Tags): string
    requires forall k :: k in keys ==> k in tags
  {
    if keys == [] then "" else Piece(keys[0], tags[keys[0]]) + Written(keys[1..], tags)
  }

  function Piece(key: string, value: string): string {
    key + [NUL] + value + [NUL]
  }

  /** The text for a tag map: its keys in sorted order. */
  ghost function HashedText(tags: Tags): string {
    Written(Listing(tags.Keys), tags)
  }

  predicate NulFree(tags: Tags) {
    forall k :: k in tags ==> NUL !in k && NUL !in tags[k]
  }

  lemma {:induction false} WrittenDetermines(ks1: seq<string>, a: Tags, ks2: seq<string>, b: Tags)
    requires NulFree(a) && NulFree(b)
    requires (forall k :: k in ks1 ==> k in a) && (forall k :: k in ks2 ==> k in b)
    requires Written(ks1, a) == Written(ks2, b)
    ensures ks1 == ks2 && forall k :: k in ks1 ==> a[k] == b[k]
    decreases |ks1|
  {
    if ks1 != [] && ks2 != [] {
      FirstTag(ks1, a);
      FirstTag(ks2, b);
      WrittenDetermines(ks1[1..], a, ks2[1..], b);
      assert ks1 == [ks1[0]] + ks1[1..] && ks2 == [ks2[0]] + ks2[1..];
    }
  }

  /** The first key, its value and the rest can be read off the text. */
  lemma FirstTag(ks: seq<string>, tags: Tags)
    requires NulFree(tags) && ks != [] && forall k :: k in ks ==> k in tags
    ensures var k := ks[0];
            var rest := Written(ks[1..], tags);
            Cut(Written(ks, tags), NUL) == Some((k, tags[k] + [NUL] + rest)) &&
            Cut(tags[k] + [NUL] + rest, NUL) == Some((tags[k], rest))
  {
    var k := ks[0];
    var rest := Written(ks[1..], tags);
    assert Piece(k, tags[k]) + rest == k + [NUL] + (tags[k] + [NUL] + rest);
    CutJoin(k, NUL, tags[k] + [NUL] + rest);
    CutJoin(tags[k], NUL, rest);
  }

  /** Different tags without NUL characters never give the same text, so only the hash itself
      can confuse them. */
  lemma TextDeterminesTags(a: Tags, b: Tags)
    requires NulFree(a) && NulFree(b)
    ensures HashedText(a) == HashedText(b) <==> a == b
  {
    if HashedText(a) == HashedText(b) {
      WrittenDetermines(Listing(a.Keys), a, Listing(b.Keys), b);
      assert forall k :: k in a ==> k in Listing(a.Keys);
      assert forall k :: k in b ==> k in Listing(b.Keys);
      assert a.Keys == b.Keys;
    }
  }

  /** Any two tags can be folded into one that has the same text, with NUL characters in it. */
  lemma NulMakesTextAmbiguous(k1: string, v1: string, k2: string, v2: string)
    requires Less(k1, k2)
    ensures HashedText(map[k1 := v1, k2 := v2]) == HashedText(map[k1 := v1 + [NUL] + k2 + [NUL] + v2])
  {
    hide HashedText;
    LessIsStrictOrder(k1, k1, k1);
    var two := map[k1 := v1, k2 := v2];
    FoldKeepsText(two, [k1, k2]);
    assert Folded(two, k1, k2) == map[k1 := v1 + [NUL] + k2 + [NUL] + v2];
  }

  lemma PiecesFold(k1: string, v1: string, k2: string, v2: string)
    ensures Piece(k1, v1) + Piece(k2, v2) == Piece(k1, v1 + [NUL] + k2 + [NUL] + v2)
  {
  }

  lemma TextOf(ks: seq<string>, tags: Tags)
    requires SortedList(ks, tags.Keys)
    ensures HashedText(tags) == Written(ks, tags)
  {
    SortedListIsUnique(ks, Listing(tags.Keys), tags.Keys);
  }

  // ----- When the text identifies the tags -----

  /** The text identifies the tags, among all tag maps whatever, exactly when there is at most
      one tag and no NUL character in it. */
  lemma TextIsUniqueIff(a: Tags)
    ensures (forall b: Tags :: HashedText(b) == HashedText(a) ==> b == a) <==> NulFree(a) && |a| <= 1
  {
    hide HashedText;
    if |a| >= 2 {
      FirstTwoFold(a);
    } else if !NulFree(a) {
      LoneTagSplitsElsewhere(a);
    } else {
      forall b: Tags | HashedText(b) == HashedText(a) ensures b == a {
        SameTextIsNulFree(a, b);
        TextDeterminesTags(a, b);
      }
    }
  }

  lemma {:induction false} WrittenAgree(ks: seq<string>, a: Tags, b: Tags)
    requires forall k :: k in ks ==> k in a && k in b && a[k] == b[k]
    ensures Written(ks, a) == Written(ks, b)
  {
    if ks != [] {
      WrittenAgree(ks[1..], a, b);
    }
  }

  /** How many keys a listing has. */
  lemma ListingCounts(a: Tags)
    ensures |a| == 0 ==> Listing(a.Keys) == []
    ensures |Listing(a.Keys)| == 1 ==> a.Keys == {Listing(a.Keys)[0]}
    ensures |a| >= 2 ==> |Listing(a.Keys)| >= 2
    ensures |Listing(a.Keys)| == 0 ==> |a| == 0
  {
    var ks := Listing(a.Keys);
    hide Listing;
    assert ks != [] ==> ks[0] in a.Keys;
    if |ks| == 0 {
      assert a.Keys == {};
    } else if |ks| == 1 {
      assert a.Keys == {ks[0]};
    }
  }

  /** Without the tag of `k2`, whose text moves into the value of `k1`. */
  function Folded(a: Tags, k1: string, k2: string): Tags
    requires k1 in a && k2 in a
  {
    (a - {k2})[k1 := a[k1] + [NUL] + k2 + [NUL] + a[k2]]
  }

  lemma FirstTwoFold(a: Tags)
    requires |a| >= 2
    ensures exists b: Tags :: HashedText(b) == HashedText(a) && b != a
  {
    ListingCounts(a);
    var ks := Listing(a.Keys);
    hide Listing, HashedText, Less;
    SortedIsDistinct(ks);
    FoldKeepsText(a, ks);
    assert ks[0] in a.Keys && ks[1] in a.Keys;
    var b := Folded(a, ks[0], ks[1]);
    assert ks[1] in a && ks[1] !in b;
  }

  /** Folding the first two tags into one leaves the text as it is. */
  lemma FoldKeepsText(a: Tags, ks: seq<string>)
    requires SortedList(ks, a.Keys) && Distinct(ks) && |ks| >= 2
    ensures ks[0] in a.Keys && ks[1] in a.Keys
    ensures HashedText(Folded(a, ks[0], ks[1])) == HashedText(a)
  {
    hide Listing, Piece, HashedText, Written, Less;
    var k1, k2, rest := ks[0], ks[1], ks[2..];
    assert k1 in a.Keys && k2 in a.Keys && k1 != k2;
    var b := Folded(a, k1, k2);
    WithoutSecond(ks, a.Keys);
    assert b.Keys == a.Keys - {k2};
    TextOf([k1] + rest, b);
    TextOf(ks, a);
    RestAgrees(a, ks);
    WrittenAgree(rest, a, b);
    TwoPieces(ks, a);
    OnePiece(k1, rest, b);
    PiecesFold(k1, a[k1], k2, a[k2]);
  }

  lemma RestAgrees(a: Tags, ks: seq<string>)
    requires Distinct(ks) && |ks| >= 2 && forall k :: k in ks ==> k in a
    ensures forall k :: k in ks[2..] ==> k in a && k in Folded(a, ks[0], ks[1]) && a[k] == Folded(a, ks[0], ks[1])[k]
  {
    forall k | k in ks[2..] ensures k in ks && k != ks[0] && k != ks[1] {
      var i :| 0 <= i < |ks[2..]| && ks[2..][i] == k;
      assert ks[i + 2] == k;
    }
  }

  lemma OnePiece(k: string, rest: seq<string>, b: Tags)
    requires k in b && forall x :: x in rest ==> x in b
    ensures Written([k] + rest, b) == Piece(k, b[k]) + Written(rest, b)
  {
    assert ([k] + rest)[1..] == rest;
  }

  lemma TwoPieces(ks: seq<string>, a: Tags)
    requires |ks| >= 2 && forall k :: k in ks ==> k in a
    ensures Written(ks, a) == Piece(ks[0], a[ks[0]]) + Piece(ks[1], a[ks[1]]) + Written(ks[2..], a)
  {
    assert ks[1..][1..] == ks[2..];
  }

  lemma WithoutSecond(ks: seq<string>, keys: set<string>)
    requires SortedList(ks, keys) && Distinct(ks) && |ks| >= 2
    ensures SortedList([ks[0]] + ks[2..], keys - {ks[1]})
  {
    var short := [ks[0]] + ks[2..];
    assert forall i :: 1 <= i < |short| ==> short[i] == ks[i + 1];
    forall x ensures x in short <==> x in keys - {ks[1]} {
      if x in keys && x != ks[1] {
        var i :| 0 <= i < |ks| && ks[i] == x;
        assert short[if i == 0 then 0 else i - 1] == x;
      }
      if x in short {
        var i :| 0 <= i < |short| && short[i] == x;
        assert ks[if i == 0 then 0 else i + 1] == x;
      }
    }
  }

  lemma LoneText(a: Tags, k: string)
    requires a.Keys == {k}
    ensures HashedText(a) == Piece(k, a[k])
  {
    hide Listing, Piece;
    TextOf([k], a);
    assert [k][1..] == [];
  }

  lemma LoneTagSplitsElsewhere(a: Tags)
    requires |a| <= 1 && !NulFree(a)
    ensures exists b: Tags :: HashedText(b) == HashedText(a) && b != a
  {
    var k :| k in a && (NUL in k || NUL in a[k]);
    var v := a[k];
    assert a.Keys == {k} by {
      LoneKey(a.Keys, k);
    }
    LoneText(a, k);
    hide HashedText, Piece;
    if NUL in k {
      var cut := Cut(k, NUL).value;
      PieceSplits(cut.0, cut.1, v);
      LoneText(map[cut.0 := cut.1 + [NUL] + v], cut.0);
      assert cut.0 != k;
    } else {
      var cut := Cut(v, NUL).value;
      PieceSplits(k, cut.0, cut.1);
      LoneText(map[k + [NUL] + cut.0 := cut.1], k + [NUL] + cut.0);
      assert k + [NUL] + cut.0 != k;
    }
  }

  /** Three parts joined by NULs are one tag in two ways. */
  lemma PieceSplits(x: string, y: string, z: string)
    ensures Piece(x, y + [NUL] + z) == Piece(x + [NUL] + y, z)
  {
  }

  lemma LoneKey(keys: set<string>, k: string)
    requires k in keys && |keys| <= 1
    ensures keys == {k}
  {
    assert |keys - {k}| == 0;
  }

  function Nuls(s: string): nat {
    multiset(s)[NUL]
  }

  lemma PieceNuls(k: string, v: string)
    ensures Nuls(Piece(k, v)) == Nuls(k) + Nuls(v) + 2
  {
    assert multiset(Piece(k, v)) == multiset(k) + multiset([NUL]) + multiset(v) + multiset([NUL]);
  }

  lemma {:induction false} WrittenNuls(ks: seq<string>, a: Tags)
    requires forall k :: k in ks ==> k in a
    ensures Nuls(Written(ks, a)) >= 2 * |ks|
  {
    if ks != [] {
      WrittenNuls(ks[1..], a);
      PieceNuls(ks[0], a[ks[0]]);
      assert multiset(Written(ks, a)) == multiset(Piece(ks[0], a[ks[0]])) + multiset(Written(ks[1..], a));
    }
  }

  lemma SameTextIsNulFree(a: Tags, b: Tags)
    requires NulFree(a) && |a| <= 1 && HashedText(b) == HashedText(a)
    ensures NulFree(b)
  {
    ListingCounts(a);
    ListingCounts(b);
    var ka, kb := Listing(a.Keys), Listing(b.Keys);
    hide Listing, Piece;
    WrittenNuls(kb, b);
    if |a| == 0 {
      assert kb == [];
    } else {
      LoneKey(a.Keys, ka[0]);
      LoneText(a, ka[0]);
      PieceNuls(ka[0], a[ka[0]]);
      if kb != [] {
        LoneText(b, kb[0]);
        PieceNuls(kb[0], b[kb[0]]);
      }
    }
  }

  /** Whatever order the keys come in, the text is that of the sorted keys. */
  method TagsText(tags: Tags, iterated: seq<string>) returns (text: string)
    requires Lists(iterated, tags.Keys)
    ensures text == HashedText(tags)
  {
    hide Listing, Sorted, Distinct, Less, Piece;
    var keys := SortStrings(iterated, tags.Keys);
    assert forall k :: k in keys ==> k in tags;
    text := "";
    for i := 0 to |keys|
      invariant text + Written(keys[i..], tags) == Written(keys, tags)
    {
      assert keys[i] in keys;
      OneMorePiece(text, keys, tags, i);
      text := text + Piece(keys[i], tags[keys[i]]);
    }
  }

  lemma OneMorePiece(text: string, keys: seq<string>, tags: Tags, i: nat)
    requires i < |keys| && forall k :: k in keys ==> k in tags
    ensures text + Written(keys[i..], tags) == text + Piece(keys[i], tags[keys[i]]) + Written(keys[i + 1..], tags)
  {
    assert keys[i..][0] == keys[i] && keys[i..][1..] == keys[i + 1..];
  }
}
