/** Byte-wise string order, sorting, and sums over finite sets. */
module Ordering {

  predicate Less(a: string, b: string) {
    if b == "" then false
    else if a == "" then true
    else a[0] < b[0] || (a[0] == b[0] && Less(a[1..], b[1..]))
  }

  lemma {:induction false} LessIsStrictOrder(a: string, b: string, c: string)
    ensures !Less(a, a)
    ensures Less(a, b) && Less(b, c) ==> Less(a, c)
    ensures a != b ==> Less(a, b) || Less(b, a)
    decreases |a| + |b| + |c|
  {
    if a != "" && b != "" {
      LessIsStrictOrder(a[1..], b[1..], if c == "" then "" else c[1..]);
      assert a == [a[0]] + a[1..] && b == [b[0]] + b[1..];
    } else if a != "" {
      LessIsStrictOrder(a[1..], b, c);
    }
  }

  predicate Sorted(s: seq<string>) {
    forall i, j :: 0 <= i < j < |s| ==> Less(s[i], s[j])
  }

  predicate Distinct(s: seq<string>) {
    forall i, j :: 0 <= i < j < |s| ==> s[i] != s[j]
  }

  /** `s` lists every element of `keys` once. */
  ghost predicate Lists(s: seq<string>, keys: set<string>) {
    Distinct(s) && (forall x :: x in s <==> x in keys)
  }

  ghost predicate SortedList(s: seq<string>, keys: set<string>) {
    Sorted(s) && (forall x :: x in s <==> x in keys)
  }

  function Insert(s: seq<string>, x: string): (r: seq<string>)
    requires Sorted(s) && x !in s
    ensures Sorted(r) && |r| == |s| + 1
    ensures forall y :: y in r <==> y in s || y == x
  {
    if s == [] then [x]
    else if Less(x, s[0]) then
      assert forall j :: 0 <= j < |s| ==> Less(x, s[j]) by {
        forall j | 0 <= j < |s| ensures Less(x, s[j]) {
          LessIsStrictOrder(x, s[0], s[j]);
        }
      }
      [x] + s
    else
      assert s == [s[0]] + s[1..];
      var r := Insert(s[1..], x);
      assert forall j :: 0 <= j < |r| ==> Less(s[0], r[j]) by {
        forall j | 0 <= j < |r| ensures Less(s[0], r[j]) {
          LessIsStrictOrder(s[0], x, x);
          if r[j] != x {
            assert r[j] in s[1..];
          }
        }
      }
      [s[0]] + r
  }

  /** The sorted listing of a set. */
  ghost function Listing(keys: set<string>): (r: seq<string>)
    ensures SortedList(r, keys)
  {
    if keys == {} then [] else
      var x :| x in keys;
      Insert(Listing(keys - {x}), x)
  }

  lemma {:induction false} SortedListIsUnique(a: seq<string>, b: seq<string>, keys: set<string>)
    requires SortedList(a, keys) && SortedList(b, keys)
    ensures a == b
    decreases |a|
  {
    assert a != [] ==> a[0] in keys;
    assert b != [] ==> b[0] in keys;
    if a != [] {
      assert a[0] in b && b[0] in a;
      var i :| 0 <= i < |b| && b[i] == a[0];
      var j :| 0 <= j < |a| && a[j] == b[0];
      LessIsStrictOrder(a[0], b[0], a[0]);
      assert a[0] == b[0];
      assert a == [a[0]] + a[1..] && b == [b[0]] + b[1..];
      forall x ensures x in a[1..] <==> x in keys - {a[0]} {
        LessIsStrictOrder(a[0], a[0], a[0]);
      }
      forall x ensures x in b[1..] <==> x in keys - {a[0]} {
        LessIsStrictOrder(b[0], b[0], b[0]);
      }
      SortedListIsUnique(a[1..], b[1..], keys - {a[0]});
    }
  }

  /** sort.Strings on a duplicate-free slice: the result depends only on what it contains. */
  method SortStrings(s: seq<string>, ghost keys: set<string>) returns (r: seq<string>)
    requires Lists(s, keys)
    ensures r == Listing(keys)
  {
    r := [];
    for i := 0 to |s|
      invariant Sorted(r)
      invariant forall x :: x in r <==> x in s[..i]
    {
      assert s[i] !in s[..i];
      r := Insert(r, s[i]);
      assert s[..i + 1] == s[..i] + [s[i]];
    }
    assert s[..|s|] == s;
    SortedListIsUnique(r, Listing(keys), keys);
  }

  lemma SortedIsDistinct(s: seq<string>)
    requires Sorted(s)
    ensures Distinct(s)
  {
    forall i, j | 0 <= i < j < |s| ensures s[i] != s[j] {
      LessIsStrictOrder(s[i], s[j], s[j]);
    }
  }

  // ----- Sums -----

  ghost function SumSet(keys: set<string>, size: string -> nat): nat {
    if keys == {} then 0 else
      var x :| x in keys;
      size(x) + SumSet(keys - {x}, size)
  }

  lemma {:induction false} SumSetRemove(keys: set<string>, size: string -> nat, x: string)
    requires x in keys
    ensures SumSet(keys, size) == size(x) + SumSet(keys - {x}, size)
    decreases |keys|
  {
    var y :| y in keys && SumSet(keys, size) == size(y) + SumSet(keys - {y}, size);
    if y != x {
      SumSetRemove(keys - {y}, size, x);
      SumSetRemove(keys - {x}, size, y);
      assert keys - {y} - {x} == keys - {x} - {y};
    }
  }

  lemma {:induction false} SumSetUnion(a: set<string>, b: set<string>, size: string -> nat)
    requires a !! b
    ensures SumSet(a + b, size) == SumSet(a, size) + SumSet(b, size)
    decreases |b|
  {
    if b == {} {
      assert a + b == a;
    } else {
      var x :| x in b;
      SumSetUnion(a, b - {x}, size);
      SumSetRemove(b, size, x);
      SumSetRemove(a + b, size, x);
      assert a + b - {x} == a + (b - {x});
    }
  }

  lemma {:induction false} SumSetAgree(keys: set<string>, f: string -> nat, g: string -> nat)
    requires forall x :: x in keys ==> f(x) == g(x)
    ensures SumSet(keys, f) == SumSet(keys, g)
    decreases |keys|
  {
    if keys != {} {
      var x :| x in keys;
      SumSetRemove(keys, f, x);
      SumSetRemove(keys, g, x);
      SumSetAgree(keys - {x}, f, g);
    }
  }

  function SumSeq(s: seq<string>, size: string -> nat): nat {
    if s == [] then 0 else SumSeq(s[..|s| - 1], size) + size(s[|s| - 1])
  }

  lemma {:induction false} SumSeqIsSumSet(s: seq<string>, keys: set<string>, size: string -> nat)
    requires Lists(s, keys)
    ensures SumSeq(s, size) == SumSet(keys, size)
    ensures |s| == |keys|
    decreases |s|
  {
    if s == [] {
      assert keys == {};
    } else {
      var p, x := s[..|s| - 1], s[|s| - 1];
      assert s == p + [x];
      assert x in s;
      assert Lists(p, keys - {x}) by {
        assert Distinct(p);
        forall y ensures y in p <==> y in keys - {x} {
          assert y in s <==> y in p || y == x;
          assert x !in p;
        }
      }
      SumSetRemove(keys, size, x);
      SumSeqIsSumSet(p, keys - {x}, size);
    }
  }
}
