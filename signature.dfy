/** `make_signature`: the content fingerprint of a recipe. The SHA-256 digest is a
    parameter `hash` (any deterministic function of the base string); what is modelled
    and proved is the base string it is applied to. */
module Signature {
  import opened Wrappers
  import opened Text

  // ---------- Python's string order ----------

  /** a <= b in Python's string order: lexicographic by code point. */
  predicate Below(a: string, b: string)
    decreases |a|
  {
    a == [] || (b != [] && (a[0] < b[0] || (a[0] == b[0] && Below(a[1..], b[1..]))))
  }

  lemma {:induction false} BelowTotal(a: string, b: string)
    ensures Below(a, b) || Below(b, a)
    decreases |a|
  {
    if a != [] && b != [] && a[0] == b[0] {
      BelowTotal(a[1..], b[1..]);
    }
  }

  lemma {:induction false} BelowAntisymmetric(a: string, b: string)
    requires Below(a, b) && Below(b, a)
    ensures a == b
    decreases |a|
  {
    if a != [] {
      BelowAntisymmetric(a[1..], b[1..]);
      assert a == [a[0]] + a[1..] && b == [b[0]] + b[1..];
    }
  }

  lemma {:induction false} BelowTransitive(a: string, b: string, c: string)
    requires Below(a, b) && Below(b, c)
    ensures Below(a, c)
    decreases |a|
  {
    if a != [] && a[0] == b[0] && b[0] == c[0] {
      BelowTransitive(a[1..], b[1..], c[1..]);
    }
  }

  // ---------- sorted() ----------

  predicate Sorted(s: seq<string>) {
    forall i, j | 0 <= i < j < |s| :: Below(s[i], s[j])
  }

  function Insert(x: string, s: seq<string>): seq<string> {
    if s == [] then [x]
    else if Below(x, s[0]) then [x] + s
    else [s[0]] + Insert(x, s[1..])
  }

  lemma BelowReflexive(a: string)
    ensures Below(a, a)
  {
  }

  lemma SortedCons(x: string, s: seq<string>)
    requires Sorted(s)
    requires forall j | 0 <= j < |s| :: Below(x, s[j])
    ensures Sorted([x] + s)
  {
    var r := [x] + s;
    forall i, j | 0 <= i < j < |r|
      ensures Below(r[i], r[j])
    {
      assert r[j] == s[j - 1];
      if i > 0 { assert r[i] == s[i - 1]; }
    }
  }

  lemma {:induction false} InsertMultiset(x: string, s: seq<string>)
    ensures multiset(Insert(x, s)) == multiset(s) + multiset{x}
    decreases |s|
  {
    if s != [] {
      assert s == [s[0]] + s[1..];
      if !Below(x, s[0]) {
        InsertMultiset(x, s[1..]);
      }
    }
  }

  lemma {:induction false} InsertSorted(x: string, s: seq<string>)
    requires Sorted(s)
    ensures Sorted(Insert(x, s))
    decreases |s|
  {
    if s != [] {
      if Below(x, s[0]) {
        forall j | 0 <= j < |s|
          ensures Below(x, s[j])
        {
          if j > 0 { BelowTransitive(x, s[0], s[j]); }
        }
        SortedCons(x, s);
      } else {
        BelowTotal(x, s[0]);
        var tail := s[1..];
        SortedTail(s);
        InsertSorted(x, tail);
        InsertMultiset(x, tail);
        var t := Insert(x, tail);
        forall k | 0 <= k < |t|
          ensures Below(s[0], t[k])
        {
          assert t[k] in multiset(t);
          if t[k] != x {
            assert t[k] in multiset(tail);
            var j :| 0 <= j < |tail| && tail[j] == t[k];
            assert s[j + 1] == t[k];
          }
        }
        SortedCons(s[0], t);
        assert Insert(x, s) == [s[0]] + t;
      }
    }
  }

  lemma SortedTail(s: seq<string>)
    requires Sorted(s) && s != []
    ensures Sorted(s[1..])
  {
    var tail := s[1..];
    forall i, j | 0 <= i < j < |tail|
      ensures Below(tail[i], tail[j])
    {
      assert tail[i] == s[i + 1] && tail[j] == s[j + 1];
    }
  }

  /** sorted(s) for a list of strings: a permutation of `s` ... */
  function SortStrings(s: seq<string>): (r: seq<string>)
    ensures multiset(r) == multiset(s)
  {
    if s == [] then []
    else
      var t := SortStrings(s[1..]);
      InsertMultiset(s[0], t);
      assert s == [s[0]] + s[1..];
      Insert(s[0], t)
  }

  /** ... that is in ascending order. */
  lemma {:induction false} SortStringsSorted(s: seq<string>)
    ensures Sorted(SortStrings(s))
    decreases |s|
  {
    if s != [] {
      SortStringsSorted(s[1..]);
      InsertSorted(s[0], SortStrings(s[1..]));
    }
  }

  /** A sorted list is determined by its multiset of elements. */
  lemma {:induction false} SortedUnique(a: seq<string>, b: seq<string>)
    requires Sorted(a) && Sorted(b)
    requires multiset(a) == multiset(b)
    ensures a == b
    decreases |a|
  {
    if a == [] {
      assert |multiset(b)| == 0;
    } else {
      assert |multiset(b)| == |multiset(a)|;
      SortedHeads(a, b);
      TailsPermutation(a, b);
      SortedTail(a);
      SortedTail(b);
      SortedUnique(a[1..], b[1..]);
      assert a == [a[0]] + a[1..] && b == [b[0]] + b[1..];
    }
  }

  /** Two sorted permutations of each other start with the same string. */
  lemma SortedHeads(a: seq<string>, b: seq<string>)
    requires Sorted(a) && Sorted(b) && a != [] && b != []
    requires multiset(a) == multiset(b)
    ensures a[0] == b[0]
  {
    assert a[0] in multiset(b);
    assert b[0] in multiset(a);
    var j :| 0 <= j < |b| && b[j] == a[0];
    var i :| 0 <= i < |a| && a[i] == b[0];
    assert Below(a[0], b[0]) by {
      if i > 0 { assert Below(a[0], a[i]); } else { BelowReflexive(a[0]); }
    }
    assert Below(b[0], a[0]) by {
      if j > 0 { assert Below(b[0], b[j]); } else { BelowReflexive(b[0]); }
    }
    BelowAntisymmetric(a[0], b[0]);
  }

  lemma TailsPermutation<T>(a: seq<T>, b: seq<T>)
    requires a != [] && b != [] && a[0] == b[0]
    requires multiset(a) == multiset(b)
    ensures multiset(a[1..]) == multiset(b[1..])
  {
    assert a == [a[0]] + a[1..] && b == [b[0]] + b[1..];
    assert multiset(a[1..]) == multiset(a) - multiset{a[0]};
    assert multiset(b[1..]) == multiset(b) - multiset{b[0]};
  }

  /** Sorting does not depend on the order of the input. */
  lemma SortPermutationInvariant(a: seq<string>, b: seq<string>)
    requires multiset(a) == multiset(b)
    ensures SortStrings(a) == SortStrings(b)
  {
    SortStringsSorted(a);
    SortStringsSorted(b);
    SortedUnique(SortStrings(a), SortStrings(b));
  }

  // ---------- make_signature ----------

  /** [norm(x) for x in texts], where an entry may be None. */
  function NormAll(texts: seq<Option<string>>): seq<string> {
    MapSeq(NormOrEmpty, texts)
  }

  /** The string that is hashed:
      norm(title) + "|" + "|".join(sorted(norm(x) for x in texts)). */
  function SignatureBase(title: string, texts: seq<Option<string>>): string {
    BarJoin(Norm(title), SortStrings(NormAll(texts)))
  }

  /** head + "|" + "|".join(fields) */
  function BarJoin(head: string, fields: seq<string>): string {
    head + "|" + JoinWith("|", fields)
  }

  function MakeSignature(hash: string -> string, title: string, texts: seq<Option<string>>): string {
    hash(SignatureBase(title, texts))
  }

  /** The signature depends on the title only through its normal form, and on the
      ingredient lines only through the multiset of their normal forms. */
  lemma SignatureDependsOnNormalForms(t1: string, a: seq<Option<string>>, t2: string, b: seq<Option<string>>)
    requires Norm(t1) == Norm(t2)
    requires multiset(NormAll(a)) == multiset(NormAll(b))
    ensures SignatureBase(t1, a) == SignatureBase(t2, b)
    ensures forall hash: string -> string :: MakeSignature(hash, t1, a) == MakeSignature(hash, t2, b)
  {
    SortPermutationInvariant(NormAll(a), NormAll(b));
  }

  lemma NormAllPermutation(a: seq<Option<string>>, b: seq<Option<string>>)
    requires multiset(a) == multiset(b)
    ensures multiset(NormAll(a)) == multiset(NormAll(b))
  {
    MapPermutation(NormOrEmpty, a, b);
  }

  /** Reordering the ingredient lines leaves the signature unchanged. */
  lemma SignaturePermutationInvariant(hash: string -> string, title: string, a: seq<Option<string>>, b: seq<Option<string>>)
    requires multiset(a) == multiset(b)
    ensures MakeSignature(hash, title, a) == MakeSignature(hash, title, b)
  {
    NormAllPermutation(a, b);
    SignatureDependsOnNormalForms(title, a, title, b);
  }

  /** Changing the case or spacing of the title or of any line, or reordering the lines,
      leaves the signature unchanged: `b` is a reordering of lines with the same normal
      forms as those of `a`. */
  lemma SignatureCaseAndSpacingInvariant(hash: string -> string, t1: string, a: seq<Option<string>>,
                                         t2: string, b: seq<Option<string>>, b0: seq<Option<string>>)
    requires Norm(t1) == Norm(t2)
    requires |a| == |b0| && forall i | 0 <= i < |a| :: NormOrEmpty(a[i]) == NormOrEmpty(b0[i])
    requires multiset(b0) == multiset(b)
    ensures MakeSignature(hash, t1, a) == MakeSignature(hash, t2, b)
  {
    assert NormAll(a) == NormAll(b0);
    NormAllPermutation(b0, b);
    SignatureDependsOnNormalForms(t1, a, t2, b);
  }

  /** For non-empty ingredient lists whose normal forms hold no "|", the base string
      determines the normalised title and the multiset of normalised lines: contents that
      differ there give different base strings. */
  lemma SignatureBaseInjective(t1: string, a: seq<Option<string>>, t2: string, b: seq<Option<string>>)
    requires |a| >= 1 && |b| >= 1
    requires '|' !in Norm(t1) && '|' !in Norm(t2)
    requires forall i | 0 <= i < |a| :: '|' !in NormOrEmpty(a[i])
    requires forall i | 0 <= i < |b| :: '|' !in NormOrEmpty(b[i])
    requires SignatureBase(t1, a) == SignatureBase(t2, b)
    ensures Norm(t1) == Norm(t2)
    ensures multiset(NormAll(a)) == multiset(NormAll(b))
  {
    var xa, xb := NormAll(a), NormAll(b);
    NoBarInNormAll(a);
    NoBarInNormAll(b);
    NoBarAfterSort(xa);
    NoBarAfterSort(xb);
    BarJoinInjective(Norm(t1), SortStrings(xa), Norm(t2), SortStrings(xb));
  }

  /** With no "|" inside any field and at least one field, BarJoin can be undone. */
  lemma BarJoinInjective(h1: string, f1: seq<string>, h2: string, f2: seq<string>)
    requires |f1| >= 1 && |f2| >= 1
    requires '|' !in h1 && '|' !in h2
    requires forall k | 0 <= k < |f1| :: '|' !in f1[k]
    requires forall k | 0 <= k < |f2| :: '|' !in f2[k]
    requires BarJoin(h1, f1) == BarJoin(h2, f2)
    ensures h1 == h2 && f1 == f2
  {
    JoinCons("|", h1, f1);
    JoinCons("|", h2, f2);
    SplitJoin('|', [h1] + f1);
    SplitJoin('|', [h2] + f2);
    assert ([h1] + f1)[1..] == f1;
    assert ([h2] + f2)[1..] == f2;
  }

  lemma NoBarInNormAll(a: seq<Option<string>>)
    requires forall i | 0 <= i < |a| :: '|' !in NormOrEmpty(a[i])
    ensures forall i | 0 <= i < |NormAll(a)| :: '|' !in NormAll(a)[i]
  {
  }

  lemma NoBarAfterSort(xs: seq<string>)
    requires forall i | 0 <= i < |xs| :: '|' !in xs[i]
    ensures |SortStrings(xs)| == |xs|
    ensures forall k | 0 <= k < |SortStrings(xs)| :: '|' !in SortStrings(xs)[k]
  {
    var s := SortStrings(xs);
    assert |s| == |multiset(s)| == |multiset(xs)| == |xs|;
    forall k | 0 <= k < |s|
      ensures '|' !in s[k]
    {
      assert s[k] in multiset(xs);
    }
  }

  /** The empty ingredient list and a list holding one blank line share a base string:
      blank lines are hashed, not dropped, and "|".join of [""] is "". */
  lemma EmptyAndBlankListsCollide(title: string)
    ensures SignatureBase(title, []) == SignatureBase(title, [Some("")])
    ensures SignatureBase(title, []) == Norm(title) + "|"
  {
    NormBlank("");
    assert NormOrEmpty(Some("")) == "";
    var xs := NormAll([Some("")]);
    assert xs == [""];
    assert SortStrings(xs) == [""];
    assert JoinWith("|", SortStrings(xs)) == "";
    assert NormAll([]) == [];
    assert JoinWith("|", SortStrings([])) == "";
  }
}
