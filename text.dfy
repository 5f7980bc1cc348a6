/** Text helpers of the ETL: Python's whitespace, str.strip, str.lower, str.split and
    str.join as the ETL uses them, and `norm`, the normaliser every other step leans on. */
module Text {
  import opened Wrappers

  // ---------- characters ----------

  /** Python's str.isspace(): what str.split() and str.strip() treat as whitespace. */
  predicate IsSpace(c: char) {
    c == ' ' || ('\t' <= c <= '\r') || ('\U{1C}' <= c <= '\U{1F}')
    || c == '\U{85}' || c == '\U{A0}' || c == '\U{1680}'
    || ('\U{2000}' <= c <= '\U{200A}') || c == '\U{2028}' || c == '\U{2029}'
    || c == '\U{202F}' || c == '\U{205F}' || c == '\U{3000}'
  }

  predicate IsUpper(c: char) { 'A' <= c <= 'Z' }

  function LowerChar(c: char): (d: char)
    ensures !IsUpper(d)
    ensures IsSpace(d) <==> IsSpace(c)
    ensures !IsUpper(c) ==> d == c
  {
    if IsUpper(c) then (c as int + 32) as char else c
  }

  /** str.lower() on the ASCII letters. */
  function Lower(s: string): (r: string)
    ensures |r| == |s|
    ensures forall i | 0 <= i < |s| :: r[i] == LowerChar(s[i])
  {
    seq(|s|, i requires 0 <= i < |s| => LowerChar(s[i]))
  }

  predicate NoUpper(s: string) {
    forall i | 0 <= i < |s| :: !IsUpper(s[i])
  }

  // ---------- strip ----------

  function LStrip(s: string): string
    decreases |s|
  {
    if s != [] && IsSpace(s[0]) then LStrip(s[1..]) else s
  }

  function RStrip(s: string): string
    decreases |s|
  {
    if s != [] && IsSpace(s[|s| - 1]) then RStrip(s[..|s| - 1]) else s
  }

  /** lstrip drops exactly the leading whitespace. */
  lemma {:induction false} LStripSpec(s: string)
    ensures |LStrip(s)| <= |s| && LStrip(s) == s[|s| - |LStrip(s)|..]
    ensures LStrip(s) != [] ==> !IsSpace(LStrip(s)[0])
    ensures forall i | 0 <= i < |s| - |LStrip(s)| :: IsSpace(s[i])
    decreases |s|
  {
    if s != [] && IsSpace(s[0]) {
      LStripSpec(s[1..]);
    }
  }

  /** rstrip drops exactly the trailing whitespace. */
  lemma {:induction false} RStripSpec(s: string)
    ensures |RStrip(s)| <= |s| && RStrip(s) == s[..|RStrip(s)|]
    ensures RStrip(s) != [] ==> !IsSpace(RStrip(s)[|RStrip(s)| - 1])
    ensures forall i | |RStrip(s)| <= i < |s| :: IsSpace(s[i])
    decreases |s|
  {
    if s != [] && IsSpace(s[|s| - 1]) {
      RStripSpec(s[..|s| - 1]);
    }
  }

  /** str.strip(): drops leading and trailing whitespace and keeps the rest as it is. */
  function Strip(s: string): (r: string)
    ensures r != [] ==> !IsSpace(r[0]) && !IsSpace(r[|r| - 1])
    ensures r == [] <==> forall i | 0 <= i < |s| :: IsSpace(s[i])
    ensures var k := |s| - |LStrip(s)|;
      && 0 <= k && k + |r| <= |s| && r == s[k..k + |r|]
      && forall i | 0 <= i < |s| && (i < k || k + |r| <= i) :: IsSpace(s[i])
  {
    StripSpec(s);
    RStrip(LStrip(s))
  }

  lemma StripSpec(s: string)
    ensures var r := RStrip(LStrip(s));
      && (r != [] ==> !IsSpace(r[0]) && !IsSpace(r[|r| - 1]))
      && (r == [] <==> forall i | 0 <= i < |s| :: IsSpace(s[i]))
    ensures var r := RStrip(LStrip(s)); var k := |s| - |LStrip(s)|;
      && 0 <= k && k + |r| <= |s| && r == s[k..k + |r|]
      && forall i | 0 <= i < |s| && (i < k || k + |r| <= i) :: IsSpace(s[i])
  {
    var t := LStrip(s);
    var r := RStrip(t);
    LStripSpec(s);
    RStripSpec(t);
    var k := |s| - |t|;
    if r != [] {
      assert r[0] == t[0];
      assert r[0] == s[k];
    }
    forall i | 0 <= i < |s| && k + |r| <= i
      ensures IsSpace(s[i])
    {
      assert s[i] == t[i - k];
    }
  }

  /** Every character strip keeps comes from its input. */
  lemma StripChars(s: string)
    ensures forall i | 0 <= i < |Strip(s)| :: Strip(s)[i] in s
  {
    var t := LStrip(s);
    var r := RStrip(t);
    LStripSpec(s);
    RStripSpec(t);
    var k := |s| - |t|;
    assert t == s[k..];
    assert r == t[..|r|];
    forall i | 0 <= i < |r|
      ensures r[i] in s
    {
      assert r[i] == s[k + i];
    }
  }

  // ---------- split on whitespace ----------

  /** Length of the run of non-whitespace characters that starts `s`. */
  function WordLen(s: string): (n: nat)
    ensures n <= |s|
    ensures s != [] && !IsSpace(s[0]) ==> n > 0
  {
    if s == [] || IsSpace(s[0]) then 0 else 1 + WordLen(s[1..])
  }

  /** WordLen(s) is the length of the longest space-free prefix of s. */
  lemma {:induction false} WordLenSpec(s: string)
    ensures forall i | 0 <= i < WordLen(s) :: !IsSpace(s[i])
    ensures WordLen(s) < |s| ==> IsSpace(s[WordLen(s)])
  {
    if s != [] && !IsSpace(s[0]) {
      WordLenSpec(s[1..]);
    }
  }

  predicate IsWord(w: string) {
    w != [] && forall i | 0 <= i < |w| :: !IsSpace(w[i])
  }

  /** str.split() with no separator: the maximal runs of non-whitespace, in order. */
  function Words(s: string): (ws: seq<string>)
    decreases |s|
  {
    if s == [] then []
    else if IsSpace(s[0]) then Words(s[1..])
    else
      var n := WordLen(s);
      [s[..n]] + Words(s[n..])
  }

  /** Every element of a split is a non-empty run of non-whitespace. */
  lemma {:induction false} WordsAreWords(s: string)
    ensures forall k | 0 <= k < |Words(s)| :: IsWord(Words(s)[k])
    decreases |s|
  {
    if s != [] {
      if IsSpace(s[0]) {
        WordsAreWords(s[1..]);
      } else {
        WordLenSpec(s);
        WordsAreWords(s[WordLen(s)..]);
      }
    }
  }

  /** A whitespace character between two strings separates their words. */
  lemma {:induction false} WordsAroundSpace(a: string, c: char, b: string)
    requires IsSpace(c)
    ensures Words(a + [c] + b) == Words(a) + Words(b)
    decreases |a|
  {
    if a == [] {
      var s := a + [c] + b;
      assert s[0] == c && s[1..] == b;
      WordsSkip(s);
    } else if IsSpace(a[0]) {
      WordsAroundSpace(a[1..], c, b);
      SpaceStep(a, c, b);
    } else {
      WordsAroundSpace(a[WordLen(a)..], c, b);
      WordStep(a, c, b);
    }
  }

  /** Inductive step of WordsAroundSpace when a starts with a space. */
  lemma SpaceStep(a: string, c: char, b: string)
    requires IsSpace(c) && a != [] && IsSpace(a[0])
    requires Words(a[1..] + [c] + b) == Words(a[1..]) + Words(b)
    ensures Words(a + [c] + b) == Words(a) + Words(b)
  {
    var s := a + [c] + b;
    assert s[0] == a[0] && s[1..] == a[1..] + [c] + b;
    WordsSkip(s);
    WordsSkip(a);
  }

  /** Inductive step of WordsAroundSpace when a starts with a word. */
  lemma WordStep(a: string, c: char, b: string)
    requires IsSpace(c) && a != [] && !IsSpace(a[0])
    requires Words(a[WordLen(a)..] + [c] + b) == Words(a[WordLen(a)..]) + Words(b)
    ensures Words(a + [c] + b) == Words(a) + Words(b)
  {
    var s := a + [c] + b;
    var n := WordLen(a);
    FirstWordAroundSpace(a, c, b);
    WordsTake(s, n);
    WordsTake(a, n);
  }

  /** The first word of a + [c] + b is the first word of a when a starts with one. */
  lemma FirstWordAroundSpace(a: string, c: char, b: string)
    requires IsSpace(c) && a != [] && !IsSpace(a[0])
    ensures var s := a + [c] + b; var n := WordLen(a);
      s != [] && !IsSpace(s[0]) && WordLen(s) == n && s[..n] == a[..n] && s[n..] == a[n..] + [c] + b
  {
    WordLenAroundSpace(a, c, b);
    assert (a + [c] + b)[0] == a[0];
  }

  lemma WordsSkip(s: string)
    requires s != [] && IsSpace(s[0])
    ensures Words(s) == Words(s[1..])
  {
  }

  lemma WordsTake(s: string, n: nat)
    requires s != [] && !IsSpace(s[0]) && n == WordLen(s)
    ensures Words(s) == [s[..n]] + Words(s[n..])
  {
  }

  lemma {:induction false} WordLenAroundSpace(a: string, c: char, b: string)
    requires IsSpace(c)
    ensures WordLen(a + [c] + b) == WordLen(a)
    decreases |a|
  {
    if a != [] && !IsSpace(a[0]) {
      assert (a + [c] + b)[1..] == a[1..] + [c] + b;
      WordLenAroundSpace(a[1..], c, b);
    }
  }

  // ---------- mapping over a sequence ----------

  /** [f(x) for x in s] */
  function MapSeq<A, B>(f: A -> B, s: seq<A>): (r: seq<B>)
    ensures |r| == |s|
    ensures forall i | 0 <= i < |s| :: r[i] == f(s[i])
  {
    seq(|s|, i requires 0 <= i < |s| => f(s[i]))
  }

  lemma MapConcat<A, B>(f: A -> B, x: seq<A>, y: seq<A>)
    ensures MapSeq(f, x + y) == MapSeq(f, x) + MapSeq(f, y)
  {
  }

  /** Applying a function elementwise keeps permutations permutations. */
  lemma {:induction false} MapPermutation<A, B>(f: A -> B, a: seq<A>, b: seq<A>)
    requires multiset(a) == multiset(b)
    ensures multiset(MapSeq(f, a)) == multiset(MapSeq(f, b))
    decreases |a|
  {
    if a == [] {
      assert |multiset(b)| == 0;
    } else {
      var x := a[0];
      assert x in multiset(b);
      var j :| 0 <= j < |b| && b[j] == x;
      var b' := RemoveAt(a, b, j);
      MapPermutation(f, a[1..], b');
      MapRemoveAt(f, a, b, j);
    }
  }

  /** Taking the first element off one sequence and the same value off a permutation of
      it leaves two permutations. */
  lemma RemoveAt<A>(a: seq<A>, b: seq<A>, j: nat) returns (b': seq<A>)
    requires multiset(a) == multiset(b) && a != [] && j < |b| && b[j] == a[0]
    ensures b' == b[..j] + b[j + 1..]
    ensures multiset(a[1..]) == multiset(b')
  {
    b' := b[..j] + b[j + 1..];
    var x := a[0];
    assert b == b[..j] + [x] + b[j + 1..];
    assert a == [x] + a[1..];
    forall y
      ensures multiset(a[1..])[y] == multiset(b')[y]
    {
      assert multiset(a)[y] == multiset{x}[y] + multiset(a[1..])[y];
      assert multiset(b)[y] == multiset(b[..j])[y] + multiset{x}[y] + multiset(b[j + 1..])[y];
    }
  }

  lemma MapRemoveAt<A, B>(f: A -> B, a: seq<A>, b: seq<A>, j: nat)
    requires a != [] && j < |b| && b[j] == a[0]
    requires multiset(MapSeq(f, a[1..])) == multiset(MapSeq(f, b[..j] + b[j + 1..]))
    ensures multiset(MapSeq(f, a)) == multiset(MapSeq(f, b))
  {
    var x := a[0];
    var l, r := b[..j], b[j + 1..];
    assert a == [x] + a[1..];
    assert b == l + [x] + r;
    MapConcat(f, [x], a[1..]);
    MapConcat(f, l + [x], r);
    MapConcat(f, l, [x]);
    MapConcat(f, l, r);
  }

  // ---------- join and split on a separator ----------

  /** sep.join(parts). */
  function JoinWith(sep: string, parts: seq<string>): string {
    if |parts| == 0 then ""
    else if |parts| == 1 then parts[0]
    else parts[0] + sep + JoinWith(sep, parts[1..])
  }

  function IndexOf(c: char, s: string): (n: nat)
    ensures n <= |s|
    ensures n < |s| ==> s[n] == c
    ensures forall i | 0 <= i < n :: s[i] != c
  {
    if s == [] || s[0] == c then 0 else 1 + IndexOf(c, s[1..])
  }

  /** s.split(sep) for a one-character separator: empty parts are kept and there is
      always at least one part ("".split("\n") is [""]). */
  function SplitOn(sep: char, s: string): (parts: seq<string>)
    ensures |parts| >= 1
    decreases |s|
  {
    var n := IndexOf(sep, s);
    if n == |s| then [s] else [s[..n]] + SplitOn(sep, s[n + 1..])
  }

  /** No part of a split holds the separator. */
  lemma {:induction false} SplitOnNoSep(sep: char, s: string)
    ensures forall k | 0 <= k < |SplitOn(sep, s)| :: sep !in SplitOn(sep, s)[k]
    decreases |s|
  {
    var n := IndexOf(sep, s);
    if n < |s| {
      SplitOnNoSep(sep, s[n + 1..]);
    }
  }

  lemma {:induction false} JoinSnoc(sep: string, xs: seq<string>, y: string)
    ensures JoinWith(sep, xs + [y]) == if xs == [] then y else JoinWith(sep, xs) + sep + y
    decreases |xs|
  {
    if |xs| >= 2 {
      assert (xs + [y])[1..] == xs[1..] + [y];
      JoinSnoc(sep, xs[1..], y);
    } else if |xs| == 1 {
      assert (xs + [y])[1..] == [y];
    }
  }

  lemma JoinCons(sep: string, x: string, xs: seq<string>)
    requires xs != []
    ensures JoinWith(sep, [x] + xs) == x + sep + JoinWith(sep, xs)
  {
    assert ([x] + xs)[1..] == xs;
  }

  /** Joining the parts of a split with the separator gives the string back. */
  lemma {:induction false} JoinSplit(sep: char, s: string)
    ensures JoinWith([sep], SplitOn(sep, s)) == s
    decreases |s|
  {
    var n := IndexOf(sep, s);
    if n < |s| {
      var rest := SplitOn(sep, s[n + 1..]);
      assert SplitOn(sep, s) == [s[..n]] + rest;
      JoinSplit(sep, s[n + 1..]);
      JoinCons([sep], s[..n], rest);
      assert s == s[..n] + [sep] + s[n + 1..];
    }
  }

  /** Splitting a join of separator-free parts gives the parts back. */
  lemma {:induction false} SplitJoin(sep: char, parts: seq<string>)
    requires |parts| >= 1
    requires forall k | 0 <= k < |parts| :: sep !in parts[k]
    ensures SplitOn(sep, JoinWith([sep], parts)) == parts
    decreases |parts|
  {
    var p := parts[0];
    if |parts| == 1 {
    } else {
      var rest := JoinWith([sep], parts[1..]);
      var s := p + [sep] + rest;
      assert s == JoinWith([sep], parts);
      assert forall i | 0 <= i < |p| :: s[i] == p[i];
      assert s[|p|] == sep;
      var n := IndexOf(sep, s);
      assert n == |p|;
      assert s[..n] == p && s[n + 1..] == rest;
      SplitJoin(sep, parts[1..]);
    }
  }

  // ---------- norm ----------

  /** The shape of `norm`'s output: lower case, no whitespace at either end, and plain
      single spaces as the only whitespace. */
  predicate IsNormal(t: string) {
    && NoUpper(t)
    && (t != [] ==> !IsSpace(t[0]) && !IsSpace(t[|t| - 1]))
    && (forall i | 0 <= i < |t| && IsSpace(t[i]) :: t[i] == ' ')
    && (forall i, j | 0 <= i && j == i + 1 < |t| && IsSpace(t[i]) :: !IsSpace(t[j]))
  }

  /** norm(s) = " ".join(s.strip().lower().split()). */
  function Norm(s: string): string {
    JoinWith(" ", Words(Lower(Strip(s))))
  }

  /** What `norm` returns is in normal form. */
  lemma NormIsNormal(s: string)
    ensures IsNormal(Norm(s))
  {
    WordsNoUpper(Lower(Strip(s)));
    WordsAreWords(Lower(Strip(s)));
    JoinNormal(Words(Lower(Strip(s))));
  }

  /** norm(s) where s may be None: `(s or "")` turns None into "". */
  function NormOrEmpty(s: Option<string>): (r: string)
    ensures s == None ==> r == ""
  {
    Norm(s.GetOr(""))
  }

  lemma {:induction false} WordsNoUpper(s: string)
    requires NoUpper(s)
    ensures forall k | 0 <= k < |Words(s)| :: NoUpper(Words(s)[k])
    decreases |s|
  {
    if s != [] {
      if IsSpace(s[0]) {
        WordsNoUpper(s[1..]);
      } else {
        var n := WordLen(s);
        WordsNoUpper(s[n..]);
      }
    }
  }

  lemma {:induction false} JoinNormal(ws: seq<string>)
    requires forall k | 0 <= k < |ws| :: IsWord(ws[k]) && NoUpper(ws[k])
    ensures IsNormal(JoinWith(" ", ws))
    ensures ws != [] ==> JoinWith(" ", ws) != []
    decreases |ws|
  {
    if |ws| >= 2 {
      var w := ws[0];
      var r := JoinWith(" ", ws[1..]);
      JoinNormal(ws[1..]);
      var t := w + " " + r;
      assert t == JoinWith(" ", ws);
      assert forall i | 0 <= i < |t| && i > |w| :: t[i] == r[i - |w| - 1];
      assert t[|t| - 1] == r[|r| - 1];
      forall i, j | 0 <= i && j == i + 1 < |t| && IsSpace(t[i])
        ensures !IsSpace(t[j])
      {
        if i == |w| { assert t[j] == r[0]; }
        else { assert t[i] == r[i - |w| - 1] && t[j] == r[j - |w| - 1]; }
      }
    }
  }

  /** A string already in normal form is the space-join of its own words. */
  lemma {:induction false} NormalJoinWords(t: string)
    requires IsNormal(t)
    ensures JoinWith(" ", Words(t)) == t
    decreases |t|
  {
    if t != [] {
      var n := WordLen(t);
      if n < |t| {
        var u := NormalTail(t, n);
        NormalJoinWords(u);
        JoinAfterWord(t, t[..n], u);
      } else {
        SingleWord(t);
      }
    }
  }

  lemma JoinAfterWord(t: string, w: string, u: string)
    requires t == w + " " + u && Words(u) != []
    requires Words(t) == [w] + Words(u) && JoinWith(" ", Words(u)) == u
    ensures JoinWith(" ", Words(t)) == t
  {
    JoinCons(" ", w, Words(u));
  }

  lemma SingleWord(t: string)
    requires t != [] && WordLen(t) == |t|
    ensures Words(t) == [t]
  {
    assert t[..|t|] == t && t[|t|..] == [];
  }

  /** Past the first word of a normal string with more than one word come one space
      and another normal string. */
  lemma NormalTail(t: string, n: nat) returns (u: string)
    requires IsNormal(t) && t != [] && n == WordLen(t) && n < |t|
    ensures n + 1 < |t| && u == t[n + 1..] && t[n] == ' ' && u != [] && Words(u) != []
    ensures t == t[..n] + " " + u
    ensures IsNormal(u)
    ensures Words(t) == [t[..n]] + Words(u)
  {
    NormalGap(t, n);
    u := t[n + 1..];
    NormalSuffix(t, n + 1);
    WordsAfterSpace(t, n);
    assert t == t[..n] + [t[n]] + u;
  }

  /** In a normal form, the first word is followed by exactly one space and then a non-space. */
  lemma NormalGap(t: string, n: nat)
    requires IsNormal(t) && t != [] && n == WordLen(t) && n < |t|
    ensures n + 1 < |t| && t[n] == ' ' && !IsSpace(t[n + 1])
  {
    WordLenSpec(t);
    assert IsSpace(t[n]);
    assert n < |t| - 1;
  }

  lemma NormalSuffix(t: string, m: nat)
    requires IsNormal(t) && m < |t| && !IsSpace(t[m])
    ensures IsNormal(t[m..])
  {
    var u := t[m..];
    forall i, j | 0 <= i && j == i + 1 < |u| && IsSpace(u[i])
      ensures !IsSpace(u[j])
    {
      assert u[i] == t[m + i] && u[j] == t[m + j];
    }
  }

  lemma WordsAfterSpace(t: string, n: nat)
    requires t != [] && !IsSpace(t[0]) && n == WordLen(t) && n < |t|
    ensures Words(t) == [t[..n]] + Words(t[n + 1..])
  {
    WordLenSpec(t);
    assert Words(t) == [t[..n]] + Words(t[n..]);
    assert t[n..][0] == t[n] && t[n..][1..] == t[n + 1..];
  }

  /** The fixed points of `norm` are exactly the strings in normal form. */
  lemma NormFixedPoints(t: string)
    ensures Norm(t) == t <==> IsNormal(t)
  {
    NormIsNormal(t);
    if IsNormal(t) {
      NormOfNormal(t);
    }
  }

  lemma NormOfNormal(t: string)
    requires IsNormal(t)
    ensures Norm(t) == t
  {
    assert LStrip(t) == t;
    assert RStrip(t) == t;
    assert Lower(t) == t;
    NormalJoinWords(t);
  }

  /** `norm` is idempotent. */
  lemma NormIdempotent(s: string)
    ensures Norm(Norm(s)) == Norm(s)
  {
    NormIsNormal(s);
    NormFixedPoints(Norm(s));
  }

  /** `norm` keeps the words of its input, in order, each lowercased, and joins them
      with single spaces. */
  lemma NormKeepsWords(s: string)
    ensures Norm(s) == JoinWith(" ", MapSeq(Lower, Words(s)))
  {
    WordsOfStrip(s);
    WordsOfLower(Strip(s));
  }

  /** Stripping changes no word. */
  lemma WordsOfStrip(s: string)
    ensures Words(Strip(s)) == Words(s)
  {
    WordsOfLStrip(s);
    WordsOfRStrip(LStrip(s));
  }

  lemma {:induction false} WordsOfLStrip(s: string)
    ensures Words(LStrip(s)) == Words(s)
    decreases |s|
  {
    if s != [] && IsSpace(s[0]) {
      WordsOfLStrip(s[1..]);
      WordsSkip(s);
    }
  }

  lemma {:induction false} WordsOfRStrip(s: string)
    ensures Words(RStrip(s)) == Words(s)
    decreases |s|
  {
    if s != [] && IsSpace(s[|s| - 1]) {
      var init := s[..|s| - 1];
      WordsOfRStrip(init);
      assert s == init + [s[|s| - 1]] + [];
      WordsAroundSpace(init, s[|s| - 1], []);
    }
  }

  /** Lowercasing a string lowercases each of its words and keeps their boundaries. */
  lemma {:induction false} WordsOfLower(t: string)
    ensures Words(Lower(t)) == MapSeq(Lower, Words(t))
    decreases |t|
  {
    var u := Lower(t);
    if t != [] {
      assert u[1..] == Lower(t[1..]);
      if IsSpace(t[0]) {
        WordsOfLower(t[1..]);
        WordsSkip(u);
        WordsSkip(t);
      } else {
        var n := WordLen(t);
        WordLenOfLower(t);
        assert u[..n] == Lower(t[..n]) && u[n..] == Lower(t[n..]);
        WordsOfLower(t[n..]);
        WordsTake(u, n);
        WordsTake(t, n);
        MapConcat(Lower, [t[..n]], Words(t[n..]));
      }
    }
  }

  lemma {:induction false} WordLenOfLower(t: string)
    ensures WordLen(Lower(t)) == WordLen(t)
    decreases |t|
  {
    if t != [] {
      assert Lower(t)[1..] == Lower(t[1..]);
      WordLenOfLower(t[1..]);
    }
  }

  /** `norm` maps exactly the all-whitespace strings (the empty one among them) to "". */
  lemma NormBlank(s: string)
    ensures Norm(s) == "" <==> forall i | 0 <= i < |s| :: IsSpace(s[i])
  {
    var t := Lower(Strip(s));
    if Strip(s) != [] {
      assert !IsSpace(t[0]);
      var ws := Words(t);
      assert ws == [t[..WordLen(t)]] + Words(t[WordLen(t)..]);
      WordsNoUpper(t);
      WordsAreWords(t);
      JoinNormal(ws);
    }
  }
}
