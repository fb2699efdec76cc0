/** String order and sorting, as Go's sort.Strings and slices.Sort provide them, and substring search. */
module Strings {
  predicate AtMost(a: string, b: string) {
    |a| == 0 || (|b| > 0 && (a[0] < b[0] || (a[0] == b[0] && AtMost(a[1..], b[1..]))))
  }

  lemma {:induction false} AtMostTotal(a: string, b: string)
    ensures AtMost(a, b) || AtMost(b, a)
  {
    if |a| > 0 && |b| > 0 {
      AtMostTotal(a[1..], b[1..]);
    }
  }

  lemma {:induction false} AtMostAntisymmetric(a: string, b: string)
    requires AtMost(a, b) && AtMost(b, a)
    ensures a == b
  {
    if |a| > 0 && |b| > 0 {
      AtMostAntisymmetric(a[1..], b[1..]);
      assert a == [a[0]] + a[1..] && b == [b[0]] + b[1..];
    }
  }

  lemma {:induction false} AtMostTransitive(a: string, b: string, c: string)
    requires AtMost(a, b) && AtMost(b, c)
    ensures AtMost(a, c)
  {
    if |a| > 0 && a[0] == b[0] && b[0] == c[0] {
      AtMostTransitive(a[1..], b[1..], c[1..]);
    }
  }

  /** The dictionary order by character code, spelled out: a is a prefix, or smaller where the two first differ. */
  ghost predicate ComesFirst(a: string, b: string) {
    a <= b || exists k :: 0 <= k < |a| && k < |b| && a[..k] == b[..k] && a[k] < b[k]
  }

  lemma {:induction false} AtMostIsLexical(a: string, b: string)
    ensures AtMost(a, b) <==> ComesFirst(a, b)
  {
    if |a| > 0 && |b| > 0 {
      AtMostIsLexical(a[1..], b[1..]);
      if a[0] == b[0] {
        TailsDecide(a, b);
      } else if a[0] < b[0] {
        assert a[..0] == b[..0];
      }
    }
  }

  /** Where the first characters agree the rest decides. */
  lemma TailsDecide(a: string, b: string)
    requires |a| > 0 && |b| > 0 && a[0] == b[0]
    ensures ComesFirst(a, b) <==> ComesFirst(a[1..], b[1..])
  {
    var s, t := a[1..], b[1..];
    assert a == [a[0]] + s && b == [b[0]] + t;
    if k: nat :| k < |s| && k < |t| && s[..k] == t[..k] && s[k] < t[k] {
      assert a[..k + 1] == [a[0]] + s[..k] && b[..k + 1] == [b[0]] + t[..k];
      assert a[k + 1] < b[k + 1];
    }
    if k: nat :| k < |a| && k < |b| && a[..k] == b[..k] && a[k] < b[k] {
      assert k > 0;
      assert s[..k - 1] == a[..k][1..] && t[..k - 1] == b[..k][1..];
      assert s[k - 1] < t[k - 1];
    }
  }

  ghost predicate IsSorted(xs: seq<string>) {
    forall i, j :: 0 <= i < j < |xs| ==> AtMost(xs[i], xs[j])
  }

  /** x put into a sorted sequence. */
  function Inserted(xs: seq<string>, x: string): (ys: seq<string>)
    requires IsSorted(xs)
    ensures IsSorted(ys) && multiset(ys) == multiset(xs) + multiset{x} && |ys| == |xs| + 1
  {
    if |xs| == 0 then [x]
    else
      var n := |xs| - 1;
      assert xs == xs[..n] + [xs[n]];
      if AtMost(xs[n], x) then
        SortedAppend(xs, x);
        xs + [x]
      else
        AtMostTotal(xs[n], x);
        var ys := Inserted(xs[..n], x);
        BoundedBy(ys, xs[..n], x, xs[n]);
        SortedAppend(ys, xs[n]);
        ys + [xs[n]]
  }

  lemma SortedAppend(xs: seq<string>, x: string)
    requires IsSorted(xs) && forall i :: 0 <= i < |xs| ==> |xs| > 0 && (AtMost(xs[|xs| - 1], x) || AtMost(xs[i], x))
    ensures IsSorted(xs + [x])
  {
    forall i | 0 <= i < |xs|
      ensures AtMost(xs[i], x)
    {
      if !AtMost(xs[i], x) && i < |xs| - 1 {
        AtMostTransitive(xs[i], xs[|xs| - 1], x);
      }
    }
  }

  lemma BoundedBy(ys: seq<string>, xs: seq<string>, x: string, top: string)
    requires multiset(ys) == multiset(xs) + multiset{x} && AtMost(x, top)
    requires forall i :: 0 <= i < |xs| ==> AtMost(xs[i], top)
    ensures forall i :: 0 <= i < |ys| ==> AtMost(ys[i], top)
  {
    forall i | 0 <= i < |ys|
      ensures AtMost(ys[i], top)
    {
      assert ys[i] in multiset(ys);
      assert ys[i] in xs || ys[i] == x;
    }
  }

  function Sorted(xs: seq<string>): (ys: seq<string>)
    ensures IsSorted(ys) && multiset(ys) == multiset(xs) && |ys| == |xs|
  {
    if |xs| == 0 then []
    else
      assert xs == xs[..|xs| - 1] + [xs[|xs| - 1]];
      Inserted(Sorted(xs[..|xs| - 1]), xs[|xs| - 1])
  }

  lemma WithoutLast(xs: seq<string>)
    requires |xs| > 0 && IsSorted(xs)
    ensures var n := |xs| - 1;
            && xs == xs[..n] + [xs[n]] && IsSorted(xs[..n])
            && multiset(xs[..n]) == multiset(xs) - multiset{xs[n]}
  {
    assert xs == xs[..|xs| - 1] + [xs[|xs| - 1]];
  }

  lemma SameTop(xs: seq<string>, ys: seq<string>)
    requires IsSorted(xs) && IsSorted(ys) && multiset(xs) == multiset(ys) && |xs| == |ys| > 0
    ensures xs[|xs| - 1] == ys[|ys| - 1]
  {
    TopIsBound(xs, ys);
    TopIsBound(ys, xs);
    AtMostAntisymmetric(xs[|xs| - 1], ys[|ys| - 1]);
  }

  /** Sorted sequences with the same elements are equal. */
  lemma {:induction false} SortedUnique(xs: seq<string>, ys: seq<string>)
    requires IsSorted(xs) && IsSorted(ys) && multiset(xs) == multiset(ys) && |xs| == |ys|
    ensures xs == ys
  {
    if |xs| > 0 {
      var n := |xs| - 1;
      SameTop(xs, ys);
      WithoutLast(xs);
      WithoutLast(ys);
      SortedUnique(xs[..n], ys[..n]);
    }
  }

  lemma TopIsBound(xs: seq<string>, ys: seq<string>)
    requires IsSorted(ys) && multiset(xs) == multiset(ys) && |xs| == |ys| > 0
    ensures AtMost(xs[|xs| - 1], ys[|ys| - 1])
  {
    assert xs[|xs| - 1] in multiset(xs);
    assert xs[|xs| - 1] in ys;
    var i :| 0 <= i < |ys| && ys[i] == xs[|xs| - 1];
    if i == |ys| - 1 {
      AtMostTotal(ys[i], ys[i]);
    }
  }

  /** The effect of the library sort, in place. */
  method SortInPlace(a: array<string>)
    modifies a
    ensures a[..] == Sorted(old(a[..]))
  {
    var sorted := Sorted(a[..]);
    forall i | 0 <= i < a.Length {
      a[i] := sorted[i];
    }
  }

  // ----- Substrings -----

  predicate OccursAt(s: string, part: string, i: nat) {
    i + |part| <= |s| && s[i..i + |part|] == part
  }

  ghost predicate Contains(s: string, part: string) {
    exists i: nat :: OccursAt(s, part, i)
  }

  /** The first occurrence at or after i, or -1. */
  function IndexFrom(s: string, part: string, i: nat): (k: int)
    ensures k >= 0 ==> k >= i && OccursAt(s, part, k) && forall j: nat :: i <= j < k ==> !OccursAt(s, part, j)
    ensures k < 0 ==> forall j: nat :: i <= j ==> !OccursAt(s, part, j)
    decreases |s| - i
  {
    if i + |part| > |s| then -1
    else if OccursAt(s, part, i) then i
    else IndexFrom(s, part, i + 1)
  }

  /** Go's unicode.IsSpace. */
  predicate IsSpace(c: char) {
    c in {'\t', '\n', '\U{0B}', '\U{0C}', '\r', ' ', '\U{85}', '\U{A0}', '\U{1680}', '\U{2028}', '\U{2029}', '\U{202F}',
          '\U{205F}', '\U{3000}'}
    || '\U{2000}' <= c <= '\U{200A}'
  }

  /** The spaces by code point. */
  lemma SpaceCodes(c: char)
    ensures IsSpace(c) <==>
            var n := c as int;
            || 9 <= n <= 13 || n == 32 || n == 133 || n == 160 || n == 5760 || 8192 <= n <= 8202
            || n == 8232 || n == 8233 || n == 8239 || n == 8287 || n == 12288
  {
  }

  function TrimLeft(s: string): string {
    if |s| > 0 && IsSpace(s[0]) then TrimLeft(s[1..]) else s
  }

  function TrimRight(s: string): string {
    if |s| > 0 && IsSpace(s[|s| - 1]) then TrimRight(s[..|s| - 1]) else s
  }

  lemma {:induction false} TrimLeftCut(s: string)
    ensures var t := TrimLeft(s);
            && |t| <= |s| && t == s[|s| - |t|..]
            && (forall i :: 0 <= i < |s| - |t| ==> IsSpace(s[i]))
            && (|t| > 0 ==> !IsSpace(t[0]))
  {
    if |s| > 0 && IsSpace(s[0]) {
      TrimLeftCut(s[1..]);
      var t := TrimLeft(s[1..]);
      assert forall i :: 0 < i < |s| - |t| ==> s[i] == s[1..][i - 1];
    }
  }

  lemma {:induction false} TrimRightCut(s: string)
    ensures var t := TrimRight(s);
            && |t| <= |s| && t == s[..|t|]
            && (forall i :: |t| <= i < |s| ==> IsSpace(s[i]))
            && (|t| > 0 ==> !IsSpace(t[|t| - 1]))
  {
    if |s| > 0 && IsSpace(s[|s| - 1]) {
      TrimRightCut(s[..|s| - 1]);
    }
  }

  function TrimSpace(s: string): string {
    TrimRight(TrimLeft(s))
  }

  lemma OccursInSuffix(s: string, part: string, cut: nat, i: nat)
    requires cut <= |s|
    ensures OccursAt(s[cut..], part, i) <==> OccursAt(s, part, cut + i)
  {
    if cut + i + |part| <= |s| {
      assert s[cut..][i..i + |part|] == s[cut + i..cut + i + |part|];
    }
  }

  /** Cutting spaces off the left neither adds nor removes an occurrence of text that starts visibly. */
  lemma TrimLeftKeeps(s: string, part: string)
    requires |part| > 0 && !IsSpace(part[0])
    ensures Contains(TrimLeft(s), part) <==> Contains(s, part)
  {
    TrimLeftCut(s);
    var cut := |s| - |TrimLeft(s)|;
    if Contains(TrimLeft(s), part) {
      var i: nat :| OccursAt(TrimLeft(s), part, i);
      OccursInSuffix(s, part, cut, i);
    } else if Contains(s, part) {
      var i: nat :| OccursAt(s, part, i);
      assert s[i] == s[i..i + |part|][0];
      OccursInSuffix(s, part, cut, i - cut);
    }
  }

  lemma TrimRightKeeps(s: string, part: string)
    requires |part| > 0 && !IsSpace(part[|part| - 1])
    ensures Contains(TrimRight(s), part) <==> Contains(s, part)
  {
    TrimRightCut(s);
    var t := TrimRight(s);
    if Contains(t, part) {
      var i: nat :| OccursAt(t, part, i);
      assert s[i..i + |part|] == t[i..i + |part|];
      assert OccursAt(s, part, i);
    }
    if Contains(s, part) {
      var i: nat :| OccursAt(s, part, i);
      assert s[i + |part| - 1] == s[i..i + |part|][|part| - 1];
      assert t[i..i + |part|] == s[i..i + |part|];
      assert OccursAt(t, part, i);
    }
  }

  /** Trimming neither adds nor removes an occurrence of text that starts and ends with a visible character. */
  lemma TrimKeepsVisible(s: string, part: string)
    requires |part| > 0 && !IsSpace(part[0]) && !IsSpace(part[|part| - 1])
    ensures Contains(TrimSpace(s), part) <==> Contains(s, part)
  {
    TrimLeftKeeps(s, part);
    TrimRightKeeps(TrimLeft(s), part);
  }
}
