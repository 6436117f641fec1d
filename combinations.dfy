/**
 * Combinations of catalog entries, named by their positions: a combination is a
 * strictly increasing sequence of indices, so it uses no entry twice and keeps
 * catalog order. The enumeration in the optimizer visits combinations of one
 * size in lexicographic order of their indices.
 */
module Combinations {

  /** `c` is a strictly increasing sequence of indices into a sequence of length `len`. */
  ghost predicate IsCombo(c: seq<int>, len: int)
  {
    (forall j :: 0 <= j < |c| ==> 0 <= c[j] < len) &&
    (forall j, k :: 0 <= j < k < |c| ==> c[j] < c[k])
  }

  /** The entries of `s` at the indices `c`, in the order of `c`. */
  function Pick<T>(s: seq<T>, c: seq<int>): (r: seq<T>)
    requires forall j :: 0 <= j < |c| ==> 0 <= c[j] < |s|
    ensures |r| == |c|
    ensures forall j :: 0 <= j < |c| ==> r[j] == s[c[j]]
    decreases |c|
  {
    if c == [] then [] else [s[c[0]]] + Pick(s, c[1..])
  }

  /** Every index of `c` moved by `d`. */
  function Shift(c: seq<int>, d: int): (r: seq<int>)
    ensures |r| == |c|
    ensures forall j :: 0 <= j < |c| ==> r[j] == c[j] + d
  {
    seq(|c|, j requires 0 <= j < |c| => c[j] + d)
  }

  /** Lexicographic order on index sequences: `a` is enumerated before `b`. */
  ghost predicate LexLess(a: seq<int>, b: seq<int>)
    decreases |a|
  {
    |a| > 0 && |b| > 0 && (a[0] < b[0] || (a[0] == b[0] && LexLess(a[1..], b[1..])))
  }

  /** Moving both sides by the same amount keeps the lexicographic order. */
  lemma {:induction false} LexLessShift(a: seq<int>, b: seq<int>, d: int)
    ensures LexLess(Shift(a, d), Shift(b, d)) <==> LexLess(a, b)
    decreases |a|
  {
    if |a| > 0 && |b| > 0 {
      assert Shift(a, d)[1..] == Shift(a[1..], d);
      assert Shift(b, d)[1..] == Shift(b[1..], d);
      LexLessShift(a[1..], b[1..], d);
    }
  }

  /** A combination of `s[1..]`, moved up by one and headed by index 0, is a combination of `s`. */
  lemma {:induction false} TakeFirst<T>(s: seq<T>, c1: seq<int>)
    requires |s| > 0 && IsCombo(c1, |s| - 1)
    ensures IsCombo([0] + Shift(c1, 1), |s|)
    ensures Pick(s, [0] + Shift(c1, 1)) == [s[0]] + Pick(s[1..], c1)
  {
    var c := [0] + Shift(c1, 1);
    assert forall j :: 1 <= j < |c| ==> c[j] == c1[j - 1] + 1;
  }

  /** A combination of `s[1..]`, moved up by one, is a combination of `s` that skips index 0. */
  lemma {:induction false} SkipFirst<T>(s: seq<T>, c2: seq<int>)
    requires |s| > 0 && IsCombo(c2, |s| - 1)
    ensures IsCombo(Shift(c2, 1), |s|)
    ensures Pick(s, Shift(c2, 1)) == Pick(s[1..], c2)
  {
  }

  /** A nonempty combination of `s` that starts at index 0 comes from a combination of `s[1..]`. */
  lemma {:induction false} SplitFirst<T>(s: seq<T>, c: seq<int>)
    requires IsCombo(c, |s|) && |c| > 0 && c[0] == 0
    ensures IsCombo(Shift(c[1..], -1), |s| - 1)
    ensures c == [0] + Shift(Shift(c[1..], -1), 1)
    ensures Pick(s, c) == [s[0]] + Pick(s[1..], Shift(c[1..], -1))
  {
    var c1 := Shift(c[1..], -1);
    assert forall j :: 0 <= j < |c1| ==> c1[j] == c[j + 1] - 1;
    assert Shift(c1, 1) == c[1..];
  }

  /** A combination of `s` that does not start at index 0 comes from a combination of `s[1..]`. */
  lemma {:induction false} SplitSkip<T>(s: seq<T>, c: seq<int>)
    requires IsCombo(c, |s|) && |c| > 0 && c[0] != 0
    ensures IsCombo(Shift(c, -1), |s| - 1)
    ensures c == Shift(Shift(c, -1), 1)
    ensures Pick(s, c) == Pick(s[1..], Shift(c, -1))
  {
    assert forall j :: 0 <= j < |c| ==> c[0] <= c[j];
  }
}
