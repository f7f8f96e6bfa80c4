/** The record shuffle (sidecar/dns/server.go, shuffleRecords): a forward
    Fisher-Yates pass that swaps position i with a drawn position j <= i.
    The draws are an explicit sequence of choices instead of a global
    random generator. */
module Shuffling {

  /** Choice i is a position at or before i, as rand.Intn(i + 1) draws it. */
  predicate ValidChoices(choices: seq<nat>) {
    forall i :: 0 <= i < |choices| ==> choices[i] <= i
  }

  /** s with the elements at positions i and j exchanged. */
  function Swap<T>(s: seq<T>, i: nat, j: nat): (r: seq<T>)
    requires i < |s| && j < |s|
  {
    seq(|s|, k requires 0 <= k < |s| => if k == i then s[j] else if k == j then s[i] else s[k])
  }

  /** The sequence after the first k steps of the pass. */
  function ShuffleUpTo<T>(s: seq<T>, choices: seq<nat>, k: nat): (r: seq<T>)
    requires k <= |s| && k <= |choices| && ValidChoices(choices)
    ensures |r| == |s|
  {
    if k == 0 then s
    else Swap(ShuffleUpTo(s, choices, k - 1), k - 1, choices[k - 1])
  }

  /** A swap permutes. */
  lemma SwapMultiset<T>(s: seq<T>, i: nat, j: nat)
    requires i < |s| && j < |s|
    ensures multiset(Swap(s, i, j)) == multiset(s)
  {
    assert Swap(s, i, j) == s[i := s[j]][j := s[i]];
    if i != j {
      var p := s[i := s[j]];
      MultisetUpdate(s, i, s[j]);
      MultisetUpdate(p, j, s[i]);
      assert p[j] == s[j];
      MultisetCancel(multiset(Swap(s, i, j)), multiset(s), s[j]);
    }
  }

  /** After k steps the sequence is a permutation of the input. */
  lemma {:induction false} ShuffleUpToPermutes<T>(s: seq<T>, choices: seq<nat>, k: nat)
    requires k <= |s| && k <= |choices| && ValidChoices(choices)
    ensures multiset(ShuffleUpTo(s, choices, k)) == multiset(s)
    decreases k
  {
    if k > 0 {
      var prev := ShuffleUpTo(s, choices, k - 1);
      ShuffleUpToPermutes(s, choices, k - 1);
      SwapMultiset(prev, k - 1, choices[k - 1]);
    }
  }

  /** The first k steps leave positions k onward untouched. */
  lemma {:induction false} ShuffleUpToSuffix<T>(s: seq<T>, choices: seq<nat>, k: nat)
    requires k <= |s| && k <= |choices| && ValidChoices(choices)
    ensures forall i :: k <= i < |s| ==> ShuffleUpTo(s, choices, k)[i] == s[i]
    decreases k
  {
    if k > 0 {
      ShuffleUpToSuffix(s, choices, k - 1);
    }
  }

  /** The whole pass: a permutation of its input for any valid choices. */
  function Shuffle<T>(s: seq<T>, choices: seq<nat>): (r: seq<T>)
    requires |choices| == |s| && ValidChoices(choices)
    ensures |r| == |s|
    ensures multiset(r) == multiset(s)
  {
    ShuffleUpToPermutes(s, choices, |s|);
    ShuffleUpTo(s, choices, |s|)
  }

  /** The in-place pass over an array, as the source writes it. */
  method ShuffleRecords<T>(records: seq<T>, choices: seq<nat>) returns (r: seq<T>)
    requires |choices| == |records| && ValidChoices(choices)
    ensures r == Shuffle(records, choices)
    ensures multiset(r) == multiset(records)
  {
    var a := new T[|records|](i requires 0 <= i < |records| => records[i]);
    var i := 0;
    while i < a.Length
      invariant 0 <= i <= a.Length == |records|
      invariant a[..] == ShuffleUpTo(records, choices, i)
    {
      var j := choices[i];
      a[i], a[j] := a[j], a[i];
      i := i + 1;
    }
    r := a[..];
  }

  // ---- Every order is reachable -------------------------------------------

  lemma SwapAppend<T>(s: seq<T>, tail: seq<T>, i: nat, j: nat)
    requires i < |s| && j < |s|
    ensures Swap(s + tail, i, j) == Swap(s, i, j) + tail
  {
  }

  /** The first k steps touch only the first k positions, so running them on
      a longer sequence shuffles its prefix and leaves the rest. */
  lemma {:induction false} ShuffleUpToPrefix<T>(s: seq<T>, choices: seq<nat>, m: nat, k: nat)
    requires k <= m <= |s| && k <= |choices| && ValidChoices(choices)
    ensures ShuffleUpTo(s, choices, k) == ShuffleUpTo(s[..m], choices, k) + s[m..]
    decreases k
  {
    if k == 0 {
      assert s == s[..m] + s[m..];
    } else {
      var p := ShuffleUpTo(s[..m], choices, k - 1);
      ShuffleUpToPrefix(s, choices, m, k - 1);
      SwapAppend(p, s[m..], k - 1, choices[k - 1]);
      assert ShuffleUpTo(s, choices, k) == Swap(p + s[m..], k - 1, choices[k - 1]);
      assert ShuffleUpTo(s[..m], choices, k) == Swap(p, k - 1, choices[k - 1]);
    }
  }

  /** Only the first |s| choices matter. */
  lemma {:induction false} ShuffleUpToChoices<T>(s: seq<T>, c1: seq<nat>, c2: seq<nat>, k: nat)
    requires k <= |s| && k <= |c1| && k <= |c2| && ValidChoices(c1) && ValidChoices(c2)
    requires forall i :: 0 <= i < k ==> c1[i] == c2[i]
    ensures ShuffleUpTo(s, c1, k) == ShuffleUpTo(s, c2, k)
    decreases k
  {
    if k > 0 {
      ShuffleUpToChoices(s, c1, c2, k - 1);
      assert c1[k - 1] == c2[k - 1];
    }
  }

  lemma MultisetUpdate<T>(p: seq<T>, j: nat, v: T)
    requires j < |p|
    ensures multiset(p[j := v]) + multiset{p[j]} == multiset(p) + multiset{v}
  {
    assert p == p[..j] + [p[j]] + p[j + 1..];
    assert p[j := v] == p[..j] + [v] + p[j + 1..];
  }

  lemma MultisetCancel<T>(m: multiset<T>, n: multiset<T>, y: T)
    requires m + multiset{y} == n + multiset{y}
    ensures m == n
  {
    assert forall z :: m[z] == (m + multiset{y})[z] - multiset{y}[z];
  }

  /** What the first n-1 steps must leave so that the last swap, with
      position j, yields t. */
  function Undo<T>(t: seq<T>, j: nat): (u: seq<T>)
    requires j < |t|
    ensures |u| == |t| - 1
  {
    if j < |t| - 1 then t[..|t| - 1][j := t[|t| - 1]] else t[..|t| - 1]
  }

  lemma UndoMultiset<T>(s: seq<T>, t: seq<T>, j: nat)
    requires 0 < |s| == |t| && j < |t| && t[j] == s[|s| - 1]
    requires multiset(t) == multiset(s)
    ensures multiset(Undo(t, j)) == multiset(s[..|s| - 1])
  {
    var n := |s|;
    var y := s[n - 1];
    assert t == t[..n - 1] + [t[n - 1]];
    assert s == s[..n - 1] + [y];
    var A := multiset(t[..n - 1]);
    var B := multiset(s[..n - 1]);
    assert A + multiset{t[n - 1]} == B + multiset{y};
    if j < n - 1 {
      MultisetUpdate(t[..n - 1], j, t[n - 1]);
      assert t[..n - 1][j] == y;
      MultisetCancel(multiset(Undo(t, j)), B, y);
    } else {
      MultisetCancel(A, B, y);
    }
  }

  lemma UndoSwap<T>(t: seq<T>, j: nat)
    requires j < |t|
    ensures Swap(Undo(t, j) + [t[j]], |t| - 1, j) == t
  {
  }

  /** The last step of the whole pass is a swap of the last position. */
  lemma ShuffleLastSwap<T>(s: seq<T>, c: seq<nat>)
    requires 0 < |s| && |c| == |s| && ValidChoices(c)
    ensures Shuffle(s, c) == Swap(ShuffleUpTo(s, c, |s| - 1), |s| - 1, c[|s| - 1])
  {
  }

  /** Adding one step to the pass: the shuffled prefix, then the last swap. */
  lemma LastStep<T>(s: seq<T>, c': seq<nat>, j: nat)
    requires 0 < |s| && |c'| == |s| - 1 && ValidChoices(c') && j < |s|
    ensures ValidChoices(c' + [j])
    ensures Shuffle(s, c' + [j]) == Swap(Shuffle(s[..|s| - 1], c') + [s[|s| - 1]], |s| - 1, j)
  {
    var n := |s|;
    var c := c' + [j];
    assert forall i :: 0 <= i < n - 1 ==> c[i] == c'[i];
    assert ValidChoices(c);
    ShuffleLastSwap(s, c);
    ShuffleUpToPrefix(s, c, n - 1, n - 1);
    assert s[n - 1..] == [s[n - 1]];
    ShuffleUpToChoices(s[..n - 1], c, c', n - 1);
  }

  lemma SameLength<T>(s: seq<T>, t: seq<T>)
    requires multiset(t) == multiset(s)
    ensures |t| == |s|
  {
    assert |multiset(t)| == |t| && |multiset(s)| == |s|;
  }

  /** The last element of s occurs somewhere in any permutation t of s. */
  lemma LastFound<T>(s: seq<T>, t: seq<T>)
    requires 0 < |s| && multiset(t) == multiset(s)
    ensures exists j :: 0 <= j < |t| && t[j] == s[|s| - 1]
  {
    assert s[|s| - 1] in multiset(s);
    assert s[|s| - 1] in t;
  }

  /** Choices reaching the permutation t with its last element moved out
      of position j extend, by choosing j, to choices reaching t itself. */
  lemma ExtendChoices<T>(s: seq<T>, t: seq<T>, j: nat, c': seq<nat>)
    requires 0 < |s| == |t| && j < |t| && t[j] == s[|s| - 1]
    requires |c'| == |s| - 1 && ValidChoices(c') && Shuffle(s[..|s| - 1], c') == Undo(t, j)
    ensures ValidChoices(c' + [j]) && Shuffle(s, c' + [j]) == t
  {
    LastStep(s, c', j);
    UndoSwap(t, j);
  }

  /** Fisher-Yates can produce every ordering of its input: for each
      permutation t of s some valid choices shuffle s into t. */
  lemma {:induction false} EveryOrderReachable<T>(s: seq<T>, t: seq<T>)
    requires multiset(t) == multiset(s)
    ensures exists c :: |c| == |s| && ValidChoices(c) && Shuffle(s, c) == t
    decreases |s|
  {
    SameLength(s, t);
    if |s| == 0 {
      assert Shuffle(s, []) == t;
    } else {
      var n := |s|;
      LastFound(s, t);
      var j :| 0 <= j < n && t[j] == s[n - 1];
      UndoMultiset(s, t, j);
      EveryOrderReachable(s[..n - 1], Undo(t, j));
      var c': seq<nat> :| |c'| == n - 1 && ValidChoices(c') && Shuffle(s[..n - 1], c') == Undo(t, j);
      ExtendChoices(s, t, j, c');
      var c := c' + [j];
      assert |c| == |s| && ValidChoices(c) && Shuffle(s, c) == t;
    }
  }
}
