/**
 * Fisher-Yates shuffling. The random source is replaced by a free choice:
 * the step for index i may swap with any j in [0, i]. The sequence of
 * choices made is returned, so the result is tied to `Shuffled`.
 */
module Shuffling {

  /** The sequence with the elements at i and j exchanged. */
  function Swap<T>(s: seq<T>, i: nat, j: nat): (r: seq<T>)
    requires i < |s| && j < |s|
    ensures |r| == |s| && r[i] == s[j] && r[j] == s[i]
    ensures forall k :: 0 <= k < |s| && k != i && k != j ==> r[k] == s[k]
  {
    s[i := s[j]][j := s[i]]
  }

  /** Number of swap steps Fisher-Yates takes on n elements (i runs from n - 1 down to 1). */
  function Steps(n: nat): nat
  {
    if n == 0 then 0 else n - 1
  }

  /** `js` are the choices of the first |js| steps on n elements: step k uses i = n - 1 - k and needs js[k] <= i. */
  predicate ValidChoices(n: nat, js: seq<nat>)
  {
    |js| <= Steps(n) && forall k :: 0 <= k < |js| ==> js[k] <= n - 1 - k
  }

  /** The sequence after the first |js| steps of Fisher-Yates, made with choices js. */
  function Shuffled<T>(s: seq<T>, js: seq<nat>): (r: seq<T>)
    requires ValidChoices(|s|, js)
    ensures |r| == |s|
    decreases |js|
  {
    if js == [] then s
    else
      var k := |js| - 1;
      Swap(Shuffled(s, js[..k]), |s| - 1 - k, js[k])
  }

  /** `r` is one possible outcome of a complete shuffle of `s`. */
  ghost predicate IsShuffleOf<T>(r: seq<T>, s: seq<T>)
  {
    exists js :: ValidChoices(|s|, js) && |js| == Steps(|s|) && r == Shuffled(s, js)
  }

  /** Swapping two positions keeps the elements. */
  lemma SwapPermutes<T>(s: seq<T>, i: nat, j: nat)
    requires i < |s| && j < |s|
    ensures multiset(Swap(s, i, j)) == multiset(s)
  {
  }

  /** Any number of Fisher-Yates steps permutes the sequence. */
  lemma {:induction false} ShuffledPermutes<T>(s: seq<T>, js: seq<nat>)
    requires ValidChoices(|s|, js)
    ensures multiset(Shuffled(s, js)) == multiset(s)
  {
    if js != [] {
      var k := |js| - 1;
      assert ValidChoices(|s|, js[..k]);
      ShuffledPermutes(s, js[..k]);
      SwapPermutes(Shuffled(s, js[..k]), |s| - 1 - k, js[k]);
    }
  }

  /**
   * A complete shuffle keeps length and multiset: what a contract stating only `IsShuffleOf`
   * (the shoe after startup or after ResetDeckIfNeeded) lets a reader conclude about the cards.
   */
  lemma ShuffleOfPermutes<T>(r: seq<T>, s: seq<T>)
    requires IsShuffleOf(r, s)
    ensures |r| == |s| && multiset(r) == multiset(s)
  {
    var js :| ValidChoices(|s|, js) && |js| == Steps(|s|) && r == Shuffled(s, js);
    ShuffledPermutes(s, js);
  }

  /** One more step extends the choices by one and swaps the next index. */
  lemma ShuffledStep<T>(s: seq<T>, js: seq<nat>, j: nat)
    requires ValidChoices(|s|, js) && |js| < Steps(|s|) && j <= |s| - 1 - |js|
    ensures ValidChoices(|s|, js + [j])
    ensures Shuffled(s, js + [j]) == Swap(Shuffled(s, js), |s| - 1 - |js|, j)
  {
    assert (js + [j])[..|js|] == js;
  }

  /** Fisher-Yates in place: for i from the last index down to 1, swap a[i] with some a[j], 0 <= j <= i. */
  method Shuffle<T>(a: array<T>) returns (js: seq<nat>)
    modifies a
    ensures ValidChoices(a.Length, js) && |js| == Steps(a.Length)
    ensures a[..] == Shuffled(old(a[..]), js)
  {
    js := [];
    var i := a.Length - 1;
    while i > 0
      invariant -1 <= i < a.Length
      invariant a.Length > 0 ==> i >= 0
      invariant |js| == a.Length - 1 - i
      invariant ValidChoices(a.Length, js)
      invariant a[..] == Shuffled(old(a[..]), js)
    {
      var j :| 0 <= j <= i;
      ghost var before := a[..];
      a[i], a[j] := a[j], a[i];
      assert a[..] == Swap(before, i, j);
      ShuffledStep(old(a[..]), js, j);
      js := js + [j];
      i := i - 1;
    }
  }

  /** Shuffles a copy of `s` held in a fresh array, and reads the array back. */
  method ShuffleSeq<T>(s: seq<T>) returns (r: seq<T>)
    ensures IsShuffleOf(r, s)
    ensures multiset(r) == multiset(s) && |r| == |s|
  {
    var a := new T[|s|](i requires 0 <= i < |s| => s[i]);
    assert a[..] == s;
    var js := Shuffle(a);
    r := a[..];
    ShuffledPermutes(s, js);
  }
}
