/**
  Filter-map over sequences: apply a partial step to every element in order
  and keep only the results that are present. Both the waypoint clean-up
  (`[c.strip() for c in xs if c.strip()]`) and the fetch loop that appends
  only the forecasts that came back are instances of this one shape, so it
  is defined once here together with the bookkeeping that says WHICH input
  positions survived.
 */
module Filtering {
  import opened Wrappers

  /** What one input contributes to the output: its value, or nothing. */
  function Emit<A, B>(f: A -> Option<B>, x: A): (r: seq<B>)
    ensures |r| <= 1
    ensures r == [] <==> f(x).None?
    ensures r != [] ==> f(x) == Some(r[0])
  {
    match f(x)
    case Some(y) => [y]
    case None => []
  }

  /** Number of inputs for which the step produced nothing. */
  function Misses<A, B>(s: seq<A>, f: A -> Option<B>): (n: nat)
    ensures n <= |s|
  {
    if |s| == 0 then 0
    else Misses(s[..|s| - 1], f) + (if f(s[|s| - 1]).None? then 1 else 0)
  }

  /** Nothing missed exactly when the step succeeds on every input. */
  lemma {:induction false} NoMisses<A, B>(s: seq<A>, f: A -> Option<B>)
    ensures Misses(s, f) == 0 <==> forall i | 0 <= i < |s| :: f(s[i]).Some?
    decreases |s|
  {
    if |s| > 0 {
      var init := s[..|s| - 1];
      NoMisses(init, f);
      assert forall i | 0 <= i < |init| :: init[i] == s[i];
    }
  }

  /**
    Walks `s` front to back and appends the present results, exactly like a
    loop that appends to a list. Every miss shortens the output by one.
   */
  function FilterMap<A, B>(s: seq<A>, f: A -> Option<B>): (r: seq<B>)
    ensures |r| + Misses(s, f) == |s|
    ensures |r| <= |s|
  {
    if |s| == 0 then []
    else FilterMap(s[..|s| - 1], f) + Emit(f, s[|s| - 1])
  }

  /**
    The input positions that produced an output, in order; see
    `KeptIncreasing`, `KeptYields` and `KeptComplete`.
   */
  function Kept<A, B>(s: seq<A>, f: A -> Option<B>): (ks: seq<nat>)
    ensures |ks| == |FilterMap(s, f)|
    ensures forall k | 0 <= k < |ks| :: ks[k] < |s|
  {
    if |s| == 0 then []
    else Kept(s[..|s| - 1], f) + (if f(s[|s| - 1]).Some? then [|s| - 1] else [])
  }

  /** Survivors keep their relative order: kept positions strictly increase. */
  lemma {:induction false} KeptIncreasing<A, B>(s: seq<A>, f: A -> Option<B>, k: nat, l: nat)
    requires k < l < |Kept(s, f)|
    ensures Kept(s, f)[k] < Kept(s, f)[l]
    decreases |s|
  {
    var init := s[..|s| - 1];
    var ki := Kept(init, f);
    if l < |ki| {
      KeptIncreasing(init, f, k, l);
    } else {
      assert Kept(s, f)[k] == ki[k];
    }
  }

  /** The k-th output element is the step's result on input position `Kept(s, f)[k]`. */
  lemma {:induction false} KeptYields<A, B>(s: seq<A>, f: A -> Option<B>, k: nat)
    requires k < |Kept(s, f)|
    ensures f(s[Kept(s, f)[k]]) == Some(FilterMap(s, f)[k])
    decreases |s|
  {
    var init := s[..|s| - 1];
    if k < |Kept(init, f)| {
      KeptYields(init, f, k);
      assert init[Kept(init, f)[k]] == s[Kept(s, f)[k]];
    }
  }

  /** Every input position whose step succeeds is among the kept positions. */
  lemma {:induction false} KeptComplete<A, B>(s: seq<A>, f: A -> Option<B>, i: nat)
    requires i < |s| && f(s[i]).Some?
    ensures i in Kept(s, f)
    decreases |s|
  {
    var init := s[..|s| - 1];
    if i < |init| {
      assert init[i] == s[i];
      KeptComplete(init, f, i);
    }
  }

  /** Extending a prefix by one input appends what that input contributes. */
  lemma {:induction false} FilterMapPrefix<A, B>(s: seq<A>, i: nat, f: A -> Option<B>)
    requires i < |s|
    ensures FilterMap(s[..i + 1], f) == FilterMap(s[..i], f) + Emit(f, s[i])
  {
    assert s[..i + 1][..i] == s[..i];
  }

  /**
    The k-th survivor sits at input position k plus the number of inputs
    that missed before it: every earlier miss shifts it one place right.
   */
  lemma {:induction false} KeptShift<A, B>(s: seq<A>, f: A -> Option<B>, k: nat)
    requires k < |Kept(s, f)|
    ensures Kept(s, f)[k] <= |s|
    ensures Kept(s, f)[k] == k + Misses(s[..Kept(s, f)[k]], f)
    decreases |s|
  {
    var init := s[..|s| - 1];
    var ks := Kept(s, f);
    if k < |Kept(init, f)| {
      KeptShift(init, f, k);
      var j := Kept(init, f)[k];
      assert ks[k] == j;
      assert s[..j] == init[..j];
    } else {
      assert ks[k] == |s| - 1;
      assert s[..|s| - 1] == init;
    }
  }

  /** A survivor keeps its own position exactly when nothing before it missed. */
  lemma {:induction false} NoEarlierMiss<A, B>(s: seq<A>, f: A -> Option<B>, k: nat)
    requires k < |Kept(s, f)|
    ensures k <= Kept(s, f)[k]
    ensures Kept(s, f)[k] == k <==> forall i | 0 <= i < Kept(s, f)[k] :: f(s[i]).Some?
  {
    var j := Kept(s, f)[k];
    KeptShift(s, f, k);
    NoMisses(s[..j], f);
    assert forall i | 0 <= i < j :: s[..j][i] == s[i];
  }

  /** With no miss at all, every survivor keeps its position and nothing is dropped. */
  lemma {:induction false} AllPresent<A, B>(s: seq<A>, f: A -> Option<B>)
    requires forall i | 0 <= i < |s| :: f(s[i]).Some?
    ensures |FilterMap(s, f)| == |s|
    ensures forall k | 0 <= k < |s| :: Kept(s, f)[k] == k
  {
    NoMisses(s, f);
    forall k | 0 <= k < |s|
      ensures Kept(s, f)[k] == k
    {
      NoEarlierMiss(s, f, k);
    }
  }

  /** Two steps that succeed on the same inputs keep the same positions. */
  lemma {:induction false} KeptAgree<A, B, C>(s: seq<A>, f: A -> Option<B>, g: A -> Option<C>)
    requires forall i | 0 <= i < |s| :: f(s[i]).Some? <==> g(s[i]).Some?
    ensures Kept(s, f) == Kept(s, g)
    decreases |s|
  {
    if |s| > 0 {
      var init := s[..|s| - 1];
      assert forall i | 0 <= i < |init| :: init[i] == s[i];
      KeptAgree(init, f, g);
    }
  }

  /** A step that returns every input unchanged leaves the sequence as it is. */
  lemma {:induction false} FilterMapFixes<A>(s: seq<A>, f: A -> Option<A>)
    requires forall i | 0 <= i < |s| :: f(s[i]) == Some(s[i])
    ensures FilterMap(s, f) == s
    decreases |s|
  {
    if |s| > 0 {
      var init := s[..|s| - 1];
      assert forall i | 0 <= i < |init| :: init[i] == s[i];
      FilterMapFixes(init, f);
      assert Emit(f, s[|s| - 1]) == [s[|s| - 1]];
      assert init + [s[|s| - 1]] == s;
    }
  }
}
