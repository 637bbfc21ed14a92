/** Order-preserving filtering of sequences, with an index-level description of which
    elements survive. */
module Seqs {

  /** The positions of `s` whose element satisfies `keep`, in increasing order. */
  function KeptIndices<A>(s: seq<A>, keep: A -> bool): (idx: seq<nat>)
    ensures forall k :: 0 <= k < |idx| ==> idx[k] < |s| && keep(s[idx[k]])
    ensures forall k, l :: 0 <= k < l < |idx| ==> idx[k] < idx[l]
    ensures forall j :: 0 <= j < |s| && keep(s[j]) ==> j in idx
    decreases |s|
  {
    if s == [] then []
    else
      var init := KeptIndices(s[..|s| - 1], keep);
      if keep(s[|s| - 1]) then init + [|s| - 1] else init
  }

  /** `s.filter(keep).map(f)`. */
  function FilterMap<A, B>(s: seq<A>, keep: A -> bool, f: A -> B): (r: seq<B>)
    ensures |r| == |KeptIndices(s, keep)|
    ensures forall k :: 0 <= k < |r| ==> r[k] == f(s[KeptIndices(s, keep)[k]])
    decreases |s|
  {
    if s == [] then []
    else
      var init := FilterMap(s[..|s| - 1], keep, f);
      if keep(s[|s| - 1]) then init + [f(s[|s| - 1])] else init
  }

  /** When every element is kept, filtering is mapping. */
  lemma {:induction false} FilterMapAllKept<A, B>(s: seq<A>, keep: A -> bool, f: A -> B)
    requires forall j :: 0 <= j < |s| ==> keep(s[j])
    ensures FilterMap(s, keep, f) == seq(|s|, j requires 0 <= j < |s| => f(s[j]))
    decreases |s|
  {
    if s != [] {
      FilterMapAllKept(s[..|s| - 1], keep, f);
    }
  }

  /** When nothing is kept, nothing survives. */
  lemma FilterMapNoneKept<A, B>(s: seq<A>, keep: A -> bool, f: A -> B)
    requires forall j :: 0 <= j < |s| ==> !keep(s[j])
    ensures FilterMap(s, keep, f) == []
  {
  }
}
