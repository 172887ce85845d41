/** Sequences of sequences, and sums. */
module Sequences {
  /** The parts, one after the other. */
  function Flat<T>(parts: seq<seq<T>>): seq<T> {
    if parts == [] then [] else Flat(parts[..|parts| - 1]) + parts[|parts| - 1]
  }

  lemma FlatSnoc<T>(parts: seq<seq<T>>, last: seq<T>)
    ensures Flat(parts + [last]) == Flat(parts) + last
  {
    assert (parts + [last])[..|parts|] == parts;
  }

  lemma FlatNext<T>(parts: seq<seq<T>>, i: nat)
    requires i < |parts|
    ensures Flat(parts[..i + 1]) == Flat(parts[..i]) + parts[i]
  {
    assert parts[..i + 1][..i] == parts[..i];
  }

  /** Putting an element behind a part that only empty parts follow puts it at the end. */
  lemma {:induction false} FlatPush<T>(parts: seq<seq<T>>, k: nat, x: T)
    requires k < |parts| && forall j | k < j < |parts| :: parts[j] == []
    ensures Flat(parts[k := parts[k] + [x]]) == Flat(parts) + [x]
  {
    var n := |parts| - 1;
    var pushed := parts[k := parts[k] + [x]];
    if k == n {
      assert pushed[..n] == parts[..n];
    } else {
      FlatPush(parts[..n], k, x);
      assert pushed[..n] == parts[..n][k := parts[k] + [x]];
    }
  }

  /** Nothing comes out of empty parts. */
  lemma {:induction false} FlatEmpty<T>(parts: seq<seq<T>>)
    requires forall j | 0 <= j < |parts| :: parts[j] == []
    ensures Flat(parts) == []
  {
    if parts != [] {
      FlatEmpty(parts[..|parts| - 1]);
    }
  }

  function Sum(ns: seq<nat>): nat {
    if ns == [] then 0 else Sum(ns[..|ns| - 1]) + ns[|ns| - 1]
  }
}
