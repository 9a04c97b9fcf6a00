/** Small definitions shared by every module: Option, byte strings and sums over sequences. */
module Prelude {

  /** A byte string. Each char stands for one byte of a key, a value, the socket or the log file. */
  type Bytes = string

  datatype Option<+T> = None | Some(value: T)

  lemma AppendAssociates<T>(x: seq<T>, y: seq<T>, z: seq<T>)
    ensures x + (y + z) == (x + y) + z
  {
  }

  predicate Distinct<T(==)>(xs: seq<T>) { forall i, j :: 0 <= i < j < |xs| ==> xs[i] != xs[j] }

  /** The total length of a sequence of strings. */
  function SumLen(parts: seq<Bytes>): nat {
    if parts == [] then 0 else |parts[0]| + SumLen(parts[1..])
  }

  /** The sequence lists exactly the elements of the set, each one once. */
  ghost predicate Lists<T(!new)>(xs: seq<T>, s: set<T>) {
    && (forall x :: x in s <==> x in xs)
    && (forall i, j :: 0 <= i < j < |xs| ==> xs[i] != xs[j])
  }

  lemma ListsAppend<T(!new)>(a: seq<T>, b: seq<T>, s: set<T>, t: set<T>)
    requires Lists(a, s) && Lists(b, t) && s !! t
    ensures Lists(a + b, s + t)
  {
    forall i, j | 0 <= i < j < |a + b|
      ensures (a + b)[i] != (a + b)[j]
    {
      assert i < |a| ==> a[i] in s;
      assert j >= |a| ==> b[j - |a|] in t;
    }
  }

  /** Iterate over a hash table: some order, each element once. */
  method Enumerate<T(==, !new)>(s: set<T>) returns (xs: seq<T>)
    ensures Lists(xs, s)
  {
    xs := [];
    var rest := s;
    while rest != {}
      invariant rest <= s
      invariant Lists(xs, s - rest)
      decreases rest
    {
      var x :| x in rest;
      xs := xs + [x];
      rest := rest - {x};
    }
  }
}
