/** The per-channel history behind each plotted curve: a double-ended queue
    created with 31 zeros and a maximum length of 31, so that every append
    drops the oldest value. */
module Window {

  /** The number of values a channel's history holds. */
  const Capacity: nat := 31

  /** n zeros: the contents of a freshly created history. */
  function Zeros(n: nat): (r: seq<int>)
    ensures |r| == n && forall i :: 0 <= i < n ==> r[i] == 0
  {
    seq(n, _ => 0)
  }

  /** Appending v to a full bounded queue: the oldest value leaves at the front and
      v enters at the back, so the length stays the same and v comes last. */
  function Slide(w: seq<int>, v: int): (r: seq<int>)
    requires |w| == Capacity
    ensures |r| == Capacity && r[Capacity - 1] == v
  {
    w[1..] + [v]
  }

  /** One append keeps the other values in order, each moved one place towards
      the front. */
  lemma SlideShape(w: seq<int>, v: int)
    requires |w| == Capacity
    ensures forall i :: 0 <= i < Capacity - 1 ==> Slide(w, v)[i] == w[i + 1]
  {
  }

  /** The history after appending the values vs one by one. */
  function SlideAll(w: seq<int>, vs: seq<int>): (r: seq<int>)
    requires |w| == Capacity
    ensures |r| == Capacity
  {
    if vs == [] then w else Slide(SlideAll(w, vs[..|vs| - 1]), vs[|vs| - 1])
  }

  /** After any run of appends the history holds the last Capacity values of
      everything it has seen, oldest first. */
  lemma {:induction false} SlideAllKeepsLatest(w: seq<int>, vs: seq<int>)
    requires |w| == Capacity
    ensures SlideAll(w, vs) == (w + vs)[|vs|..]
  {
    if vs != [] {
      var n := |vs|;
      SlideAllKeepsLatest(w, vs[..n - 1]);
      assert (w + vs)[..Capacity + n - 1] == w + vs[..n - 1];
      calc {
        SlideAll(w, vs);
        Slide((w + vs[..n - 1])[n - 1..], vs[n - 1]);
        (w + vs[..n - 1])[n..] + [vs[n - 1]];
        { assert (w + vs[..n - 1])[n..] == (w + vs)[n..Capacity + n - 1]; }
        (w + vs)[n..Capacity + n - 1] + [(w + vs)[Capacity + n - 1]];
        (w + vs)[n..];
      }
    }
  }

  /** A fresh history that has seen at least Capacity values holds exactly the last
      Capacity of them. */
  lemma FreshHistoryFull(vs: seq<int>)
    requires |vs| >= Capacity
    ensures SlideAll(Zeros(Capacity), vs) == vs[|vs| - Capacity..]
  {
    var z := Zeros(Capacity);
    SlideAllKeepsLatest(z, vs);
    assert (z + vs)[|vs|..] == vs[|vs| - Capacity..];
  }

  lemma DropFromConcat(a: seq<int>, b: seq<int>, k: nat)
    requires k <= |a|
    ensures (a + b)[k..] == a[k..] + b
  {
  }

  /** A fresh history that has seen fewer than Capacity values still starts with
      zeros, followed by everything it has seen. */
  lemma FreshHistoryFilling(vs: seq<int>)
    requires |vs| < Capacity
    ensures SlideAll(Zeros(Capacity), vs) == Zeros(Capacity - |vs|) + vs
  {
    var z := Zeros(Capacity);
    SlideAllKeepsLatest(z, vs);
    DropFromConcat(z, vs, |vs|);
    assert z[|vs|..] == Zeros(Capacity - |vs|);
  }

  /** One channel's history, kept as a ring over a fixed array: cells[oldest] is the
      oldest value and the others follow it round the array. */
  class History {
    const cells: array<int>
    var oldest: nat

    ghost predicate Valid()
      reads this
    {
      cells.Length == Capacity && oldest < Capacity
    }

    /** The history's values, oldest first. */
    function Contents(): (r: seq<int>)
      requires Valid()
      reads this, cells
      ensures |r| == Capacity
    {
      cells[oldest..] + cells[..oldest]
    }

    /** A history starts as Capacity zeros. */
    constructor ()
      ensures Valid() && fresh(cells)
      ensures Contents() == Zeros(Capacity)
    {
      cells := new int[Capacity](_ => 0);
      oldest := 0;
      new;
      assert cells[..] == Zeros(Capacity);
      assert cells[..0] == [];
    }

    /** Appends v, dropping the oldest value. */
    method Append(v: int)
      requires Valid()
      modifies this, cells
      ensures Valid()
      ensures Contents() == Slide(old(Contents()), v)
    {
      ghost var before := Contents();
      cells[oldest] := v;
      oldest := if oldest + 1 == Capacity then 0 else oldest + 1;
      assert forall i :: 0 <= i < Capacity ==> Contents()[i] == Slide(before, v)[i];
    }
  }
}
