/** The history vectors behind the two graphs (hello.cpp, `main`): created
    as 100 neutral samples, each tick appends one sample at the back and,
    once the size exceeds 100, erases the front one. */
module RollingWindow {

  const Capacity: nat := 100

  /** A fresh history: `Capacity` copies of the neutral sample. */
  function Filled<T>(v: T): (h: seq<T>)
    ensures |h| == Capacity
    ensures forall i :: 0 <= i < |h| ==> h[i] == v
  {
    seq(Capacity, _ => v)
  }

  /** `push_back`, then erase the front element if the size exceeds the
      capacity. */
  function Push<T>(h: seq<T>, v: T): (r: seq<T>)
    ensures |h| < Capacity ==> r == h + [v]
    ensures |h| >= Capacity ==> |r| == |h|
    ensures |h| == Capacity ==> r[..|r| - 1] == h[1..] && r[|r| - 1] == v
  {
    var grown := h + [v];
    if |grown| > Capacity then grown[1..] else grown
  }

  /** Appending samples one tick at a time. */
  function PushAll<T>(h: seq<T>, vs: seq<T>): seq<T>
    decreases |vs|
  {
    if vs == [] then h else PushAll(Push(h, vs[0]), vs[1..])
  }

  /** A full window stays full, and after any run of appends it holds exactly
      the most recent `Capacity` values of the old contents followed by the
      appended samples. */
  lemma {:induction false} PushAllFull<T>(h: seq<T>, vs: seq<T>)
    requires |h| == Capacity
    ensures |PushAll(h, vs)| == Capacity
    ensures PushAll(h, vs) == (h + vs)[|vs|..]
    decreases |vs|
  {
    if vs == [] {
      assert h + vs == h;
    } else {
      var h' := Push(h, vs[0]);
      assert h' == h[1..] + [vs[0]];
      PushAllFull(h', vs[1..]);
      assert (h' + vs[1..])[|vs| - 1..] == (h + vs)[|vs|..];
    }
  }

  /** Once at least `Capacity` samples have been appended to a full window,
      it holds exactly the last `Capacity` of them, oldest first. */
  lemma WindowHoldsLatest<T>(h: seq<T>, vs: seq<T>)
    requires |h| == Capacity && |vs| >= Capacity
    ensures PushAll(h, vs) == vs[|vs| - Capacity..]
  {
    PushAllFull(h, vs);
    assert (h + vs)[|vs|..] == vs[|vs| - Capacity..];
  }
}
