/** Operations of `Vec` that the schedulers rely on. */
module Vectors {

  /** `Vec::swap_remove`: the last element takes the place of the removed one. */
  function SwapRemove<T>(ts: seq<T>, i: nat): (r: seq<T>)
    requires i < |ts|
    ensures |r| == |ts| - 1 && r[..i] == ts[..i]
    ensures multiset(r) + multiset{ts[i]} == multiset(ts)
    ensures multiset(r[i..]) + multiset{ts[i]} == multiset(ts[i..])
  {
    var r := ts[..i] + LastToFront(ts[i..]);
    assert r[..i] == ts[..i] && r[i..] == LastToFront(ts[i..]);
    Reassemble(r, ts, i);
    r
  }

  /** A list without its first element, the last one in its place. */
  function LastToFront<T>(ts: seq<T>): (r: seq<T>)
    requires ts != []
    ensures |r| == |ts| - 1 && multiset(r) + multiset{ts[0]} == multiset(ts)
  {
    var last := |ts| - 1;
    if last == 0 then
      assert ts == [ts[0]];
      []
    else
      assert ts == [ts[0]] + ts[1..last] + [ts[last]];
      [ts[last]] + ts[1..last]
  }

  lemma Reassemble<T>(r: seq<T>, ts: seq<T>, i: nat)
    requires i < |ts| && i <= |r| && r[..i] == ts[..i]
    requires multiset(r[i..]) + multiset{ts[i]} == multiset(ts[i..])
    ensures multiset(r) + multiset{ts[i]} == multiset(ts)
  {
    assert r == r[..i] + r[i..] && ts == ts[..i] + ts[i..];
  }
}
