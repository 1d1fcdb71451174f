/** Go slices: a backing array and how much of it is in use. Two slices may share an array, and appending to
    one writes behind its end when there is room. */
module Slices {

  /** A slice from the start of its array; the capacity is the array's length. A `len` beyond it reads as full. */
  datatype Slice<T> = Slice(backing: array<T>, len: nat) {
    function Len(): (n: nat)
      ensures n <= backing.Length && (len <= backing.Length ==> n == len)
    {
      if len <= backing.Length then len else backing.Length
    }

    function View(): (s: seq<T>)
      reads backing
      ensures |s| == Len()
    {
      backing[..Len()]
    }
  }

  /** A new array with room to spare that holds `xs`. */
  method Allocate<T>(xs: seq<T>, filler: T) returns (r: Slice<T>)
    ensures fresh(r.backing) && r.View() == xs && r.len == |xs|
  {
    var slack :| 0 <= slack;
    var a := new T[|xs| + slack](i requires 0 <= i < |xs| + slack => if i < |xs| then xs[i] else filler);
    assert a[..|xs|] == xs;
    r := Slice(a, |xs|);
  }

  /** A new array of exactly the elements of `xs`: what decoding or a literal gives. */
  method Full<T>(xs: seq<T>) returns (r: Slice<T>)
    ensures fresh(r.backing) && r.View() == xs && r.len == |xs| == r.backing.Length
  {
    var a := new T[|xs|](i requires 0 <= i < |xs| => xs[i]);
    assert a[..] == xs;
    r := Slice(a, |xs|);
  }

  /** `append([]T(nil), s...)`. */
  method CopyOf<T>(s: Slice<T>) returns (r: Slice<T>)
    ensures fresh(r.backing) && r.View() == s.View() && r.len == s.Len()
  {
    var xs := s.View();
    if xs == [] {
      r := Full(xs);
    } else {
      r := Allocate(xs, xs[0]);
    }
  }

  /** `append(s, x)`: behind the end when there is room, else in a larger array. */
  method Append<T>(s: Slice<T>, x: T) returns (r: Slice<T>)
    modifies s.backing
    ensures r.View() == old(s.View()) + [x] && r.len == s.Len() + 1
    ensures if s.Len() < s.backing.Length
            then r.backing == s.backing && s.backing[..] == old(s.backing[..])[s.Len() := x]
            else fresh(r.backing) && s.backing[..] == old(s.backing[..])
  {
    var n := s.Len();
    if n < s.backing.Length {
      s.backing[n] := x;
      return Slice(s.backing, n + 1);
    }
    r := Allocate(s.View() + [x], x);
  }

  /** `append(s, more...)`. What `more` shows is read before anything is written. */
  method AppendAll<T>(s: Slice<T>, more: Slice<T>) returns (r: Slice<T>)
    modifies s.backing
    ensures r.View() == old(s.View()) + old(more.View())
    ensures s.View() == old(s.View())
    ensures r.backing == s.backing || fresh(r.backing)
  {
    var n, xs := s.Len(), more.View();
    if n + |xs| > s.backing.Length {
      r := Allocate(s.View() + xs, xs[0]);
      return;
    }
    ghost var was := s.View();
    for i := 0 to |xs|
      invariant s.backing[..n + i] == was + xs[..i]
    {
      s.backing[n + i] := xs[i];
      assert s.backing[..n + i] == was + xs[..i];
      assert s.backing[..n + i + 1] == s.backing[..n + i] + [xs[i]];
    }
    r := Slice(s.backing, n + |xs|);
    assert s.View() == s.backing[..n + |xs|][..n];
  }
}
