/** The extended array container: a 1-D or 2-D array of `xsize` rows by `ysize`
    columns kept in one row-major buffer, with vector-like growth for the 1-D case. */
module ArrayX {
  import XMath
  import opened Wrappers

  /** The buffer position `operator()(x, y)` addresses. */
  function Index(x: nat, y: nat, ysize: nat): nat { x * ysize + y }

  lemma IndexInRange(x: nat, y: nat, xsize: nat, ysize: nat)
    requires x < xsize && y < ysize
    ensures Index(x, y, ysize) < xsize * ysize
  {
    assert x * ysize + ysize == (x + 1) * ysize;
    XMath.MulMonotone(x + 1, xsize, ysize);
  }

  /** `Index` on an in-range cell of an `xsize` by `ysize` array, with its bound. */
  function Cell(x: nat, y: nat, xsize: nat, ysize: nat): (k: nat)
    requires x < xsize && y < ysize
    ensures k == Index(x, y, ysize) && k < xsize * ysize
  {
    IndexInRange(x, y, xsize, ysize);
    Index(x, y, ysize)
  }

  /** Distinct in-range cells have distinct buffer positions. */
  lemma IndexInjective(x1: nat, y1: nat, x2: nat, y2: nat, ysize: nat)
    requires y1 < ysize && y2 < ysize && Index(x1, y1, ysize) == Index(x2, y2, ysize)
    ensures x1 == x2 && y1 == y2
  {
    if x1 < x2 {
      IndexOrdered(x1, y1, x2, y2, ysize);
    } else if x2 < x1 {
      IndexOrdered(x2, y2, x1, y1, ysize);
    }
  }

  /** A later row starts after every cell of an earlier one. */
  lemma IndexOrdered(x1: nat, y1: nat, x2: nat, y2: nat, ysize: nat)
    requires x1 < x2 && y1 < ysize
    ensures Index(x1, y1, ysize) < Index(x2, y2, ysize)
  {
    assert x1 * ysize + ysize == (x1 + 1) * ysize;
    XMath.MulMonotone(x1 + 1, x2, ysize);
  }

  /** `s` back to front. */
  function Reversed<T>(s: seq<T>): (r: seq<T>)
    ensures |r| == |s|
  {
    seq(|s|, i requires 0 <= i < |s| => s[|s| - 1 - i])
  }

  lemma ReversedTwice<T>(s: seq<T>)
    ensures Reversed(Reversed(s)) == s
  {
  }

  class XArray<T(0)> {
    var buf: array<T>
    var xsize: nat
    var ysize: nat

    ghost predicate Valid()
      reads this
    {
      xsize * ysize <= buf.Length
    }

    /** `size()`. */
    function Size(): nat
      reads this
    {
      xsize * ysize
    }

    /** The elements, in buffer order. */
    ghost function Elements(): seq<T>
      reads this, buf
      requires Valid()
    {
      buf[..Size()]
    }

    /** The empty 1-D array. */
    constructor ()
      ensures Valid() && fresh(buf)
      ensures xsize == 0 && ysize == 1 && Elements() == []
    {
      buf := new T[0];
      xsize, ysize := 0, 1;
    }

    /** A 1-D array of `n` elements. Their values are not initialised by the source. */
    constructor OfLength(n: nat)
      ensures Valid() && fresh(buf)
      ensures xsize == n && ysize == 1 && Size() == n
    {
      buf := new T[n];
      xsize, ysize := n, 1;
    }

    /** A 2-D array of `xs` rows by `ys` columns, `xs * ys` elements. */
    constructor OfShape(xs: nat, ys: nat)
      ensures Valid() && fresh(buf)
      ensures xsize == xs && ysize == ys && Size() == xs * ys
    {
      buf := new T[xs * ys];
      xsize, ysize := xs, ys;
    }

    /** The copy constructor. */
    constructor Copy(xa: XArray<T>)
      requires xa.Valid()
      ensures Valid() && fresh(buf)
      ensures xsize == xa.xsize && ysize == xa.ysize && Elements() == xa.Elements()
    {
      var n := xa.xsize * xa.ysize;
      var a := new T[n];
      var i := 0;
      while i < n
        modifies a
        invariant 0 <= i <= n
        invariant a[..i] == xa.buf[..i]
      {
        a[i] := xa.buf[i];
        i := i + 1;
      }
      buf := a;
      xsize, ysize := xa.xsize, xa.ysize;
    }

    /** A 1-D array holding the first `n` elements of `arry`. */
    constructor FromArray(arry: array<T>, n: nat)
      requires n <= arry.Length
      ensures Valid() && fresh(buf)
      ensures xsize == n && ysize == 1 && Elements() == arry[..n]
    {
      var a := new T[n];
      var i := 0;
      while i < n
        modifies a
        invariant 0 <= i <= n
        invariant a[..i] == arry[..i]
      {
        a[i] := arry[i];
        i := i + 1;
      }
      buf := a;
      xsize, ysize := n, 1;
    }

    /** `operator()(x, y)` read. */
    function At(x: nat, y: nat): (v: T)
      reads this, buf
      requires Valid() && Index(x, y, ysize) < Size()
      ensures v == Elements()[Index(x, y, ysize)]
    {
      buf[Index(x, y, ysize)]
    }

    /** `operator()(x, y)` write. */
    method Set(x: nat, y: nat, v: T)
      requires Valid() && Index(x, y, ysize) < Size()
      modifies buf
      ensures Valid() && Elements() == old(Elements())[Index(x, y, ysize) := v]
    {
      buf[Index(x, y, ysize)] := v;
    }

    /** `fill`: every element becomes `val`. */
    method Fill(val: T)
      requires Valid()
      modifies buf
      ensures Valid() && |Elements()| == old(Size())
      ensures forall i :: 0 <= i < |Elements()| ==> Elements()[i] == val
    {
      var n := xsize * ysize;
      var i := 0;
      while i < n
        invariant 0 <= i <= n
        invariant forall k :: 0 <= k < i ==> buf[k] == val
      {
        buf[i] := val;
        i := i + 1;
      }
    }

    /** `clear`: size 0 with `ysize` 1. */
    method Clear()
      requires Valid()
      modifies this
      ensures Valid() && fresh(buf)
      ensures xsize == 0 && ysize == 1 && Elements() == []
    {
      buf := new T[0];
      xsize, ysize := 0, 1;
    }

    /** `push_back`: on a 1-D array, append `val`; on a 2-D array, nothing. */
    method PushBack(val: T)
      requires Valid()
      modifies this
      ensures Valid() && ysize == old(ysize)
      ensures old(ysize) == 1 ==> xsize == old(xsize) + 1 && Elements() == old(Elements()) + [val]
      ensures old(ysize) != 1 ==> xsize == old(xsize) && buf == old(buf) && Elements() == old(Elements())
    {
      if ysize != 1 {
        return;
      }
      assert Size() == xsize;
      var b, n := buf, xsize;
      var a := new T[n + 1];
      var i := 0;
      while i < n
        modifies a
        invariant 0 <= i <= n
        invariant a[..i] == b[..i]
      {
        a[i] := b[i];
        i := i + 1;
      }
      a[n] := val;
      assert a[..n + 1] == b[..n] + [val];
      buf := a;
      xsize := n + 1;
    }

    /** `push_front`: on a 1-D array, put `val` first and shift the rest right; on a
        2-D array, nothing. */
    method PushFront(val: T)
      requires Valid()
      modifies this
      ensures Valid() && ysize == old(ysize)
      ensures old(ysize) == 1 ==> xsize == old(xsize) + 1 && Elements() == [val] + old(Elements())
      ensures old(ysize) != 1 ==> xsize == old(xsize) && buf == old(buf) && Elements() == old(Elements())
    {
      if ysize != 1 {
        return;
      }
      assert Size() == xsize;
      var b, n := buf, xsize;
      var a := new T[n + 1];
      var i := 0;
      while i < n
        modifies a
        invariant 0 <= i <= n
        invariant forall k :: 0 <= k < i ==> a[k + 1] == b[k]
      {
        a[i + 1] := b[i];
        i := i + 1;
      }
      a[0] := val;
      assert forall k :: 0 < k <= n ==> a[k] == b[k - 1];
      assert a[..n + 1] == [val] + b[..n];
      buf := a;
      xsize := n + 1;
    }

    /** `remove`: on a 1-D array, drop element `index` and shift the later ones left;
        on a 2-D array, nothing. The move copies the `xsize - index - 1` later
        elements (see `RemoveMoveReadsPastEnd` for the count the source uses). */
    method Remove(index: nat)
      requires Valid() && (ysize == 1 ==> index < xsize)
      modifies this, buf
      ensures Valid() && ysize == old(ysize) && buf == old(buf)
      ensures old(ysize) == 1 ==>
        xsize == old(xsize) - 1 && Elements() == old(Elements())[..index] + old(Elements())[index + 1..]
      ensures old(ysize) != 1 ==> xsize == old(xsize) && Elements() == old(Elements())
    {
      if ysize != 1 {
        return;
      }
      assert Size() == xsize;
      var b, n := buf, xsize;
      ghost var s := b[..n];
      var i := index;
      while i < n - 1
        modifies b
        invariant index <= i <= n - 1
        invariant forall k :: 0 <= k < index ==> b[k] == s[k]
        invariant forall k :: index <= k < i ==> b[k] == s[k + 1]
        invariant forall k :: i <= k < n ==> b[k] == s[k]
      {
        b[i] := b[i + 1];
        i := i + 1;
      }
      xsize := n - 1;
      assert b[..n - 1] == s[..index] + s[index + 1..] by {
        forall k | 0 <= k < n - 1
          ensures b[k] == (s[..index] + s[index + 1..])[k]
        {
          if k < index {
            assert (s[..index] + s[index + 1..])[k] == s[k];
          } else {
            assert (s[..index] + s[index + 1..])[k] == s[k + 1];
          }
        }
      }
    }

    /** `swap(index1, index2)`: exchange two elements. */
    method Swap(i: nat, j: nat)
      requires Valid() && i < Size() && j < Size()
      modifies buf
      ensures Valid() && Elements() == old(Elements())[i := old(Elements())[j]][j := old(Elements())[i]]
      ensures buf[i] == old(buf[j]) && buf[j] == old(buf[i])
      ensures forall k :: 0 <= k < buf.Length && k != i && k != j ==> buf[k] == old(buf[k])
    {
      var t := buf[i];
      buf[i] := buf[j];
      buf[j] := t;
    }

    /** `swap(x1, y1, x2, y2)`: exchange two cells. */
    method Swap2(x1: nat, y1: nat, x2: nat, y2: nat)
      requires Valid() && Index(x1, y1, ysize) < Size() && Index(x2, y2, ysize) < Size()
      modifies buf
      ensures Valid()
      ensures var i, j := Index(x1, y1, ysize), Index(x2, y2, ysize);
        Elements() == old(Elements())[i := old(Elements())[j]][j := old(Elements())[i]]
    {
      Swap(Index(x1, y1, ysize), Index(x2, y2, ysize));
    }

    /** `reverse`: swap element `i` with element `size - 1 - i` for the first half. */
    method Reverse()
      requires Valid()
      modifies buf
      ensures Valid() && Elements() == Reversed(old(Elements()))
    {
      var n := xsize * ysize;
      ghost var s := buf[..n];
      var i := 0;
      while i < n / 2
        invariant 0 <= i <= n / 2
        invariant forall k :: 0 <= k < i ==> buf[k] == s[n - 1 - k] && buf[n - 1 - k] == s[k]
        invariant forall k :: i <= k < n - i ==> buf[k] == s[k]
      {
        Swap(i, n - 1 - i);
        i := i + 1;
      }
      assert buf[..n] == Reversed(s) by {
        forall k | 0 <= k < n
          ensures buf[k] == Reversed(s)[k]
        {
          if k < n / 2 {
          } else if k < n - n / 2 {
            assert k == n - 1 - k;
          } else {
            assert buf[n - 1 - (n - 1 - k)] == s[n - 1 - k];
          }
        }
      }
    }
  }

  /** `operator==` with the loop bound the size check implies: equal sizes and equal
      elements. */
  method Equal<T(0, ==)>(xa: XArray<T>, xb: XArray<T>) returns (r: bool)
    requires xa.Valid() && xb.Valid()
    ensures r <==> xa.Elements() == xb.Elements()
  {
    if xa.xsize * xa.ysize != xb.xsize * xb.ysize {
      return false;
    }
    var n := xa.xsize * xa.ysize;
    var i := 0;
    while i < n
      invariant 0 <= i <= n
      invariant xa.buf[..i] == xb.buf[..i]
    {
      if xa.buf[i] != xb.buf[i] {
        assert xa.Elements()[i] != xb.Elements()[i];
        return false;
      }
      i := i + 1;
    }
    return true;
  }

  /** The loop of `operator==` as the source writes it, from position `i` to `n` over
      element sequences of equal length: `Some(false)` at the first position whose
      elements differ, `Some(true)` once `i` reaches `n`, and `None` when it reaches a
      position past the elements first. */
  function CompareFrom<T(==)>(a: seq<T>, b: seq<T>, i: nat, n: nat): (r: Option<bool>)
    requires |a| == |b| && i <= |a| && i <= n
    ensures r == Some(true) <==> n <= |a| && a[i..n] == b[i..n]
    ensures r == None <==> |a| < n && a[i..] == b[i..]
    decreases n - i
  {
    if i == n then Some(true)
    else if i == |a| then None
    else if a[i] != b[i] then
      assert n <= |a| ==> a[i..n][0] != b[i..n][0];
      assert a[i..][0] != b[i..][0];
      Some(false)
    else
      var r := CompareFrom(a, b, i + 1, n);
      assert a[i..] == [a[i]] + a[i + 1..] && b[i..] == [b[i]] + b[i + 1..];
      assert n <= |a| ==> a[i..n] == [a[i]] + a[i + 1..n] && b[i..n] == [b[i]] + b[i + 1..n];
      r
  }

  /** `operator==` as the source writes it, on the elements `a` and `b` of two arrays
      whose first dimensions are `axsize` and `bxsize`: false for different sizes;
      otherwise the loop runs to `axsize * bxsize` whatever the shape, and reads past
      the elements (`None`) when that bound exceeds the size and no element differs
      first. */
  function EqualAsWritten<T(==)>(a: seq<T>, axsize: nat, b: seq<T>, bxsize: nat): (r: Option<bool>)
    ensures |a| != |b| ==> r == Some(false)
    ensures |a| == |b| && axsize * bxsize <= |a| ==>
      (r == Some(true) <==> a[..axsize * bxsize] == b[..axsize * bxsize]) && r != None
    ensures |a| == |b| && |a| < axsize * bxsize ==> (r == None <==> a == b)
  {
    if |a| != |b| then Some(false) else CompareFrom(a, b, 0, axsize * bxsize)
  }

  /** Two 1-by-2 arrays with different second elements compare equal. */
  lemma EqualAsWrittenMissesElements()
    ensures EqualAsWritten([0, 1], 1, [0, 2], 1) == Some(true) && [0, 1] != [0, 2]
  {
    assert [0, 1][..1] == [0] == [0, 2][..1];
  }

  /** Two equal 1-D arrays of at least two elements: the loop runs `xsize * xsize`
      times and reads past both arrays' elements. */
  lemma EqualAsWrittenReadsPastEnd<T(0)>(xa: XArray<T>, xb: XArray<T>)
    requires xa.Valid() && xb.Valid() && xa.ysize == 1 && xb.ysize == 1 && 2 <= xa.xsize
    requires xa.Elements() == xb.Elements()
    ensures xa.xsize == xb.xsize
    ensures EqualAsWritten(xa.Elements(), xa.xsize, xb.Elements(), xb.xsize) == None
  {
    assert |xa.Elements()| == xa.xsize && |xb.Elements()| == xb.xsize;
    XMath.MulMonotone(2, xa.xsize, xa.xsize);
  }

  /** The elements a `memmove` of `count` elements from position `from` of `s` reads,
      or `None` when that range runs past the last element. */
  function MoveSource<T>(s: seq<T>, from: nat, count: nat): (r: Option<seq<T>>)
    ensures r.Some? <==> from + count <= |s|
    ensures r.Some? ==> |r.value| == count && forall k :: 0 <= k < count ==> r.value[k] == s[from + k]
  {
    if from + count <= |s| then Some(s[from..from + count]) else None
  }

  /** On a 1-D array, `remove(index)`'s `memmove` of `xsize - index` elements from
      `index + 1` reads past the elements, while `xsize - index - 1` elements are
      exactly those after `index`, which `Remove` shifts left. */
  lemma RemoveMoveReadsPastEnd<T(0)>(xa: XArray<T>, index: nat)
    requires xa.Valid() && xa.ysize == 1 && index < xa.xsize
    ensures MoveSource(xa.Elements(), index + 1, xa.xsize - index) == None
    ensures MoveSource(xa.Elements(), index + 1, xa.xsize - index - 1) == Some(xa.Elements()[index + 1..])
  {
    var e := xa.Elements();
    assert |e| == xa.xsize;
    assert e[index + 1..index + 1 + (xa.xsize - index - 1)] == e[index + 1..];
  }
}
