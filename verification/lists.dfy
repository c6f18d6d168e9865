/** The generic list-of-lists transpose the win detector uses to read columns. */
module Lists {

  /** The number of elements over all rows; the measure that makes Transpose terminate. */
  function TotalLength<E>(xs: seq<seq<E>>): nat
  {
    if xs == [] then 0 else |xs[0]| + TotalLength(xs[1..])
  }

  lemma {:induction false} TotalLengthAppend<E>(x: seq<E>, xs: seq<seq<E>>)
    ensures TotalLength([x] + xs) == |x| + TotalLength(xs)
  {
    assert ([x] + xs)[1..] == xs;
  }

  /** The rows that are not empty, in their order (the source's `filter { it.isNotEmpty() }`). */
  function NonEmptyRows<E>(xs: seq<seq<E>>): (ys: seq<seq<E>>)
    ensures forall i :: 0 <= i < |ys| ==> ys[i] != []
    ensures TotalLength(ys) == TotalLength(xs)
    ensures (forall i :: 0 <= i < |xs| ==> xs[i] != []) ==> ys == xs
    ensures (forall i :: 0 <= i < |xs| ==> xs[i] == []) ==> ys == []
  {
    if xs == [] then []
    else if xs[0] == [] then
      assert forall i :: 0 <= i < |xs[1..]| ==> xs[1..][i] == xs[i + 1];
      NonEmptyRows(xs[1..])
    else
      assert forall i :: 0 <= i < |xs[1..]| ==> xs[1..][i] == xs[i + 1];
      TotalLengthAppend(xs[0], NonEmptyRows(xs[1..]));
      assert xs == [xs[0]] + xs[1..];
      [xs[0]] + NonEmptyRows(xs[1..])
  }

  /** The filter keeps exactly the non-empty rows: a row is in the result
      if and only if it is a non-empty row of the input. */
  lemma {:induction false} NonEmptyRowsMembers<E>(xs: seq<seq<E>>)
    ensures forall i :: 0 <= i < |NonEmptyRows(xs)| ==> NonEmptyRows(xs)[i] in xs
    ensures forall i :: 0 <= i < |xs| && xs[i] != [] ==> xs[i] in NonEmptyRows(xs)
  {
    if xs != [] {
      NonEmptyRowsMembers(xs[1..]);
      assert forall r :: r in xs <==> r == xs[0] || r in xs[1..];
    }
  }

  /** The filter keeps the input's order: filtering a concatenation is
      concatenating the filtered parts. */
  lemma {:induction false} NonEmptyRowsAppend<E>(a: seq<seq<E>>, b: seq<seq<E>>)
    ensures NonEmptyRows(a + b) == NonEmptyRows(a) + NonEmptyRows(b)
  {
    if a != [] {
      assert (a + b)[1..] == a[1..] + b;
      NonEmptyRowsAppend(a[1..], b);
    } else {
      assert a + b == b;
    }
  }

  /** The first element of every row (`map { it.head() }`). */
  function Heads<E>(ys: seq<seq<E>>): seq<E>
    requires forall i :: 0 <= i < |ys| ==> ys[i] != []
  {
    seq(|ys|, i requires 0 <= i < |ys| => ys[i][0])
  }

  /** Every row without its first element (`map { it.tail() }`). */
  function Tails<E>(ys: seq<seq<E>>): seq<seq<E>>
    requires forall i :: 0 <= i < |ys| ==> ys[i] != []
  {
    seq(|ys|, i requires 0 <= i < |ys| => ys[i][1..])
  }

  lemma {:induction false} TailsShorter<E>(ys: seq<seq<E>>)
    requires forall i :: 0 <= i < |ys| ==> ys[i] != []
    ensures TotalLength(Tails(ys)) == TotalLength(ys) - |ys|
  {
    if ys != [] {
      assert Tails(ys)[1..] == Tails(ys[1..]);
      TailsShorter(ys[1..]);
    }
  }

  /** Rows become columns: drop the empty rows, take the heads as the first
      result row and transpose the tails for the rest. Ragged input is
      accepted: the total number of elements is kept and no result row is
      empty; `TransposeElems` proves the elements are the input's, and the
      lemmas below say where each element goes on rectangular input. */
  function Transpose<E>(xs: seq<seq<E>>): (t: seq<seq<E>>)
    ensures forall i :: 0 <= i < |t| ==> t[i] != []
    ensures TotalLength(t) == TotalLength(xs)
    decreases TotalLength(xs)
  {
    var ys := NonEmptyRows(xs);
    if ys != [] then
      TailsShorter(ys);
      TotalLengthAppend(Heads(ys), Transpose(Tails(ys)));
      [Heads(ys)] + Transpose(Tails(ys))
    else
      []
  }

  /** A list without elements (no rows, or only empty rows) transposes to the empty list. */
  lemma TransposeOfNothing<E>(xs: seq<seq<E>>)
    requires forall j :: 0 <= j < |xs| ==> xs[j] == []
    ensures Transpose(xs) == []
  {
  }

  /** m rows of length n (m > 0) transpose to n rows of length m, with the
      element at (i, j) taken from (j, i). */
  lemma {:induction false} TransposeRect<E>(xs: seq<seq<E>>, n: nat)
    requires |xs| > 0
    requires forall j :: 0 <= j < |xs| ==> |xs[j]| == n
    ensures |Transpose(xs)| == n
    ensures forall i :: 0 <= i < n ==> |Transpose(xs)[i]| == |xs|
    ensures forall i, j :: 0 <= i < n && 0 <= j < |xs| ==> Transpose(xs)[i][j] == xs[j][i]
    decreases n
  {
    if n == 0 {
      assert NonEmptyRows(xs) == [];
    } else {
      assert NonEmptyRows(xs) == xs;
      var t := Tails(xs);
      assert forall j :: 0 <= j < |t| ==> |t[j]| == n - 1;
      TransposeRect(t, n - 1);
      assert Transpose(xs) == [Heads(xs)] + Transpose(t);
      forall i, j | 0 <= i < n && 0 <= j < |xs|
        ensures Transpose(xs)[i][j] == xs[j][i]
      {
        if i > 0 {
          assert Transpose(xs)[i] == Transpose(t)[i - 1];
          assert t[j][i - 1] == xs[j][i];
        }
      }
    }
  }

  /** Transposing a rectangular, non-degenerate list twice gives it back. */
  lemma {:induction false} TransposeTwice<E>(xs: seq<seq<E>>, n: nat)
    requires |xs| > 0 && n > 0
    requires forall j :: 0 <= j < |xs| ==> |xs[j]| == n
    ensures Transpose(Transpose(xs)) == xs
  {
    TransposeRect(xs, n);
    var t := Transpose(xs);
    TransposeRect(t, |xs|);
    var tt := Transpose(t);
    assert |tt| == |xs|;
    forall j | 0 <= j < |xs|
      ensures tt[j] == xs[j]
    {
      assert |tt[j]| == n;
      assert forall i :: 0 <= i < n ==> tt[j][i] == t[i][j] == xs[j][i];
    }
  }

  /** All elements of all rows, counted with multiplicity. */
  function Elems<E>(xs: seq<seq<E>>): multiset<E>
  {
    if xs == [] then multiset{} else multiset(xs[0]) + Elems(xs[1..])
  }

  lemma {:induction false} ElemsCons<E>(x: seq<E>, xs: seq<seq<E>>)
    ensures Elems([x] + xs) == multiset(x) + Elems(xs)
  {
    assert ([x] + xs)[1..] == xs;
  }

  /** Dropping the empty rows drops no element. */
  lemma {:induction false} NonEmptyRowsElems<E>(xs: seq<seq<E>>)
    ensures Elems(NonEmptyRows(xs)) == Elems(xs)
  {
    if xs != [] {
      NonEmptyRowsElems(xs[1..]);
      if xs[0] != [] {
        ElemsCons(xs[0], NonEmptyRows(xs[1..]));
      }
    }
  }

  /** The heads and the tails of non-empty rows share out their elements. */
  lemma {:induction false} HeadsTailsElems<E>(ys: seq<seq<E>>)
    requires forall i :: 0 <= i < |ys| ==> ys[i] != []
    ensures multiset(Heads(ys)) + Elems(Tails(ys)) == Elems(ys)
  {
    if ys != [] {
      var rest := ys[1..];
      HeadsTailsElems(rest);
      var h, r := ys[0][0], ys[0][1..];
      assert Heads(ys) == [h] + Heads(rest);
      assert Tails(ys) == [r] + Tails(rest);
      ElemsCons(r, Tails(rest));
      assert multiset(Heads(ys)) == multiset{h} + multiset(Heads(rest));
      assert ys[0] == [h] + r;
      assert multiset(ys[0]) == multiset{h} + multiset(r);
    }
  }

  /** Transposing any list of lists, ragged or not, rearranges its elements:
      none is lost, none is invented, none is duplicated. */
  lemma {:induction false} TransposeElems<E>(xs: seq<seq<E>>)
    ensures Elems(Transpose(xs)) == Elems(xs)
    decreases TotalLength(xs)
  {
    NonEmptyRowsElems(xs);
    var ys := NonEmptyRows(xs);
    if ys != [] {
      TailsShorter(ys);
      TransposeElems(Tails(ys));
      HeadsTailsElems(ys);
      ElemsCons(Heads(ys), Transpose(Tails(ys)));
    }
  }
}
