/** The list chunking helper used to lay out keyboards (utils/utility.py). */
module Utility {

  /** Concatenation of all rows. */
  function Flatten<T>(rows: seq<seq<T>>): seq<T>
  {
    if |rows| == 0 then [] else rows[0] + Flatten(rows[1..])
  }

  /** `list_split` exactly as its loop builds it: element number i opens a new
      row when the running index i % cols is 0, and is appended to the last
      row otherwise. The source divides by `cols`, so it must be positive. */
  function ListSplit<T>(lst: seq<T>, cols: nat): (rows: seq<seq<T>>)
    requires cols > 0
    ensures |rows| == 0 <==> |lst| == 0
    decreases |lst|
  {
    if |lst| == 0 then []
    else
      var prev := ListSplit(lst[..|lst| - 1], cols);
      var x := lst[|lst| - 1];
      if (|lst| - 1) % cols == 0 then prev + [[x]]
      else prev[..|prev| - 1] + [prev[|prev| - 1] + [x]]
  }

  /** Independent reference: the first `cols` elements form a row, the rest is
      chunked the same way. */
  function Chunks<T>(lst: seq<T>, cols: nat): seq<seq<T>>
    requires cols > 0
    decreases |lst|
  {
    if |lst| == 0 then []
    else if |lst| <= cols then [lst]
    else [lst[..cols]] + Chunks(lst[cols..], cols)
  }

  lemma ShiftByDivisor(a: int, c: int)
    requires a >= 0 && c > 0
    ensures (a + c) / c == a / c + 1
    ensures (a + c) % c == a % c
  {
    var q, r := a / c, a % c;
    assert a == q * c + r;
    assert a + c == (q + 1) * c + r;
    DivModUnique(a + c, c, q + 1, r);
  }

  lemma DivModUnique(a: int, c: int, q: int, r: int)
    requires c > 0 && 0 <= r < c && a == q * c + r
    ensures a / c == q && a % c == r
  {
    var q', r' := a / c, a % c;
    var d := q - q';
    assert d * c == r' - r by {
      assert q * c - q' * c == (q - q') * c;
    }
    if d > 0 {
      MulAtLeast(d, c);
    } else if d < 0 {
      MulAtLeast(-d, c);
    }
  }

  lemma MulAtLeast(d: int, c: int)
    requires d >= 1 && c > 0
    ensures d * c >= c
  {
    assert d * c == (d - 1) * c + c;
    assert (d - 1) * c >= 0;
  }

  /** Appending one element to a chunked list either opens a new row or
      extends the last one, depending on the length modulo `cols`. */
  lemma {:induction false} ChunksSnoc<T>(s: seq<T>, x: T, cols: nat)
    requires cols > 0
    ensures |s| % cols == 0 ==> Chunks(s + [x], cols) == Chunks(s, cols) + [[x]]
    ensures |s| % cols != 0 ==>
              var c := Chunks(s, cols);
              |c| > 0 && Chunks(s + [x], cols) == c[..|c| - 1] + [c[|c| - 1] + [x]]
    decreases |s|, 1
  {
    if |s| == 0 {
      assert s + [x] == [x];
    } else if |s| < cols {
      assert |s| % cols == |s|;
      assert Chunks(s, cols) == [s];
      assert Chunks(s + [x], cols) == [s + [x]];
      assert [s][..0] + [[s][0] + [x]] == [s + [x]];
    } else if |s| == cols {
      assert (s + [x])[..cols] == s;
      assert (s + [x])[cols..] == [x];
      assert Chunks([x], cols) == [[x]];
    } else {
      ChunksSnocLong(s, x, cols);
    }
  }

  /** The step of ChunksSnoc for a list longer than one row. */
  lemma {:induction false} ChunksSnocLong<T>(s: seq<T>, x: T, cols: nat)
    requires cols > 0 && |s| > cols
    ensures |s| % cols == 0 ==> Chunks(s + [x], cols) == Chunks(s, cols) + [[x]]
    ensures |s| % cols != 0 ==>
              var c := Chunks(s, cols);
              |c| > 0 && Chunks(s + [x], cols) == c[..|c| - 1] + [c[|c| - 1] + [x]]
    decreases |s|, 0
  {
    var rest := s[cols..];
    assert (s + [x])[..cols] == s[..cols];
    assert (s + [x])[cols..] == rest + [x];
    assert Chunks(s + [x], cols) == [s[..cols]] + Chunks(rest + [x], cols);
    assert Chunks(s, cols) == [s[..cols]] + Chunks(rest, cols);
    ShiftByDivisor(|rest|, cols);
    ChunksSnoc(rest, x, cols);
    var c := Chunks(rest, cols);
    if |s| % cols != 0 {
      assert ([s[..cols]] + c)[..|c|] == [s[..cols]] + c[..|c| - 1];
    }
  }

  /** The loop-built rows are exactly the reference chunks. */
  lemma {:induction false} ListSplitIsChunks<T>(lst: seq<T>, cols: nat)
    requires cols > 0
    ensures ListSplit(lst, cols) == Chunks(lst, cols)
    decreases |lst|
  {
    if |lst| > 0 {
      var s := lst[..|lst| - 1];
      assert lst == s + [lst[|lst| - 1]];
      ListSplitIsChunks(s, cols);
      ChunksSnoc(s, lst[|lst| - 1], cols);
    }
  }

  lemma {:induction false} FlattenChunks<T>(lst: seq<T>, cols: nat)
    requires cols > 0
    ensures Flatten(Chunks(lst, cols)) == lst
    decreases |lst|
  {
    if 0 < |lst| <= cols {
      assert Flatten([lst]) == lst + Flatten([]);
    } else if |lst| > cols {
      FlattenChunks(lst[cols..], cols);
      var c := [lst[..cols]] + Chunks(lst[cols..], cols);
      assert c[1..] == Chunks(lst[cols..], cols);
      assert lst == lst[..cols] + lst[cols..];
    }
  }

  lemma {:induction false} ChunksRows<T>(lst: seq<T>, cols: nat)
    requires cols > 0
    ensures var rows := Chunks(lst, cols);
            && |rows| == (|lst| + cols - 1) / cols
            && (forall k :: 0 <= k < |rows| ==> 0 < |rows[k]| <= cols)
            && (forall k :: 0 <= k < |rows| - 1 ==> |rows[k]| == cols)
    decreases |lst|
  {
    if |lst| == 0 {
    } else if |lst| <= cols {
      DivModUnique(|lst| + cols - 1, cols, 1, |lst| - 1);
    } else {
      ChunksRows(lst[cols..], cols);
      ShiftByDivisor(|lst| - cols + cols - 1, cols);
    }
  }

  lemma {:induction false} ChunksPosition<T>(lst: seq<T>, cols: nat, i: int)
    requires cols > 0 && 0 <= i < |lst|
    ensures var rows := Chunks(lst, cols);
            && i / cols < |rows|
            && i % cols < |rows[i / cols]|
            && rows[i / cols][i % cols] == lst[i]
    decreases |lst|
  {
    if i < cols {
      DivModUnique(i, cols, 0, i);
    } else {
      ShiftByDivisor(i - cols, cols);
      ChunksPosition(lst[cols..], cols, i - cols);
    }
  }

  /** Concatenating the rows gives back the input, in order. */
  lemma ListSplitConcat<T>(lst: seq<T>, cols: nat)
    requires cols > 0
    ensures Flatten(ListSplit(lst, cols)) == lst
  {
    ListSplitIsChunks(lst, cols);
    FlattenChunks(lst, cols);
  }

  /** ceil(len / cols) rows; every row non-empty and at most `cols` long;
      every row but the last exactly `cols` long. */
  lemma ListSplitRows<T>(lst: seq<T>, cols: nat)
    requires cols > 0
    ensures var rows := ListSplit(lst, cols);
            && |rows| == (|lst| + cols - 1) / cols
            && (forall k :: 0 <= k < |rows| ==> 0 < |rows[k]| <= cols)
            && (forall k :: 0 <= k < |rows| - 1 ==> |rows[k]| == cols)
  {
    ListSplitIsChunks(lst, cols);
    ChunksRows(lst, cols);
  }

  /** Element i sits in row i / cols, column i % cols. */
  lemma ListSplitPosition<T>(lst: seq<T>, cols: nat, i: int)
    requires cols > 0 && 0 <= i < |lst|
    ensures var rows := ListSplit(lst, cols);
            && i / cols < |rows|
            && i % cols < |rows[i / cols]|
            && rows[i / cols][i % cols] == lst[i]
  {
    ListSplitIsChunks(lst, cols);
    ChunksPosition(lst, cols, i);
  }
}
