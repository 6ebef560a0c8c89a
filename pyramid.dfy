/** `draw_pyramid` of hello.py: row `i` of a pyramid of height `h` is
    `2i - 1` stars centred in the width of the base, `2h - 1`. The printed
    rows are the method's result. */
module Pyramid {
  /** `c * n` */
  function Repeat(c: char, n: nat): (r: string)
    ensures |r| == n && forall k :: 0 <= k < n ==> r[k] == c
  {
    seq(n, _ => c)
  }

  /** `s.center(width)` as CPython computes it: when the margin is odd, the
      extra space goes left exactly when the width is odd too. */
  function Center(s: string, width: int): string {
    if |s| >= width then s
    else
      var marg := width - |s|;
      var left := marg / 2 + (if marg % 2 == 1 && width % 2 == 1 then 1 else 0);
      Repeat(' ', left) + s + Repeat(' ', marg - left)
  }

  /** A string at least as wide as `width` is left alone; a shorter one is
      padded to exactly `width`, evenly when the margin is even. */
  lemma CenterFacts(s: string, width: int)
    ensures |s| >= width ==> Center(s, width) == s
    ensures |s| < width ==> |Center(s, width)| == width
    ensures |s| < width && (width - |s|) % 2 == 0 ==>
      Center(s, width) == Repeat(' ', (width - |s|) / 2) + s + Repeat(' ', (width - |s|) / 2)
  {
  }

  /** Row `i` (counted from 1) of a pyramid of height `h`. */
  function Row(h: int, i: int): string
    requires 1 <= i
  {
    Center(Repeat('*', 2 * i - 1), 2 * h - 1)
  }

  /** `for i in range(1, height + 1): print(stars.center(2 * height - 1))` */
  method DrawPyramid(h: int) returns (rows: seq<string>)
    ensures |rows| == if h > 0 then h else 0
    ensures forall i :: 1 <= i <= |rows| ==> rows[i - 1] == Row(h, i)
  {
    rows := [];
    var i := 1;
    while i < h + 1
      invariant 1 <= i && (h > 0 ==> i <= h + 1) && (h <= 0 ==> i == 1)
      invariant |rows| == i - 1
      invariant forall j :: 1 <= j < i ==> rows[j - 1] == Row(h, j)
    {
      var stars := Repeat('*', 2 * i - 1);
      rows := rows + [Center(stars, 2 * h - 1)];
      i := i + 1;
    }
  }

  /** Every row is as wide as the base, with `h - i` spaces on each side of
      its `2i - 1` stars. */
  lemma RowShape(h: int, i: int)
    requires 1 <= i <= h
    ensures |Row(h, i)| == 2 * h - 1
    ensures Row(h, i) == Repeat(' ', h - i) + Repeat('*', 2 * i - 1) + Repeat(' ', h - i)
  {
    var s := Repeat('*', 2 * i - 1);
    CenterFacts(s, 2 * h - 1);
    if i < h {
      assert (2 * h - 1 - |s|) / 2 == h - i;
    } else {
      assert Repeat(' ', 0) == [];
      assert Row(h, i) == s;
    }
  }

  /** Row `i` holds exactly `2i - 1` stars, at the positions `h - i` to
      `h + i - 2`, and spaces elsewhere. */
  lemma RowStars(h: int, i: int)
    requires 1 <= i <= h
    ensures forall k :: 0 <= k < |Row(h, i)| ==> (Row(h, i)[k] == '*' <==> h - i <= k < h + i - 1)
    ensures forall k :: 0 <= k < |Row(h, i)| ==> (Row(h, i)[k] == ' ' <==> !(h - i <= k < h + i - 1))
  {
    RowShape(h, i);
  }

  /** The base is all stars. */
  lemma LastRow(h: int)
    requires 1 <= h
    ensures Row(h, h) == Repeat('*', 2 * h - 1)
  {
    RowShape(h, h);
    assert Repeat(' ', 0) == [];
  }
}
