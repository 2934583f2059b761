/**
 * Fan triangulation of a face (the loop at the end of `parseFace` in obj_parser.hpp):
 * the corners c0 .. c(k-1) of a face become the triangles (c0, ci, ci+1), i = 1 .. k-2.
 * The same function is applied to each channel of the face.
 */
module Triangulation {

  /** The corner list of the fan of `c`, triangle after triangle. */
  function Fan(c: seq<int>): seq<int> {
    if |c| < 3 then [] else Fan(c[..|c| - 1]) + [c[0], c[|c| - 2], c[|c| - 1]]
  }

  /** Which corner of the face the `j`-th corner of its fan copies. */
  function FanSource(j: nat): nat {
    if j % 3 == 0 then 0 else j / 3 + j % 3
  }

  /** A face of k >= 3 corners gives 3(k-2) corners, fewer than three corners give none. */
  lemma {:induction false} FanLength(c: seq<int>)
    ensures |Fan(c)| == if |c| >= 3 then 3 * (|c| - 2) else 0
  {
    if |c| >= 3 {
      FanLength(c[..|c| - 1]);
    }
  }

  /** A fan is a whole number of triangles. */
  lemma FanTriples(c: seq<int>)
    ensures |Fan(c)| % 3 == 0
  {
    FanLength(c);
  }

  /**
   * Every fan corner is a corner of the face, picked by a position that depends only
   * on where it stands in the fan; so parallel channels of equal length stay aligned.
   */
  lemma {:induction false} FanAt(c: seq<int>, j: nat)
    requires j < |Fan(c)|
    ensures FanSource(j) < |c|
    ensures Fan(c)[j] == c[FanSource(j)]
  {
    FanLength(c);
    var init := c[..|c| - 1];
    FanLength(init);
    if j < |Fan(init)| {
      FanAt(init, j);
    } else {
      assert j / 3 == |c| - 3;
    }
  }

  /** Triangle i (counting from 1) of the fan is (c0, ci, ci+1). */
  lemma FanTriangle(c: seq<int>, i: nat)
    requires 1 <= i <= |c| - 2
    ensures 3 * i <= |Fan(c)|
    ensures Fan(c)[3 * (i - 1)..3 * i] == [c[0], c[i], c[i + 1]]
  {
    FanLength(c);
    var j := 3 * (i - 1);
    FanAt(c, j);
    FanAt(c, j + 1);
    FanAt(c, j + 2);
  }

  /** Adding the corner c(k) to a face of k >= 2 corners appends the triangle (c0, c(k-1), c(k)). */
  lemma {:induction false} FanSnoc(c: seq<int>, x: int)
    requires |c| >= 2
    ensures Fan(c + [x]) == Fan(c) + [c[0], c[|c| - 1], x]
  {
    var d := c + [x];
    assert d[..|d| - 1] == c;
    assert [d[0], d[|d| - 2], d[|d| - 1]] == [c[0], c[|c| - 1], x];
  }

  /** The triangle (c0, ci, ci+1). */
  function Triangle(c: seq<int>, i: nat): seq<int>
    requires i + 1 < |c|
  {
    [c[0], c[i], c[i + 1]]
  }

  /** One step of the triangulation loop: the prefix of i+2 corners adds (c0, ci, ci+1). */
  lemma FanStep(c: seq<int>, i: nat)
    requires 1 <= i < |c| - 1
    ensures Fan(c[..i + 2]) == Fan(c[..i + 1]) + Triangle(c, i)
  {
    assert c[..i + 2] == c[..i + 1] + [c[i + 1]];
    FanSnoc(c[..i + 1], c[i + 1]);
  }
}
