/** Two small computations of the tray shell: the window-centring
    arithmetic and the de-duplication of the candidate icon paths. */
module Shell {
  import opened Common

  /** A window geometry `"{w}x{h}+{x}+{y}"`. */
  datatype Geometry = Geometry(width: int, height: int, x: int, y: int)

  /** Lines 111-118: a window narrower or lower than 100 pixels is given
      the default size 300x200, and the offsets are the halved leftover
      space. Python's `//` rounds toward negative infinity, as Dafny's `/`
      does for a positive divisor. */
  function CenterWindow(screenWidth: int, screenHeight: int,
                        windowWidth: int, windowHeight: int): (g: Geometry)
    ensures windowWidth < 100 || windowHeight < 100 ==> g.width == 300 && g.height == 200
    ensures !(windowWidth < 100 || windowHeight < 100) ==>
      g.width == windowWidth && g.height == windowHeight
    ensures 0 <= (screenWidth - g.width) - 2 * g.x <= 1
    ensures 0 <= (screenHeight - g.height) - 2 * g.y <= 1
  {
    var (w, h) := if windowWidth < 100 || windowHeight < 100 then (300, 200)
                  else (windowWidth, windowHeight);
    Geometry(w, h, (screenWidth - w) / 2, (screenHeight - h) / 2)
  }

  /** The position of the first occurrence of `x` in `xs`. */
  function FirstIndex(xs: seq<string>, x: string): (i: nat)
    requires x in xs
    ensures i < |xs| && xs[i] == x && x !in xs[..i]
  {
    First(xs, (y: string) => y == x).value
  }

  /** No element occurs twice. */
  predicate Distinct(xs: seq<string>) {
    forall i, j :: 0 <= i < j < |xs| ==> xs[i] != xs[j]
  }

  /** Line 719, `list(dict.fromkeys(paths))`: the first occurrence of each
      element, in order. */
  function Dedup(xs: seq<string>): (r: seq<string>)
    ensures Distinct(r)
    ensures forall x :: x in r <==> x in xs
    decreases |xs|
  {
    if xs == [] then []
    else
      var last := xs[|xs| - 1];
      var init := Dedup(xs[..|xs| - 1]);
      assert forall x :: x in xs <==> x in xs[..|xs| - 1] || x == last;
      if last in init then init else init + [last]
  }

  /** The elements keep the order of their first occurrences. */
  lemma {:induction false} DedupKeepsFirstOccurrenceOrder(xs: seq<string>, i: nat, j: nat)
    requires i < j < |Dedup(xs)|
    ensures FirstIndex(xs, Dedup(xs)[i]) < FirstIndex(xs, Dedup(xs)[j])
    decreases |xs|
  {
    var init := xs[..|xs| - 1];
    var last := xs[|xs| - 1];
    var r := Dedup(init);
    assert Dedup(xs) == if last in r then r else r + [last];
    assert Dedup(xs)[i] in init by {
      assert Dedup(xs)[i] == r[i];
    }
    FirstIndexOfPrefix(xs, Dedup(xs)[i]);
    if j < |r| {
      FirstIndexOfPrefix(xs, Dedup(xs)[j]);
      DedupKeepsFirstOccurrenceOrder(init, i, j);
    } else {
      assert Dedup(xs)[j] == last && last !in init;
      assert FirstIndex(xs, last) == |xs| - 1;
    }
  }

  /** The first occurrence of an element of the prefix is found in it. */
  lemma FirstIndexOfPrefix(xs: seq<string>, x: string)
    requires |xs| > 0 && x in xs[..|xs| - 1]
    ensures FirstIndex(xs, x) == FirstIndex(xs[..|xs| - 1], x)
  {
    var k := FirstIndex(xs[..|xs| - 1], x);
    assert xs[k] == x && x !in xs[..k];
  }
}
