/** The drivable mask builder (`construir_mascara`): a per-pixel colour rule, then the
    largest connected region of candidate pixels is kept and everything else dropped.

    The connected-component labelling itself (`scipy.ndimage.label`, 4-connected by
    default) is not re-implemented: it is an input grid `labels`, constrained by
    `IsLabelling` to be what such a labelling promises. */
module TrackMask {

  datatype Option<T> = None | Some(value: T)

  /** The colour of one pixel of the resized track image, channels in `[0, 255]`. */
  datatype Pixel = Pixel(r: int, g: int, b: int)

  /** Two grids with the same number of rows and the same length row by row. */
  predicate SameShape<A, B>(a: seq<seq<A>>, b: seq<seq<B>>)
  {
    |a| == |b| && forall i :: 0 <= i < |a| ==> |a[i]| == |b[i]|
  }

  /** `brillo`: the mean of the three channels. */
  function Brightness(p: Pixel): real
  {
    (p.r + p.g + p.b) as real / 3.0
  }

  /** `cruda` at one pixel: cool-toned (`r - b < 20`) and of middle brightness
      (`25 < brillo < 165`). On integer channels the brightness bounds are the bounds
      `75 < r + g + b < 495` on the channel sum. */
  function IsCandidate(p: Pixel): (c: bool)
    ensures c <==> p.r - p.b < 20 && 75 < p.r + p.g + p.b < 495
  {
    p.r - p.b < 20 && Brightness(p) > 25.0 && Brightness(p) < 165.0
  }

  /** The colour rule applied to every pixel. */
  function Raw(img: seq<seq<Pixel>>): (m: seq<seq<bool>>)
    ensures SameShape(m, img)
  {
    seq(|img|, i requires 0 <= i < |img| => seq(|img[i]|, j requires 0 <= j < |img[i]| => IsCandidate(img[i][j])))
  }

  predicate HasCandidate(img: seq<seq<Pixel>>)
  {
    exists i, j :: 0 <= i < |img| && 0 <= j < |img[i]| && IsCandidate(img[i][j])
  }

  /** The cell `(i, j)` (row, column) exists in the grid. */
  predicate InGrid<T>(g: seq<seq<T>>, i: int, j: int)
  {
    0 <= i < |g| && 0 <= j < |g[i]|
  }

  /** The cells `(i1, j1)` and `(i2, j2)` are horizontal or vertical neighbours. */
  predicate Adjacent(i1: int, j1: int, i2: int, j2: int)
  {
    (i1 == i2 && (j1 - j2 == 1 || j2 - j1 == 1)) || (j1 == j2 && (i1 - i2 == 1 || i2 - i1 == 1))
  }

  /** What a 4-connected component labelling of `raw` promises: the same shape, label 0
      exactly on the background, and horizontally or vertically adjacent candidate pixels
      in the same component. */
  ghost predicate IsLabelling(raw: seq<seq<bool>>, labels: seq<seq<nat>>)
  {
    SameShape(labels, raw) &&
    (forall i, j :: 0 <= i < |raw| && 0 <= j < |raw[i]| ==> (labels[i][j] == 0 <==> !raw[i][j])) &&
    (forall i1, j1, i2, j2 ::
       (InGrid(raw, i1, j1) && InGrid(raw, i2, j2) && Adjacent(i1, j1, i2, j2) && raw[i1][j1] && raw[i2][j2])
       ==> labels[i1][j1] == labels[i2][j2])
  }

  /** `ravel`: the grid's cells row after row. */
  function Flatten(g: seq<seq<nat>>): (r: seq<nat>)
    ensures |r| == 0 <==> forall i :: 0 <= i < |g| ==> |g[i]| == 0
  {
    if |g| == 0 then [] else g[0] + Flatten(g[1..])
  }

  /** The number of occurrences of `k` in `s`. */
  function Count(s: seq<nat>, k: nat): nat
  {
    if |s| == 0 then 0 else (if s[0] == k then 1 else 0) + Count(s[1..], k)
  }

  /** The number of pixels carrying label `k`. */
  function Size(labels: seq<seq<nat>>, k: nat): nat
  {
    Count(Flatten(labels), k)
  }

  /** The largest element of a non-empty sequence. */
  function MaxOf(s: seq<nat>): (m: nat)
    requires |s| > 0
    ensures m in s
    ensures forall i :: 0 <= i < |s| ==> s[i] <= m
  {
    if |s| == 1 then s[0]
    else
      var m := MaxOf(s[1..]);
      if s[0] > m then s[0] else m
  }

  /** `np.bincount`: entry `k` counts the occurrences of `k`, for `k` up to the largest value. */
  function Bincount(s: seq<nat>): seq<nat>
    requires |s| > 0
  {
    seq(MaxOf(s) + 1, k requires 0 <= k <= MaxOf(s) => Count(s, k))
  }

  /** `np.argmax`: the first index holding the largest entry. */
  function ArgMax(h: seq<nat>): (i: nat)
    requires |h| > 0
    ensures i < |h|
    ensures forall j :: 0 <= j < |h| ==> h[j] <= h[i]
    ensures forall j :: 0 <= j < i ==> h[j] < h[i]
  {
    if |h| == 1 then 0
    else
      var k := ArgMax(h[..|h| - 1]);
      if h[|h| - 1] > h[k] then |h| - 1 else k
  }

  /** `region_pista`: the argmax of the label histogram once the background bin is zeroed. */
  function SelectedLabel(labels: seq<seq<nat>>): nat
    requires |Flatten(labels)| > 0
  {
    var sizes := Bincount(Flatten(labels));
    ArgMax(sizes[0 := 0])
  }

  /** `construir_mascara` after the image is loaded and resized: true exactly on the
      pixels carrying the selected label. An image without pixels has an empty
      histogram, whose background bin cannot be zeroed (`IndexError`): `None`. */
  function BuildMask(img: seq<seq<Pixel>>, labels: seq<seq<nat>>): (r: Option<seq<seq<bool>>>)
    requires IsLabelling(Raw(img), labels)
    ensures r.None? <==> forall i :: 0 <= i < |img| ==> |img[i]| == 0
    ensures r.Some? ==> SameShape(r.value, img)
    ensures r.Some? && HasCandidate(img) ==>
      forall i, j :: 0 <= i < |img| && 0 <= j < |img[i]| && r.value[i][j] ==> IsCandidate(img[i][j])
  {
    if |Flatten(labels)| == 0 then None
    else
      var best := SelectedLabel(labels);
      assert HasCandidate(img) ==> best >= 1 by {
        if HasCandidate(img) { SelectedIsLargest(img, labels); }
      }
      Some(seq(|labels|, i requires 0 <= i < |labels| =>
             seq(|labels[i]|, j requires 0 <= j < |labels[i]| => labels[i][j] == best)))
  }

  lemma {:induction false} FlattenContains(g: seq<seq<nat>>, i: nat, j: nat)
    requires i < |g| && j < |g[i]|
    ensures g[i][j] in Flatten(g)
  {
    if i > 0 {
      FlattenContains(g[1..], i - 1, j);
    }
  }

  lemma {:induction false} CountPositive(s: seq<nat>, k: nat)
    requires k in s
    ensures Count(s, k) >= 1
  {
    if s[0] != k {
      CountPositive(s[1..], k);
    }
  }

  lemma {:induction false} CountAbsent(s: seq<nat>, k: nat)
    requires k !in s
    ensures Count(s, k) == 0
  {
    if |s| > 0 {
      CountAbsent(s[1..], k);
    }
  }

  /** When some pixel is a candidate, the selected label is a real component (not the
      background 0), no component has more pixels, and every component with as many
      pixels has a larger label (ties go to the lowest label). */
  lemma SelectedIsLargest(img: seq<seq<Pixel>>, labels: seq<seq<nat>>)
    requires IsLabelling(Raw(img), labels)
    requires HasCandidate(img)
    ensures |Flatten(labels)| > 0
    ensures var sel := SelectedLabel(labels);
      sel >= 1 &&
      (forall k :: k >= 1 ==> Size(labels, k) <= Size(labels, sel)) &&
      (forall k :: 1 <= k < sel ==> Size(labels, k) < Size(labels, sel))
  {
    var i, j :| 0 <= i < |img| && 0 <= j < |img[i]| && IsCandidate(img[i][j]);
    var raw := Raw(img);
    assert raw[i][j];
    var v := labels[i][j];
    FlattenContains(labels, i, j);
    var flat := Flatten(labels);
    var h := Bincount(flat)[0 := 0];
    CountPositive(flat, v);
    assert h[v] >= 1;
    var sel := ArgMax(h);
    assert sel == SelectedLabel(labels);
    forall k | k >= 1
      ensures Size(labels, k) <= Size(labels, sel)
    {
      if k >= |h| {
        CountAbsent(flat, k);
      } else {
        assert h[k] == Count(flat, k);
      }
    }
    forall k | 1 <= k < sel
      ensures Size(labels, k) < Size(labels, sel)
    {
      assert h[k] == Count(flat, k);
    }
  }

  /** With some candidate pixel, the mask is true exactly on the selected component: every
      pixel it keeps is a candidate, a candidate pixel of any other component is dropped,
      and the kept region is closed under 4-adjacency among candidate pixels, so it is a
      whole component and not a piece of one. */
  lemma LargestComponentKept(img: seq<seq<Pixel>>, labels: seq<seq<nat>>)
    requires IsLabelling(Raw(img), labels)
    requires HasCandidate(img)
    ensures |Flatten(labels)| > 0 && BuildMask(img, labels).Some?
    ensures var m, sel := BuildMask(img, labels).value, SelectedLabel(labels);
      (forall i, j :: 0 <= i < |img| && 0 <= j < |img[i]| ==>
         (m[i][j] <==> labels[i][j] == sel) && (m[i][j] ==> IsCandidate(img[i][j]))) &&
      (forall i1, j1, i2, j2 ::
         (InGrid(img, i1, j1) && InGrid(img, i2, j2) && Adjacent(i1, j1, i2, j2) && m[i1][j1] && IsCandidate(img[i2][j2]))
         ==> m[i2][j2])
  {
    SelectedIsLargest(img, labels);
  }

  /** With no candidate pixel every label is 0, the argmax of the all-zero histogram is 0,
      and the whole grid comes back drivable. */
  lemma NoCandidateWholeGrid(img: seq<seq<Pixel>>, labels: seq<seq<nat>>)
    requires IsLabelling(Raw(img), labels)
    requires !HasCandidate(img)
    requires exists i :: 0 <= i < |img| && |img[i]| > 0
    ensures BuildMask(img, labels).Some?
    ensures forall i, j :: 0 <= i < |img| && 0 <= j < |img[i]| ==> BuildMask(img, labels).value[i][j]
  {
    var flat := Flatten(labels);
    var raw := Raw(img);
    forall v | v in flat
      ensures v == 0
    {
      FlattenHolds(labels, v);
      var i, j :| 0 <= i < |labels| && 0 <= j < |labels[i]| && labels[i][j] == v;
      assert !raw[i][j];
    }
    assert 0 in flat by {
      assert MaxOf(flat) in flat;
    }
    assert MaxOf(flat) == 0;
    assert SelectedLabel(labels) == 0;
  }

  lemma {:induction false} FlattenHolds(g: seq<seq<nat>>, v: nat)
    requires v in Flatten(g)
    ensures exists i, j :: 0 <= i < |g| && 0 <= j < |g[i]| && g[i][j] == v
  {
    if v in g[0] {
      var j :| 0 <= j < |g[0]| && g[0][j] == v;
      assert g[0][j] == v;
    } else {
      FlattenHolds(g[1..], v);
      var i, j :| 0 <= i < |g[1..]| && 0 <= j < |g[1..][i]| && g[1..][i][j] == v;
      assert g[i + 1][j] == v;
    }
  }
}
