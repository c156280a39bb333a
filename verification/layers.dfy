/** The layered image elements built by `_init` (js/tiltfx.js:154-211) and
    their initial opacities (`_initSetImagesOpacity`, js/tiltfx.js:217-239).
    Elements are identified by their role: the back element (tagged
    `'back'`) or the k-th front element created. */
module Layers {
  import opened Wrappers
  import Config

  /** The most extra image elements the widget creates. */
  const MaxExtraImgs: nat := 64

  datatype Layer = Back | Front(k: nat)

  /** The moving layers, bottom to top, and the divisor `imgCount` the
      movement formula uses. */
  datatype Stack = Stack(elems: seq<Layer>, imgCount: nat)

  /** The number of extra images after clamping `extraImgs` into [0, 64]. */
  function ClampCount(extraImgs: int): (n: nat)
    ensures n <= MaxExtraImgs
    ensures n == extraImgs <==> 0 <= extraImgs <= MaxExtraImgs
  {
    if extraImgs < 1 then 0
    else if extraImgs > MaxExtraImgs as int then MaxExtraImgs
    else extraImgs
  }

  /** The clamped count is the point of [0, 64] nearest to the requested
      count, and values already in range are kept. */
  lemma ClampIsNearest(extraImgs: int, m: int)
    requires 0 <= m <= MaxExtraImgs
    ensures Dist(ClampCount(extraImgs), extraImgs) <= Dist(m, extraImgs)
  {
  }

  function Dist(a: int, b: int): nat {
    if a >= b then a - b else b - a
  }

  /** Clamping does not reorder requests: a larger request never yields
      fewer layers. */
  lemma ClampMonotone(a: int, b: int)
    requires a <= b
    ensures ClampCount(a) <= ClampCount(b)
  {
  }

  /** The front elements, in creation order. */
  function Fronts(n: nat): (r: seq<Layer>)
    ensures |r| == n
    ensures forall k :: 0 <= k < n ==> r[k] == Front(k)
  {
    if n == 0 then [] else Fronts(n - 1) + [Front(n - 1)]
  }

  /** The moving layers as a whole: the back element first when it is not
      fixed, then the front elements. */
  function MovingLayers(bgFixed: bool, n: nat): seq<Layer> {
    if bgFixed then Fronts(n) else [Back] + Fronts(n)
  }

  /** Clamps `extraImgs`, puts the back element in the moving list when it
      is not fixed (counting it in `imgCount`), then creates the front
      elements one by one. */
  method BuildStack(bgFixed: bool, extraImgs: int) returns (s: Stack)
    ensures s.elems == MovingLayers(bgFixed, ClampCount(extraImgs))
    ensures s.imgCount == |s.elems|
    ensures |s.elems| == ClampCount(extraImgs) + (if bgFixed then 0 else 1)
    ensures forall i :: 0 <= i < |s.elems| ==> (s.elems[i].Back? <==> !bgFixed && i == 0)
  {
    var imgCount := ClampCount(extraImgs);
    var imgElems: seq<Layer> := [];
    var frontExtraImagesCount := imgCount;
    if !bgFixed {
      imgElems := imgElems + [Back];
      imgCount := imgCount + 1;
    }
    var offset := if bgFixed then 0 else 1;
    var i := 0;
    while i < frontExtraImagesCount
      invariant 0 <= i <= frontExtraImagesCount
      invariant |imgElems| == offset + i
      invariant !bgFixed ==> imgElems[0] == Back
      invariant forall j :: offset <= j < |imgElems| ==> imgElems[j] == Front(j - offset)
    {
      imgElems := imgElems + [Front(i)];
      i := i + 1;
    }
    s := Stack(imgElems, imgCount);
    assert s.elems == MovingLayers(bgFixed, frontExtraImagesCount);
  }

  /** Every moving layer has a well-defined weight: `imgCount` is the
      number of moving layers, so the movement loop never divides by zero. */
  predicate WellFormed(s: Stack) {
    s.imgCount == |s.elems| && s.imgCount <= MaxExtraImgs + 1
  }

  /** The opacity `_initSetImagesOpacity` gives one layer; `None` means the
      element's opacity is left untouched. */
  function LayerOpacity(layers: seq<Layer>, i: nat, opacity: real, custom: Option<seq<Option<real>>>): Option<real>
    requires i < |layers|
  {
    match custom
    case Some(arr) =>
      if i < |arr| && Config.Truthy(arr[i]) then arr[i] else Some(opacity)
    case None =>
      if layers[i].Back? then None else Some(opacity)
  }

  /** The two opacity loops. With a custom array, layer i takes entry i when
      that entry is truthy and the common opacity otherwise; without one,
      every layer except the back element takes the common opacity. */
  method SetOpacities(layers: seq<Layer>, opacity: real, custom: Option<seq<Option<real>>>)
    returns (r: seq<Option<real>>)
    ensures |r| == |layers|
    ensures custom.Some? ==> forall i :: 0 <= i < |layers| ==>
      r[i] == (if i < |custom.value| && Config.Truthy(custom.value[i]) then custom.value[i] else Some(opacity))
    ensures custom.None? ==> forall i :: 0 <= i < |layers| ==>
      (r[i] == None <==> layers[i].Back?) && (r[i] != None ==> r[i] == Some(opacity))
    ensures forall i :: 0 <= i < |layers| ==> r[i] == LayerOpacity(layers, i, opacity, custom)
  {
    r := seq(|layers|, _ => None);
    var len := |layers|;
    if custom.Some? {
      var i := 0;
      while i < len
        invariant 0 <= i <= len && |r| == len
        invariant forall j :: 0 <= j < i ==>
          r[j] == (if j < |custom.value| && Config.Truthy(custom.value[j]) then custom.value[j] else Some(opacity))
      {
        var o := if i < |custom.value| && Config.Truthy(custom.value[i]) then custom.value[i] else Some(opacity);
        r := r[i := o];
        i := i + 1;
      }
    } else {
      var i := 0;
      while i < len
        invariant 0 <= i <= len && |r| == len
        invariant forall j :: 0 <= j < len ==> layers[j].Back? ==> r[j] == None
        invariant forall j :: 0 <= j < i ==> !layers[j].Back? ==> r[j] == Some(opacity)
        invariant forall j :: i <= j < len ==> r[j] == None
      {
        if layers[i].Back? {
          i := i + 1;
          continue;
        }
        r := r[i := Some(opacity)];
        i := i + 1;
      }
    }
  }

  /** A custom entry of 0 is falsy, so that layer gets the common opacity
      rather than 0. */
  lemma CustomZeroFallsBack(layers: seq<Layer>, i: nat, opacity: real, arr: seq<Option<real>>)
    requires i < |layers| && i < |arr| && arr[i] == Some(0.0)
    ensures LayerOpacity(layers, i, opacity, Some(arr)) == Some(opacity)
  {
  }
}
