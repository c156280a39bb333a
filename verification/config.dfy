/** The widget's options object (js/tiltfx.js, `TiltFx.prototype.options`),
    the shallow `extend` merge that applies a caller's options over the
    defaults, and the JavaScript truthiness tests the widget applies to
    numbers and selectors. */
module Config {
  import opened Wrappers

  /** JavaScript truthiness of a possibly missing number: `undefined`,
      `null` and `0` are falsy. (NaN is not modelled.) */
  predicate Truthy(v: Option<real>) {
    v.Some? && v.value != 0.0
  }

  /** JavaScript truthiness of a possibly missing selector string:
      `undefined`, `null` and the empty string are falsy. */
  predicate SelectorGiven(s: Option<string>) {
    s.Some? && s.value != ""
  }

  /** The number the widget actually uses for a movement entry: a falsy
      perspective is rewritten to 0, and a falsy axis magnitude makes that
      axis evaluate to 0. */
  function OrZero(v: Option<real>): (r: real)
    ensures r != 0.0 <==> Truthy(v)
    ensures Truthy(v) ==> r == v.value
  {
    match v
    case Some(x) => x
    case None => 0.0
  }

  /** The `movement` options object; every key may be missing. */
  datatype Movement = Movement(
    perspective: Option<real>,
    translateX: Option<real>,
    translateY: Option<real>,
    translateZ: Option<real>,
    rotateX: Option<real>,
    rotateY: Option<real>,
    rotateZ: Option<real>)

  /** The `element` options object: two optional CSS selectors. */
  datatype ElementOpts = ElementOpts(
    mouseMoveWatcher: Option<string>,
    viewWatcher: Option<string>)

  /** A fully populated options object. `customImgsOpacity` is `None` for the
      default `false` and `Some(array)` for an array (an array is truthy even
      when empty); each array entry may itself be missing. `movement` and
      `element` are `None` when the caller set them to `null`. */
  datatype Options = Options(
    extraImgs: int,
    extraImgsScaleGrade: real,
    opacity: real,
    customImgsOpacity: Option<seq<Option<real>>>,
    bgFixed: bool,
    resetOnLeave: bool,
    movement: Option<Movement>,
    element: Option<ElementOpts>)

  /** The prototype's default options. */
  const Defaults: Options := Options(
    extraImgs := 2,
    extraImgsScaleGrade := 0.0,
    opacity := 0.7,
    customImgsOpacity := None,
    bgFixed := true,
    resetOnLeave := true,
    movement := Some(Movement(
      perspective := Some(1000.0),
      translateX := Some(-10.0),
      translateY := Some(-10.0),
      translateZ := Some(20.0),
      rotateX := Some(2.0),
      rotateY := Some(2.0),
      rotateZ := Some(0.0))),
    element := Some(ElementOpts(None, None)))

  /** The caller's options object: a key is `Some` when the caller supplied
      it (as an own property), whatever its value. */
  datatype Overrides = Overrides(
    extraImgs: Option<int>,
    extraImgsScaleGrade: Option<real>,
    opacity: Option<real>,
    customImgsOpacity: Option<Option<seq<Option<real>>>>,
    bgFixed: Option<bool>,
    resetOnLeave: Option<bool>,
    movement: Option<Option<Movement>>,
    element: Option<Option<ElementOpts>>)

  /** No options supplied (also what `extend` does with `undefined`). */
  const NoOverrides: Overrides := Overrides(None, None, None, None, None, None, None, None)

  /** `extend(a, b)`: every own key of `b` overwrites the key of `a`. The
      copy is shallow, so a supplied `movement` or `element` object replaces
      the default one as a whole. */
  function Extend(a: Options, b: Overrides): Options {
    Options(
      extraImgs := b.extraImgs.GetOr(a.extraImgs),
      extraImgsScaleGrade := b.extraImgsScaleGrade.GetOr(a.extraImgsScaleGrade),
      opacity := b.opacity.GetOr(a.opacity),
      customImgsOpacity := b.customImgsOpacity.GetOr(a.customImgsOpacity),
      bgFixed := b.bgFixed.GetOr(a.bgFixed),
      resetOnLeave := b.resetOnLeave.GetOr(a.resetOnLeave),
      movement := b.movement.GetOr(a.movement),
      element := b.element.GetOr(a.element))
  }

  /** Two `extend` calls in a row, as one object of overrides: the later
      call's keys win. */
  function Then(b1: Overrides, b2: Overrides): Overrides {
    Overrides(
      extraImgs := if b2.extraImgs.Some? then b2.extraImgs else b1.extraImgs,
      extraImgsScaleGrade := if b2.extraImgsScaleGrade.Some? then b2.extraImgsScaleGrade else b1.extraImgsScaleGrade,
      opacity := if b2.opacity.Some? then b2.opacity else b1.opacity,
      customImgsOpacity := if b2.customImgsOpacity.Some? then b2.customImgsOpacity else b1.customImgsOpacity,
      bgFixed := if b2.bgFixed.Some? then b2.bgFixed else b1.bgFixed,
      resetOnLeave := if b2.resetOnLeave.Some? then b2.resetOnLeave else b1.resetOnLeave,
      movement := if b2.movement.Some? then b2.movement else b1.movement,
      element := if b2.element.Some? then b2.element else b1.element)
  }

  /** Extending with an empty object leaves the options as they were. */
  lemma ExtendNothing(a: Options)
    ensures Extend(a, NoOverrides) == a
  {
  }

  /** Applying the same overrides twice is the same as applying them once. */
  lemma ExtendIdempotent(a: Options, b: Overrides)
    ensures Extend(Extend(a, b), b) == Extend(a, b)
  {
  }

  /** Successive `extend` calls compose: the second call's keys win. */
  lemma ExtendThen(a: Options, b1: Overrides, b2: Overrides)
    ensures Extend(Extend(a, b1), b2) == Extend(a, Then(b1, b2))
  {
  }

  /** A caller-supplied `movement` value replaces the default one wholesale:
      `null` stays `null`, and an axis a supplied object leaves out
      contributes magnitude 0, not the default. */
  lemma MovementReplacedWholesale(a: Options, b: Overrides)
    requires b.movement.Some?
    ensures Extend(a, b).movement == b.movement.value
    ensures b.movement.value.None? ==> Extend(a, b).movement.None?
    ensures b.movement.value.Some? ==>
              && (b.movement.value.value.rotateX.None? ==> OrZero(Extend(a, b).movement.value.rotateX) == 0.0)
              && (b.movement.value.value.rotateY.None? ==> OrZero(Extend(a, b).movement.value.rotateY) == 0.0)
              && (b.movement.value.value.rotateZ.None? ==> OrZero(Extend(a, b).movement.value.rotateZ) == 0.0)
              && (b.movement.value.value.translateX.None? ==> OrZero(Extend(a, b).movement.value.translateX) == 0.0)
              && (b.movement.value.value.translateY.None? ==> OrZero(Extend(a, b).movement.value.translateY) == 0.0)
              && (b.movement.value.value.translateZ.None? ==> OrZero(Extend(a, b).movement.value.translateZ) == 0.0)
  {
  }
}
