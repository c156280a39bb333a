/** One TiltFx widget (js/tiltfx.js:106-355): construction from the
    caller's options, the frame callback a `mousemove` schedules, the
    delayed `mouseleave` reset and the throttled `resize` handler. Page
    lookups and element measurement are parameters; the relative pointer
    position is an input of the frame callback. */
module TiltFx {
  import opened Wrappers
  import Config
  import Layers
  import Watchers
  import Throttle
  import opened Motion

  /** What the constructor can throw, in the order it can happen:
      reading the perspective of a `null` `movement` (js/tiltfx.js:176),
      a selector `document.querySelector` rejects (view watcher at
      js/tiltfx.js:267, then mouse-move watcher at js/tiltfx.js:252), and
      registering the `mousemove` listener on a `null` mouse-move watcher
      (js/tiltfx.js:288). */
  datatype InitError = MovementNull | InvalidSelector(selector: string) | MouseMoveWatcherNull

  /** The widget's state after construction. `transforms[i]` is `None`
      until a transform has been written to moving layer i. */
  datatype Widget = Widget(
    perspective: real,
    magnitudes: Magnitudes,
    scaleGrade: real,
    resetOnLeave: bool,
    stack: Layers.Stack,
    opacities: seq<Option<real>>,
    viewWatcher: Watchers.Element,
    mouseMoveWatcher: Watchers.Element,
    view: View,
    allowResize: bool,
    transforms: seq<Option<Transform>>)

  /** One opacity and one transform slot per moving layer, and `imgCount`
      equal to the number of moving layers. */
  predicate Valid(w: Widget) {
    && Layers.WellFormed(w.stack)
    && |w.opacities| == |w.stack.elems|
    && |w.transforms| == |w.stack.elems|
  }

  /** The axis magnitudes the frame callback reads from `movement`; a
      missing or falsy one makes its axis 0, a truthy one is used as is. */
  function MagnitudesOf(m: Config.Movement): (r: Magnitudes)
    ensures r.rotateX != 0.0 <==> Config.Truthy(m.rotateX)
    ensures r.rotateY != 0.0 <==> Config.Truthy(m.rotateY)
    ensures r.rotateZ != 0.0 <==> Config.Truthy(m.rotateZ)
    ensures r.translateX != 0.0 <==> Config.Truthy(m.translateX)
    ensures r.translateY != 0.0 <==> Config.Truthy(m.translateY)
    ensures r.translateZ != 0.0 <==> Config.Truthy(m.translateZ)
    ensures Config.Truthy(m.rotateX) ==> r.rotateX == m.rotateX.value
    ensures Config.Truthy(m.rotateY) ==> r.rotateY == m.rotateY.value
    ensures Config.Truthy(m.rotateZ) ==> r.rotateZ == m.rotateZ.value
    ensures Config.Truthy(m.translateX) ==> r.translateX == m.translateX.value
    ensures Config.Truthy(m.translateY) ==> r.translateY == m.translateY.value
    ensures Config.Truthy(m.translateZ) ==> r.translateZ == m.translateZ.value
  {
    Magnitudes(
      Config.OrZero(m.rotateX), Config.OrZero(m.rotateY), Config.OrZero(m.rotateZ),
      Config.OrZero(m.translateX), Config.OrZero(m.translateY), Config.OrZero(m.translateZ))
  }

  /** The constructor with a source image: merge the options over the
      defaults, clamp and build the layers, normalise the perspective, set
      the opacities, resolve both watchers, measure the view watcher, and
      register the listeners. Each of the four throws in `InitError` is a
      `Failure`, and the first one reached wins. */
  method Construct(options: Config.Overrides, query: string -> Watchers.Lookup,
                   measure: Watchers.Element -> View)
    returns (r: Result<Widget, InitError>)
    ensures var o := Config.Extend(Config.Defaults, options);
            var vw := Watchers.ViewWatcher(o.element, query);
            var mm := Watchers.MouseMoveWatcher(o.element, query, if vw.Success? then vw.value else Watchers.Wrapper);
            && (r.Success? <==> o.movement.Some? && vw.Success? && mm.Success? && mm.value.Some?)
            && (o.movement.None? ==> r == Failure(MovementNull))
            && (o.movement.Some? && vw.Failure? ==> r == Failure(InvalidSelector(vw.error)))
            && (o.movement.Some? && vw.Success? && mm.Failure? ==> r == Failure(InvalidSelector(mm.error)))
            && (o.movement.Some? && vw.Success? && mm == Success(None) ==> r == Failure(MouseMoveWatcherNull))
            && (r.Success? ==>
                  var w := r.value;
                  && Valid(w)
                  && |w.stack.elems| == Layers.ClampCount(o.extraImgs) + (if o.bgFixed then 0 else 1)
                  && w.stack.elems == Layers.MovingLayers(o.bgFixed, Layers.ClampCount(o.extraImgs))
                  && w.perspective == Config.OrZero(o.movement.value.perspective)
                  && w.magnitudes == MagnitudesOf(o.movement.value)
                  && w.scaleGrade == o.extraImgsScaleGrade
                  && w.resetOnLeave == o.resetOnLeave
                  && (forall i :: 0 <= i < |w.opacities| ==>
                        w.opacities[i] == Layers.LayerOpacity(w.stack.elems, i, o.opacity, o.customImgsOpacity))
                  && w.viewWatcher == vw.value
                  && Success(Some(w.mouseMoveWatcher)) == mm
                  && w.view == measure(vw.value)
                  && w.allowResize
                  && (forall i :: 0 <= i < |w.transforms| ==> w.transforms[i].None?))
  {
    var o := Config.Extend(Config.Defaults, options);
    var stack := Layers.BuildStack(o.bgFixed, o.extraImgs);
    if o.movement.None? {
      return Failure(MovementNull);
    }
    var perspective := Config.OrZero(o.movement.value.perspective);
    var opacities := Layers.SetOpacities(stack.elems, o.opacity, o.customImgsOpacity);
    var vw := Watchers.ViewWatcher(o.element, query);
    if vw.Failure? {
      return Failure(InvalidSelector(vw.error));
    }
    var mm := Watchers.MouseMoveWatcher(o.element, query, vw.value);
    if mm.Failure? {
      return Failure(InvalidSelector(mm.error));
    }
    var view := measure(vw.value);
    if mm.value.None? {
      return Failure(MouseMoveWatcherNull);
    }
    var w := Widget(perspective, MagnitudesOf(o.movement.value), o.extraImgsScaleGrade, o.resetOnLeave,
                    stack, opacities, vw.value, mm.value.value, view, Throttle.Initial,
                    seq(|stack.elems|, _ => None));
    r := Success(w);
  }

  /** The frame callback for one pointer sample: every moving layer's
      transform is replaced by the one computed from this sample alone. */
  function Frame(w: Widget, p: Point): (r: Widget)
    requires Valid(w) && w.view.width > 0.0 && w.view.height > 0.0
    ensures Valid(r)
    ensures r.(transforms := w.transforms) == w
    ensures forall i :: 0 <= i < |r.transforms| ==> r.transforms[i].Some?
  {
    w.(transforms := seq(|w.stack.elems|, i requires 0 <= i < |w.stack.elems| =>
      Some(LayerTransform(w.perspective, w.magnitudes, w.scaleGrade, w.stack.imgCount, i, w.view, p))))
  }

  /** The reset that runs after the pointer leaves the mouse-move watcher,
      when `resetOnLeave` is set: every moving layer gets the neutral
      transform. Without `resetOnLeave` no listener exists. */
  function Leave(w: Widget): (r: Widget)
    requires Valid(w)
    ensures Valid(r)
    ensures r.(transforms := w.transforms) == w
    ensures !w.resetOnLeave ==> r == w
    ensures w.resetOnLeave ==> forall i :: 0 <= i < |r.transforms| ==>
              r.transforms[i] == Some(Neutral(w.perspective))
  {
    if w.resetOnLeave then
      w.(transforms := seq(|w.stack.elems|, _ => Some(Neutral(w.perspective))))
    else w
  }

  /** A `resize` event through the throttle: when the gate is open the
      view watcher is re-measured and the gate closes; otherwise the event
      is dropped. Transforms are not recomputed. */
  function Resize(w: Widget, measured: View): (r: Widget)
    requires Valid(w)
    ensures Valid(r)
    ensures r.view == (if w.allowResize then measured else w.view)
    ensures !r.allowResize
    ensures r.(view := w.view, allowResize := w.allowResize) == w
  {
    var (allow, fired) := Throttle.Step(w.allowResize, Throttle.Call(measured));
    w.(view := if fired then measured else w.view, allowResize := allow)
  }

  /** The throttle's timer callback: the next `resize` passes again. */
  function ResizeTimer(w: Widget): (r: Widget)
    ensures r.allowResize
    ensures r.(allowResize := w.allowResize) == w
  {
    w.(allowResize := Throttle.Step<View>(w.allowResize, Throttle.Elapse).0)
  }

  // ---------------------------------------------------------------------
  // Properties of the widget's handlers

  /** A frame's result depends only on the sample and the widget's fixed
      state, never on the transforms written before. */
  lemma FrameForgetsPrevious(w: Widget, previous: seq<Option<Transform>>, p: Point)
    requires Valid(w) && w.view.width > 0.0 && w.view.height > 0.0
    requires |previous| == |w.transforms|
    ensures Frame(w.(transforms := previous), p) == Frame(w, p)
  {
  }

  /** The pointer at the centre of the view puts every moving layer in
      the neutral pose. */
  lemma FrameCentreIsNeutral(w: Widget)
    requires Valid(w) && w.view.width > 0.0 && w.view.height > 0.0
    ensures var r := Frame(w, Point(w.view.width / 2.0, w.view.height / 2.0));
            forall i :: 0 <= i < |r.transforms| ==> NeutralPose(r.transforms[i].value)
  {
    var c := Point(w.view.width / 2.0, w.view.height / 2.0);
    forall i | 0 <= i < |w.stack.elems|
      ensures NeutralPose(Frame(w, c).transforms[i].value)
    {
      CentreIsNeutral(w.perspective, w.magnitudes, w.scaleGrade, w.stack.imgCount, i, w.view);
    }
  }

  /** At the far corner of the view the top layer is translated by exactly
      the configured magnitudes, and at the near corner by their negation. */
  lemma FrameTopLayerAtCorners(w: Widget)
    requires Valid(w) && w.view.width > 0.0 && w.view.height > 0.0
    requires |w.stack.elems| > 0
    ensures var top := |w.stack.elems| - 1;
            var m := w.magnitudes;
            && Frame(w, Point(w.view.width, w.view.height)).transforms[top].value.translate
                 == Vec3(m.translateX, m.translateY, m.translateZ)
            && Frame(w, Point(0.0, 0.0)).transforms[top].value.translate
                 == Vec3(-m.translateX, -m.translateY, -m.translateZ)
  {
    var n := w.stack.imgCount;
    var m := w.magnitudes;
    OutermostReachesMagnitude(m.translateX, n, w.view.width);
    OutermostReachesMagnitude(m.translateY, n, w.view.height);
    OutermostReachesMagnitude(m.translateZ, n, w.view.height);
  }

  /** Parallax depth ordering across the whole frame: for any sample, a
      higher moving layer is translated at least as far as a lower one on
      every axis. */
  lemma FrameDepthOrdered(w: Widget, p: Point, i: nat, j: nat)
    requires Valid(w) && w.view.width > 0.0 && w.view.height > 0.0
    requires i <= j < |w.stack.elems|
    ensures var a := Frame(w, p).transforms[i].value;
            var b := Frame(w, p).transforms[j].value;
            && Abs(a.translate.x) <= Abs(b.translate.x)
            && Abs(a.translate.y) <= Abs(b.translate.y)
            && Abs(a.translate.z) <= Abs(b.translate.z)
            && (forall k :: 0 <= k < 3 ==> Abs(a.rotations[k].angle) <= Abs(b.rotations[k].angle))
  {
    var n := w.stack.imgCount;
    var m := w.magnitudes;
    var v := w.view;
    AxisDepthOrdered(m.translateX, i, j, n, v.width, p.x);
    AxisDepthOrdered(m.translateY, i, j, n, v.height, p.y);
    AxisDepthOrdered(m.translateZ, i, j, n, v.height, p.y);
    AxisDepthOrdered(m.rotateX, i, j, n, v.height, p.y);
    AxisDepthOrdered(m.rotateY, i, j, n, v.width, p.x);
    AxisDepthOrdered(m.rotateZ, i, j, n, v.width, p.x);
  }

  /** The reset does not depend on where the pointer last was: leaving
      after any frame gives the same state as leaving straight away. */
  lemma LeaveForgetsFrame(w: Widget, p: Point)
    requires Valid(w) && w.view.width > 0.0 && w.view.height > 0.0
    requires w.resetOnLeave
    ensures Leave(Frame(w, p)) == Leave(w)
  {
  }

  /** A resize that gets through the throttle changes what the next frame
      computes only through the new view size. */
  lemma ResizeThenFrame(w: Widget, measured: View, p: Point)
    requires Valid(w) && w.allowResize
    requires measured.width > 0.0 && measured.height > 0.0
    ensures Frame(Resize(w, measured), p).transforms == Frame(w.(view := measured), p).transforms
  {
  }

  /** The default options with one extra image, a 200x100 view and the
      pointer at (150, 50): the single moving layer is shifted 5px left
      and rotated 1 degree about y; the other axes sit at their centre. */
  lemma WorkedExample()
    ensures LayerTransform(1000.0, MagnitudesOf(Config.Defaults.movement.value), 0.0, 1, 0,
                           View(200.0, 100.0), Point(150.0, 50.0))
         == Transform(1000.0, Vec3(-5.0, 0.0, 0.0),
                      [Rotation(XAxis, 0.0), Rotation(YAxis, 1.0), Rotation(ZAxis, 0.0)], None)
  {
  }
}
