# TiltFx in Dafny

A model of the computational core of `js/tiltfx.js`, the Codrops "image tilt
effect". The widget replaces an `<img>` with a stack of layers that all show
the same image. On every pointer move it gives each moving layer a CSS
transform: a perspective, a translation and three rotations, whose size grows
with the layer's depth.

The model covers:

- **Options** (`Config`, `config.dfy`): the defaults and the shallow `extend`
  merge that applies the caller's options over them. It also models how
  JavaScript truthiness reads a missing or zero number and an empty selector.
- **Layer construction** (`Layers`, `layers.dfy`): `extraImgs` is clamped to
  [0, 64]. The back layer joins the moving list, and is counted in `imgCount`,
  when `bgfixed` is false. Opacities are then set by the two loops of
  `_initSetImagesOpacity`.
- **Watcher resolution** (`Watchers`, `watchers.dfy`): which element is
  measured and which element is listened on.
- **Motion** (`Motion`, `motion.dfy`): the per-layer, per-axis formula
  `2*w/extent*p - w` with `w = (i+1)*mag/imgCount`, the scale factor with its
  conditional `scale(...)` term, and the neutral reset transform.
- **The widget** (`TiltFx`, `tiltfx.dfy`): construction, which can fail, the
  frame callback of a `mousemove`, the delayed `mouseleave` reset and the
  throttled `resize` handler.
- **Throttle** (`Throttle`, `throttle.dfy`): the leading-edge gate over
  `allowSample`, over traces of calls and timer firings.
- **Frame clock** (`FrameClock`, `frame_clock.dfy`): the `setTimeout`
  fallback for `requestAnimationFrame` and its module-wide `lastTime`.

Numbers are exact reals. A missing JavaScript key or `null` is `None`. A CSS
transform string is a `Transform` record holding the values it is built from.
`document.querySelector` and the measurement of an element are function
parameters. The pointer position relative to the wrapper is an input of the
frame callback.

Some behaviours of the code that the model keeps:

- A custom opacity entry is used only when it is truthy. A custom opacity
  entry of 0 falls back to `opacity`.
- Without a custom array the back layer's opacity is left untouched.
- The `scale(...)` term is written only when the factor differs from 1. The
  top layer's factor is always 1, so it never gets one.
- The mouse-move watcher defaults to the resolved view watcher. A given
  selector that matches nothing leaves the watcher `null`, and registering the
  listener on it throws.
- The constructor also throws when `movement` is `null` and when
  `document.querySelector` rejects a selector. `Construct` returns a `Failure`
  for each of these throws.
- With `translateX: -10`, a 200×100 view and the pointer at (150, 50), the
  single front layer is translated by -5 (`TiltFx.WorkedExample`).
- Every `mousemove` schedules its own frame callback, and none is cancelled.
  The model has one `Frame` per move event.

## Model

| member | source | states |
|---|---|---|
| Config.OrZero | js/tiltfx.js:176-178 | A falsy (missing or zero) perspective or magnitude is read as 0. A truthy value is kept as is. The result is non-zero exactly when the entry is truthy. |
| Config.ExtendNothing | js/tiltfx.js:56-63 | Extending with an object that has no own keys leaves the options unchanged. |
| Config.ExtendIdempotent | js/tiltfx.js:56-63 | Applying the same overrides twice gives the same options as applying them once. |
| Config.ExtendThen | js/tiltfx.js:109-110 | Two successive `extend` calls equal one call with the combined keys, where the later call's keys win. |
| Config.MovementReplacedWholesale | js/tiltfx.js:56-63 | A caller-supplied `movement` value replaces the default one entirely: `null` stays `null`, and an axis a supplied object leaves out has magnitude 0, not its default. |
| Throttle.Step | js/tiltfx.js:90-96 | `fn` runs exactly when the event is a call and the gate is open. Afterwards the gate is open exactly when the event was the timer firing. |
| Throttle.GateOpenIffAllAnswered | js/tiltfx.js:87-97 | After any trace, the gate is open if and only if every call so far has been followed by a timer firing. |
| Throttle.FiresIffFirstSinceElapse | js/tiltfx.js:90-95 | A call reaches `fn` if and only if it is the first event, or comes straight after a timer firing. |
| Throttle.FirstCallPasses | js/tiltfx.js:88-94 | The first call of a fresh wrapper always reaches `fn`. |
| Throttle.AtMostOncePerWindow | js/tiltfx.js:87-97 | Any two calls that both reach `fn` have a timer firing between them, so `fn` runs at most once between firings. |
| Throttle.BurstDeliversFirst | js/tiltfx.js:90-96 | A burst of calls with no firing, after a firing or at the start, delivers exactly its first argument to `fn`. |
| FrameClock.RequestFrame | js/tiltfx.js:41-49 | The timeout is never negative. It is at most 16 ms when the request is made no earlier than the previous callback's timestamp (`lastTime`). The callback's timestamp is the request time plus the timeout. The new `lastTime` equals that timestamp and equals `max(currTime, lastTime + 16)`. |
| FrameClock.Stamps | js/tiltfx.js:41-47 | Over a run of requests, each timestamp is at least its clock reading and at least 16 ms after the previous one (or after the initial `lastTime`). Each is exactly one of those two bounds. |
| FrameClock.StampsSpread | js/tiltfx.js:43-47 | Any two callbacks k1 ≤ k2 of a run are at least (k2 - k1)·16 ms apart, whatever the clock says. So a burst of `mousemove`s pushes each callback 16 ms further out than the one before. |
| Layers.ClampCount | js/tiltfx.js:166-174 | The clamped count lies in [0, 64]. It equals `extraImgs` exactly when `extraImgs` is already in [0, 64]. |
| Layers.ClampIsNearest | js/tiltfx.js:166-174 | The clamped count is the point of [0, 64] nearest to `extraImgs`. |
| Layers.ClampMonotone | js/tiltfx.js:166-174 | Requesting more extra images never yields fewer. |
| Layers.Fronts | js/tiltfx.js:190-196 | The front elements are exactly `n` elements, in creation order. |
| Layers.BuildStack | js/tiltfx.js:165-196 | The moving list has the clamped count of front layers, plus the back layer at index 0 exactly when `bgfixed` is false. `imgCount` equals the list's length, so the movement loop never divides by zero. |
| Layers.SetOpacities | js/tiltfx.js:217-239 | With a custom array, layer i gets entry i if that entry is truthy, otherwise `opacity`. Without one, every layer except the back layer gets `opacity`, and the back layer is left untouched. |
| Layers.CustomZeroFallsBack | js/tiltfx.js:220-222 | A custom opacity of 0 is falsy, so that layer gets the common opacity. |
| Watchers.Selector | js/tiltfx.js:251-267 | A watcher's selector is consulted exactly when `element` is present and that selector is truthy (non-empty). The selector consulted is the caller's own `viewWatcher` or `mouseMoveWatcher` string, unchanged. |
| Watchers.ViewWatcher | js/tiltfx.js:263-278 | It fails, with the selector, exactly when a given selector is rejected by the lookup. A given selector that matches gives the element it finds. In every other case the result is the wrapper, never `null`. |
| Watchers.MouseMoveWatcher | js/tiltfx.js:248-261 | It fails, with the selector, exactly when a given selector is rejected by the lookup. It is `null` exactly when a given selector matches nothing. A matching selector gives the element it finds. Without a selector, the result is the view watcher. |
| Watchers.UnresolvedSelectorDiffers | js/tiltfx.js:248-278 | The same selector that matches nothing leaves the view watcher on the wrapper but leaves the mouse-move watcher `null`. |
| Watchers.DefaultsToWrapper | js/tiltfx.js:248-278 | Without `element` options, or with both selectors falsy, both watchers are the wrapper, whatever the lookup does. |
| Watchers.InvalidOnlyWhenGiven | js/tiltfx.js:248-278 | With a lookup that rejects every selector, each watcher fails exactly when its own selector is given: no lookup happens otherwise. |
| Motion.ScaleTerm | js/tiltfx.js:315 | The `scale(s, s)` term is present if and only if the factor is not 1, and then it carries the factor. |
| Motion.Neutral | js/tiltfx.js:340-344 | The reset transform has the configured perspective, zero translation, a zero rotation angle and no scale term. |
| Motion.AxisFactors | js/tiltfx.js:307-312 | Each axis value is the layer's weight times the pointer's offset from the centre, normalised to [-1, 1]. |
| Motion.AxisCentre | js/tiltfx.js:307-312 | With the pointer at the centre of the extent, every axis is 0 on every layer. |
| Motion.AxisEdges | js/tiltfx.js:307-312 | At coordinate 0 the value is minus the layer's weight. At the far edge it is plus the weight. |
| Motion.OutermostReachesMagnitude | js/tiltfx.js:307-312 | The top layer's weight is the full magnitude, so at the edges it reaches exactly -mag and +mag. |
| Motion.AxisMirror | js/tiltfx.js:307-312 | Mirroring the pointer about the centre negates the value. |
| Motion.AxisBounded | js/tiltfx.js:307-312 | While the pointer is inside the extent, \|value\| ≤ \|weight\| ≤ \|mag\|. |
| Motion.WeightBound | js/tiltfx.js:307-312 | \|weight\| is (i+1)/imgCount times \|mag\|, so it is at most \|mag\|. |
| Motion.WeightOrdered | js/tiltfx.js:307-312 | A higher layer's weight is at least a lower layer's in absolute value. |
| Motion.AxisDepthOrdered | js/tiltfx.js:307-312 | For a fixed sample, magnitude and extent, \|value\| never decreases with the layer index. |
| Motion.ScaleSteps | js/tiltfx.js:314 | The top layer's factor is 1. With grade 0, every factor is 1. Otherwise the factor drops by exactly `grade` from one layer to the next. |
| Motion.ScaleTermIffGraded | js/tiltfx.js:314-315 | A layer gets a scale term if and only if the grade is non-zero and it is not the top layer. |
| Motion.CentreIsNeutral | js/tiltfx.js:305-323 | With the pointer at (width/2, height/2) of the view watcher's size, measured from the wrapper's top-left corner, a layer's transform has zero translation and zero rotation angles. This point is the view's centre only when the view watcher is the wrapper. |
| Motion.AxesFollowTheirCoordinate | js/tiltfx.js:307-312 | rotateX, translateY and translateZ depend only on y. rotateY, rotateZ and translateX depend only on x. Perspective and scale do not depend on the pointer. |
| Motion.ZeroMagnitudeStill | js/tiltfx.js:307-312 | A zero magnitude keeps its axis at 0 wherever the pointer is. |
| TiltFx.MagnitudesOf | js/tiltfx.js:307-312 | For each of the six axes, the magnitude is non-zero exactly when the option is truthy, and a truthy option is used as is. |
| TiltFx.Construct | js/tiltfx.js:106-288 | Construction fails exactly when one of four throws occurs, and with the first one reached: a `null` `movement`, then a view-watcher selector the lookup rejects, then a rejected mouse-move-watcher selector, then a mouse-move watcher that is `null`. On success: the layers and `imgCount` come from `BuildStack`; the perspective is normalised; opacities follow the opacity rules; the watchers are resolved and the view is measured; the resize gate is open; and no transform has been written yet. |
| TiltFx.Frame | js/tiltfx.js:288-333 | A frame writes a transform to every moving layer and changes nothing else. |
| TiltFx.Leave | js/tiltfx.js:337-347 | With `resetOnLeave`, every moving layer gets the same neutral transform and nothing else changes. Without it, nothing changes. |
| TiltFx.Resize | js/tiltfx.js:351-354 | The view is re-measured only when the throttle gate is open. The gate is closed afterwards, and transforms are not touched. |
| TiltFx.ResizeTimer | js/tiltfx.js:93 | The timer re-opens the resize gate and changes nothing else. |
| TiltFx.FrameForgetsPrevious | js/tiltfx.js:317-331 | A frame's result does not depend on the transforms written before: each transform is replaced, not composed. |
| TiltFx.FrameCentreIsNeutral | js/tiltfx.js:305-323 | With the pointer at (width/2, height/2) of the measured view, measured from the wrapper's top-left corner, every moving layer is in the neutral pose. This point is the view's centre only when the view watcher is the wrapper. |
| TiltFx.FrameTopLayerAtCorners | js/tiltfx.js:305-312 | At the far corner the top layer is translated by exactly the configured magnitudes. At the near corner it is translated by their negation. |
| TiltFx.FrameDepthOrdered | js/tiltfx.js:305-312 | For any sample, a higher moving layer is translated and rotated at least as far as a lower one, on every axis. |
| TiltFx.LeaveForgetsFrame | js/tiltfx.js:338-345 | The reset result does not depend on any previous frame. |
| TiltFx.ResizeThenFrame | js/tiltfx.js:241-246 | After a resize passes the throttle, the next frame uses the newly measured view. |
| TiltFx.WorkedExample | js/tiltfx.js:305-323 | Default options, one extra image, a 200×100 view and the pointer at (150, 50) give translate (-5, 0, 0) and rotations (0, 1, 0) degrees. |

## Left out

- DOM work is not modelled, because it is a platform side effect: creating the wrapper and layer elements, `insertBefore`/`removeChild`, class names and background-image strings (js/tiltfx.js:155-163, 191-194, 202-203).
- Browser I/O is left out: listener registration, `getMousePos`, scroll offsets and `getBoundingClientRect` (js/tiltfx.js:66-84, 288-302). The pointer position relative to the wrapper is an input. The view size comes from a `measure` parameter (js/tiltfx.js:241-246).
- Motion.Axis: requires a positive extent. A zero-sized view watcher makes JavaScript compute NaN or Infinity, which reals cannot express.
- Motion.LayerTransform: uses one count for both the weight divisor `imgCount` and the scale's `len`. `Layers.BuildStack` proves the two are equal.
- IEEE-754 rounding, NaN, and the number-to-string formatting of the CSS transform are not modelled. Values are exact reals. The transform is a record, written once even though the source assigns the same string to both `WebkitTransform` and `transform`.
- `extraImgs` is modelled as an integer. With a non-integer value the source's loop creates ⌈extraImgs⌉ elements while `imgCount` keeps the fraction. Values that are not numbers are also not modelled.
- Real timers are abstracted away: the 60 ms reset delay, the 50 ms throttle interval and `setTimeout` scheduling. The throttle's timer is an `Elapse` event. The reset is the callback's effect (`TiltFx.Leave`), applied when it runs.
- The vendor-prefixed `requestAnimationFrame` lookup is left out (js/tiltfx.js:22-37). So is the choice between the native and the fallback scheduler; only the fallback's timing arithmetic is modelled.
- The batch `init` scan and its `JSON.parse` of `data-tilt-options` are left out (js/tiltfx.js:360-367). The constructor's `if(el)` guard is also left out; the model always constructs with a source image, and assumes that image has a parent node (without one, `insertBefore` at js/tiltfx.js:202 throws a TypeError that `TiltFx.Construct` does not model).
- Options are read once, at construction: `TiltFx.Widget` keeps its own copy of the perspective, the magnitudes and the scale grade. In the source, `extend` copies the caller's `movement` object by reference (js/tiltfx.js:59, 110). Line 177 writes `perspective = 0` back into that object, and the handlers re-read it and `extraImgsScaleGrade` on every frame and reset (js/tiltfx.js:285, 307-318, 342-343). Neither that write-back into the caller's object nor a later change to the options by the caller is modelled.
- On a `Failure` from `TiltFx.Construct`, the DOM the constructor had already rebuilt before it threw is not modelled.
- `bgfixed` and `resetOnLeave` are modelled only as booleans. The source tests them for truthiness (js/tiltfx.js:185, 337), so there `0`, `null` or `""` act as false; such values are not modelled.
- `movement` is modelled as an object or `null`. `None` stands for both `null` and `undefined`, which throw alike at js/tiltfx.js:176. A primitive such as a number is not modelled.
- The lookup's `Invalid` outcome stands for the SyntaxError `document.querySelector` throws. Which strings are valid CSS selectors is not modelled.
- Throttle.Delivered: its own contract only bounds the length. What it delivers is stated by `Throttle.BurstDeliversFirst`.
