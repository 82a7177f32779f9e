# Solar system animation — a Dafny model

A model of the core of a small Swing animation of the four inner planets and
the Moon on circular orbits (`java_solar_system`, package `module9`).

- **Bodies** (`CelestialCircular`). A body carries a name, an orbital period
  `p` (days), an orbital radius `r` (AU), a diameter `d` (km) and a colour.
  Construction fails when `p`, `r` or `d` is zero or negative. It checks them
  in that order and names the first bad one. A NaN passes those `<= 0` tests,
  so Java accepts it; the model's reals have no NaN. After construction only the pixel
  position `x`, `y` changes.
- **The animation panel** (`SolarSystemAnimPanel`).
  - **Scene.** The constructor populates the scene from five seeds, dropping
    any seed that fails validation. The moon flag is set when the Moon was
    accepted.
  - **Clock and flags.** An integer tick counter `dt` advances by one per
    timer tick, and only while the timer runs. `setDays` sets `dt` to ten
    ticks per day. A mouse click toggles detail mode.
  - **Repaint.** Each repaint positions and draws every body. Without a moon,
    every body is drawn in the sun's frame. With a moon, the Moon is skipped
    in the main walk. At Earth the origin moves to Earth's truncated position,
    the Moon is drawn there, and the origin moves back by the truncated
    negated position.

## Modelling choices

- **Trigonometry.** π, `cos` and `sin` are the uninterpreted fields of a
  `Trig` value given to the panel. Lemmas that need periodicity take it as a
  hypothesis. Doubles are `real`.
- **Java arithmetic.**
  - Java's `(int)` cast is `Trunc`, which rounds toward zero.
  - Java's `int` division is `Quot`, which also rounds toward zero, unlike
    Dafny's Euclidean `/`.
- **Graphics.** `java.awt.Graphics` is a class holding the trace of calls
  made on it and the current origin. Every drawing call records the origin it
  was made against.
- **Pure spec of a repaint** (module `Composition`).
  - `OrbitTrace` is the trace of one body's draw calls.
  - `MoonTrace` is the nested walk at Earth.
  - `StepTrace` is one iteration of the main loop.
  - `PaintTrace` is the whole walk.

  The panel's methods are proved to append exactly these traces and to leave
  every body at its computed position.
- **Labels** (module `DrawOrder`). These lemmas read the name labels off a
  trace (`Labels`) and say which bodies are drawn, in which order and against
  which origin.
- **The list is fixed.** The body list and the moon flag do not change after
  construction. `createCelestials` is public in the source, but the program
  calls it only from the constructor.
- **Timer.** The timer is a `running` flag. `Tick` is one delivery of the
  timer: it advances the clock while running and is a no-op otherwise.

## Model

| member | source | states |
|---|---|---|
| Celestial.Validate | CelestialCircular.java:37-51 | No error exactly when period, radius and diameter are all positive. An error names the body and a field whose value is not positive. Every field checked before it is positive, so the reported field is the first bad one in the order period, radius, diameter. |
| Celestial.Create | CelestialCircular.java:34-54 | Construction succeeds exactly when p, r and d are positive, whatever the colour. A failure carries the error `Validate` reports. A success is a fresh valid body whose getters return exactly the constructor arguments. |
| Celestial.Body.constructor | CelestialCircular.java:34-54 | A validated body stores its five arguments unchanged. |
| Celestial.Body.SetX | CelestialCircular.java:100-102 | `getX` then returns the value written. `y` is unchanged. The other fields are constants. |
| Celestial.Body.SetY | CelestialCircular.java:105-107 | `getY` then returns the value written. `x` is unchanged. |
| Celestial.Body.GetName | CelestialCircular.java:61-63 | Returns the name given at construction; the name never changes. |
| Celestial.Body.GetP | CelestialCircular.java:66-68 | Returns the validated orbital period in days. |
| Celestial.Body.GetR | CelestialCircular.java:71-73 | Returns the validated orbital radius in AU. |
| Celestial.Body.GetD | CelestialCircular.java:76-78 | Returns the validated diameter in km. |
| Celestial.Body.GetColor | CelestialCircular.java:82-84 | Returns the colour given at construction. |
| Celestial.Body.GetX | CelestialCircular.java:87-89 | Returns the x position last written by `SetX`, 0 before the first write. |
| Celestial.Body.GetY | CelestialCircular.java:92-94 | Returns the y position last written by `SetY`, 0 before the first write. |
| JavaNumerics.Trunc | SolarSystemAnimPanel.java:123-131 | Java's `(int)` cast of a double: the integer part, rounding toward zero on both sides; `TruncBounds` and `TruncNeg` state its laws. |
| JavaNumerics.TruncBounds | SolarSystemAnimPanel.java:123-131 | The `(int)` cast keeps the integer part: it rounds toward zero and moves by less than one. |
| JavaNumerics.TruncNeg | SolarSystemAnimPanel.java:172-179 | `(int)(-1*x) == -(int)x` for every `x`, so the two translations at Earth cancel. |
| JavaNumerics.Quot | SolarSystemAnimPanel.java:186 | Java's `dt/10` rounds toward zero: it is bracketed by multiples of the divisor on the side of zero. |
| JavaNumerics.QuotOfTenfold | SolarSystemAnimPanel.java:216-218 | `(10*k)/10 == k` for every sign of `k`. |
| Kinematics.Angle | SolarSystemAnimPanel.java:112 | The angle after `dt` ticks, `dt*2*π/(P*10)`: a full turn every `10*P` ticks, with no reduction to one turn. |
| Kinematics.Offset | SolarSystemAnimPanel.java:108-115 | The body's offset from its orbit's centre: the radius scaled to 200 pixels per AU, times the cosine and sine of `Angle`. |
| Kinematics.OffsetAtStart | SolarSystemAnimPanel.java:108-115 | At tick 0 every body sits on the positive x axis at 200 pixels per AU of radius. |
| Kinematics.AngleAdvance | SolarSystemAnimPanel.java:112 | `k` more ticks turn the angle by `k*2π/(P*10)`. |
| Kinematics.FullPeriod | SolarSystemAnimPanel.java:112-115 | When a period is a whole number of ticks, that many ticks bring a body back to the same offset. No seeded period is a whole number of ticks, so this is a law of the formula, not of the seeded scene. |
| Kinematics.HalfPeriod | SolarSystemAnimPanel.java:112-115 | When half a period is a whole number of ticks, that many ticks put a body opposite its orbit's centre. No seeded half period is a whole number of ticks. |
| Scene.Accepted | SolarSystemAnimPanel.java:58-93 | The seeds whose construction succeeds, in seed order; it never holds more entries than were seeded. |
| Scene.AcceptedAppend | SolarSystemAnimPanel.java:58-93 | A failed seed leaves no entry and does not stop the later seeds: filtering a concatenation concatenates the filtered parts. |
| Scene.AcceptedMembers | SolarSystemAnimPanel.java:58-93 | A spec is in the scene exactly when it was seeded and passes validation. |
| Scene.AcceptedKeepsAll | SolarSystemAnimPanel.java:58-93 | Nothing is dropped exactly when every seed is valid. |
| Scene.SeedsAllAccepted | SolarSystemAnimPanel.java:59-88 | The five reference seeds are all valid, so the scene holds Mercury, Venus, Earth, Mars and the Moon in that order. |
| AnimPanel.SolarSystemAnimPanel.constructor | SolarSystemAnimPanel.java:36-43 | The clock is at 0, the timer is running and details are hidden. The list's parameters are exactly the accepted seeds, in seed order. The moon flag holds exactly when the Moon was accepted. The entries are fresh and distinct. |
| AnimPanel.SolarSystemAnimPanel.TryAdd | SolarSystemAnimPanel.java:58-63 | One try block: the body is appended exactly when its construction succeeds, the earlier entries are kept, and the new entry is fresh. |
| AnimPanel.SolarSystemAnimPanel.CreateCelestials | SolarSystemAnimPanel.java:50-94 | Appends exactly the accepted seeds, in order, after the existing entries. The moon flag ends true exactly when it already was or the Moon was accepted. |
| AnimPanel.SolarSystemAnimPanel.ActionPerformed | SolarSystemAnimPanel.java:198-201 | `dt` increases by exactly 1, and nothing else changes. |
| AnimPanel.SolarSystemAnimPanel.Tick | SolarSystemAnimPanel.java:198-211 | A timer delivery advances `dt` by one while running and leaves it unchanged while stopped. |
| AnimPanel.SolarSystemAnimPanel.Start | SolarSystemAnimPanel.java:204-206 | Only the running flag changes, to true. |
| AnimPanel.SolarSystemAnimPanel.Stop | SolarSystemAnimPanel.java:209-211 | Only the running flag changes, to false. |
| AnimPanel.SolarSystemAnimPanel.SetDays | SolarSystemAnimPanel.java:216-218 | `dt == days*10`, and the days label value `dt/10` is `days` again. |
| AnimPanel.SolarSystemAnimPanel.DaysElapsed | SolarSystemAnimPanel.java:186 | The days label's value `dt/10`: the number of whole days elapsed, rounded toward zero for a negative clock as well. |
| AnimPanel.SolarSystemAnimPanel.MouseClicked | SolarSystemAnimPanel.java:221-223 | Detail mode is negated, and nothing else changes. |
| AnimPanel.SolarSystemAnimPanel.CircularOrbit | SolarSystemAnimPanel.java:102-139 | The body is positioned at the kinematic offset for the current tick. The origin is unchanged. The calls appended are exactly `OrbitTrace`. Only this body's position changes. |
| AnimPanel.SolarSystemAnimPanel.PaintComponent | SolarSystemAnimPanel.java:142-182 | The origin moves to the panel's centre, and then the whole walk's trace is appended. Every body the walk reaches is positioned for this tick; the others keep their positions. |
| AnimPanel.SolarSystemAnimPanel.PaintBodies | SolarSystemAnimPanel.java:160-182 | The loop over the list appends `PaintTrace` and restores the origin. It positions exactly the bodies it reaches: a Moon only when there is an Earth. |
| AnimPanel.SolarSystemAnimPanel.PaintNext | SolarSystemAnimPanel.java:160-182 | One turn of the loop carries the trace, origin and positioning invariant from `i` to `i + 1`. |
| AnimPanel.SolarSystemAnimPanel.PaintedByStep | SolarSystemAnimPanel.java:160-182 | After iteration `i`, a body has been positioned exactly when it was before or iteration `i` positions it. |
| AnimPanel.SolarSystemAnimPanel.PaintStep | SolarSystemAnimPanel.java:162-181 | One iteration appends `StepTrace` and restores the origin. It positions the body itself, except a skipped Moon, and at Earth it positions every Moon. |
| AnimPanel.SolarSystemAnimPanel.PaintInFrameOf | SolarSystemAnimPanel.java:171-180 | The block at Earth translates by Earth's truncated position, draws the Moons there and translates back by the truncated negation. The origin is restored and Earth does not move. |
| AnimPanel.SolarSystemAnimPanel.PaintMoons | SolarSystemAnimPanel.java:174-178 | The inner loop appends `MoonTrace`, positions every Moon and moves no other body. |
| AnimPanel.Reset | SolarSystemGuiPanel.java:65 | Reset gives `dt == 0` and a days label of 0, and leaves the flags alone. |
| AnimPanel.StopTicksStart | SolarSystemAnimPanel.java:198-211 | Any number of ticks delivered while stopped leave the clock unchanged. |
| AnimPanel.ClickTwice | SolarSystemAnimPanel.java:221-223 | Two clicks restore detail mode. |
| Awt.Graphics.SetColorTo | SolarSystemAnimPanel.java:122-126 | `setColor` records the colour change and leaves the origin alone. |
| Awt.Graphics.Translate | SolarSystemAnimPanel.java:152-179 | `translate(dx, dy)` records the call and moves the origin by (dx, dy). |
| Awt.Graphics.DrawOval | SolarSystemAnimPanel.java:123 | `drawOval` records the outline together with the origin it is drawn against. |
| Awt.Graphics.FillOval | SolarSystemAnimPanel.java:127 | `fillOval` records the filled body together with the origin it is drawn against. |
| Awt.Graphics.DrawString | SolarSystemAnimPanel.java:131-137 | `drawString` records the text and its position together with the origin it is drawn against. |
| Awt.OriginAfterAppend | SolarSystemAnimPanel.java:152-179 | Translations compose: the origin after two traces in turn is the origin after the first, moved by the second. |
| Composition.Position | SolarSystemAnimPanel.java:108-115 | The offset of a body for the panel's current tick. |
| Composition.OrbitTrace | SolarSystemAnimPanel.java:121-138 | The calls `CircularOrbit` makes for one body: outline, body, name label and, in detail mode, three detail strings. |
| Composition.MoonTrace | SolarSystemAnimPanel.java:174-178 | The calls of the nested walk: one `OrbitTrace` per entry named Moon, in list order. |
| Composition.StepTrace | SolarSystemAnimPanel.java:162-181 | The calls of one iteration of the main walk, with the Moon skipped and Earth's nested frame when there is a moon. |
| Composition.PaintTrace | SolarSystemAnimPanel.java:160-182 | The calls of the whole main walk: the iterations' traces in list order. |
| Composition.OrbitTraceShape | SolarSystemAnimPanel.java:121-138 | One body's calls are, in order: a white outline of diameter `(int)(2*200r)` centred on the origin; the body filled in its colour, sized `(int)(d/400)`; its name label; then three more strings in detail mode and none otherwise. All are drawn against the current origin, and none translates. |
| Composition.OrbitKeepsOrigin | SolarSystemAnimPanel.java:121-138 | Drawing one body does not move the origin. |
| Composition.MoonTraceKeepsOrigin | SolarSystemAnimPanel.java:174-178 | The nested walk does not move the origin. |
| Composition.StepKeepsOrigin | SolarSystemAnimPanel.java:162-181 | Each iteration, the Earth branch included, has zero net translation. |
| Composition.PaintKeepsOrigin | SolarSystemAnimPanel.java:160-182 | The whole walk has zero net translation, so later bodies use the sun's origin. |
| DrawOrder.OrbitLabels | SolarSystemAnimPanel.java:129-131 | Drawing a body labels it exactly once, against the current origin. |
| DrawOrder.MoonTraceLabels | SolarSystemAnimPanel.java:174-178 | The nested walk labels every Moon of the list, in list order, against Earth's frame. |
| DrawOrder.StepTraceLabels | SolarSystemAnimPanel.java:162-181 | One iteration labels its body against the sun's origin. With a moon, the Moon is skipped, and Earth is followed by the Moons against Earth's truncated position. |
| DrawOrder.WalkTraceLabels | SolarSystemAnimPanel.java:160-182 | The labels of a whole walk are the iterations' labels in list order. |
| DrawOrder.OneMoonLabel | SolarSystemAnimPanel.java:174-178 | With one Moon in the list, the nested walk labels it exactly once. |
| DrawOrder.WalkWithoutMoon | SolarSystemAnimPanel.java:163-165 | Without a moon, label `i` is body `i`, against the sun's origin. |
| DrawOrder.WalkSkipsMoon | SolarSystemAnimPanel.java:168-169 | Over bodies other than Earth, each body but the Moon adds its own label against the sun's origin. |
| DrawOrder.WalkThroughEarth | SolarSystemAnimPanel.java:171-180 | Up to Earth, the bodies but the Moon are labelled in order, and the single Moon label follows Earth's at once, in Earth's frame. |
| DrawOrder.LabelsWithoutMoon | SolarSystemAnimPanel.java:163-165 | Without a moon, a repaint labels every body exactly once, in list order, against the sun's origin. |
| DrawOrder.MoonHiddenWithoutEarth | SolarSystemAnimPanel.java:166-181 | With a moon but no Earth, the Moon is never drawn. Every other body is drawn once, in order, against the sun's origin. |
| DrawOrder.LabelsWithMoon | SolarSystemAnimPanel.java:160-182 | With a moon, and Earth and the Moon present once each: every body but the Moon is drawn once, in list order, against the sun's origin. The Moon is drawn exactly once, immediately after Earth, against Earth's truncated position. |
| DrawOrder.SeedSceneLabels | SolarSystemAnimPanel.java:58-182 | The seeded scene draws Mercury, Venus and Earth, then the Moon in Earth's frame, then Mars back in the sun's frame. |

## Left out

- **Swing plumbing.** `JPanel`, `setPreferredSize`, the mouse-listener stubs, `repaint` and the timer thread are left out. They have no logic of their own; the timer is the `running` flag and `Tick`.
- **Fixed drawing.** `paintComponent`'s background, Sun, elapsed-days text and explanatory text are left out. They draw fixed shapes and strings and do not move the origin. The days label's value is modelled as `DaysElapsed`.
- **Text.** The formatting of doubles into label text and the wording of exception messages are left out. Labels are kept as symbolic `Text` values.
- **Printing.** Printing a caught exception is left out. It is output only.
- **Floating point.** Floating-point rounding, and the values of π, `cos` and `sin`, are left out. The model computes in `real` with uninterpreted trigonometry.
- Celestial.Create: NaN parameters are not modelled. Java's `p<=0`, `r<=0` and `d<=0` tests are all false for NaN, so `new CelestialCircular` accepts a NaN period, radius or diameter; the model's reals have no NaN, so `Validate` and `Create` reject exactly the non-positive values.
- Celestial.Validate: likewise reports no error exactly for positive reals; the NaN that Java's checks let through has no counterpart.
- **`(int)` corner cases.** Saturation and NaN in the `(int)` cast are left out. The model's reals are finite.
- **Integer width.** Overflow of the `int` counter `dt`, of the product `dt*2` in the angle formula, and of `days*10` is left out. The model's integers are unbounded. In Java `dt*2` wraps once `dt` reaches 2^30, half the count at which `dt` itself wraps, and the angle then jumps.
- **Program entry.** `SolarSystem.java`, a window bootstrap, is not part of this model. Neither are the button layout and event dispatch of `SolarSystemGuiPanel.java`; its Reset button is `AnimPanel.Reset`.
- **Later list changes.** The model does not cover changing the body list after construction. Calling `createCelestials` a second time would append a second copy of every seed; the program never does this.
- LabelsWithMoon: stated for lists in which Earth and the Moon each occur once, as in the seeded scene. For any other list, `WalkTraceLabels` still gives the labels step by step through `WalkLabels`.
