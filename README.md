# Coming-soon page: countdown, email form and particle field

This project models the client-side logic of a "coming soon" landing page
(`js/coming-soon.js`), in three Dafny modules:

- `Countdown` (`countdown.dfy`): the countdown timer. The distance to the
  launch date, in milliseconds, is split into days, hours, minutes and
  seconds. Each value is written as its decimal digits left-padded with `'0'`
  to two characters. An element's text is assigned only when it changes. A
  negative distance completes the timer: its interval is cleared and no
  element is touched. The timer is a class whose four page elements are
  objects with a text and a `tick` flag.
- `EmailForm` (`email.dfy`): `validateEmail` and the submit handler. The
  regular expression `^[^\s@]+@[^\s@]+\.[^\s@]+$` is run as its automaton,
  one character at a time. It is proved to accept exactly the language of the
  expression, and exactly the strings with no whitespace, one `@`, a non-empty
  part before it, and a `.` after it that is neither the first nor the last
  character of the domain. `\s` and `trim` use ECMAScript's whitespace and
  line-terminator characters. The handler trims the input, then checks for an
  empty address, then for an invalid one, and only then sends.
- `Particles` (`particles.dfy`): the particle canvas. It is a class holding
  the canvas size, the last mouse position and a sequence of particle
  records. `initParticles` pushes 50 particles, each made from its share of
  `Math.random()` values. `animate` updates each particle in index order:
  attraction (guard only), Euler step, friction 0.98, and reflect-and-clamp on
  each axis. Right after a particle's own update, if its index is a multiple
  of 3, it collects its connection lines. So the particles it is compared
  with are already updated below its index and not yet updated above it,
  exactly as the in-place `forEach` of the source does.

Coordinates and velocities are Dafny `real`s. Canvas sizes are `nat`, as
`canvas.width` and `canvas.height` are non-negative integers. Distance tests
on `Math.sqrt(dx*dx + dy*dy)` are written on the squared distance. `SqrtBelow`
proves the two comparisons agree.

Inputs from the host are parameters:

- the current time, for `update`;
- the window size, for `resize` and the constructor;
- the pointer position, for `onMouseMove`;
- the random values, for `initParticles`;
- the attraction impulse, for `animate`;
- whether the send promise resolves, for the submit handler.

The code tests `this.mouseX && this.mouseY`, so an unset coordinate or a
coordinate of 0 turns attraction off (`Particles.Truthy`).

## Model

| member | source | states |
|---|---|---|
| `Countdown.Decompose` | js/coming-soon.js:154-157 | for a non-negative distance, hours < 24, minutes < 60, seconds < 60, and days·86400000 + hours·3600000 + minutes·60000 + seconds·1000 + distance mod 1000 equals the distance |
| `Countdown.DecomposeUnique` | js/coming-soon.js:154-157 | no other days/hours/minutes/seconds meet those bounds and add up to the distance |
| `Countdown.Digits` | js/coming-soon.js:166 | `String(value)`: at least one character, all decimal digits, one character exactly when value < 10, no leading zero for positive values |
| `Countdown.ParseDigits` | js/coming-soon.js:166 | reading the digits back gives the value (the rendering loses nothing) |
| `Countdown.PadStart` | js/coming-soon.js:166 | `padStart`: the length is the larger of the target and the input's length, the input is a suffix, and everything before it is the fill character |
| `Countdown.FormatShape` | js/coming-soon.js:166 | the shown text has length max(2, number of digits); for a value below 10 it is `'0'` then the digit, otherwise exactly the decimal string |
| `Countdown.ParseFormat` | js/coming-soon.js:166 | the padded text is all digits and reads back as the value |
| `Countdown.FormatInjective` | js/coming-soon.js:166-168 | two values give the same text exactly when they are equal, so a text stays put exactly when its value does |
| `Countdown.CountdownTimer.UpdateElement` | js/coming-soon.js:165-172 | the element ends up showing the padded value; when its text already was that, its tick class is as it was; otherwise the text is replaced and the tick class is set |
| `Countdown.CountdownTimer.Update` | js/coming-soon.js:145-172 | a negative distance clears the interval and leaves all four elements unchanged; otherwise the interval stays and each element shows its part of the decomposed distance, its tick class set exactly when its text changed and kept otherwise |
| `Countdown.CountdownTimer.constructor` | js/coming-soon.js:134-143 | stores the launch date and the four elements, runs a first update (elements untouched for a past date, refreshed as by `update` otherwise), and installs the interval after it, so the timer is running afterwards even for a past date |
| `Countdown.CountdownTimer.IntervalFirst` | js/coming-soon.js:134-143 | the same construction with the interval installed before the first update: the timer is running afterwards exactly when the launch date has not passed |
| `Countdown.ExpiredStartKeepsInterval` | js/coming-soon.js:141-142 | a timer built one second after its launch date is running |
| `Countdown.ExpiredStartClearsInterval` | js/coming-soon.js:141-142 | the same timer built with the interval first is not running |
| `Countdown.Element.constructor` | js/coming-soon.js:137-140 | a page element with the given text and no tick class |
| `Countdown.Format` | js/coming-soon.js:166 | `String(value).padStart(2, '0')`; what it yields is stated by `FormatShape`, `ParseFormat` and `FormatInjective` |
| `Countdown.CountdownTimer.Complete` | js/coming-soon.js:174-177 | the interval is cleared |
| `Countdown.CountdownTimer.Destroy` | js/coming-soon.js:179-181 | the interval is cleared |
| `EmailForm.ValidateEmail` | js/coming-soon.js:198-201 | `validateEmail`, the expression run as its automaton; what it accepts is stated by `ValidateEmailMatchesRegex`, `ValidateEmailExact` and `ValidateEmailSplit` |
| `EmailForm.ClassifyStep` | js/coming-soon.js:199 | one more character moves the phase read off the string the way the automaton's step does |
| `EmailForm.ScanClassifies` | js/coming-soon.js:199-200 | the automaton's phase after a whole string is the phase read off the string |
| `EmailForm.ValidateEmailSplit` | js/coming-soon.js:198-201 | acceptance means: split at the first `@` with a non-empty left side, both sides free of whitespace and `@`, and an inner `.` in the domain |
| `EmailForm.ValidateEmailMatchesRegex` | js/coming-soon.js:198-201 | `validateEmail` holds exactly for the strings of `^[^\s@]+@[^\s@]+\.[^\s@]+$` (a run, `@`, a run, `.`, a run, every run non-empty and free of whitespace and `@`) |
| `EmailForm.ValidateEmailExact` | js/coming-soon.js:198-201 | `validateEmail` holds exactly when there is no whitespace, exactly one `@`, the part before it is non-empty, and the part after it has a `.` that is neither its first nor its last character |
| `EmailForm.SkipLeading` | js/coming-soon.js:206 | the scan for the start of the trimmed value passes only whitespace and stops at the first non-whitespace character or the end |
| `EmailForm.SkipTrailing` | js/coming-soon.js:206 | the scan for the end of the trimmed value passes only whitespace and stops just past the last non-whitespace character, never before its start |
| `EmailForm.Trim` | js/coming-soon.js:206 | `trim`; what it yields is stated by `TrimSlice`, `TrimEnds`, `TrimEmpty` and `TrimIdempotent` |
| `EmailForm.TrimSlice` | js/coming-soon.js:206 | `trim` gives a slice of the input with only whitespace cut off each end |
| `EmailForm.TrimEnds` | js/coming-soon.js:206 | a non-empty trimmed value starts and ends with a non-whitespace character |
| `EmailForm.TrimEmpty` | js/coming-soon.js:206-210 | the trimmed value is empty, so the empty-field message is shown, exactly when the input is all whitespace |
| `EmailForm.TrimIdempotent` | js/coming-soon.js:206 | trimming twice is trimming once |
| `EmailForm.Decide` | js/coming-soon.js:206-228 | an empty trimmed input is the "enter your email" error; otherwise an invalid one is the "valid email" error; otherwise the trimmed address is sent, in that order, each case exactly characterized |
| `EmailForm.Submit` | js/coming-soon.js:203-239 | the message is a success, with the thank-you text, and the input is cleared exactly when the address was sent and the promise resolved; a sent address whose promise rejects gives the error "Something went wrong"; the two validation errors carry their texts |
| `EmailForm.SentAddressIsValid` | js/coming-soon.js:212-228 | an address that reaches `sendEmail` is non-empty, matches the expression, has no whitespace and exactly one `@` |
| `Particles.Scale` | js/coming-soon.js:33-34 | `Math.random() * size` lies in [0, size] |
| `Particles.PaletteIndex` | js/coming-soon.js:45-48 | `Math.floor(Math.random() * 3)` is a valid index of the three-colour palette |
| `Particles.Spawn` | js/coming-soon.js:32-41 | a new particle lies on the canvas, has each velocity component in [-0.5, 0.5), radius in [0.5, 2), opacity in [0.1, 0.6), a palette colour, and is attracted exactly when its draw exceeds 0.7 |
| `Particles.Attract` | js/coming-soon.js:60-72 | attraction changes the velocity only: position, radius, colour, opacity and the attraction flag are kept |
| `Particles.AttractionGuard` | js/coming-soon.js:60-66 | a particle that is not attracted, or a mouse coordinate that is unset or 0, or a mouse 200 or more away, leaves the particle unchanged |
| `Particles.AttractionApplied` | js/coming-soon.js:60-71 | an attracted particle within 200 of a set, non-zero mouse gets the impulse added to its velocity |
| `Particles.SqrtBelow` | js/coming-soon.js:63-66 | for a non-negative distance, distance < limit exactly when its square is below the limit's square |
| `Particles.BounceAxis` | js/coming-soon.js:83-90 | the position ends in [0, limit]; the velocity is negated exactly when the position was outside [0, limit] and otherwise unchanged; a low position goes to 0, a high one to the limit, an inside one stays |
| `Particles.Integrate` | js/coming-soon.js:75-76 | the Euler step; its effect is stated by `StepPerAxis` and `StepFreeFlight` |
| `Particles.Damp` | js/coming-soon.js:79-80 | friction 0.98; its effect is stated by `StepPerAxis` and `StepDamps` |
| `Particles.Clamp` | js/coming-soon.js:86 | `Math.max(0, Math.min(limit, v))`; its range is stated by `BounceAxis` |
| `Particles.Bounce` | js/coming-soon.js:83-90 | the bounce on both axes, each as `BounceAxis` states |
| `Particles.StepParticle` | js/coming-soon.js:58-90 | one particle's update; its properties are stated by `StepInBounds`, `StepKeepsAttributes`, `StepPerAxis`, `StepDamps` and `StepFreeFlight` |
| `Particles.StepInBounds` | js/coming-soon.js:74-90 | after its step a particle has 0 ≤ x ≤ width and 0 ≤ y ≤ height |
| `Particles.StepKeepsAttributes` | js/coming-soon.js:58-90 | a step changes only position and velocity |
| `Particles.StepPerAxis` | js/coming-soon.js:75-90 | each axis separately: the new velocity is ±0.98 times the post-attraction velocity, negative exactly when the moved position left the canvas on that axis, and the position is the clamped moved position |
| `Particles.StepDamps` | js/coming-soon.js:75-90 | without attraction, the squared speed is multiplied by 0.98², bounce or not, so the speed never grows and strictly falls while non-zero |
| `Particles.StepFreeFlight` | js/coming-soon.js:75-80 | without attraction and without a bounce, the particle moves by its velocity and the velocity becomes exactly 0.98 times itself |
| `Particles.ReflectAtRightEdge` | js/coming-soon.js:83-86 | a particle 5 past the right edge moving right at 2 ends on the edge moving left at 1.96 |
| `Particles.ConnectionsFrom` | js/coming-soon.js:101-117 | every line drawn by particle i starts at i and goes to an index below the bound |
| `Particles.ConnectionsFromOrdered` | js/coming-soon.js:102-117 | the lines of particle i come in increasing target order, the order of the inner loop |
| `Particles.ConnectionsFromExact` | js/coming-soon.js:101-117 | a line from i to j is drawn exactly when j ≠ i and their squared distance is below 22500, recorded with that squared distance |
| `Particles.Alpha` | js/coming-soon.js:109 | the line's alpha `(1 - distance/150) * 0.1`; its range is stated by `AlphaRange` |
| `Particles.AlphaRange` | js/coming-soon.js:107-109 | for a distance below 150, the line's alpha (1 − d/150)·0.1 lies in (0, 0.1] |
| `Particles.Stepped` | js/coming-soon.js:58-90 | the particles after a frame, as many as before; particle by particle as `SteppedAt` states |
| `Particles.SteppedAt` | js/coming-soon.js:58-90 | after a frame, particle k is particle k's own step from its state at the start of the frame |
| `Particles.SteppedOnCanvas` | js/coming-soon.js:74-90 | after a frame every particle lies on the canvas |
| `Particles.SteppedWithoutMouse` | js/coming-soon.js:60 | without a mouse position a frame attracts nothing, so its result does not depend on the impulse |
| `Particles.PartialNext` | js/coming-soon.js:58-90 | the turn of particle n moves particle n only, from its state at the start of the frame |
| `Particles.TurnConnections` | js/coming-soon.js:100-117 | the lines particle i draws in its turn; exactly those `TurnConnectionsExact` states |
| `Particles.TurnConnectionsExact` | js/coming-soon.js:100-117 | particle i draws a line in its turn exactly when i is a multiple of 3 and the line starts at i and meets the frame's distance test at that moment |
| `Particles.ConcatByTurn` | js/coming-soon.js:58-119 | when each turn's lines start at that turn's index, the first n turns together hold a line exactly when its source is below n and its own turn holds it |
| `Particles.FrameConnections` | js/coming-soon.js:58-119 | a frame's lines in drawing order; exactly those `FrameConnectionsByTurn` and `FrameConnectionsExact` state |
| `Particles.FrameConnectionsByTurn` | js/coming-soon.js:58-119 | after n turns the frame has drawn exactly the lines of those n particles' own turns |
| `Particles.FrameConnectionsExact` | js/coming-soon.js:58-119 | a frame draws a line from i to j exactly when i is a multiple of 3, j ≠ i, and the two are closer than 150 when i draws, with particles up to i already moved and those after not yet |
| `Particles.ParticleCanvas.DrawConnections` | js/coming-soon.js:101-117 | the inner loop over all particles yields exactly the lines `ConnectionsFrom` describes |
| `Particles.ParticleCanvas.Turn` | js/coming-soon.js:58-119 | one turn of the loop: particle i takes its step and, when i is a multiple of 3, appends its lines drawn against the particles at that moment |
| `Particles.ParticleCanvas.Animate` | js/coming-soon.js:55-123 | afterwards each particle is its own step of the frame, the lines are the frame's connections in drawing order, and every particle lies on the canvas |
| `Particles.Spawned` | js/coming-soon.js:30-42 | the 50 particles of `initParticles`, particle k made from the k-th group of random values |
| `Particles.ParticleCanvas.InitParticles` | js/coming-soon.js:29-43 | afterwards the particles are exactly the 50 that `Spawned` describes, particle k made from the k-th group of random values |
| `Particles.ParticleCanvas.Resize` | js/coming-soon.js:24-27 | the canvas takes the window's size; particles are not touched |
| `Particles.ParticleCanvas.OnMouseMove` | js/coming-soon.js:50-53 | the mouse position becomes the event's client position |
| `Particles.ParticleCanvas.constructor` | js/coming-soon.js:9-22 | the canvas has the window's size and no mouse position, and its particles are the 50 of `initParticles` after the first frame of `animate`, all on the canvas |

## Left out

- Canvas drawing (`clearRect`, `arc`, `fill`, `fillStyle`, `strokeStyle`, `lineWidth`, the `globalAlpha` settings and reset, lines 56, 92-97 and 108-114, 121) is left out: these are calls on a browser object. A frame's lines are returned as data instead.
- `requestAnimationFrame`, `cancelAnimationFrame` and `ParticleCanvas.destroy` (lines 122, 125-127), and the `addEventListener` registrations, are left out: they are host scheduling. A frame or an event is a method call.
- `setInterval`, `clearInterval` and `setTimeout` (lines 142, 170, 175, 180) are left out as host scheduling. The interval is the timer's `running` flag, and removing the `tick` class 300 ms later is not modelled.
- `Particles.Attract`: the impulse is a parameter of the frame, so its magnitude `(1 - distance/200) * 0.3` and its direction toward the mouse (lines 63-70) are not stated, because they need `Math.sqrt`, `Math.atan2`, `Math.cos` and `Math.sin`.
- Floating point: positions, velocities and the random values are exact reals, not IEEE doubles; rounding, NaN, infinities and negative zero are not modelled.
- `Particles.Spawn`: the random values are parameters, so their distribution (uniform positions, the 30 % share of attracted particles) is not modelled.
- `Date` parsing and `getTime` (lines 135, 146, 359-361) are left out: the launch date and the current time are integers of milliseconds.
- `Countdown.Digits` gives the decimal form for every value. JavaScript switches to exponent notation at 10^21, which a day count derived from a `Date` cannot reach.
- `getElementById` returning `null` is left out: the four countdown elements are taken to exist and to be distinct.
- `sendEmail` (lines 241-255) is a parameter of `EmailForm.Submit`, saying whether its promise resolves. The stub in the source always resolves.
- The submit button's `disabled` and label (lines 223-224, 236-237), `clearMessage`, `showMessage`'s class string, `blur` and the focus handler are left out: they only write page state.
- `MouseParallax`, `PageAnimations`, the injected CSS keyframes and the `DOMContentLoaded`, `beforeunload` and `touchmove` handlers (lines 271-398) are left out: browser wiring and logging. The touch handler scrolls by a constant 0.
- `console.log` and `console.error` calls are left out.
- Strings are sequences of Unicode scalar values, while JavaScript strings are UTF-16 code units. No whitespace character and no `@` lies outside the Basic Multilingual Plane, so acceptance is the same, but an input holding a lone surrogate cannot be represented.
- `resize` does not re-clamp particles. So the in-bounds property holds at the end of every frame (`Animate`), not right after a `Resize`.

## Findings

| source | as written | input that shows it | evidently intended | confidence | as-written member | corrected member |
|---|---|---|---|---|---|---|
| js/coming-soon.js:141-142 | the constructor runs `update()` before `setInterval`, so when the launch date has passed, `complete()` clears an interval that does not exist yet, and the interval is installed afterwards anyway | a launch date one second before the current time: the timer is running after construction, and its first tick completes it a second time | a timer whose launch date has passed is complete from the start, with no interval running | medium, not executed | `Countdown.ExpiredStartKeepsInterval` | `Countdown.ExpiredStartClearsInterval` |
