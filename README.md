# Race simulator core in Dafny

This project models the logic of a small top-down race simulator that has two parts.

- **The car (`Carro`).** It accelerates, brakes and steers under four controls. Each frame it moves to a candidate position. The move happens only when the truncated position is a drivable cell of the track mask; otherwise the car crashes and stays frozen. After each frame it marches five sensor rays outward at unit steps, and each ray reports the distance to the first sample that is off the grid or off the track. The readings, divided by the sensor range, are the inputs for a driving AI.
- **The track mask (`construir_mascara`).** A colour rule picks candidate pixels: cool-toned and of middle brightness. The largest 4-connected region of candidates is kept as the drivable surface.

The modules are:

- `Grid` (`grid.dfy`): the boolean mask, Python's `int()` (truncation toward zero) and the cell lookup.
- `Sensors` (`sensors.dfy`): the ray march. The function `ScanFrom` specifies it, the method `March` implements the inner loop of `_sensores`, and `Normalise` is `get_inputs_ia`.
- `Dynamics` (`dynamics.dfy`): the car state as a value and one frame as the transition function `Tick`, built from `Throttle`, `Steer` and `Advance`. `Spawn` is the reset state and `Run` is a sequence of frames. The lemmas cover the alive/crashed state machine and the invariant.
- `Vehicle` (`car.dfy`): the class `Car`, whose fields are reassigned in place by `Update`, `Sense` and `Reset`. Each method is proved to leave the fields equal to `Tick`, `Readings` or `Spawn` of the old fields.
- `TrackMask` (`track_mask.dfy`): the pixel rule, the label histogram, the background bin set to zero, `argmax`, and the resulting mask.

`cos(radians(a))` and `sin(radians(a))` are a pair of arbitrary functions `real -> real` (the datatype `Trig`) passed in by the caller. No property depends on their values. The connected-component labelling (`scipy.ndimage.label`) is also an input: a label grid constrained by `IsLabelling`, which says:

- the grid has the same shape as the image;
- label 0 is exactly the background;
- horizontally or vertically adjacent candidate pixels share a label.

## Model

| member | source | states |
|---|---|---|
| Grid.Trunc | simulador_carrera.py:116 | `int()` truncates toward zero: the result is within one unit of the value, on the side toward zero, and any value in (-1, 1) gives 0 |
| Grid.InBoundsOnGrid | simulador_carrera.py:117-118 | on a rectangular mask, the in-bounds test is exactly `0 <= row < alto and 0 <= column < ancho` |
| Grid.PointNearOriginInBounds | simulador_carrera.py:116-119 | a candidate coordinate in (-1, 1) truncates to cell 0, so it counts as inside the grid, and drivability is decided by `mask[0][0]` |
| Sensors.ScanFrom | simulador_carrera.py:134-141 | a march resumed at step `d` reports at most `LARGO_SENSOR` and never less than `d` |
| Sensors.ScanFromIsFirstObstruction | simulador_carrera.py:134-141 | a march resumed at step `d` reports the first obstructed step from `d` on; it reports `Range` exactly when no step before `Range` is obstructed |
| Sensors.ReadingIsFirstObstruction | simulador_carrera.py:133-141 | a reading is in `[1, 130]`; no sample before it is off the grid or off the track; the sample at the reading is, unless the reading is 130; and the reading is 130 exactly when steps 1..129 are all clear, so a hit at step 130 also reads 130 |
| Sensors.Readings | simulador_carrera.py:130-142 | one reading per sensor angle, five in all, each in `[1, 130]` |
| Sensors.March | simulador_carrera.py:133-141 | the loop with `break` returns exactly the reading that `ScanFrom` specifies for that ray |
| Sensors.Normalise | simulador_carrera.py:144-145 | same length as the readings; each output times 130 is the reading; for valid readings each output is in (0, 1] |
| Sensors.NormaliseFullRange | simulador_carrera.py:144-145 | five readings of 130 normalise to five ones |
| Dynamics.ThrottleBounds | simulador_carrera.py:106-109 | after the clamp to `[-2.0, 5.5]` and friction 0.96, the velocity lies in `[-1.92, 5.28]`; with no pedal pressed the speed never grows, and inside the clamp window it is just scaled by 0.96 |
| Dynamics.SteerTurn | simulador_carrera.py:110-112 | the turn is `abs(vel) / 5.5 * 3.2` and is non-negative; zero velocity, or both or neither steering key, leaves the heading unchanged; left subtracts the turn and right adds it |
| Dynamics.CrashedFrameIsNoOp | simulador_carrera.py:100-101 | a frame of a crashed car changes nothing: position, heading, velocity, distance and readings all stay the same |
| Dynamics.LiveFrameMoveOrCrash | simulador_carrera.py:113-125 | a live car stays alive exactly when its truncated candidate cell is in bounds and drivable. Then it moves there, keeps the new velocity, and its distance grows by `abs(vel)`. Otherwise it keeps its position and distance and is marked dead. Its velocity is scaled by 0.4 only on the in-bounds crash and left as is out of bounds |
| Dynamics.LiveFrameRefreshesSensors | simulador_carrera.py:128 | every live frame, the crash frame included, recomputes all readings from the final pose, and they are valid |
| Dynamics.TickKeepsInv | simulador_carrera.py:99-128 | one frame keeps the invariant (valid readings, velocity in `[-1.92, 5.28]`, distance non-negative) and never decreases the distance |
| Dynamics.Spawn | simulador_carrera.py:159-163 | the reset state is alive and satisfies the invariant, and its AI inputs are all 1.0 |
| Dynamics.CrashedStaysCrashed | simulador_carrera.py:100-101 | a crashed car stays exactly as it is over any number of frames |
| Dynamics.AliveThroughout | simulador_carrera.py:100-125 | a car alive after a run of frames was alive after every prefix of the run |
| Dynamics.DistanceNeverDecreases | simulador_carrera.py:120-121 | the distance never decreases over any run of frames |
| Dynamics.RunKeepsInv | simulador_carrera.py:99-128 | the invariant holds after any run of frames from any state satisfying it |
| Vehicle.Car.constructor | simulador_carrera.py:91-97 | the new car's fields are the reset state at the given pose, and the invariant holds |
| Vehicle.Car.Update | simulador_carrera.py:99-128 | the fields after `actualizar` are exactly `Tick` of the fields before, and the invariant is preserved |
| Vehicle.Car.Sense | simulador_carrera.py:130-142 | `lecturas` becomes the five readings of the current pose, and no other field changes |
| Vehicle.Car.InputsAI | simulador_carrera.py:144-145 | each AI input times 130 is the reading; under the invariant there are five inputs, each in (0, 1] |
| Vehicle.Car.Reset | simulador_carrera.py:159-163 | whatever the prior state, the fields become the reset state at the given pose, and the invariant holds |
| TrackMask.IsCandidate | simulador_carrera.py:37-40 | a pixel is a candidate exactly when `r - b < 20` and `75 < r + g + b < 495`, the integer form of `25 < (r+g+b)/3 < 165` |
| TrackMask.Raw | simulador_carrera.py:40 | the candidate grid has the image's shape |
| TrackMask.MaxOf | simulador_carrera.py:42 | the largest label occurs in the grid and bounds every label, so it fixes the histogram's length |
| TrackMask.ArgMax | simulador_carrera.py:44 | `argmax` returns an index of a largest entry, and every earlier entry is strictly smaller (ties go to the first) |
| TrackMask.BuildMask | simulador_carrera.py:34-45 | an image with no pixels has no histogram bin 0 and fails (`None`). Otherwise the mask has the image's shape, and when some pixel is a candidate, every pixel the mask keeps is a candidate |
| TrackMask.SelectedIsLargest | simulador_carrera.py:42-44 | with some candidate, the selected label is at least 1; no label at least 1 has more pixels; every smaller label at least 1 has strictly fewer |
| TrackMask.LargestComponentKept | simulador_carrera.py:41-45 | with some candidate, the mask is true exactly on the pixels with the selected label; all kept pixels are candidates; and the kept region is closed under 4-adjacency among candidates, so it is a whole component |
| TrackMask.NoCandidateWholeGrid | simulador_carrera.py:40-45 | a non-empty image with no candidate pixel gives a mask that is true everywhere: every label is 0, and `argmax` of the all-zero histogram is 0 |

## Left out

- Image loading, RGB conversion and resizing (simulador_carrera.py:35) are I/O. The model starts from the resized image as a grid of integer pixels.
- `scipy.ndimage.label` is not re-implemented; it is the input grid described above. `IsLabelling` does not require different components to get different labels, so the closure lemma shows that the kept region is a union of whole components.
- `construir_contorno` is outside the model. It draws the mask's border on a surface for display only, and nothing reads it back.
- Rendering is outside the model: the sprite rotation and `rect` update at the end of `actualizar` (simulador_carrera.py:126-127), the sprite kept by `__init__`, `dibujar`, the HUD, the game-over screen and the main loop with its clock, events and exit.
- The keyboard is four booleans (`Keys`); the mapping from arrow and WASD keys is not modelled.
- Floating point is left out: positions, velocity and heading are mathematical reals. `cos` and `sin` of radians are opaque caller-supplied functions. Two things therefore hold only in the model:
  - pressing left and right together cancels exactly;
  - `get_inputs_ia`'s division is exact.

  The float32 brightness comparison agrees with the integer rule because the channel sums are integers.
- The mask's bounds are checked against the row count and each row's length; a numpy array is rectangular, so these are `alto` and `ancho`.
- Vehicle.Car.Sense: builds the five readings in a local sequence and stores the list once at the end. `_sensores` writes each entry of `lecturas` in place. No other object shares the list, so the observable result is the same.
