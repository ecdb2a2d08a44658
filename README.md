# Flight-heading tracker, modelled in Dafny

This project models the flight-heading tracker of a live flight map built with Dash. On every poll tick the app fetches the current flights as a list of dictionaries (`id`, `latitude`, `longitude` and passenger keys). It then calls `update_rotation_angles(data, previous_data)`. That call adds a `rotation_angle` key to each current flight, in place:

- a flight whose `id` is absent from the previous poll gets 0;
- a matched flight is compared with the first previous entry that has the same `id`;
- a matched flight at exactly the same longitude and latitude keeps its previous angle (guarded variant only);
- any other matched flight gets `bearing_from_positions` from its previous position to its current one, normalised into [0, 360).

On the first tick there is no previous poll, and the caller sets every angle to 0. At render time, `get_closest_round_angle` quantizes an angle to one of 0, 15, ..., 345. `get_custom_icon` then maps that angle to the URL of a pre-rotated plane image.

The tracker exists in three near-copies:

- `correction/utils.py`: guarded `update_rotation_angles`, quantizer, unvalidated icon.
- `better_app/utils.py`: the same guarded `update_rotation_angles`, plus an icon function that raises `ValueError` for an angle outside the 24 round angles.
- `utils.py`: the earlier unguarded `update_rotation_angles`, which recomputes the bearing even for a flight that did not move.

Files:

- `records.dfy` (module `Records`): a flight dictionary is a `map<string, Value>`; `KeyError`, `TypeError` and `ValueError` are values of `Error`; `Result` and `Option`.
- `bearing.dfy` (module `Bearing`): the normalisation `(deg + 360) % 360` with Python's floored modulo. The trigonometry is the parameter `azimuth`, a function of (previous latitude, previous longitude, latitude, longitude).
- `tracker.dfy` (module `Tracker`):
  - `RotationAngle` is one loop iteration, with the `Guarded`/`Unguarded` variant as a parameter.
  - `Enrich` is the effect of a whole call. It is the specification that the in-place method `Snapshot.UpdateRotationAngles` is proved against.
  - `Snapshot.AddRotationAngles` is the caller's tick, including the first tick with no previous poll (`null`).
- `quantize.dfy` (module `Quantize`): the 25 candidates, numpy's first-minimum `argmin`, the quantizer, and its proof against closed-form rounding to the nearest multiple of 15 with halves going down.
- `decimal.dfy` (module `Decimal`): Python's decimal rendering of an int and its parser.
- `icons.dfy` (module `Icons`): both `get_custom_icon` variants and the icon URL.

Four points about the code's behaviour; the model follows the code:

- When the loop raises (a missing key, a non-numeric coordinate), the flights before the failing one keep their new `rotation_angle` and the rest are untouched. The update is not all-or-nothing.
- A missing `id` raises `KeyError`, as any missing key does.
- The tracker stores only `rotation_angle`. The quantized heading is computed by the caller at render time and is never stored on the flight.
- Matching is a linear scan that takes the first entry with an equal `id`. Nothing assumes that identifiers are unique.

## Model

| member | source | states |
|---|---|---|
| `Bearing.Normalise` | correction/utils.py:113-114 | `(deg + 360) % 360` is in [0, 360), differs from `deg` by a whole number of turns, is `deg` for `deg` in [0, 360) and `deg + 360` for `deg` in [-360, 0) |
| `Bearing.BearingFromPositions` | correction/utils.py:81-115 | the bearing lies in [0, 360) and is congruent modulo 360 to the azimuth measured from (previous latitude, previous longitude) to (latitude, longitude), although the call passes the current coordinates first; for an atan2 value in (-180, 180] a negative azimuth gains one turn (west -90 becomes 270) |
| `Tracker.PreviousIds` | correction/utils.py:57 | the comprehension succeeds exactly when every previous entry has an `id`, and then lists those ids in order; otherwise it raises `KeyError('id')` |
| `Tracker.FirstMatch` | correction/utils.py:60 | no index when no previous entry carries the id; otherwise the index of the first entry with that id, with no earlier entry matching |
| `Tracker.FirstMatchIsUnique` | correction/utils.py:57-60 | the `not in` test succeeds exactly when `next(...)` finds no entry, and the entry `next` finds is the one first entry with that id |
| `Tracker.RotationAngle` | correction/utils.py:56-75 | one iteration: a flight without `id`, or a previous entry without one, raises `KeyError('id')`; an id that no previous entry carries gives 0; otherwise the angle against the first previous entry with that id |
| `Tracker.MatchedAngle` | correction/utils.py:61-75 | the `KeyError` of the first missing key in the source's lookup order (longitude, latitude, previous longitude, previous latitude); guarded and at the same position: the previous `rotation_angle`, or `KeyError('rotation_angle')` when there is none; otherwise (all four keys present, and unguarded or moved) the bearing from the previous position to the current one when all four coordinates are numbers, and `TypeError` when any is not |
| `Tracker.RecomputedAngle` | correction/utils.py:70-75 | succeeds exactly when all four coordinates are numbers, and otherwise raises `TypeError`; the angle is a number in [0, 360), the bearing with the current coordinates passed first |
| `Tracker.Enrich` | correction/utils.py:55-78 | the list after the call has as many flights as before: flights are neither added nor dropped |
| `Tracker.EnrichAt` | correction/utils.py:55-77 | flight i after the call is the old dictionary plus the computed `rotation_angle` when no earlier flight raised and its own angle did not raise; otherwise it is the old dictionary unchanged |
| `Tracker.FailureIsFirstError` | better_app/utils.py:55-77 | the call raises exactly when some flight's angle raises, and the exception it raises is that of the first such flight |
| `Tracker.OnlyRotationAngleChanges` | better_app/utils.py:55-78 | every key other than `rotation_angle` (id, coordinates, passengers) keeps its presence and value; after a call that did not raise every flight has a `rotation_angle` |
| `Tracker.NewFlightGetsZero` | correction/utils.py:56-58 | a reached flight whose id appears in no previous entry gets `rotation_angle` 0 (both variants) |
| `Tracker.StationaryFlightKeepsAngle` | better_app/utils.py:60-68 | guarded variant: a reached flight whose first match has the same longitude and latitude gets that entry's `rotation_angle` verbatim; if the entry has none the call raises `KeyError('rotation_angle')` and this flight stays unchanged |
| `Tracker.MovedFlightGetsBearing` | correction/utils.py:60-75 | a reached flight matched first at index k and moved (or any matched flight, unguarded) gets the bearing from `previous[k]`'s position to its own |
| `Tracker.AngleNormalised` | correction/utils.py:56-75 | every angle an iteration computes is a number in [0, 360) when the previous poll's angles are |
| `Tracker.TickKeepsHeadingsNormalised` | correction/utils.py:55-78 | the invariant "every rotation_angle is a number in [0, 360)" holds after the call if it held for both polls before |
| `Tracker.UnguardedResetsStationaryHeading` | utils.py:17-28 | unguarded variant: a matched flight that did not move is still sent through the bearing formula, and when the formula gives 0 for identical points its heading becomes 0 whatever it was |
| `Tracker.StationaryFlightExample` | utils.py:13-31 | flight X at (50, 10) in both polls with previous angle 120: guarded gives 120, unguarded gives 0 |
| `Tracker.VariantsAgreeWithoutStationaryFlights` | utils.py:13-31 | on a poll where no flight sits still at its matched position, the guarded and unguarded variants give identical lists and outcomes |
| `Tracker.Snapshot.UpdateRotationAngles` | correction/utils.py:51-78 | updates the list in place to exactly `Enrich` of the old list and returns the exception raised, if any; the previous list is not modified |
| `Tracker.Snapshot.AddRotationAngles` | correction/main.py:81-86 | with no previous poll every flight gets `rotation_angle` 0 and nothing raises; otherwise the effect of `update_rotation_angles`; the previous list is not modified |
| `Quantize.RoundAnglesAreMultiples` | correction/utils.py:132-137 | the candidate at index i is 15·i, for the 25 indices 0..24 |
| `Quantize.ArgMin` | correction/utils.py:141-142 | the chosen index holds a smallest difference, and every earlier index holds a strictly larger one (numpy's first minimum) |
| `Quantize.ClosestRoundAngle` | correction/utils.py:118-147 | the result is a multiple of 15 in [0, 345], so 360 never comes out |
| `Quantize.ClosestIsRoundHalfDown` | utils.py:82-97 | for every real angle the argmin scan equals rounding to the nearest multiple of 15 with midpoints going to the smaller candidate, clamped to 0..360, with 360 read as 0 |
| `Quantize.TieBreaksAndWrapAround` | utils.py:88-97 | 7.5 gives 0 and 352.5 gives 345 (the first minimum wins); 358 gives 0 (nearest is 360, folded) |
| `Quantize.RoundAnglesAreFixedPoints` | correction/utils.py:138-147 | each of 0, 15, ..., 345 quantizes to itself |
| `Quantize.QuantizeIsIdempotent` | correction/utils.py:118-147 | quantizing an already quantized angle returns it unchanged |
| `Decimal.IntToDecimal` | correction/utils.py:161 | `str(n)` as the f-string writes it: digits without a leading zero, a minus sign exactly when n < 0, and never `-0` |
| `Decimal.DecimalIsUnique` | correction/utils.py:161 | that form spells each int once: the only string of it that parses to n is `str(n)` |
| `Decimal.DecimalRoundTrip` | correction/utils.py:161 | parsing the decimal text of any int, as the f-string writes it, returns that int |
| `Icons.IconUrl` | better_app/utils.py:139 | the URL is exactly the fixed prefix, `str(round_angle)`, then `.png?raw=true`, and the angle can be read back from it |
| `Icons.IconUrlIsUnique` | better_app/utils.py:139 | no other spelling of the angle (a leading zero, `-0`) yields a URL of that shape naming it: the icon URL of an angle is unique |
| `Icons.CustomIcon` | utils.py:100-115 | unvalidated variant: every int gets an icon of size [38, 38] whose URL is exactly the prefix, `str(round_angle)` and the suffix, naming that int |
| `Icons.AcceptedAnglesAreRoundAngles` | better_app/utils.py:131-134 | the listed accepted angles are exactly the multiples of 15 in [0, 345] |
| `Icons.CheckedCustomIcon` | better_app/utils.py:120-143 | validated variant: `ValueError` with the source's message exactly when the angle is not a multiple of 15 in [0, 345]; otherwise the unvalidated icon |
| `Icons.QuantizedAnglesAreAccepted` | better_app/utils.py:131-138 | the validated icon never raises on an output of the quantizer |

## Left out

- `fetch_flight_data` (network calls to the FlightRadar24 client) is not modelled. Flights enter the model as a list of dictionaries.
- The trigonometric body of `bearing_from_positions` (radians, sin, cos, atan2, degrees) is not modelled; it is the parameter `azimuth`. So the compass vectors (east 90, north 0, west 270) cannot be proved. Only the normalisation of the atan2 result is modelled.
- Floats are modelled as exact reals: no NaN, no infinity and no rounding. An angle that differs from 360 by less than a rounding step is not modelled.
- The Dash layout, the callbacks, the `dcc.Interval` timer and the `dcc.Store` persistence are not modelled. Only the first-tick rule of the callback (no previous poll, so every angle is 0) is kept, as `Snapshot.AddRotationAngles`.
- The `NotImplementedError` stubs `bearing_from_positions` and `get_closest_round_angle` of `better_app/utils.py` are not modelled. They only raise.
- The unit conversions and display strings of the UI are not modelled.
- Dictionary identity is not modelled: a flight is a value in a sequence. Two entries of the list that are the same dict object, and dicts shared between the current and the previous list, are not represented.
- Tracker.Snapshot.UpdateRotationAngles: requires that the previous list is not the current one. The caller always passes the list deserialised from its store, never the list being updated.
- Python's distinction between int 0 and float 0.0 is not kept: both are `Num(0.0)`, and they compare equal in Python too.
- The message of the `TypeError` that `math.radians` raises is not modelled, nor which coordinate caused it.
- Booleans passed as coordinates are not modelled, although Python would accept them as numbers.

## Findings

| source | as written | input that shows it | evidently intended | confidence | as-written member | corrected member |
|---|---|---|---|---|---|---|
| utils.py:17-28 | a matched flight always gets `bearing_from_positions(...)`, even at an unchanged position, where the formula gives atan2(0, 0) = 0 | flight X at (50, 10) in two consecutive polls with previous `rotation_angle` 120: the new angle is 0 | keep the previous angle when longitude and latitude are unchanged, as correction/utils.py:66-68 does | not executed | `Tracker.StationaryFlightExample` | `Tracker.StationaryFlightKeepsAngle` |
