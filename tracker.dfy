/**
 * The heading tracker: update_rotation_angles, which walks the flights of
 * the current poll and adds a "rotation_angle" key to each of them in place,
 * matching flights with the previous poll by identifier.
 *
 * Two copies of the operation exist. The guarded one (correction/utils.py
 * and better_app/utils.py, whose loop bodies are textually identical) keeps the previous angle of
 * a matched flight whose position did not change; the unguarded one (the
 * root utils.py) always recomputes the bearing of a matched flight.
 */
module Tracker {
  import opened Records
  import opened Bearing

  datatype Variant = Guarded | Unguarded

  /** `[data["id"] for data in previous_data]`: every identifier of the
      previous poll, in order, or the KeyError of an entry without one. */
  function PreviousIds(previous: seq<Flight>): (r: Result<seq<Value>>)
    ensures r.Ok? <==> forall j :: 0 <= j < |previous| ==> IdKey in previous[j]
    ensures r.Ok? ==> |r.value| == |previous|
    ensures r.Ok? ==> forall j :: 0 <= j < |previous| ==> r.value[j] == previous[j][IdKey]
    ensures r.Err? ==> r.error == KeyError(IdKey)
  {
    if previous == [] then Ok([])
    else
      var id :- Get(previous[0], IdKey);
      var rest :- PreviousIds(previous[1..]);
      Ok([id] + rest)
  }

  /** `next(item for item in previous_data if item["id"] == identifier)`:
      the index of the first previous entry with this identifier. */
  function FirstMatch(previous: seq<Flight>, id: Value): (r: Option<nat>)
    requires forall j :: 0 <= j < |previous| ==> IdKey in previous[j]
    ensures r.None? <==> forall j :: 0 <= j < |previous| ==> previous[j][IdKey] != id
    ensures r.Some? ==> r.value < |previous| && previous[r.value][IdKey] == id
    ensures r.Some? ==> forall j :: 0 <= j < r.value ==> previous[j][IdKey] != id
  {
    if previous == [] then None
    else if previous[0][IdKey] == id then Some(0)
    else match FirstMatch(previous[1..], id)
      case None => None
      case Some(k) => Some(k + 1)
  }

  /** A coordinate handed to the bearing arithmetic: a number, or the
      TypeError math.radians raises. */
  function Number(v: Value): (r: Result<real>)
    ensures r.Ok? <==> v.Num?
    ensures r.Ok? ==> r.value == v.n
  {
    if v.Num? then Ok(v.n) else Err(TypeError)
  }

  /** The angle one iteration of the loop computes for one flight, before
      `flight_data.update(rotation_angle=bearing)`: 0 for a flight the
      previous poll does not know, otherwise the angle against its first
      match. */
  function RotationAngle(flight: Flight, previous: seq<Flight>, azimuth: Azimuth,
                         variant: Variant): (r: Result<Value>)
    ensures IdKey !in flight || !AllIdentified(previous) ==> r == Err(KeyError(IdKey))
    ensures IdKey in flight && AllIdentified(previous)
            && (forall j :: 0 <= j < |previous| ==> previous[j][IdKey] != flight[IdKey])
            ==> r == Ok(Num(0.0))
    ensures forall k: nat | IdKey in flight && IsFirstMatch(previous, flight[IdKey], k) ::
              r == MatchedAngle(flight, previous[k], azimuth, variant)
  {
    var identifier :- Get(flight, IdKey);
    var ids :- PreviousIds(previous);
    var m := FirstMatch(previous, identifier);
    FirstMatchIsUnique(previous, identifier);
    if identifier !in ids then Ok(Num(0.0))
    else
      assert m.Some?;
      MatchedAngle(flight, previous[m.value], azimuth, variant)
  }

  /** FirstMatch finds the one index IsFirstMatch describes. */
  lemma FirstMatchIsUnique(previous: seq<Flight>, id: Value)
    requires AllIdentified(previous)
    ensures forall k: nat :: IsFirstMatch(previous, id, k) <==> FirstMatch(previous, id) == Some(k)
    ensures var ids := PreviousIds(previous).value; id in ids <==> FirstMatch(previous, id).Some?
  {
    var ids := PreviousIds(previous).value;
    if id in ids {
      var j :| 0 <= j < |ids| && ids[j] == id;
      assert previous[j][IdKey] == id;
    }
  }

  /** The angle of a flight against its match `prior` in the previous poll.
      The dictionary lookups happen in the source's order, so the first
      missing key is the one reported. */
  function MatchedAngle(flight: Flight, prior: Flight, azimuth: Azimuth, variant: Variant): (r: Result<Value>)
    ensures LongitudeKey !in flight ==> r == Err(KeyError(LongitudeKey))
    ensures LongitudeKey in flight && LatitudeKey !in flight ==> r == Err(KeyError(LatitudeKey))
    ensures LongitudeKey in flight && LatitudeKey in flight && LongitudeKey !in prior
            ==> r == Err(KeyError(LongitudeKey))
    ensures LongitudeKey in flight && LatitudeKey in flight && LongitudeKey in prior && LatitudeKey !in prior
            ==> r == Err(KeyError(LatitudeKey))
    ensures && variant == Guarded
            && LongitudeKey in flight && LatitudeKey in flight && LongitudeKey in prior && LatitudeKey in prior
            && flight[LongitudeKey] == prior[LongitudeKey] && flight[LatitudeKey] == prior[LatitudeKey]
            ==> r == if RotationKey in prior then Ok(prior[RotationKey]) else Err(KeyError(RotationKey))
    ensures && LongitudeKey in flight && LatitudeKey in flight && LongitudeKey in prior && LatitudeKey in prior
            && !(variant == Guarded && flight[LongitudeKey] == prior[LongitudeKey]
                 && flight[LatitudeKey] == prior[LatitudeKey])
            ==> r == RecomputedAngle(azimuth, flight[LongitudeKey], flight[LatitudeKey],
                                     prior[LongitudeKey], prior[LatitudeKey])
    ensures && LongitudeKey in flight && LatitudeKey in flight && LongitudeKey in prior && LatitudeKey in prior
            && !(variant == Guarded && flight[LongitudeKey] == prior[LongitudeKey]
                 && flight[LatitudeKey] == prior[LatitudeKey])
            && !(HasPosition(flight) && HasPosition(prior))
            ==> r == Err(TypeError)
    ensures HasPosition(flight) && HasPosition(prior) && (variant == Unguarded || !SamePosition(flight, prior))
            ==> r == Ok(Num(BearingBetween(azimuth, flight, prior)))
  {
    var longitude :- Get(flight, LongitudeKey);
    var latitude :- Get(flight, LatitudeKey);
    var previousLongitude :- Get(prior, LongitudeKey);
    var previousLatitude :- Get(prior, LatitudeKey);
    if variant == Guarded && longitude == previousLongitude && latitude == previousLatitude then
      Get(prior, RotationKey)
    else
      RecomputedAngle(azimuth, longitude, latitude, previousLongitude, previousLatitude)
  }

  /** bearing_from_positions on dictionary values; math.radians raises
      TypeError on a value that is not a number. */
  function RecomputedAngle(azimuth: Azimuth, longitude: Value, latitude: Value,
                           previousLongitude: Value, previousLatitude: Value): (r: Result<Value>)
    ensures r.Ok? <==> previousLatitude.Num? && previousLongitude.Num? && latitude.Num? && longitude.Num?
    ensures r.Err? ==> r.error == TypeError
    ensures r.Ok? ==> r.value.Num? && 0.0 <= r.value.n < 360.0
    ensures r.Ok? ==> r.value.n == BearingFromPositions(azimuth, longitude.n, latitude.n,
                                                        previousLongitude.n, previousLatitude.n)
  {
    var previousLat :- Number(previousLatitude);
    var previousLon :- Number(previousLongitude);
    var lat :- Number(latitude);
    var lon :- Number(longitude);
    Ok(Num(BearingFromPositions(azimuth, lon, lat, previousLon, previousLat)))
  }

  /** The outcome of one call: the flights afterwards and the exception
      that stopped the loop, if any. */
  datatype Tick = Tick(flights: seq<Flight>, failure: Option<Error>)

  /** The effect of update_rotation_angles on the list of current flights:
      flights are updated front to back; an exception stops the loop and
      leaves the flights already visited updated and the rest untouched. */
  function Enrich(current: seq<Flight>, previous: seq<Flight>, azimuth: Azimuth,
                  variant: Variant): (t: Tick)
    ensures |t.flights| == |current|
    decreases |current|
  {
    if current == [] then Tick([], None)
    else match RotationAngle(current[0], previous, azimuth, variant)
      case Err(e) => Tick(current, Some(e))
      case Ok(angle) =>
        var rest := Enrich(current[1..], previous, azimuth, variant);
        Tick([current[0][RotationKey := angle]] + rest.flights, rest.failure)
  }

  /** One step of Enrich. */
  lemma EnrichUnfold(current: seq<Flight>, previous: seq<Flight>, azimuth: Azimuth, variant: Variant)
    requires current != []
    ensures var r := RotationAngle(current[0], previous, azimuth, variant);
            var rest := Enrich(current[1..], previous, azimuth, variant);
            Enrich(current, previous, azimuth, variant)
            == if r.Err? then Tick(current, Some(r.error))
               else Tick([current[0][RotationKey := r.value]] + rest.flights, rest.failure)
  {
  }

  /** Enrich of the suffix starting at flight i, one step unfolded. */
  lemma EnrichFrom(current: seq<Flight>, previous: seq<Flight>, azimuth: Azimuth,
                   variant: Variant, i: nat)
    requires i < |current|
    ensures var r := RotationAngle(current[i], previous, azimuth, variant);
            var rest := Enrich(current[i + 1..], previous, azimuth, variant);
            Enrich(current[i..], previous, azimuth, variant)
            == if r.Err? then Tick(current[i..], Some(r.error))
               else Tick([current[i][RotationKey := r.value]] + rest.flights, rest.failure)
  {
    var suffix := current[i..];
    assert suffix[0] == current[i] && suffix[1..] == current[i + 1..];
    EnrichUnfold(suffix, previous, azimuth, variant);
  }

  /** The loop reached flight i: no flight before it raised. */
  predicate Reached(current: seq<Flight>, previous: seq<Flight>, azimuth: Azimuth,
                    variant: Variant, i: nat)
    requires i <= |current|
  {
    forall j :: 0 <= j < i ==> RotationAngle(current[j], previous, azimuth, variant).Ok?
  }

  /** Every previous entry has an identifier. */
  predicate AllIdentified(previous: seq<Flight>) {
    forall j :: 0 <= j < |previous| ==> IdKey in previous[j]
  }

  /** previous[k] is the first previous entry whose identifier is id. */
  predicate IsFirstMatch(previous: seq<Flight>, id: Value, k: nat) {
    && AllIdentified(previous)
    && k < |previous|
    && previous[k][IdKey] == id
    && forall j :: 0 <= j < k ==> previous[j][IdKey] != id
  }

  /** The flight has numeric coordinates. */
  predicate HasPosition(flight: Flight) {
    && LongitudeKey in flight && flight[LongitudeKey].Num?
    && LatitudeKey in flight && flight[LatitudeKey].Num?
  }

  /** Same longitude and same latitude. */
  predicate SamePosition(flight: Flight, prior: Flight)
    requires HasPosition(flight) && HasPosition(prior)
  {
    flight[LongitudeKey] == prior[LongitudeKey] && flight[LatitudeKey] == prior[LatitudeKey]
  }

  /** The bearing from the position of prior to that of flight. */
  function BearingBetween(azimuth: Azimuth, flight: Flight, prior: Flight): real
    requires HasPosition(flight) && HasPosition(prior)
  {
    BearingFromPositions(azimuth, flight[LongitudeKey].n, flight[LatitudeKey].n,
                         prior[LongitudeKey].n, prior[LatitudeKey].n)
  }

  /** A flight that has a matched, unmoved counterpart (the case the two
      variants treat differently). */
  predicate StationaryMatch(flight: Flight, previous: seq<Flight>) {
    && IdKey in flight
    && AllIdentified(previous)
    && var m := FirstMatch(previous, flight[IdKey]);
       && m.Some?
       && LongitudeKey in flight && LatitudeKey in flight
       && LongitudeKey in previous[m.value] && LatitudeKey in previous[m.value]
       && flight[LongitudeKey] == previous[m.value][LongitudeKey]
       && flight[LatitudeKey] == previous[m.value][LatitudeKey]
  }

  /** Rotation angles that are numbers in [0, 360) wherever present. */
  predicate HeadingsNormalised(flights: seq<Flight>) {
    forall i :: 0 <= i < |flights| && RotationKey in flights[i] ==>
      flights[i][RotationKey].Num? && 0.0 <= flights[i][RotationKey].n < 360.0
  }

  /** Flight i after the call: when the loop got past it, it is the old
      dictionary with the computed rotation_angle added; otherwise it is the
      old dictionary. */
  lemma {:induction false} EnrichAt(current: seq<Flight>, previous: seq<Flight>,
                                    azimuth: Azimuth, variant: Variant, i: nat)
    requires i < |current|
    ensures var f := Enrich(current, previous, azimuth, variant).flights[i];
            var r := RotationAngle(current[i], previous, azimuth, variant);
            if Reached(current, previous, azimuth, variant, i) && r.Ok?
            then f == current[i][RotationKey := r.value]
            else f == current[i]
  {
    var r0 := RotationAngle(current[0], previous, azimuth, variant);
    if i > 0 && r0.Ok? {
      EnrichAt(current[1..], previous, azimuth, variant, i - 1);
      assert current[1..][i - 1] == current[i];
      if Reached(current, previous, azimuth, variant, i) {
        forall j | 0 <= j < i - 1
          ensures RotationAngle(current[1..][j], previous, azimuth, variant).Ok?
        {
          assert current[1..][j] == current[j + 1];
        }
      } else {
        var j :| 0 <= j < i && RotationAngle(current[j], previous, azimuth, variant).Err?;
        assert j != 0;
        assert current[1..][j - 1] == current[j];
      }
    }
  }

  /** The call raises exactly when some flight's angle raises, and then it
      raises the exception of the first such flight. */
  lemma {:induction false} FailureIsFirstError(current: seq<Flight>, previous: seq<Flight>,
                                               azimuth: Azimuth, variant: Variant)
    ensures var t := Enrich(current, previous, azimuth, variant);
            t.failure.None? <==> Reached(current, previous, azimuth, variant, |current|)
    ensures var t := Enrich(current, previous, azimuth, variant);
            t.failure.Some? ==>
              exists k :: 0 <= k < |current| && Reached(current, previous, azimuth, variant, k)
                          && RotationAngle(current[k], previous, azimuth, variant) == Err(t.failure.value)
    decreases |current|
  {
    if current != [] {
      var r0 := RotationAngle(current[0], previous, azimuth, variant);
      var tail := current[1..];
      FailureIsFirstError(tail, previous, azimuth, variant);
      forall j | 0 <= j < |tail| ensures tail[j] == current[j + 1] { }
      if r0.Ok? {
        var t := Enrich(current, previous, azimuth, variant);
        if Reached(tail, previous, azimuth, variant, |tail|) {
          assert Reached(current, previous, azimuth, variant, |current|) by {
            forall j | 0 <= j < |current|
              ensures RotationAngle(current[j], previous, azimuth, variant).Ok?
            {
              if j > 0 { assert current[j] == tail[j - 1]; }
            }
          }
        } else {
          var k :| 0 <= k < |tail| && Reached(tail, previous, azimuth, variant, k)
                   && RotationAngle(tail[k], previous, azimuth, variant) == Err(t.failure.value);
          assert RotationAngle(current[k + 1], previous, azimuth, variant) == Err(t.failure.value);
          assert Reached(current, previous, azimuth, variant, k + 1) by {
            forall j | 0 <= j < k + 1
              ensures RotationAngle(current[j], previous, azimuth, variant).Ok?
            {
              if j > 0 { assert current[j] == tail[j - 1]; }
            }
          }
          assert !RotationAngle(current[k + 1], previous, azimuth, variant).Ok?;
        }
      } else {
        assert Reached(current, previous, azimuth, variant, 0);
      }
    }
  }

  /** Every flight keeps its keys and their values (identifier, coordinates,
      passengers), apart from rotation_angle; after a call that did not
      raise, every flight has a rotation_angle. */
  lemma {:induction false} OnlyRotationAngleChanges(current: seq<Flight>, previous: seq<Flight>,
                                                    azimuth: Azimuth, variant: Variant, i: nat)
    requires i < |current|
    ensures var f := Enrich(current, previous, azimuth, variant).flights[i];
            forall key :: key != RotationKey ==>
              (key in f <==> key in current[i]) && (key in f ==> f[key] == current[i][key])
    ensures Enrich(current, previous, azimuth, variant).failure.None? ==>
            RotationKey in Enrich(current, previous, azimuth, variant).flights[i]
  {
    EnrichAt(current, previous, azimuth, variant, i);
    FailureIsFirstError(current, previous, azimuth, variant);
  }

  /** A flight whose identifier is absent from the previous poll gets 0. */
  lemma {:induction false} NewFlightGetsZero(current: seq<Flight>, previous: seq<Flight>,
                                             azimuth: Azimuth, variant: Variant, i: nat)
    requires i < |current| && Reached(current, previous, azimuth, variant, i)
    requires IdKey in current[i] && AllIdentified(previous)
    requires forall j :: 0 <= j < |previous| ==> previous[j][IdKey] != current[i][IdKey]
    ensures var f := Enrich(current, previous, azimuth, variant).flights[i];
            RotationKey in f && f[RotationKey] == Num(0.0)
  {
    EnrichAt(current, previous, azimuth, variant, i);
  }

  /** Guarded variant: a matched flight at exactly the previous longitude
      and latitude keeps the previous rotation_angle verbatim (the bearing
      is not consulted), or raises KeyError when the previous entry has
      none. The match is the first previous entry with the same id. */
  lemma {:induction false} StationaryFlightKeepsAngle(current: seq<Flight>, previous: seq<Flight>,
                                                      azimuth: Azimuth, i: nat, k: nat)
    requires i < |current| && Reached(current, previous, azimuth, Guarded, i)
    requires IdKey in current[i] && IsFirstMatch(previous, current[i][IdKey], k)
    requires LongitudeKey in current[i] && LatitudeKey in current[i]
    requires LongitudeKey in previous[k] && LatitudeKey in previous[k]
    requires current[i][LongitudeKey] == previous[k][LongitudeKey]
    requires current[i][LatitudeKey] == previous[k][LatitudeKey]
    ensures var f := Enrich(current, previous, azimuth, Guarded).flights[i];
            RotationKey in previous[k] ==> RotationKey in f && f[RotationKey] == previous[k][RotationKey]
    ensures var t := Enrich(current, previous, azimuth, Guarded);
            RotationKey !in previous[k] ==> t.failure == Some(KeyError(RotationKey)) && t.flights[i] == current[i]
  {
    var id := current[i][IdKey];
    assert PreviousIds(previous).value[k] == id;
    assert FirstMatch(previous, id) == Some(k);
    EnrichAt(current, previous, azimuth, Guarded, i);
    if RotationKey !in previous[k] {
      FailureIsFirstError(current, previous, azimuth, Guarded);
      var t := Enrich(current, previous, azimuth, Guarded);
      assert RotationAngle(current[i], previous, azimuth, Guarded) == Err(KeyError(RotationKey));
      assert !Reached(current, previous, azimuth, Guarded, |current|);
      var k' :| 0 <= k' < |current| && Reached(current, previous, azimuth, Guarded, k')
                && RotationAngle(current[k'], previous, azimuth, Guarded) == Err(t.failure.value);
      assert k' == i;
    }
  }

  /** A matched flight whose bearing is recomputed (always in the unguarded
      variant, only when it moved in the guarded one) gets the bearing from
      its previous position to its current one, current coordinates first
      in the call. */
  lemma {:induction false} MovedFlightGetsBearing(current: seq<Flight>, previous: seq<Flight>,
                                                  azimuth: Azimuth, variant: Variant, i: nat, k: nat)
    requires i < |current| && Reached(current, previous, azimuth, variant, i)
    requires IdKey in current[i] && IsFirstMatch(previous, current[i][IdKey], k)
    requires HasPosition(current[i]) && HasPosition(previous[k])
    requires variant == Unguarded || !SamePosition(current[i], previous[k])
    ensures var f := Enrich(current, previous, azimuth, variant).flights[i];
            RotationKey in f && f[RotationKey] == Num(BearingBetween(azimuth, current[i], previous[k]))
  {
    var id := current[i][IdKey];
    assert PreviousIds(previous).value[k] == id;
    assert FirstMatch(previous, id) == Some(k);
    EnrichAt(current, previous, azimuth, variant, i);
  }

  /** Unguarded variant, as written: a matched flight that did not move is
      sent through the bearing formula, whose degenerate case (identical
      points, atan2(0, 0) = 0) resets its heading to 0 whatever it was. */
  lemma {:induction false} UnguardedResetsStationaryHeading(current: seq<Flight>, previous: seq<Flight>,
                                                            azimuth: Azimuth, i: nat, k: nat)
    requires i < |current| && Reached(current, previous, azimuth, Unguarded, i)
    requires IdKey in current[i] && IsFirstMatch(previous, current[i][IdKey], k)
    requires HasPosition(current[i]) && HasPosition(previous[k]) && SamePosition(current[i], previous[k])
    requires azimuth(previous[k][LatitudeKey].n, previous[k][LongitudeKey].n,
                     previous[k][LatitudeKey].n, previous[k][LongitudeKey].n) == 0.0
    ensures var f := Enrich(current, previous, azimuth, Unguarded).flights[i];
            RotationKey in f && f[RotationKey] == Num(0.0)
  {
    MovedFlightGetsBearing(current, previous, azimuth, Unguarded, i, k);
  }

  /** Flight "X" seen at (50, 10) in both polls, its previous angle 120: the
      guarded variant keeps 120, the unguarded one replaces it with the
      formula's degenerate bearing for identical points. */
  lemma StationaryFlightExample(azimuth: Azimuth)
    requires azimuth(50.0, 10.0, 50.0, 10.0) == 0.0
    ensures var prior := map[IdKey := Str("X"), LatitudeKey := Num(50.0), LongitudeKey := Num(10.0),
                             RotationKey := Num(120.0)];
            var now := map[IdKey := Str("X"), LatitudeKey := Num(50.0), LongitudeKey := Num(10.0)];
            && Enrich([now], [prior], azimuth, Guarded) == Tick([now[RotationKey := Num(120.0)]], None)
            && Enrich([now], [prior], azimuth, Unguarded) == Tick([now[RotationKey := Num(0.0)]], None)
  {
  }

  /** The two variants agree on every poll in which no flight sits still at
      its matched previous position. */
  lemma {:induction false} VariantsAgreeWithoutStationaryFlights(current: seq<Flight>, previous: seq<Flight>,
                                                                 azimuth: Azimuth)
    requires forall i :: 0 <= i < |current| ==> !StationaryMatch(current[i], previous)
    ensures Enrich(current, previous, azimuth, Guarded) == Enrich(current, previous, azimuth, Unguarded)
    decreases |current|
  {
    if current != [] {
      assert RotationAngle(current[0], previous, azimuth, Guarded)
          == RotationAngle(current[0], previous, azimuth, Unguarded);
      forall i | 0 <= i < |current[1..]| ensures !StationaryMatch(current[1..][i], previous) {
        assert current[1..][i] == current[i + 1];
      }
      VariantsAgreeWithoutStationaryFlights(current[1..], previous, azimuth);
    }
  }

  /** Every angle the loop computes is 0, a bearing, or an angle carried
      from the previous poll; so it is a number in [0, 360) when the
      previous poll's angles are. */
  lemma AngleNormalised(flight: Flight, previous: seq<Flight>, azimuth: Azimuth, variant: Variant)
    requires HeadingsNormalised(previous)
    ensures var r := RotationAngle(flight, previous, azimuth, variant);
            r.Ok? ==> r.value.Num? && 0.0 <= r.value.n < 360.0
  {
    var r := RotationAngle(flight, previous, azimuth, variant);
    if r.Ok? && IdKey in flight {
      var ids := PreviousIds(previous).value;
      if flight[IdKey] in ids {
        var m := FirstMatch(previous, flight[IdKey]);
        assert m.Some?;
        assert RotationKey in previous[m.value] ==> previous[m.value][RotationKey].Num?;
      }
    }
  }

  /** The headings invariant: if every rotation_angle in
      both polls is a number in [0, 360), the same holds after the call. */
  lemma {:induction false} TickKeepsHeadingsNormalised(current: seq<Flight>, previous: seq<Flight>,
                                                       azimuth: Azimuth, variant: Variant)
    requires HeadingsNormalised(current) && HeadingsNormalised(previous)
    ensures HeadingsNormalised(Enrich(current, previous, azimuth, variant).flights)
  {
    var after: seq<Flight> := Enrich(current, previous, azimuth, variant).flights;
    forall i | 0 <= i < |after| && RotationKey in after[i]
      ensures after[i][RotationKey].Num? && 0.0 <= after[i][RotationKey].n < 360.0
    {
      EnrichAt(current, previous, azimuth, variant, i);
      AngleNormalised(current[i], previous, azimuth, variant);
    }
  }

  /** The loop invariant of UpdateRotationAngles: after i flights, `done`
      agrees with the outcome on the first i flights and is untouched from
      flight i on, and the remaining outcome is that of the suffix. */
  predicate Progress(original: seq<Flight>, previous: seq<Flight>, azimuth: Azimuth,
                     variant: Variant, done: seq<Flight>, i: nat)
  {
    && i <= |original| == |done|
    && done[i..] == original[i..]
    && var outcome := Enrich(original, previous, azimuth, variant);
       && done[..i] == outcome.flights[..i]
       && Enrich(original[i..], previous, azimuth, variant) == Tick(outcome.flights[i..], outcome.failure)
  }

  lemma ProgressStart(original: seq<Flight>, previous: seq<Flight>, azimuth: Azimuth, variant: Variant)
    ensures Progress(original, previous, azimuth, variant, original, 0)
  {
    assert original[0..] == original;
  }

  /** One iteration: either flight i is updated and the invariant holds for
      i + 1, or the iteration raises and the list is already the outcome. */
  lemma ProgressStep(original: seq<Flight>, previous: seq<Flight>, azimuth: Azimuth,
                     variant: Variant, done: seq<Flight>, i: nat)
    requires Progress(original, previous, azimuth, variant, done, i) && i < |original|
    ensures done[i] == original[i]
    ensures var r := RotationAngle(original[i], previous, azimuth, variant);
            var outcome := Enrich(original, previous, azimuth, variant);
            && (r.Ok? ==> Progress(original, previous, azimuth, variant,
                                   done[i := done[i][RotationKey := r.value]], i + 1))
            && (r.Err? ==> done == outcome.flights && outcome.failure == Some(r.error))
  {
    assert done[i] == done[i..][0];
    EnrichFrom(original, previous, azimuth, variant, i);
    var r := RotationAngle(original[i], previous, azimuth, variant);
    if r.Err? {
      ProgressRaised(original, previous, azimuth, variant, done, i, r.error);
    } else {
      ProgressUpdated(original, previous, azimuth, variant, done, i, r.value);
    }
  }

  /** The iteration at i raised: the list as it stands is the outcome. */
  lemma ProgressRaised(original: seq<Flight>, previous: seq<Flight>, azimuth: Azimuth,
                       variant: Variant, done: seq<Flight>, i: nat, e: Error)
    requires Progress(original, previous, azimuth, variant, done, i) && i < |original|
    requires Enrich(original[i..], previous, azimuth, variant) == Tick(original[i..], Some(e))
    ensures var outcome := Enrich(original, previous, azimuth, variant);
            done == outcome.flights && outcome.failure == Some(e)
  {
    var outcome := Enrich(original, previous, azimuth, variant);
    assert done == done[..i] + done[i..];
    assert outcome.flights == outcome.flights[..i] + outcome.flights[i..];
  }

  /** The iteration at i computed angle: storing it advances the invariant. */
  lemma ProgressUpdated(original: seq<Flight>, previous: seq<Flight>, azimuth: Azimuth,
                        variant: Variant, done: seq<Flight>, i: nat, angle: Value)
    requires Progress(original, previous, azimuth, variant, done, i) && i < |original|
    requires var rest := Enrich(original[i + 1..], previous, azimuth, variant);
             Enrich(original[i..], previous, azimuth, variant)
             == Tick([original[i][RotationKey := angle]] + rest.flights, rest.failure)
    ensures Progress(original, previous, azimuth, variant, done[i := done[i][RotationKey := angle]], i + 1)
  {
    var outcome := Enrich(original, previous, azimuth, variant);
    var next := done[i := done[i][RotationKey := angle]];
    assert done[i] == done[i..][0];
    assert next[i + 1..] == done[i + 1..];
    assert outcome.flights[i + 1..] == outcome.flights[i..][1..];
    assert next[..i + 1] == done[..i] + [next[i]];
    assert outcome.flights[..i + 1] == outcome.flights[..i] + [outcome.flights[i]];
  }

  lemma ProgressEnd(original: seq<Flight>, previous: seq<Flight>, azimuth: Azimuth,
                    variant: Variant, done: seq<Flight>)
    requires Progress(original, previous, azimuth, variant, done, |original|)
    ensures done == Enrich(original, previous, azimuth, variant).flights
    ensures Enrich(original, previous, azimuth, variant).failure.None?
  {
    assert original[|original|..] == [];
    assert done == done[..|original|];
  }

  /** The list of flights of one poll, updated in place. */
  class Snapshot {
    var flights: seq<Flight>

    constructor (flights: seq<Flight>)
      ensures this.flights == flights
    {
      this.flights := flights;
    }

    /** update_rotation_angles(data, previous_data), data being this
        snapshot. The previous poll is read and never written. */
    method UpdateRotationAngles(previous: Snapshot, azimuth: Azimuth, variant: Variant)
      returns (failure: Option<Error>)
      requires previous != this
      modifies this
      ensures previous.flights == old(previous.flights)
      ensures flights == Enrich(old(flights), previous.flights, azimuth, variant).flights
      ensures failure == Enrich(old(flights), previous.flights, azimuth, variant).failure
    {
      ghost var original := flights;
      var prior := previous.flights;
      var i := 0;
      ProgressStart(original, prior, azimuth, variant);
      while i < |flights|
        invariant Progress(original, prior, azimuth, variant, flights, i)
        decreases |original| - i
      {
        ProgressStep(original, prior, azimuth, variant, flights, i);
        var angle := RotationAngle(flights[i], prior, azimuth, variant);
        if angle.Err? {
          return Some(angle.error);
        }
        flights := flights[i := flights[i][RotationKey := angle.value]];
        i := i + 1;
      }
      ProgressEnd(original, prior, azimuth, variant, flights);
      return None;
    }

    /** The caller's tick: with no previous poll (None, the first tick
        after a page load) every flight gets rotation_angle 0; otherwise
        update_rotation_angles runs. */
    method AddRotationAngles(previous: Snapshot?, azimuth: Azimuth, variant: Variant)
      returns (failure: Option<Error>)
      requires previous != this
      modifies this
      ensures previous != null ==> previous.flights == old(previous.flights)
      ensures previous == null ==> failure.None? && |flights| == |old(flights)|
      ensures previous == null ==>
              forall i :: 0 <= i < |flights| ==> flights[i] == old(flights)[i][RotationKey := Num(0.0)]
      ensures previous != null ==>
              flights == Enrich(old(flights), previous.flights, azimuth, variant).flights
              && failure == Enrich(old(flights), previous.flights, azimuth, variant).failure
    {
      if previous == null {
        ghost var original := flights;
        var i := 0;
        while i < |flights|
          invariant 0 <= i <= |flights| == |original|
          invariant forall j :: 0 <= j < i ==> flights[j] == original[j][RotationKey := Num(0.0)]
          invariant forall j :: i <= j < |flights| ==> flights[j] == original[j]
        {
          flights := flights[i := flights[i][RotationKey := Num(0.0)]];
          i := i + 1;
        }
        failure := None;
      } else {
        failure := UpdateRotationAngles(previous, azimuth, variant);
      }
    }
  }
}
