/**
 * Flight records as the tracker sees them: a flight is a dictionary from
 * key names to values, and the Python exceptions the tracker can raise are
 * values of `Error`.
 */
module Records {

  /** A dictionary value. Coordinates and angles are numbers; the other keys
      (airports, ground speed, ...) are passengers the tracker never reads. */
  datatype Value = Num(n: real) | Str(s: string) | Null

  /** One flight: a dictionary with at least "id", "latitude" and
      "longitude", and after a tick also "rotation_angle". */
  type Flight = map<string, Value>

  const IdKey := "id"
  const LatitudeKey := "latitude"
  const LongitudeKey := "longitude"
  const RotationKey := "rotation_angle"

  /** The exceptions the modelled code can raise. */
  datatype Error =
    | KeyError(key: string)      // a dictionary lookup of a missing key
    | TypeError                  // a non-number handed to the bearing arithmetic
    | ValueError(message: string)

  datatype Option<+T> = None | Some(value: T)

  datatype Result<+T> = Ok(value: T) | Err(error: Error) {
    predicate IsFailure() { Err? }

    function PropagateFailure<U>(): Result<U>
      requires Err?
    {
      Err(error)
    }

    function Extract(): T
      requires Ok?
    {
      value
    }
  }

  /** `flight[key]`: the value, or the KeyError Python raises. */
  function Get(flight: Flight, key: string): (r: Result<Value>)
    ensures r.Ok? <==> key in flight
    ensures r.Ok? ==> r.value == flight[key]
    ensures r.Err? ==> r.error == KeyError(key)
  {
    if key in flight then Ok(flight[key]) else Err(KeyError(key))
  }
}
