/**
 * Values and property bags as the composition layer sees them.
 *
 * The layer never looks inside a value: it only stores values under keys and
 * compares them with `===`. A value is therefore modelled by what `===` can
 * tell apart, and `==` on `Value` stands in for `===`.
 */
module Values {

  datatype Option<+T> = None | Some(value: T)

  datatype Value =
    | Undefined                           // what reading a missing key yields
    | Str(s: string)                      // a string, e.g. attribute text passed through unparsed
    | Host(handle: nat)                   // any other host value (number, object, function), by identity
    | StateSetter(owner: nat, stage: nat) // the setter a withState stage binds for one element instance

  /** A props bag: property name to value. Insertion order plays no part in the layer. */
  type Props = map<string, Value>

  /** Reading `p[key]`: a key the bag does not hold reads as `undefined` (names inherited from `Object.prototype` are outside the model). */
  function Get(p: Props, key: string): Value
  {
    if key in p then p[key] else Undefined
  }
}
