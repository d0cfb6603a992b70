/** Shared vocabulary of the cut engine: time units, the failure-compatible
    Result type that stands for the engine's fail-fast exceptions, and the
    small real-number helpers (max, min, floor, ceil) the engine relies on. */
module Base {

  /** Time in seconds; modelled exactly, without float rounding. */
  type Seconds = real

  /** Signal-to-noise ratio in decibels. */
  type Decibels = real

  /** Tolerance allowed when a truncation ends past the original cut end. */
  const Epsilon: real := 0.00001

  /** A supply of freshly minted ids: the k-th id an operation draws. */
  type IdSource = nat -> string

  datatype Option<T> = None | Some(value: T)

  /** One variant per place where the engine raises. */
  datatype Error =
    | NonPositiveDuration          // truncation would yield duration <= 0
    | ExceedsOriginalEnd           // truncation would end past the cut end (+ Epsilon)
    | FeatureDimMismatch           // overlay of cuts with different num_features
    | OffsetBeyondDuration         // overlay offset greater than the anchor's duration
    | EmptyMixDuration             // max() over the tracks of an empty mix
    | EmptyMixIndex                // tracks[0] of an empty mix
    | EmptyReduce                  // reduce() over an empty sequence
    | ConflictingIds               // union of CutSets sharing an id
    | MissingId(key: string)       // lookup of an absent id
    | UnknownOffsetType(name: string)
    | TooManySplits                // more splits than items
    | DivisionByZero
    | UnexpectedCutType(tag: string)

  datatype Result<T> = Ok(value: T) | Err(error: Error) {
    predicate IsFailure() { Err? }

    function PropagateFailure<U>(): Result<U>
      requires Err?
    {
      Err(error)
    }

    function Extract(): T
      requires Ok?
    {
      value
    }
  }

  function Max(a: real, b: real): (r: real)
    ensures a <= r && b <= r && (r == a || r == b)
  {
    if a >= b then a else b
  }

  function Min(a: real, b: real): (r: real)
    ensures r <= a && r <= b && (r == a || r == b)
  {
    if a <= b then a else b
  }

  function MinInt(a: int, b: int): int { if a <= b then a else b }

  /** Python's math.floor on a real. */
  function Floor(x: real): (r: int)
    ensures r as real <= x < r as real + 1.0
  {
    x.Floor
  }

  /** Python's math.ceil on a real. */
  function Ceil(x: real): (r: int)
    ensures x <= r as real < x + 1.0
  {
    -((-x).Floor)
  }

  lemma MulMonotone(a: real, b: real, s: real)
    requires a <= b && 0.0 < s
    ensures a * s <= b * s
  {
  }

  lemma MulCancel(a: real, b: real, s: real)
    requires a * s == b * s && s != 0.0
    ensures a == b
  {
  }
}
