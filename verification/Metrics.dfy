/** Qualities and sources shared by the host-resource components of backend/src/monitoring.rs. */
module Metrics {
  import opened Wrappers

  datatype Quality =
    | Observed | Unsupported | ParseFailed | CounterReset | CounterUnreliable
    | InsufficientInterval | PermissionDenied | TimedOut

  datatype RawSource = Output(text: string) | Unavailable(quality: Quality)

  datatype FamilyObservation<T> = FamilyObservation(quality: Quality, value: Option<T>)

  function Without<T>(quality: Quality): FamilyObservation<T> {
    FamilyObservation(quality, None)
  }

  /** A family carries a value exactly when its quality is observed. */
  predicate Consistent<T>(o: FamilyObservation<T>) {
    o.value.Some? <==> o.quality == Observed
  }

  /** What a parser's result becomes; a source that claims to be observed without output counts as a parse failure. */
  function ParseSource<T>(source: RawSource, parsed: Option<T>): (r: FamilyObservation<T>)
    ensures Consistent(r)
    ensures r.quality == Observed <==> source.Output? && parsed.Some?
  {
    match source
    case Output(_) => if parsed.Some? then FamilyObservation(Observed, parsed) else Without(ParseFailed)
    case Unavailable(quality) => Without(if quality == Observed then ParseFailed else quality)
  }

  function FirstUnavailable(a: Quality, b: Quality): Quality {
    if a != Observed then a else if b != Observed then b else ParseFailed
  }

  datatype BootSample = BootSample(bootId: string, uptimeSeconds: real)

  /** Shorter windows give no rate. */
  predicate ValidInterval(dt: real) {
    dt >= 0.5
  }
}
