/**
 * The parts of a CycloneDX cryptography bill of materials that the scanner
 * reads and writes, as values: evidence occurrences, components, the progress
 * messages sent to an observer, and the exceptions that can escape the core.
 */
module CycloneDx {

  datatype Option<T> = None | Some(value: T)

  /** One evidence point of a detected asset: a file location, a line and an offset. */
  datatype Occurrence = Occurrence(location: string, line: int, offset: int)

  /**
   * Reference identity of an opaque cryptoProperties object. The scanner never
   * looks inside it; a copy of a component shares the same reference.
   */
  type CryptoRef = nat

  /**
   * A detected cryptographic asset. `evidence` is None when the component has
   * no Evidence object (or its occurrence list is null); Some(occs) otherwise.
   */
  datatype Component = Component(
    bomRef: string,
    name: string,
    kind: string,
    cryptoProperties: Option<CryptoRef>,
    evidence: Option<seq<Occurrence>>)

  /** A message of the progress protocol. The DETECTION payload is the component itself. */
  datatype ProgressMessage =
    | Label(text: string)
    | Detection(component: Component)

  /** Exceptions that escape an operation of the core. */
  datatype Fault =
    | NullEvidence       // NullPointerException: a component without evidence reaches deduplication
    | IndexOutOfRange    // StringIndexOutOfBoundsException: a location equal to the base path
    | Disconnected       // ClientDisconnected raised by the dispatcher while sending a LABEL

  datatype Outcome<T> = Ok(value: T) | Thrown(fault: Fault)

  /** Every DETECTION in `log` carries a non-empty occurrence list. */
  predicate DetectionsNonEmpty(log: seq<ProgressMessage>)
  {
    forall k :: 0 <= k < |log| && log[k].Detection? ==>
      log[k].component.evidence.Some? && |log[k].component.evidence.value| > 0
  }

  /** No value occurs twice in `s`. */
  predicate Distinct(s: seq<int>)
  {
    forall i, j :: 0 <= i < j < |s| ==> s[i] != s[j]
  }
}
