/** The external value types the cut engine consumes: time spans with their
    overlap and containment predicates, feature references and supervision
    segments. Only the fields the engine reads are kept. */
module Primitives {
  import opened Base

  /** A half-open interval [start, end). */
  datatype TimeSpan = TimeSpan(start: Seconds, end: Seconds)

  /** The two spans share some instant. */
  predicate Overlaps(a: TimeSpan, b: TimeSpan) {
    a.start < b.end && b.start < a.end
  }

  /** `a` fully contains `b`. */
  predicate Overspans(a: TimeSpan, b: TimeSpan) {
    a.start <= b.start && b.end <= a.end
  }

  /** Containment of a non-empty span implies overlap. */
  lemma OverspansImpliesOverlaps(a: TimeSpan, b: TimeSpan)
    requires b.start < b.end
    ensures Overspans(a, b) ==> Overlaps(a, b)
  {
  }

  /** A reference to a region of a recording's feature matrix. */
  datatype Features = Features(
    recordingId: string,
    channelId: int,
    start: Seconds,
    duration: Seconds,
    numFeatures: int)

  function FeaturesEnd(f: Features): Seconds {
    f.start + f.duration
  }

  /** A labelled time interval that a cut carries as a training target. */
  datatype SupervisionSegment = SupervisionSegment(
    id: string,
    recordingId: string,
    start: Seconds,
    duration: Seconds)

  function SegmentSpan(s: SupervisionSegment): TimeSpan {
    TimeSpan(s.start, s.start + s.duration)
  }

  /** A copy of the segment shifted later by `delta` seconds. */
  function WithOffset(s: SupervisionSegment, delta: Seconds): (r: SupervisionSegment)
    ensures SegmentSpan(r) == TimeSpan(SegmentSpan(s).start + delta, SegmentSpan(s).end + delta)
    ensures r.id == s.id && r.recordingId == s.recordingId && r.duration == s.duration
  {
    s.(start := s.start + delta)
  }
}
