/** The interval collaborator: a half-open span of instants. */
module Intervals {
  import opened Calendar

  datatype Range = Range(start: Datetime, end: Datetime)

  predicate Contains(r: Range, t: Datetime) {
    r.start <= t < r.end
  }

  /** Range::overlap, for half-open spans: for non-empty spans, the later start precedes the earlier end. */
  function Overlaps(a: Range, b: Range): (r: bool)
    ensures a.start < a.end && b.start < b.end ==> (r <==> Later(a.start, b.start) < Earlier(a.end, b.end))
  {
    a.start < b.end && b.start < a.end
  }

  /** The later of two instants. */
  function Later(x: Datetime, y: Datetime): Datetime {
    if x < y then y else x
  }

  /** The earlier of two instants. */
  function Earlier(x: Datetime, y: Datetime): Datetime {
    if x < y then x else y
  }

  /** Two non-empty spans overlap exactly when some instant lies in both. */
  lemma OverlapsIffSharedInstant(a: Range, b: Range)
    requires a.start < a.end && b.start < b.end
    ensures Overlaps(a, b) <==> exists t :: Contains(a, t) && Contains(b, t)
    ensures Overlaps(a, b) == Overlaps(b, a)
  {
    if Overlaps(a, b) {
      var t := if a.start < b.start then b.start else a.start;
      assert Contains(a, t) && Contains(b, t);
    }
  }
}
