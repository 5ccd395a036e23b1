/** The four self-reported inputs of one scoring request and the bounds the
    serving boundary enforces on them before any rule runs. */
module StressRequest {

  /** Days-to-exam value that stands for "no exam scheduled". */
  const NoExam: int := 999

  datatype Request = Request(
    assignments: int,   // count of assignments due
    classHours: real,   // class hours per week
    daysToExam: int,    // days until the next exam, or NoExam
    sleepHours: real)   // average sleep per night

  /** The field bounds of the request schema; requests outside them are
      rejected before the scoring rules see them. */
  predicate ValidRequest(r: Request)
  {
    0 <= r.assignments <= 50 &&
    0.0 <= r.classHours <= 168.0 &&
    0 <= r.daysToExam <= NoExam &&
    0.0 <= r.sleepHours <= 24.0
  }
}
