/** How far apart two dates of one fixture may lie and still be taken for the same match. */
module Windows {
  /** In days. */
  const WINDOW := 2

  /** Different dates, at most WINDOW days apart. */
  predicate NearDates(a: int, b: int) { a != b && -WINDOW <= a - b <= WINDOW }
}
