/**
 * The stored job mails that the statistics and export routes read, and the
 * shapes of the answers those routes give.
 */
module JobEmails {
  import opened Wrappers

  /**
   * One row of the user's job mails as the routes see it. `receivedAt` is a
   * UTC time in seconds since 1970-01-01; a missing job title is `None`.
   */
  datatype Email = Email(
    id: string,
    companyName: string,
    applicationStatus: string,
    receivedAt: int,
    subject: string,
    jobTitle: Option<string>,
    emailFrom: string)

  /** What a route answers: a value, a redirect, or an HTTP error with its detail. */
  datatype Response<T> =
    | Done(value: T)
    | Redirect(location: string, status: int)
    | Failure(status: int, detail: string)

  const SecondsPerDay: int := 86400

  /** `(later - earlier).days`: whole days, rounded down as a timedelta does. */
  function DaysBetween(later: int, earlier: int): (r: int)
    ensures r * SecondsPerDay <= later - earlier < (r + 1) * SecondsPerDay
  {
    (later - earlier) / SecondsPerDay
  }
}
