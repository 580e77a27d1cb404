/** What every component knows about jobs. */
module Jobs {
  type JobId = int

  datatype JobState = Scheduled | Available | Running | Completed | Retryable | Failed | Cancelled | WaitingExternal
}
