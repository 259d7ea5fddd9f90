/** The status of a check, as the API, the worker and the overview share it. */
module CheckStatus {
  datatype Status = NEW | UP | GRACE | DOWN | PAUSED
}
