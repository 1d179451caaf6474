/** Which version of an event handler a state machine runs: the program's
    code as written, or the correction of the defect it has (both are
    listed under Findings in the README). */
module Revision {
  datatype Handler = AsWritten | Corrected
}
