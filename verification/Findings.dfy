/** How sure a finding is. Its text, evidence and technique list are not modelled. */
module Findings {
  datatype Confidence = Low | Medium | High
}
