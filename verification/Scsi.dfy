/** What the SCSI handlers share: sense data. */
module Scsi {
  datatype Sense = NoSense | Sense(key: nat, asc: nat, ascq: nat)

  const ILLEGAL_REQUEST: nat := 5
  const MEDIUM_ERROR: nat := 3
}
