/** Types shared by the ephemeral purger and the ephemeral tracker. */
module EphemeralTypes {

  /** Identifiers are only ever compared for equality. */
  type ConvID = nat

  /** gregor1.Time, in milliseconds. */
  type Time = int

  /** The purge schedule of one conversation. `Eq` in the source compares all four fields. */
  datatype PurgeInfo = PurgeInfo(convID: ConvID, isActive: bool, nextPurgeTime: Time, minUnexplodedID: nat)
}
