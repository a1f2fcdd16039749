/**
 The viewer's compiled-in tuning: the factor of one zoom step and the
 escape-time iteration cap, bundled as the settings every render reads.
 */
module Configuration {

  /** Factor by which one zoom step shrinks the viewport. */
  const ZoomFactor: real := 2.0

  /** The escape-time iteration cap of the viewer (an unsigned 32-bit integer). */
  const MaxIterations: nat := 255

  type uint32 = x: int | 0 <= x < 0x1_0000_0000

  /** The viewer's tunable parameters. */
  datatype Settings = Settings(zoom: real, maxIterations: uint32)

  const DefaultSettings: Settings := Settings(ZoomFactor, MaxIterations)
}
