/** The stream settings both ends agree on.  The hardware latency in nanoseconds is a float
    expression in the source and is a given number here. */
module Settings {
  import opened Bytes

  datatype StreamSettings = StreamSettings(
    sampleRate: u32, bitDepth: u32, channels: u32, dataLen: nat, framesPerPdu: nat,
    maxTransitMs: u32, hwLatencyNs: u64)
}
