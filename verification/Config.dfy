/** Constants of src/config.rs. Points in time and durations count nanoseconds. */
module Config {
  const SECOND: nat := 1_000_000_000
  const REQUEST_EXPIRATION: nat := 30 * SECOND
  const MAX_OUTSTANDING_REQUESTS_PER_PEER: int := 10
  const MAX_REQUESTS_PER_TICK_PER_DOWNLOAD: nat := 100
  const MAX_INCOMING_MESSAGES_PER_TICK_PER_DOWNLOAD: nat := 100
  const BLOCK_SIZE: nat := 16384
  const DOWNLOAD_SPEED_EVALUATION_INTERVAL: nat := 10 * SECOND
}
