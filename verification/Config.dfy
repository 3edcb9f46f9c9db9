/** The tunable parameters of the pipeline, their defaults and their bounds. */
module Configuration {
  import opened Wrappers

  datatype Config = Config(
    maxRawMemoryBytes: int, maxWindow: int,
    readWorkers: int, dataSendWorkers: int,
    dataBatchMaxCount: int, dataBatchMaxBytes: int,
    chunkSize: int, readChanBuf: int)

  const KiB: int := 1024
  const MiB: int := 1024 * KiB
  const GiB: int := 1024 * MiB

  const DEFAULT_CHUNK_SIZE := 16 * MiB
  const MIN_CHUNK_SIZE := 64 * KiB
  const MAX_CHUNK_SIZE := 16 * MiB
  const MIN_MAX_WINDOW := 8
  const MAX_MAX_WINDOW := 4096
  const MIN_READ_WORKERS := 2
  const MIN_DATA_SEND_WORKERS := 1
  const MAX_DATA_SEND_WORKERS := 16
  const MIN_BATCH_COUNT := 4
  const MAX_BATCH_COUNT := 256

  const MAX_GRPC_MESSAGE_SIZE := 20 * MiB

  function Or(x: int, d: int): int { if x == 0 then d else x }

  function SetDefaults(c: Config): (r: Config)
    ensures r.chunkSize != 0 && r.maxWindow != 0 && r.dataBatchMaxBytes != 0
    ensures c.readChanBuf == 0 ==> r.readChanBuf == 2 * r.readWorkers
  {
    var readWorkers := Or(c.readWorkers, 8);
    Config(Or(c.maxRawMemoryBytes, GiB), Or(c.maxWindow, 1024),
           readWorkers, Or(c.dataSendWorkers, 8),
           Or(c.dataBatchMaxCount, 16), Or(c.dataBatchMaxBytes, 16 * MiB),
           Or(c.chunkSize, DEFAULT_CHUNK_SIZE), Or(c.readChanBuf, readWorkers * 2))
  }

  /** A parameter that is set is kept and one that is not gets its default, the channel
      length from the number of readers; doing so again changes nothing. */
  lemma DefaultsFillUnset(c: Config)
    ensures var r := SetDefaults(c);
            && r.chunkSize == (if c.chunkSize != 0 then c.chunkSize else 16777216)
            && r.readWorkers == (if c.readWorkers != 0 then c.readWorkers else 8)
            && r.dataSendWorkers == (if c.dataSendWorkers != 0 then c.dataSendWorkers else 8)
            && r.maxWindow == (if c.maxWindow != 0 then c.maxWindow else 1024)
            && r.maxRawMemoryBytes == (if c.maxRawMemoryBytes != 0 then c.maxRawMemoryBytes else 1073741824)
            && r.dataBatchMaxCount == (if c.dataBatchMaxCount != 0 then c.dataBatchMaxCount else 16)
            && r.dataBatchMaxBytes == (if c.dataBatchMaxBytes != 0 then c.dataBatchMaxBytes else 16777216)
            && r.readChanBuf == (if c.readChanBuf != 0 then c.readChanBuf else 2 * r.readWorkers)
            && SetDefaults(r) == r
  {
  }

  predicate Validate(c: Config) {
    && MIN_CHUNK_SIZE <= c.chunkSize <= MAX_CHUNK_SIZE
    && c.chunkSize <= c.maxRawMemoryBytes
    && MIN_MAX_WINDOW <= c.maxWindow <= MAX_MAX_WINDOW
    && MIN_READ_WORKERS <= c.readWorkers
    && MIN_DATA_SEND_WORKERS <= c.dataSendWorkers <= MAX_DATA_SEND_WORKERS
    && MIN_BATCH_COUNT <= c.dataBatchMaxCount <= MAX_BATCH_COUNT
  }

  lemma ValidatedBounds(c: Config)
    ensures Validate(c) <==>
              && 65536 <= c.chunkSize <= 16777216 && c.chunkSize <= c.maxRawMemoryBytes
              && 8 <= c.maxWindow <= 4096 && 2 <= c.readWorkers && 1 <= c.dataSendWorkers <= 16
              && 4 <= c.dataBatchMaxCount <= 256
  {
  }

  /** What a run needs of its parameters: the validated bounds, and channels that
      can be made (their length is not validated). */
  predicate Usable(c: Config) {
    Validate(c) && 0 < c.readChanBuf
  }

  /** The most payload bytes that one batch can hold. */
  function BatchBytesBound(c: Config): int {
    Max(c.chunkSize, c.dataBatchMaxBytes - 1)
  }

  /** Memory enough for every batch and every reader at once. */
  predicate MemoryIsPlentiful(c: Config) {
    c.maxRawMemoryBytes >= c.dataSendWorkers * BatchBytesBound(c) + c.readWorkers * c.chunkSize
  }

  const UNSET := Config(0, 0, 0, 0, 0, 0, 0, 0)

  /** The parameters of the file-system and of the block-device source. */
  const CEPHFS_CONFIG := SetDefaults(UNSET)
  const RBD_CONFIG := SetDefaults(UNSET.(readWorkers := 16, maxWindow := 256))

  lemma ShippedConfigs()
    ensures CEPHFS_CONFIG == Config(1073741824, 1024, 8, 8, 16, 16777216, 16777216, 16)
    ensures RBD_CONFIG == Config(1073741824, 256, 16, 8, 16, 16777216, 16777216, 32)
  {
  }

  /** Both shipped configurations can be run, have plentiful memory, and leave at
      least 4 MiB of a gRPC message free beside the largest batch. */
  lemma ShippedConfigsAreSound(c: Config)
    requires c == CEPHFS_CONFIG || c == RBD_CONFIG
    ensures Usable(c) && MemoryIsPlentiful(c)
    ensures BatchBytesBound(c) + 4 * MiB <= MAX_GRPC_MESSAGE_SIZE
  {
  }
}
