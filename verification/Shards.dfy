/** The number of shards, from labs/src/shardctrler/common.go. */
module Shards {
  const NShards: nat := 10
}
