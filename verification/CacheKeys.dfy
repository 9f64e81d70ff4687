/** The key under which one chunk of KV cache is stored. */
module CacheKeys {
  datatype CacheEngineKey = CacheEngineKey(
    fmt: string, modelName: string, worldSize: int, workerId: int, chunkHash: string)
}
