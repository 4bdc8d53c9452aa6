/** The batch sizes and the chunk arithmetic of repos/postgres/helpers.go. */
module Batches {
  const EXEC_BATCH_SIZE := 512
  const SELECT_BATCH_SIZE := 4096

  function Min(a: nat, b: nat): nat {
    if a < b then a else b
  }
}
