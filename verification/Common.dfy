/** What several parts of the model share. */
module Common {

  const DEVICE_MAX_COUNT := 16

  /** What an update of a kind adds to a part of the counters: 0 is the context size, 1 the
      module size, 2 the data size; an update of another kind counts in the total only. */
  function OfKind(part: int, kind: int, amount: int): int {
    if kind == part then amount else 0
  }

  datatype Option<+T> = None | Some(value: T)
}
