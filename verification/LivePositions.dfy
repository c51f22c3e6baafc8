/** Where a live fact stands in its connection: the epoch, the frame and the place inside the frame. */
module LivePositions {

  datatype Position = Position(epoch: nat, frame: nat, index: nat)

  const NoPosition := Position(0, 0, 0)

  function CompareLive(a: Position, b: Position): int {
    if a.epoch != b.epoch then if a.epoch < b.epoch then -1 else 1
    else if a.frame != b.frame then if a.frame < b.frame then -1 else 1
    else if a.index < b.index then -1
    else if a.index > b.index then 1
    else 0
  }

  predicate After(a: Position, b: Position) {
    a.epoch > b.epoch || (a.epoch == b.epoch && (a.frame > b.frame || (a.frame == b.frame && a.index > b.index)))
  }

  /** The comparison is the strict order, and it is total. */
  lemma CompareOrders(a: Position, b: Position)
    ensures CompareLive(a, b) > 0 <==> After(a, b)
    ensures CompareLive(a, b) == 0 <==> a == b
    ensures CompareLive(a, b) == -CompareLive(b, a)
  {}
}
