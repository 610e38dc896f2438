/** The cyclic tape moves of the two Go interpreters, which share the same
    expressions: Go's `int` is 64 bits wide and wraps around, and its `%`
    truncates toward zero, so a position can leave the tape when an operand
    is negative or a sum overflows. */
module GoTape {
  import opened Numbers

  /** The tape and position after a command's instructions, and whether a
      `halt` among them stopped the machine. */
  datatype Effect = Effect(tape: seq<int64>, position: int64, halted: bool)

  /** `MOVER`: `(position + value) % len(tape)`. */
  function MoveRight(position: int64, value: int64, length: int): (p: int64)
    requires 0 < length <= INT64_MAX
    ensures -length < p < length
  {
    GoRem(Wrap64(position + value), length) as int64
  }

  /** `MOVEL`: `(position - value % len(tape) + len(tape)) % len(tape)`. */
  function MoveLeft(position: int64, value: int64, length: int): (p: int64)
    requires 0 < length <= INT64_MAX
    ensures -length < p < length
  {
    var back := GoRem(value, length);
    GoRem(Wrap64(Wrap64(position - back) + length), length) as int64
  }

  /** `movel` keeps a position that is on the tape on it, for any operand, as long as
      the tape is short enough for the sums not to wrap around. */
  lemma MoveLeftStaysOnTape(position: int64, value: int64, length: int)
    requires 0 < length && 3 * length <= INT64_MAX
    requires 0 <= position < length
    ensures 0 <= MoveLeft(position, value, length) < length
  {
    var back := GoRem(value, length);
    assert -length < back < length;
    assert Wrap64(position - back) == position - back;
    assert Wrap64(position - back + length) == position - back + length;
  }

  /** `mover` keeps the position on the tape when the sum is non-negative and
      does not wrap around. */
  lemma MoveRightStaysOnTape(position: int64, value: int64, length: int)
    requires 0 < length <= INT64_MAX
    requires 0 <= position + value <= INT64_MAX
    ensures 0 <= MoveRight(position, value, length) < length
  {
  }

  /** A negative operand can take `mover` off the tape: from cell 0, one step
      back gives position -1. */
  lemma MoveRightCanLeaveTape()
    ensures MoveRight(0, -1, 5) == -1
  {
    assert Wrap64(-1) == -1;
  }

  /** A sum past the largest `int` wraps around: one huge step right from
      cell 1 of a three-cell tape lands on position -2. */
  lemma HugeMoveRightLeavesTape()
    ensures MoveRight(1, INT64_MAX as int64, 3) == -2
  {
    assert Wrap64(1 + INT64_MAX) == INT64_MIN;
  }
}
