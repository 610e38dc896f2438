/** The runtime of the Go `sanae` interpreter: a `SanaeMachine` walks the
    states of an `Algorithm`. In each state it looks up the command filed
    under the value of the current cell; with none it goes on to the next
    state, otherwise it runs the command's instructions and jumps to the
    command's next state. The tape is cyclic: moves are taken modulo its
    length, with Go's 64-bit wrap-around and truncating `%`.

    `Perform` and `ExecFrom` say what `Exec` does; a panic of the original
    becomes `Trapped`, and the unbounded loop is given a step budget. */
module SanaeExecutor {
  import opened Wrappers
  import opened Numbers
  import opened SanaeReader
  import opened GoTape

  datatype ExecError =
    | StateIndexOutOfRange(state: int)             // `getState` with a negative index
    | TapeIndexOutOfRange(index: int, length: int) // a tape access off the tape

  datatype Outcome =
    | Finished(tape: seq<int64>)   // the state number left the algorithm
    | Halted(tape: seq<int64>)     // a `halt` instruction ran
    | Trapped(error: ExecError)
    | OutOfFuel

  // ---------------------------------------------------------------------------
  // Specification

  /** The instructions of one command, in order, from the given tape and
      position. */
  function Perform(instructions: seq<Token>, tape: seq<int64>, position: int64): (r: Result<Effect, ExecError>)
    requires 0 < |tape| <= INT64_MAX
    ensures r.Ok? ==> |r.value.tape| == |tape|
    decreases |instructions|
  {
    if instructions == [] then Ok(Effect(tape, position, false))
    else
      var t := instructions[0];
      var rest := instructions[1..];
      match t.kind
      case ERASE =>
        if 0 <= position < |tape| then Perform(rest, tape[position := 0], position)
        else Err(TapeIndexOutOfRange(position, |tape|))
      case WRITE =>
        if 0 <= position < |tape| then Perform(rest, tape[position := t.value], position)
        else Err(TapeIndexOutOfRange(position, |tape|))
      case MOVER => Perform(rest, tape, MoveRight(position, t.value, |tape|))
      case MOVEL => Perform(rest, tape, MoveLeft(position, t.value, |tape|))
      case HALT => Ok(Effect(tape, position, true))
      case _ => Perform(rest, tape, position)
  }

  /** `Exec` from state `current` with at most `fuel` states visited. */
  function ExecFrom(states: seq<map<int64, Command>>, tape: seq<int64>, position: int64, current: int64, fuel: nat): Outcome
    requires |states| <= INT64_MAX && |tape| <= INT64_MAX
    decreases fuel
  {
    if current >= |states| then Finished(tape)
    else if fuel == 0 then OutOfFuel
    else if current < 0 then Trapped(StateIndexOutOfRange(current))
    else if !(0 <= position < |tape|) then Trapped(TapeIndexOutOfRange(position, |tape|))
    else
      var awareness := tape[position];
      if awareness !in states[current] then ExecFrom(states, tape, position, current + 1, fuel - 1)
      else
        var cmd := states[current][awareness];
        var e := Perform(cmd.instructions, tape, position);
        if e.Err? then Trapped(e.error)
        else if e.value.halted then Halted(e.value.tape)
        else ExecFrom(states, e.value.tape, e.value.position, cmd.nextState, fuel - 1)
  }

  // ---------------------------------------------------------------------------
  // What the machine promises

  /** A negative `mover` operand takes the machine off the tape, and the
      next tape access panics. */
  lemma MoveRightOffTapeTraps()
    ensures ExecFrom([map[1 := Command(1, [Token(MOVER, -1), Token(WRITE, 5)], 0)]], [1, 2], 0, 0, 1) ==
            Trapped(TapeIndexOutOfRange(-1, 2))
  {
    assert MoveRight(0, -1, 2) == -1 by {
      assert Wrap64(-1) == -1;
    }
  }

  /** Where control goes from a state: with no command for the cell under
      the head, to the next state with the tape untouched; otherwise, unless
      the command halts or fails, to the command's next state. */
  lemma StateTransition(states: seq<map<int64, Command>>, tape: seq<int64>, position: int64, current: int64, fuel: nat)
    requires |states| <= INT64_MAX && |tape| <= INT64_MAX
    requires 0 <= current < |states| && fuel > 0 && 0 <= position < |tape|
    ensures tape[position] !in states[current] ==>
      ExecFrom(states, tape, position, current, fuel) == ExecFrom(states, tape, position, current + 1, fuel - 1)
    ensures tape[position] in states[current] ==>
      var cmd := states[current][tape[position]];
      var e := Perform(cmd.instructions, tape, position);
      e.Ok? && !e.value.halted ==>
        ExecFrom(states, tape, position, current, fuel) == ExecFrom(states, e.value.tape, e.value.position, cmd.nextState, fuel - 1)
  {
  }

  /** `write` changes the cell under the head and no other. */
  lemma WriteChangesOneCell(v: int64, tape: seq<int64>, position: int64)
    requires 0 < |tape| <= INT64_MAX && 0 <= position < |tape|
    ensures Perform([Token(WRITE, v)], tape, position).Ok?
    ensures var e := Perform([Token(WRITE, v)], tape, position).value;
      && e.position == position && !e.halted && |e.tape| == |tape| && e.tape[position] == v
      && forall j | 0 <= j < |tape| && j != position as int :: e.tape[j] == tape[j]
  {
  }

  /** `erase` sets the cell under the head to 0 and changes no other; off
      the tape it panics. */
  lemma EraseChangesOneCell(tape: seq<int64>, position: int64)
    requires 0 < |tape| <= INT64_MAX
    ensures !(0 <= position < |tape|) ==>
      Perform([Token(ERASE, 0)], tape, position) == Err(TapeIndexOutOfRange(position, |tape|))
    ensures 0 <= position < |tape| ==> Perform([Token(ERASE, 0)], tape, position).Ok?
    ensures 0 <= position < |tape| ==>
      var e := Perform([Token(ERASE, 0)], tape, position).value;
      && e.position == position && !e.halted && |e.tape| == |tape| && e.tape[position] == 0
      && forall j | 0 <= j < |tape| && j != position as int :: e.tape[j] == tape[j]
  {
  }

  /** The tape never grows or shrinks. */
  lemma {:induction false} ExecKeepsTapeLength(states: seq<map<int64, Command>>, tape: seq<int64>, position: int64, current: int64, fuel: nat)
    requires |states| <= INT64_MAX && |tape| <= INT64_MAX
    ensures ExecFrom(states, tape, position, current, fuel).Finished? || ExecFrom(states, tape, position, current, fuel).Halted? ==>
      |ExecFrom(states, tape, position, current, fuel).tape| == |tape|
    decreases fuel
  {
    if 0 <= current < |states| && fuel > 0 && 0 <= position < |tape| {
      var awareness := tape[position];
      if awareness !in states[current] {
        ExecKeepsTapeLength(states, tape, position, current + 1, fuel - 1);
      } else {
        var cmd := states[current][awareness];
        var e := Perform(cmd.instructions, tape, position);
        if e.Ok? && !e.value.halted {
          ExecKeepsTapeLength(states, e.value.tape, e.value.position, cmd.nextState, fuel - 1);
        }
      }
    }
  }

  /** A run that ends within some budget ends the same way with any larger
      one. */
  lemma {:induction false} MoreFuelSameEnd(states: seq<map<int64, Command>>, tape: seq<int64>, position: int64, current: int64, fuel: nat, more: nat)
    requires |states| <= INT64_MAX && |tape| <= INT64_MAX && fuel <= more
    requires !ExecFrom(states, tape, position, current, fuel).OutOfFuel?
    ensures ExecFrom(states, tape, position, current, more) == ExecFrom(states, tape, position, current, fuel)
    decreases fuel
  {
    if 0 <= current < |states| && 0 <= position < |tape| {
      var awareness := tape[position];
      if awareness !in states[current] {
        MoreFuelSameEnd(states, tape, position, current + 1, fuel - 1, more - 1);
      } else {
        var cmd := states[current][awareness];
        var e := Perform(cmd.instructions, tape, position);
        if e.Ok? && !e.value.halted {
          MoreFuelSameEnd(states, e.value.tape, e.value.position, cmd.nextState, fuel - 1, more - 1);
        }
      }
    }
  }

  /** A `halt` stops the machine at once: the instructions after it do not
      run. */
  lemma HaltIgnoresRest(before: seq<Token>, rest: seq<Token>, tape: seq<int64>, position: int64)
    requires 0 < |tape| <= INT64_MAX
    requires Perform(before, tape, position).Ok? && !Perform(before, tape, position).value.halted
    ensures var e := Perform(before, tape, position).value;
      Perform(before + [Token(HALT, 0)] + rest, tape, position) == Ok(Effect(e.tape, e.position, true))
    decreases |before|
  {
    var all := before + [Token(HALT, 0)] + rest;
    if before == [] {
      assert all[0] == Token(HALT, 0);
    } else {
      assert all[0] == before[0];
      assert all[1..] == before[1..] + [Token(HALT, 0)] + rest;
      var t := before[0];
      match t.kind
      case ERASE => HaltIgnoresRest(before[1..], rest, tape[position := 0], position);
      case WRITE => HaltIgnoresRest(before[1..], rest, tape[position := t.value], position);
      case MOVER => HaltIgnoresRest(before[1..], rest, tape, MoveRight(position, t.value, |tape|));
      case MOVEL => HaltIgnoresRest(before[1..], rest, tape, MoveLeft(position, t.value, |tape|));
      case HALT =>
      case _ => HaltIgnoresRest(before[1..], rest, tape, position);
    }
  }

  /** The sample program: in state 0 a cell holding 1 becomes 2 and the
      machine steps right into state 1, where a cell holding 2 becomes 4 and
      the machine halts. */
  lemma SampleProgram()
    ensures
      var first := map[
        1 := Command(1, [Token(WRITE, 2), Token(MOVER, 1)], 1),
        2 := Command(2, [Token(WRITE, 4), Token(MOVER, 1)], 1)];
      var second := map[
        2 := Command(2, [Token(WRITE, 4), Token(HALT, 0)], 0),
        4 := Command(4, [Token(WRITE, 8), Token(HALT, 0)], 0)];
      ExecFrom([first, second], [1, 2, 3, 4, 5, 6, 7], 0, 0, 2) == Halted([2, 4, 3, 4, 5, 6, 7])
  {
    var tape: seq<int64> := [1, 2, 3, 4, 5, 6, 7];
    assert Wrap64(1) == 1;
    assert MoveRight(0, 1, 7) == 1;
    var t1 := tape[0 := 2];
    assert Perform([Token(MOVER, 1)], t1, 0) == Ok(Effect(t1, 1, false));
    assert t1[1 := 4] == [2, 4, 3, 4, 5, 6, 7];
  }

  // ---------------------------------------------------------------------------
  // The machine object

  class SanaeMachine {
    var tape: array<int64>
    var position: int64
    var algorithm: Algorithm

    /** `NewMachine`: the machine shares the caller's tape. */
    constructor (tape: array<int64>, algorithm: Algorithm)
      ensures this.tape == tape && this.algorithm == algorithm && position == 0
    {
      this.tape := tape;
      this.algorithm := algorithm;
      position := 0;
    }

    /** `Exec`. Its receiver is a copy of the machine, so position changes are
        lost when it returns, while writes reach the shared tape. */
    method Exec(fuel: nat) returns (outcome: Outcome)
      requires tape.Length <= INT64_MAX && |algorithm.states| <= INT64_MAX
      modifies tape
      ensures outcome == ExecFrom(algorithm.Contents(), old(tape[..]), position, 0, fuel)
      ensures outcome.Finished? || outcome.Halted? ==> tape[..] == outcome.tape
    {
      ghost var states := algorithm.Contents();
      var currentState: int64 := 0;
      var pos: int64 := position;
      var budget := fuel;
      while currentState < |algorithm.states|
        invariant tape.Length == old(tape.Length)
        invariant ExecFrom(states, old(tape[..]), position, 0, fuel) == ExecFrom(states, tape[..], pos, currentState, budget)
        decreases budget
      {
        if budget == 0 {
          return OutOfFuel;
        }
        var found := algorithm.GetState(currentState);
        if found.None? {
          return Trapped(StateIndexOutOfRange(currentState));
        }
        var state := found.value;
        if !(0 <= pos < tape.Length) {
          return Trapped(TapeIndexOutOfRange(pos, tape.Length));
        }
        var awareness := tape[pos];
        if awareness !in state.commands {
          currentState := currentState + 1;
          budget := budget - 1;
          continue;
        }
        var cmd := state.commands[awareness];
        var effect := RunCommand(cmd.instructions, pos);
        if effect.Err? {
          return Trapped(effect.error);
        }
        if effect.value.halted {
          return Halted(tape[..]);
        }
        pos := effect.value.position;
        currentState := cmd.nextState;
        budget := budget - 1;
      }
      return Finished(tape[..]);
    }
    /** The inner loop of `Exec`: one command's instructions, from position
        `pos`. A failure leaves the writes made before it on the tape. */
    method RunCommand(instructions: seq<Token>, pos: int64) returns (r: Result<Effect, ExecError>)
      requires 0 < tape.Length <= INT64_MAX
      modifies tape
      ensures r == Perform(instructions, old(tape[..]), pos)
      ensures r.Ok? ==> tape[..] == r.value.tape
    {
      var position: int64 := pos;
      var i := 0;
      while i < |instructions|
        invariant 0 <= i <= |instructions|
        invariant tape.Length == old(tape.Length)
        invariant Perform(instructions, old(tape[..]), pos) == Perform(instructions[i..], tape[..], position)
      {
        var instruction := instructions[i];
        assert instructions[i..][0] == instruction && instructions[i..][1..] == instructions[i + 1..];
        match instruction.kind {
          case ERASE =>
            if !(0 <= position < tape.Length) {
              return Err(TapeIndexOutOfRange(position, tape.Length));
            }
            tape[position] := 0;
          case WRITE =>
            if !(0 <= position < tape.Length) {
              return Err(TapeIndexOutOfRange(position, tape.Length));
            }
            tape[position] := instruction.value;
          case MOVER =>
            position := MoveRight(position, instruction.value, tape.Length);
          case MOVEL =>
            position := MoveLeft(position, instruction.value, tape.Length);
          case HALT =>
            return Ok(Effect(tape[..], position, true));
          case _ =>
        }
        i := i + 1;
      }
      assert instructions[i..] == [];
      return Ok(Effect(tape[..], position, false));
    }
  }
}
