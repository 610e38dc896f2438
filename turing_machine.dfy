/** The runtime of the Go `turingmach` interpreter. `Exec` makes one pass
    over the algorithm: states in order, and each state's commands in order.
    A command runs when its condition equals the current cell at that moment.
    Its instructions write the cell or move cyclically over the tape, and
    `halt` ends the whole run. A command's next state is stored but never
    consulted, so every run ends.

    `RunStates` is what `Exec` does; a panic of the original (a position
    off the tape) becomes an `Err`. */
module TuringMach {
  import opened Wrappers
  import opened Numbers
  import opened GoTape
  import opened TuringLexer

  datatype Command = Command(condition: int64, instructions: seq<Token>, nextState: int64)

  /** `NewState` and `NewAlgorithm` build these from their parts. */
  datatype State = State(commands: seq<Command>)

  datatype Algorithm = Algorithm(states: seq<State>)

  datatype ExecError = TapeIndexOutOfRange(index: int, length: int)

  // ---------------------------------------------------------------------------
  // Specification

  /** One instruction. Tokens without an instruction type do nothing. */
  function Apply(t: Token, tape: seq<int64>, position: int64): (r: Result<Effect, ExecError>)
    requires 0 < |tape| <= INT64_MAX
    ensures r.Err? <==> t.kind in {ERASE, WRITE} && !(0 <= position < |tape|)
    ensures r.Err? ==> r.error == TapeIndexOutOfRange(position, |tape|)
    ensures r.Ok? ==> |r.value.tape| == |tape| && (r.value.halted <==> t.kind == HALT)
    ensures r.Ok? && t.kind in {ERASE, WRITE} ==>
      && r.value.position == position
      && r.value.tape[position] == (if t.kind == WRITE then t.value else 0)
      && forall j | 0 <= j < |tape| && j != position as int :: r.value.tape[j] == tape[j]
    ensures r.Ok? && t.kind !in {ERASE, WRITE} ==> r.value.tape == tape
    ensures r.Ok? && t.kind !in {MOVER, MOVEL} ==> r.value.position == position
  {
    match t.kind
    case ERASE =>
      if 0 <= position < |tape| then Ok(Effect(tape[position := 0], position, false))
      else Err(TapeIndexOutOfRange(position, |tape|))
    case WRITE =>
      if 0 <= position < |tape| then Ok(Effect(tape[position := t.value], position, false))
      else Err(TapeIndexOutOfRange(position, |tape|))
    case MOVER => Ok(Effect(tape, MoveRight(position, t.value, |tape|), false))
    case MOVEL => Ok(Effect(tape, MoveLeft(position, t.value, |tape|), false))
    case HALT => Ok(Effect(tape, position, true))
    case _ => Ok(Effect(tape, position, false))
  }

  /** A command's instructions in order, up to a `halt`. */
  function Perform(instructions: seq<Token>, tape: seq<int64>, position: int64): (r: Result<Effect, ExecError>)
    requires 0 < |tape| <= INT64_MAX
    ensures r.Ok? ==> |r.value.tape| == |tape|
    decreases |instructions|
  {
    if instructions == [] then Ok(Effect(tape, position, false))
    else
      var e := Apply(instructions[0], tape, position);
      if e.Err? || e.value.halted then e
      else Perform(instructions[1..], e.value.tape, e.value.position)
  }

  /** A state's commands in order: each one whose condition equals the cell
      under the head when its turn comes runs. */
  function RunCommands(commands: seq<Command>, tape: seq<int64>, position: int64): (r: Result<Effect, ExecError>)
    requires |tape| <= INT64_MAX
    ensures r.Ok? ==> |r.value.tape| == |tape|
    decreases |commands|
  {
    if commands == [] then Ok(Effect(tape, position, false))
    else if !(0 <= position < |tape|) then Err(TapeIndexOutOfRange(position, |tape|))
    else if commands[0].condition != tape[position] then RunCommands(commands[1..], tape, position)
    else
      var e := Perform(commands[0].instructions, tape, position);
      if e.Err? || e.value.halted then e
      else RunCommands(commands[1..], e.value.tape, e.value.position)
  }

  /** The states after a partial run `e`: stop if it failed or halted. */
  function ThenStates(e: Result<Effect, ExecError>, states: seq<State>): (r: Result<Effect, ExecError>)
    requires e.Ok? ==> |e.value.tape| <= INT64_MAX
    ensures e.Ok? && r.Ok? ==> |r.value.tape| == |e.value.tape|
    decreases |states| + 1, 0
  {
    if e.Err? || e.value.halted then e
    else RunStates(states, e.value.tape, e.value.position)
  }

  /** `Exec`: every state in order, once. */
  function RunStates(states: seq<State>, tape: seq<int64>, position: int64): (r: Result<Effect, ExecError>)
    requires |tape| <= INT64_MAX
    ensures r.Ok? ==> |r.value.tape| == |tape|
    decreases |states|, 1
  {
    if states == [] then Ok(Effect(tape, position, false))
    else ThenStates(RunCommands(states[0].commands, tape, position), states[1..])
  }

  // ---------------------------------------------------------------------------
  // What the machine promises

  /** The operands a lexed command can carry, and a tape short enough that
      no move wraps around. */
  predicate Tame(instructions: seq<Token>, length: int)
  {
    && Lexed(instructions)
    && forall i | 0 <= i < |instructions| :: instructions[i].value <= INT64_MAX - length
  }

  predicate TameStates(states: seq<State>, length: int)
  {
    forall i, j | 0 <= i < |states| && 0 <= j < |states[i].commands| ::
      Tame(states[i].commands[j].instructions, length)
  }

  /** With lexed instructions the head stays on the tape. */
  lemma {:induction false} PerformStaysOnTape(instructions: seq<Token>, tape: seq<int64>, position: int64)
    requires 0 < |tape| && 3 * |tape| <= INT64_MAX && 0 <= position < |tape|
    requires Tame(instructions, |tape|)
    ensures Perform(instructions, tape, position).Ok?
    ensures 0 <= Perform(instructions, tape, position).value.position < |tape|
    decreases |instructions|
  {
    if instructions != [] {
      var t := instructions[0];
      assert t.kind in {ERASE, WRITE, MOVER, MOVEL, HALT};
      if t.kind == MOVER {
        MoveRightStaysOnTape(position, t.value, |tape|);
      } else if t.kind == MOVEL {
        MoveLeftStaysOnTape(position, t.value, |tape|);
      }
      var e := Apply(t, tape, position);
      if !e.value.halted {
        assert Tame(instructions[1..], |tape|) by {
          forall i | 0 <= i < |instructions[1..]| ensures instructions[1..][i] == instructions[i + 1] { }
        }
        PerformStaysOnTape(instructions[1..], e.value.tape, e.value.position);
      }
    }
  }

  lemma {:induction false} RunCommandsStaysOnTape(commands: seq<Command>, tape: seq<int64>, position: int64)
    requires 0 < |tape| && 3 * |tape| <= INT64_MAX && 0 <= position < |tape|
    requires forall j | 0 <= j < |commands| :: Tame(commands[j].instructions, |tape|)
    ensures RunCommands(commands, tape, position).Ok?
    ensures 0 <= RunCommands(commands, tape, position).value.position < |tape|
    decreases |commands|
  {
    if commands != [] {
      if commands[0].condition != tape[position] {
        RunCommandsStaysOnTape(commands[1..], tape, position);
      } else {
        PerformStaysOnTape(commands[0].instructions, tape, position);
        var e := Perform(commands[0].instructions, tape, position);
        if !e.value.halted {
          RunCommandsStaysOnTape(commands[1..], e.value.tape, e.value.position);
        }
      }
    }
  }

  /** A run of lexed commands never leaves the tape: it ends normally or by
      `halt`, with the head on a cell. */
  lemma {:induction false} RunStaysOnTape(states: seq<State>, tape: seq<int64>, position: int64)
    requires 0 < |tape| && 3 * |tape| <= INT64_MAX && 0 <= position < |tape|
    requires TameStates(states, |tape|)
    ensures RunStates(states, tape, position).Ok?
    ensures 0 <= RunStates(states, tape, position).value.position < |tape|
    decreases |states|
  {
    if states != [] {
      RunCommandsStaysOnTape(states[0].commands, tape, position);
      var e := RunCommands(states[0].commands, tape, position);
      if !e.value.halted {
        assert TameStates(states[1..], |tape|) by {
          forall i | 0 <= i < |states[1..]| ensures states[1..][i] == states[i + 1] { }
        }
        RunStaysOnTape(states[1..], e.value.tape, e.value.position);
      }
    }
  }

  /** Without the bound on operands the head can leave the tape: a huge
      lexed `mover` from cell 1 of three cells wraps around to -2, and the
      next command's read of the cell panics. */
  lemma HugeMoveTraps()
    ensures
      var step := Command(0, [Token(MOVER, 1)], 0);
      var huge := Command(0, [Token(MOVER, INT64_MAX as int64)], 0);
      RunStates([State([step, huge, step])], [0, 0, 0], 0) == Err(TapeIndexOutOfRange(-2, 3))
  {
    var step := Command(0, [Token(MOVER, 1)], 0);
    var huge := Command(0, [Token(MOVER, INT64_MAX as int64)], 0);
    var tape: seq<int64> := [0, 0, 0];
    HugeMoveRightLeavesTape();
    assert Wrap64(1) == 1;
    assert MoveRight(0, 1, 3) == 1;
    assert Perform(step.instructions, tape, 0) == Ok(Effect(tape, 1, false));
    assert Perform(huge.instructions, tape, 1) == Ok(Effect(tape, -2, false));
    assert RunCommands([step], tape, -2) == Err(TapeIndexOutOfRange(-2, 3));
    assert RunCommands([huge, step], tape, 1) == Err(TapeIndexOutOfRange(-2, 3));
  }

  /** When no command asks for the symbol under the head, nothing happens. */
  lemma {:induction false} NoMatchNoChange(commands: seq<Command>, tape: seq<int64>, position: int64)
    requires |tape| <= INT64_MAX && 0 <= position < |tape|
    requires forall j | 0 <= j < |commands| :: commands[j].condition != tape[position]
    ensures RunCommands(commands, tape, position) == Ok(Effect(tape, position, false))
    decreases |commands|
  {
    if commands != [] {
      NoMatchNoChange(commands[1..], tape, position);
    }
  }

  /** A `halt` stops the command at once: the instructions after it do not
      run. */
  lemma {:induction false} HaltIgnoresRest(before: seq<Token>, rest: seq<Token>, tape: seq<int64>, position: int64)
    requires 0 < |tape| <= INT64_MAX
    requires Perform(before, tape, position).Ok? && !Perform(before, tape, position).value.halted
    ensures var e := Perform(before, tape, position).value;
      Perform(before + [Token(HALT, 0)] + rest, tape, position) == Ok(Effect(e.tape, e.position, true))
    decreases |before|
  {
    var all := before + [Token(HALT, 0)] + rest;
    if before == [] {
      assert all[0] == Token(HALT, 0);
    } else {
      assert all[0] == before[0];
      assert all[1..] == before[1..] + [Token(HALT, 0)] + rest;
      var e := Apply(before[0], tape, position);
      HaltIgnoresRest(before[1..], rest, e.value.tape, e.value.position);
    }
  }

  /** A halting state ends the run: the states after it do not run. */
  lemma HaltEndsRun(first: State, later: seq<State>, tape: seq<int64>, position: int64)
    requires |tape| <= INT64_MAX
    requires RunCommands(first.commands, tape, position).Ok? && RunCommands(first.commands, tape, position).value.halted
    ensures RunStates([first] + later, tape, position) == RunCommands(first.commands, tape, position)
  {
    assert ([first] + later)[0] == first && ([first] + later)[1..] == later;
  }

  // ---------------------------------------------------------------------------
  // Building commands

  /** `NewCommand`: the instructions are the lexer's tokens for the text. */
  method NewCommand(condition: int64, text: string, nextState: int64) returns (r: Result<Command, LexError>)
    ensures r.Ok? <==> Lex(text).Ok?
    ensures r.Ok? ==> r.value == Command(condition, Lex(text).value, nextState)
    ensures r.Err? ==> r.error == Lex(text).error
    ensures r.Ok? ==> Lexed(r.value.instructions)
  {
    var lexer := new Lexer(text);
    var instructions := lexer.Tokenize();
    LexShape(text);
    match instructions {
      case Err(e) => return Err(e);
      case Ok(ts) => return Ok(Command(condition, ts, nextState));
    }
  }

  // ---------------------------------------------------------------------------
  // The machine object

  class TuringMachine {
    var tape: array<int64>
    var position: int64

    /** `NewMachine`: the machine shares the caller's tape. */
    constructor (tape: array<int64>)
      ensures this.tape == tape && position == 0
    {
      this.tape := tape;
      position := 0;
    }

    /** `Exec`. Its receiver is a copy of the machine, so position changes are
        lost when it returns, while writes reach the shared tape. */
    method Exec(a: Algorithm) returns (r: Result<Effect, ExecError>)
      requires tape.Length <= INT64_MAX
      modifies tape
      ensures r == RunStates(a.states, old(tape[..]), position)
      ensures r.Ok? ==> tape[..] == r.value.tape
    {
      var pos: int64 := position;
      var i := 0;
      while i < |a.states|
        invariant 0 <= i <= |a.states|
        invariant tape.Length == old(tape.Length)
        invariant RunStates(a.states, old(tape[..]), position) == RunStates(a.states[i..], tape[..], pos)
      {
        assert a.states[i..][0] == a.states[i] && a.states[i..][1..] == a.states[i + 1..];
        var commands := a.states[i].commands;
        var j := 0;
        while j < |commands|
          invariant 0 <= j <= |commands|
          invariant tape.Length == old(tape.Length)
          invariant RunStates(a.states, old(tape[..]), position) ==
            ThenStates(RunCommands(commands[j..], tape[..], pos), a.states[i + 1..])
        {
          assert commands[j..][0] == commands[j] && commands[j..][1..] == commands[j + 1..];
          if !(0 <= pos < tape.Length) {
            return Err(TapeIndexOutOfRange(pos, tape.Length));
          }
          var awareness := tape[pos];
          if commands[j].condition == awareness {
            var e := RunInstructions(commands[j].instructions, pos);
            if e.Err? || e.value.halted {
              return e;
            }
            pos := e.value.position;
          }
          j := j + 1;
        }
        assert commands[j..] == [];
        i := i + 1;
      }
      assert a.states[i..] == [];
      return Ok(Effect(tape[..], pos, false));
    }

    /** The innermost loop of `Exec`: one command's instructions. A failure
        leaves the writes made before it on the tape. */
    method RunInstructions(instructions: seq<Token>, pos: int64) returns (r: Result<Effect, ExecError>)
      requires 0 < tape.Length <= INT64_MAX
      modifies tape
      ensures r == Perform(instructions, old(tape[..]), pos)
      ensures r.Ok? ==> tape[..] == r.value.tape
    {
      var position: int64 := pos;
      var k := 0;
      while k < |instructions|
        invariant 0 <= k <= |instructions|
        invariant tape.Length == old(tape.Length)
        invariant Perform(instructions, old(tape[..]), pos) == Perform(instructions[k..], tape[..], position)
      {
        var instruction := instructions[k];
        assert instructions[k..][0] == instruction && instructions[k..][1..] == instructions[k + 1..];
        match instruction.kind {
          case ERASE =>
            if !(0 <= position < tape.Length) {
              return Err(TapeIndexOutOfRange(position, tape.Length));
            }
            tape[position] := 0;
          case WRITE =>
            if !(0 <= position < tape.Length) {
              return Err(TapeIndexOutOfRange(position, tape.Length));
            }
            tape[position] := instruction.value;
          case MOVER =>
            position := MoveRight(position, instruction.value, tape.Length);
          case MOVEL =>
            position := MoveLeft(position, instruction.value, tape.Length);
          case HALT =>
            return Ok(Effect(tape[..], position, true));
          case _ =>
        }
        k := k + 1;
      }
      assert instructions[k..] == [];
      return Ok(Effect(tape[..], position, false));
    }
  }
}
