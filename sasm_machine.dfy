/** The runtime of the Rust interpreter: a `Machine` with a tape of `i32` cells
    and one `usize` index that is at the same time the number of the line being
    run and the tape cell the line works on.

    `Apply`, `RunBody`, `Step` and `Run` say what the machine does; the class
    methods are proved to do exactly that. A panic of the original becomes
    `Trapped` with a typed reason, and the unbounded `while` loop is given a
    step budget (`fuel`). */
module SasmMachine {
  import opened Wrappers
  import opened Numbers
  import opened SasmParser

  datatype RuntimeError =
    | TapeIndexOutOfBounds(index: int, length: int)  // a tape access past the end
    | IndexOverflow                                  // `index += …` beyond `usize`
    | IndexUnderflow                                 // `index -= …` below 0
    | UnknownInstruction(token: Token)               // a control token in a body
    | EmptyToDo                                      // `to_do[0]` of an empty body
    | GotoOverflow                                   // `value - 1` below `i32::MIN`
    | NotATerminator(token: Token)                   // the `unreachable!()` arm

  /** The machine's state as a value. */
  datatype Snapshot = Snapshot(tape: seq<i32>, index: usize)

  /** The state after one line, the commands as they stand then (a guard is
      removed from its line the first time the line runs), and whether the
      line ended with `halt`. */
  datatype After = After(commands: seq<Command>, state: Snapshot, halted: bool)

  /** How a run ends: `halt`, the index leaving the program, a panic, or the
      step budget running out. */
  datatype Outcome =
    | Halted(state: Snapshot)
    | FellOff(state: Snapshot)
    | Trapped(error: RuntimeError)
    | OutOfFuel

  // ---------------------------------------------------------------------------
  // Specification

  /** `execute_instruction`: `write`/`erase` set the current cell, `movel`
      adds the operand (sign-extended to `usize`) to the index, `mover`
      subtracts it; overflow traps as in a debug build. */
  function Apply(s: Snapshot, t: Token): (r: Result<Snapshot, RuntimeError>)
    ensures r.Ok? <==>
      || ((t.Write? || t.Erase?) && s.index < |s.tape|)
      || (t.Movel? && s.index + AsUsize(t.v) < USIZE_BOUND)
      || (t.Mover? && s.index - AsUsize(t.v) >= 0)
    ensures r.Ok? ==> |r.value.tape| == |s.tape|
    ensures r.Ok? && (t.Write? || t.Erase?) ==>
      && r.value.index == s.index
      && r.value.tape[s.index] == (if t.Write? then t.v else 0)
      && forall j | 0 <= j < |s.tape| && j != s.index :: r.value.tape[j] == s.tape[j]
    ensures r.Ok? && (t.Movel? || t.Mover?) ==>
      && r.value.tape == s.tape
      && (r.value.index - s.index - (if t.Movel? then t.v as int else -(t.v as int))) % USIZE_BOUND == 0
    ensures r.Err? && (t.Write? || t.Erase?) ==> r.error == TapeIndexOutOfBounds(s.index, |s.tape|)
    ensures r.Err? && t.Movel? ==> r.error == IndexOverflow
    ensures r.Err? && t.Mover? ==> r.error == IndexUnderflow
    ensures !(t.Write? || t.Erase? || t.Movel? || t.Mover?) ==> r == Err(UnknownInstruction(t))
  {
    match t
    case Write(v) =>
      if s.index < |s.tape| then Ok(Snapshot(s.tape[s.index := v], s.index))
      else Err(TapeIndexOutOfBounds(s.index, |s.tape|))
    case Erase =>
      if s.index < |s.tape| then Ok(Snapshot(s.tape[s.index := 0], s.index))
      else Err(TapeIndexOutOfBounds(s.index, |s.tape|))
    case Movel(v) =>
      if s.index + AsUsize(v) < USIZE_BOUND then Ok(Snapshot(s.tape, s.index + AsUsize(v)))
      else Err(IndexOverflow)
    case Mover(v) =>
      if s.index - AsUsize(v) >= 0 then Ok(Snapshot(s.tape, s.index - AsUsize(v)))
      else Err(IndexUnderflow)
    case _ => Err(UnknownInstruction(t))
  }

  /** The body of a line, instruction by instruction; the first panic ends it. */
  function RunBody(s: Snapshot, body: seq<Token>): (r: Result<Snapshot, RuntimeError>)
    ensures r.Ok? ==> |r.value.tape| == |s.tape|
    decreases |body|
  {
    if body == [] then Ok(s)
    else
      var a := Apply(s, body[0]);
      if a.Err? then Err(a.error) else RunBody(a.value, body[1..])
  }

  /** The body and the terminator of a line: `goto v` sets the index to
      `(v - 1) as usize`, `halt` stops. */
  function Finish(cmds: seq<Command>, s: Snapshot, c: Command): (r: Result<After, RuntimeError>)
  {
    var b := RunBody(s, c.toDo);
    if b.Err? then Err(b.error)
    else match c.inEnd
      case Goto(v) =>
        if v - 1 < I32_MIN then Err(GotoOverflow)
        else Ok(After(cmds, Snapshot(b.value.tape, AsUsize(v - 1)), false))
      case Halt => Ok(After(cmds, b.value, true))
      case _ => Err(NotATerminator(c.inEnd))
  }

  /** One turn of the `while` loop of `execute_algorithm`, on line `index`. A
      leading `if v` is removed from the line for good, then compared with the
      cell at `index`: on a mismatch the line is skipped. */
  function Step(cmds: seq<Command>, s: Snapshot): (r: Result<After, RuntimeError>)
    requires s.index < |cmds| < USIZE_BOUND
    ensures r.Ok? ==> |r.value.commands| == |cmds| && |r.value.state.tape| == |s.tape|
    ensures r.Ok? ==> forall j | 0 <= j < |cmds| && j != s.index :: r.value.commands[j] == cmds[j]
  {
    var c := cmds[s.index];
    if |c.toDo| == 0 then Err(EmptyToDo)
    else if c.toDo[0].If? then
      var rest := Command(c.toDo[1..], c.inEnd);
      var cmds' := cmds[s.index := rest];
      if s.index >= |s.tape| then Err(TapeIndexOutOfBounds(s.index, |s.tape|))
      else if s.tape[s.index] != c.toDo[0].v then Ok(After(cmds', Snapshot(s.tape, s.index + 1), false))
      else Finish(cmds', s, rest)
    else Finish(cmds, s, c)
  }

  /** `execute_algorithm` with at most `fuel` lines run. */
  function Run(cmds: seq<Command>, s: Snapshot, fuel: nat): Outcome
    requires |cmds| < USIZE_BOUND
    decreases fuel
  {
    if s.index >= |cmds| then FellOff(s)
    else if fuel == 0 then OutOfFuel
    else
      var r := Step(cmds, s);
      if r.Err? then Trapped(r.error)
      else if r.value.halted then Halted(r.value.state)
      else Run(r.value.commands, r.value.state, fuel - 1)
  }

  // ---------------------------------------------------------------------------
  // What the machine promises

  /** The tape never grows or shrinks. */
  lemma {:induction false} RunKeepsTapeLength(cmds: seq<Command>, s: Snapshot, fuel: nat)
    requires |cmds| < USIZE_BOUND
    ensures Run(cmds, s, fuel).Halted? || Run(cmds, s, fuel).FellOff? ==>
      |Run(cmds, s, fuel).state.tape| == |s.tape|
    decreases fuel
  {
    if s.index < |cmds| && fuel > 0 {
      var r := Step(cmds, s);
      if r.Ok? && !r.value.halted {
        RunKeepsTapeLength(r.value.commands, r.value.state, fuel - 1);
      }
    }
  }

  /** A run that ends within some budget ends the same way with any larger
      one, so the budget only cuts off runs that go on longer. */
  lemma {:induction false} MoreFuelSameEnd(cmds: seq<Command>, s: Snapshot, fuel: nat, more: nat)
    requires |cmds| < USIZE_BOUND && fuel <= more
    requires !Run(cmds, s, fuel).OutOfFuel?
    ensures Run(cmds, s, more) == Run(cmds, s, fuel)
    decreases fuel
  {
    if s.index < |cmds| {
      var r := Step(cmds, s);
      if r.Ok? && !r.value.halted {
        MoreFuelSameEnd(r.value.commands, r.value.state, fuel - 1, more - 1);
      }
    }
  }

  /** `movel` with a negative operand traps unless it would take the index
      below 0, since the operand is first read as a huge `usize`. */
  lemma NegativeMovelOverflows(s: Snapshot, v: i32)
    requires v < 0 && s.index + v >= 0
    ensures Apply(s, Movel(v)) == Err(IndexOverflow)
  {
  }

  /** `mover` with a negative operand traps unless the index is within `-v` of
      `usize::MAX`. */
  lemma NegativeMoverUnderflows(s: Snapshot, v: i32)
    requires v < 0 && s.index < USIZE_BOUND + v
    ensures Apply(s, Mover(v)) == Err(IndexUnderflow)
  {
  }

  /** With a non-negative operand, `movel` moves the index up and `mover` moves
      it down, by exactly the operand. */
  lemma MovesByOperand(s: Snapshot, v: i32)
    requires v >= 0
    ensures Apply(s, Movel(v)).Ok? ==> Apply(s, Movel(v)).value.index == s.index + v
    ensures Apply(s, Mover(v)).Ok? ==> Apply(s, Mover(v)).value.index == s.index - v
  {
  }

  /** A guard that does not match the cell skips the line: the tape is left
      alone and the next line is run, whatever the body and terminator are. */
  lemma GuardMismatchSkips(cmds: seq<Command>, s: Snapshot)
    requires s.index < |cmds| < USIZE_BOUND && s.index < |s.tape|
    requires |cmds[s.index].toDo| > 0 && cmds[s.index].toDo[0].If?
    requires s.tape[s.index] != cmds[s.index].toDo[0].v
    ensures Step(cmds, s).Ok?
    ensures Step(cmds, s).value.state == Snapshot(s.tape, s.index + 1)
    ensures !Step(cmds, s).value.halted
  {
  }

  /** The line's guard, if it has one, matches the cell under the index. */
  predicate GuardPasses(c: Command, s: Snapshot)
    requires |c.toDo| > 0
  {
    !c.toDo[0].If? || (s.index < |s.tape| && s.tape[s.index] == c.toDo[0].v)
  }

  /** The body a line runs: its `toDo` without the guard. */
  function BodyOf(c: Command): seq<Token>
    requires |c.toDo| > 0
  {
    if c.toDo[0].If? then c.toDo[1..] else c.toDo
  }

  /** What a line that runs to its end does next. A guard that does not match
      moves to the next line with the tape untouched. Otherwise the body runs
      and the terminator decides: `halt` stops with the state the body left,
      and `goto v` goes on with the body's tape and the index
      `(v - 1) as usize`. */
  lemma TerminatorDecides(cmds: seq<Command>, s: Snapshot)
    requires s.index < |cmds| < USIZE_BOUND
    requires Step(cmds, s).Ok?
    ensures var c := cmds[s.index];
      var r := Step(cmds, s).value;
      && |c.toDo| > 0
      && (!GuardPasses(c, s) ==> !r.halted && r.state == Snapshot(s.tape, s.index + 1))
      && (GuardPasses(c, s) ==>
            && RunBody(s, BodyOf(c)).Ok?
            && (c.inEnd.Halt? || c.inEnd.Goto?)
            && (c.inEnd.Halt? ==> r.halted && r.state == RunBody(s, BodyOf(c)).value)
            && (c.inEnd.Goto? ==> !r.halted)
            && (c.inEnd.Goto? ==>
                  r.state == Snapshot(RunBody(s, BodyOf(c)).value.tape, AsUsize(c.inEnd.v - 1))))
  {
  }

  /** `goto v` with `v >= 1` never stops the run: it goes on at line `v`
      (counted from 1) when the guard matches or is absent, and at the next
      line when the guard does not match. */
  lemma GotoSelectsLine(cmds: seq<Command>, s: Snapshot)
    requires s.index < |cmds| < USIZE_BOUND
    requires Step(cmds, s).Ok?
    requires cmds[s.index].inEnd.Goto? && cmds[s.index].inEnd.v >= 1
    ensures !Step(cmds, s).value.halted
    ensures |cmds[s.index].toDo| > 0
    ensures GuardPasses(cmds[s.index], s) ==> Step(cmds, s).value.state.index == cmds[s.index].inEnd.v - 1
    ensures !GuardPasses(cmds[s.index], s) ==> Step(cmds, s).value.state.index == s.index + 1
  {
    TerminatorDecides(cmds, s);
  }

  /** A command fit to run: instructions only, a guard at most in front, and a
      terminator at the end; a loaded command is one, and so is what is left
      of it once its guard is gone. */
  predicate Runnable(c: Command)
  {
    && (forall i | 0 <= i < |c.toDo| :: IsInstruction(c.toDo[i]))
    && (forall i | 1 <= i < |c.toDo| :: !IsControl(c.toDo[i]))
    && IsTerminator(c.inEnd)
  }

  lemma LoadedIsRunnable(c: Command)
    requires WellFormed(c)
    ensures Runnable(c) && |c.toDo| >= 1
  {
  }

  /** A line's guard is checked on its first run only: afterwards the line is
      the same body and terminator with the guard taken off, no guard is left
      in it, and every line stays fit to run. */
  lemma GuardCheckedOnce(cmds: seq<Command>, s: Snapshot)
    requires s.index < |cmds| < USIZE_BOUND
    requires forall j | 0 <= j < |cmds| :: Runnable(cmds[j])
    requires Step(cmds, s).Ok?
    ensures var next := Step(cmds, s).value.commands;
      && (forall j | 0 <= j < |next| :: Runnable(next[j]))
      && (forall i | 0 <= i < |next[s.index].toDo| :: !next[s.index].toDo[i].If?)
    ensures |cmds[s.index].toDo| > 0
    ensures var c := cmds[s.index];
      Step(cmds, s).value.commands[s.index] == if c.toDo[0].If? then Command(c.toDo[1..], c.inEnd) else c
  {
    var c := cmds[s.index];
    var next := Step(cmds, s).value.commands;
    if c.toDo[0].If? {
      var rest := Command(c.toDo[1..], c.inEnd);
      assert next[s.index] == rest;
      forall i | 0 <= i < |rest.toDo|
        ensures !rest.toDo[i].If? && IsInstruction(rest.toDo[i])
      {
        assert rest.toDo[i] == c.toDo[i + 1];
      }
    } else {
      assert next == cmds;
    }
  }

  // ---------------------------------------------------------------------------
  // Small programs

  /** `if 1 write 9 halt` on a tape starting with 1 writes 9 and stops. */
  lemma GuardedWriteRuns()
    ensures Run([Command([If(1), Write(9)], Halt)], Snapshot([1, 2, 3], 0), 1) ==
            Halted(Snapshot([9, 2, 3], 0))
  {
    var s := Snapshot([1, 2, 3], 0);
    assert s.tape[0 := 9] == [9, 2, 3];
    assert RunBody(s, [Write(9)]) == Ok(Snapshot([9, 2, 3], 0));
  }

  /** The same line on a tape starting with 0 is skipped, and the program ends
      because the index has left it. */
  lemma GuardedWriteSkipped()
    ensures Run([Command([If(1), Write(9)], Halt)], Snapshot([0, 2, 3], 0), 1) ==
            FellOff(Snapshot([0, 2, 3], 1))
  {
  }

  /** A guarded line that jumps to itself traps the second time round: its
      guard is gone and its body is empty. */
  lemma RevisitedGuardTraps()
    ensures Run([Command([If(5)], Goto(1))], Snapshot([5], 0), 2) == Trapped(EmptyToDo)
  {
  }

  /** `goto` past the last line ends the program normally. */
  lemma GotoPastEndEnds()
    ensures Run([Command([Write(7)], Goto(99)), Command([Erase], Halt)], Snapshot([0], 0), 2) ==
            FellOff(Snapshot([7], 98))
  {
  }

  /** `goto 0` sets the index to `usize::MAX`, which also ends the program. */
  lemma GotoZeroEnds()
    ensures Run([Command([Write(7)], Goto(0))], Snapshot([0], 0), 2) ==
            FellOff(Snapshot([7], USIZE_BOUND - 1))
  {
  }

  /** A line that loads with a terminator in front traps when it runs. */
  lemma LeadingTerminatorTraps()
    ensures Run([Command([Goto(1)], Halt)], Snapshot([0], 0), 1) == Trapped(UnknownInstruction(Goto(1)))
  {
  }

  // ---------------------------------------------------------------------------
  // The machine object

  class Machine {
    var tape: array<i32>
    var index: usize

    function State(): Snapshot
      reads this, tape
    {
      Snapshot(tape[..], index)
    }

    constructor (initial: seq<i32>)
      ensures fresh(tape)
      ensures State() == Snapshot(initial, 0)
    {
      tape := new i32[|initial|](i requires 0 <= i < |initial| => initial[i]);
      index := 0;
    }

    /** `execute_instruction`; a panic leaves the machine as it was. */
    method ExecuteInstruction(t: Token) returns (r: Result<(), RuntimeError>)
      modifies this`index, tape
      ensures Apply(old(State()), t).Ok? ==> r.Ok? && State() == Apply(old(State()), t).value
      ensures Apply(old(State()), t).Err? ==>
        r == Err(Apply(old(State()), t).error) && State() == old(State())
    {
      match t {
      case Write(v) =>
        if index >= tape.Length {
          return Err(TapeIndexOutOfBounds(index, tape.Length));
        }
        tape[index] := v;
      case Erase =>
        if index >= tape.Length {
          return Err(TapeIndexOutOfBounds(index, tape.Length));
        }
        tape[index] := 0;
      case Movel(v) =>
        if index + AsUsize(v) >= USIZE_BOUND {
          return Err(IndexOverflow);
        }
        index := index + AsUsize(v);
      case Mover(v) =>
        if index - AsUsize(v) < 0 {
          return Err(IndexUnderflow);
        }
        index := index - AsUsize(v);
      case _ =>
        return Err(UnknownInstruction(t));
      }
      return Ok(());
    }

    /** The body of one line, instruction by instruction. */
    method RunInstructions(body: seq<Token>) returns (r: Result<(), RuntimeError>)
      modifies this`index, tape
      ensures RunBody(old(State()), body).Ok? ==> r.Ok? && State() == RunBody(old(State()), body).value
      ensures RunBody(old(State()), body).Err? ==> r == Err(RunBody(old(State()), body).error)
    {
      var i := 0;
      while i < |body|
        invariant 0 <= i <= |body|
        invariant RunBody(old(State()), body) == RunBody(State(), body[i..])
      {
        assert body[i..][0] == body[i] && body[i..][1..] == body[i + 1..];
        r := ExecuteInstruction(body[i]);
        if r.Err? {
          return;
        }
        i := i + 1;
      }
      return Ok(());
    }

    /** `execute_algorithm`: runs lines until `halt`, until the index leaves the
        program, until a panic, or until `fuel` lines have run. */
    method ExecuteAlgorithm(commands: seq<Command>, fuel: nat) returns (outcome: Outcome)
      requires |commands| < USIZE_BOUND
      modifies this`index, tape
      ensures outcome == Run(commands, old(State()), fuel)
      ensures outcome.Halted? || outcome.FellOff? ==> State() == outcome.state
    {
      var cmds := commands;
      var budget := fuel;
      while true
        invariant |cmds| == |commands|
        invariant Run(commands, old(State()), fuel) == Run(cmds, State(), budget)
        decreases budget
      {
        if index >= |cmds| {
          return FellOff(State());
        }
        if budget == 0 {
          return OutOfFuel;
        }
        ghost var before := State();
        ghost var step := Step(cmds, before);
        var command := cmds[index];
        if |command.toDo| == 0 {
          return Trapped(EmptyToDo);
        }
        if command.toDo[0].If? {
          var value := command.toDo[0].v;
          command := Command(command.toDo[1..], command.inEnd);
          cmds := cmds[index := command];
          if index >= tape.Length {
            return Trapped(TapeIndexOutOfBounds(index, tape.Length));
          }
          if tape[index] != value {
            index := index + 1;
            budget := budget - 1;
            continue;
          }
        }
        assert step == Finish(cmds, before, command);
        var done := RunInstructions(command.toDo);
        if done.Err? {
          return Trapped(done.error);
        }
        match command.inEnd {
        case Goto(v) =>
          if v - 1 < I32_MIN {
            return Trapped(GotoOverflow);
          }
          index := AsUsize(v - 1);
        case Halt =>
          return Halted(State());
        case _ =>
          return Trapped(NotATerminator(command.inEnd));
        }
        budget := budget - 1;
      }
    }
  }
}
