/** The loader of the Go `sanae` interpreter: words become tokens, a line of
    tokens becomes a `Command`, and blank lines split the program into
    `State`s, each a map from the cell value a command waits for to the
    command.

    A panic of the original becomes `Err` with a typed reason. The Go `int`
    is 64 bits wide. `TokenizeWords`, `CommandOf` and `ReadFrom` say what the
    `Reader` methods compute. */
module SanaeReader {
  import opened Wrappers
  import opened Numbers
  import opened Text

  datatype TokenType = IF | ERASE | WRITE | MOVER | MOVEL | GOTO | HALT | OPERAND

  datatype Token = Token(kind: TokenType, value: int64)

  datatype ReadError =
    | NotAnInstruction(word: string)   // neither a number nor a keyword
    | MissingOperand(keyword: string)  // a keyword whose next word is absent or no number
    | MisplacedOperand(word: string)   // a number where a keyword was expected
    | InvalidCommand                   // a line without `if`, or without `goto` and `halt`

  /** One line: the cell value it waits for, what it does, and the state it
      moves to (0 when it names none). */
  datatype Command = Command(condition: int64, instructions: seq<Token>, nextState: int64)

  // ---------------------------------------------------------------------------
  // Words

  /** `Atoi` accepts exactly the signed decimals of the 64-bit range, and
      keeps their value. */
  lemma AtoiAccepts(w: string)
    ensures Atoi(w).Some? ==> ParseSigned(w) == Some(Atoi(w).value as int)
    ensures ParseSigned(w).Some? && INT64_MIN <= ParseSigned(w).value <= INT64_MAX ==> Atoi(w).Some?
  {
  }

  /** A word that does not start with a digit or a sign is not a number. */
  lemma NotANumber(w: string)
    requires |w| > 0 && !IsDigit(w[0]) && w[0] != '-' && w[0] != '+'
    ensures Atoi(w) == None
  {
  }


  /** The token types a word can spell. */
  type KeywordType = k: TokenType | k != OPERAND witness IF

  /** `toToken`'s `switch` on the lower-cased word. */
  function KeywordKind(lower: string): Option<KeywordType>
  {
    if lower == "if" then Some(IF)
    else if lower == "erase" then Some(ERASE)
    else if lower == "write" then Some(WRITE)
    else if lower == "mover" then Some(MOVER)
    else if lower == "movel" then Some(MOVEL)
    else if lower == "goto" then Some(GOTO)
    else if lower == "halt" then Some(HALT)
    else None
  }


  /** A word of a line as `toToken` sees it: a number, a keyword in any letter
      case, or neither. */
  datatype Lexeme =
    | Number(word: string, n: int64)
    | Keyword(word: string, kind: KeywordType)
    | Unknown(word: string)

  /** `toToken`'s decision: `strconv.Atoi` first, then the lower-cased word. */
  function Lex(word: string): Lexeme
  {
    match Atoi(word)
    case Some(n) => Number(word, n)
    case None =>
      match KeywordKind(ToLower(word))
      case Some(k) => Keyword(word, k)
      case None => Unknown(word)
  }

  /** `toToken`: a number is an operand; otherwise the word, in any letter
      case, must be a keyword, whose token carries the value 0. */
  function ToToken(word: string): Result<Token, ReadError>
  {
    match Lex(word)
    case Number(_, n) => Ok(Token(OPERAND, n))
    case Keyword(_, k) => Ok(Token(k, 0))
    case Unknown(_) => Err(NotAnInstruction(word))
  }

  /** What `toToken` makes of a word: an operand exactly when `strconv.Atoi`
      accepts it, else the keyword its lower-cased spelling names, with the
      value 0, else `NotAnInstruction`. */
  lemma ToTokenCases(word: string)
    ensures var r := ToToken(word);
      && (r.Ok? && r.value.kind == OPERAND <==> Atoi(word).Some?)
      && (Atoi(word).Some? ==> r == Ok(Token(OPERAND, Atoi(word).value)))
      && (r.Ok? && r.value.kind != OPERAND ==> r.value.value == 0 && KeywordKind(ToLower(word)) == Some(r.value.kind))
      && (r.Err? <==> Atoi(word).None? && KeywordKind(ToLower(word)).None?)
      && (r.Err? ==> r.error == NotAnInstruction(word))
  {
  }

  /** The words of a line, each read by `toToken`. */
  function Lexemes(words: seq<string>): (ls: seq<Lexeme>)
    ensures |ls| == |words|
  {
    Map(Lex, words)
  }

  /** The keywords that take the next word as their operand. */
  predicate TakesOperand(k: TokenType) { k == WRITE || k == MOVER || k == MOVEL || k == IF || k == GOTO }

  /** A token as it can be written: no operand token, and no value on a
      keyword without an operand. */
  predicate Printable(t: Token)
  {
    t.kind != OPERAND && (TakesOperand(t.kind) || t.value == 0)
  }

  /** One round of `TokenizeCommand` at word `p < |ls|`: the token and the
      index of the word after it. A keyword that takes an operand needs a
      number after it; a number where a keyword belongs is misplaced. */
  function ReadToken(ls: seq<Lexeme>, p: nat): (r: Result<(Token, nat), ReadError>)
    requires p < |ls|
    ensures r.Ok? ==> p < r.value.1 <= |ls| && r.value.0.kind != OPERAND
    ensures r.Ok? ==> (TakesOperand(r.value.0.kind) <==> r.value.1 == p + 2)
    ensures r.Ok? && !TakesOperand(r.value.0.kind) ==> r.value.0.value == 0
    ensures r.Err? <==>
      || ls[p].Unknown?
      || ls[p].Number?
      || (ls[p].Keyword? && TakesOperand(ls[p].kind) && (p + 1 == |ls| || !ls[p + 1].Number?))
  {
    match ls[p]
    case Unknown(w) => Err(NotAnInstruction(w))
    case Number(w, _) => Err(MisplacedOperand(w))
    case Keyword(w, k) =>
      if !TakesOperand(k) then Ok((Token(k, 0), p + 1))
      else if p + 1 < |ls| && ls[p + 1].Number? then Ok((Token(k, ls[p + 1].n), p + 2))
      else Err(MissingOperand(w))
  }

  /** `TokenizeCommand` over the words of a line, from word `p` on. */
  function TokenizeWords(ls: seq<Lexeme>, p: nat): Result<seq<Token>, ReadError>
    decreases |ls| - p, 1
  {
    if p >= |ls| then Ok([]) else TokenizeAt(ls, p)
  }

  /** The tokens from word `p < |ls|` on: one token, then the rest. */
  function TokenizeAt(ls: seq<Lexeme>, p: nat): Result<seq<Token>, ReadError>
    requires p < |ls|
    decreases |ls| - p, 0
  {
    var step := ReadToken(ls, p);
    if step.Err? then Err(step.error)
    else Prepend([step.value.0], TokenizeWords(ls, step.value.1))
  }

  /** `TokenizeCommand` on a whole line, starting at word `p`. */
  function TokenizeLine(line: string, p: nat): Result<seq<Token>, ReadError>
  {
    TokenizeWords(Lexemes(Split(line, ' ')), p)
  }

  /** One round of `TokenizeCommand` on the word at `p`, in the terms its loop
      uses. */
  lemma TokenizeStep(line: string, p: nat)
    requires p < |Split(line, ' ')|
    ensures var words := Split(line, ' ');
      var t := ToToken(words[p]);
      && (t.Err? ==> TokenizeLine(line, p) == Err(t.error))
      && (t.Ok? && TakesOperand(t.value.kind) && (p + 1 >= |words| || Atoi(words[p + 1]).None?) ==>
            TokenizeLine(line, p) == Err(MissingOperand(words[p])))
      && (t.Ok? && TakesOperand(t.value.kind) && p + 1 < |words| && Atoi(words[p + 1]).Some? ==>
            TokenizeLine(line, p) == Prepend([Token(t.value.kind, Atoi(words[p + 1]).value)], TokenizeLine(line, p + 2)))
      && (t.Ok? && !TakesOperand(t.value.kind) && t.value.kind == OPERAND ==>
            TokenizeLine(line, p) == Err(MisplacedOperand(words[p])))
      && (t.Ok? && !TakesOperand(t.value.kind) && t.value.kind != OPERAND ==>
            TokenizeLine(line, p) == Prepend([t.value], TokenizeLine(line, p + 1)))
  {
    var words := Split(line, ' ');
    var ls := Lexemes(words);
    assert TokenizeWords(ls, p) == TokenizeAt(ls, p);
    assert ls[p] == Lex(words[p]);
    if ls[p].Keyword? && TakesOperand(ls[p].kind) && p + 1 < |words| {
      assert ls[p + 1] == Lex(words[p + 1]);
      LexNumber(words[p + 1]);
    }
  }

  /** A word lexes as a number exactly when `strconv.Atoi` accepts it. */
  lemma LexNumber(w: string)
    ensures Lex(w).Number? <==> Atoi(w).Some?
    ensures Lex(w).Number? ==> Lex(w).n == Atoi(w).value
  {
  }

  /** Every token read can be written back: none is an `OPERAND`, and
      keywords without an operand carry the value 0. */
  lemma {:induction false} TokenizeWordsShape(ls: seq<Lexeme>, p: nat)
    ensures var r := TokenizeWords(ls, p);
      r.Ok? ==> forall i | 0 <= i < |r.value| :: Printable(r.value[i])
    decreases |ls| - p
  {
    if p < |ls| {
      var step := ReadToken(ls, p);
      assert TokenizeWords(ls, p) == TokenizeAt(ls, p);
      if step.Ok? {
        var rest := TokenizeWords(ls, step.value.1);
        TokenizeWordsShape(ls, step.value.1);
        if rest.Ok? {
          var all := [step.value.0] + rest.value;
          assert TokenizeWords(ls, p) == Ok(all);
          assert Printable(all[0]);
          forall i | 1 <= i < |all| ensures Printable(all[i]) {
            assert all[i] == rest.value[i - 1];
          }
        }
      }
    }
  }

  /** One token read after some words reads as it would without them. */
  lemma ReadTokenShift(pre: seq<Lexeme>, ls: seq<Lexeme>, p: nat)
    requires p < |ls|
    ensures var step := ReadToken(ls, p);
      ReadToken(pre + ls, |pre| + p) == if step.Ok? then Ok((step.value.0, |pre| + step.value.1)) else step
  {
    var all := pre + ls;
    assert all[|pre| + p] == ls[p];
    if p + 1 < |ls| {
      assert all[|pre| + p + 1] == ls[p + 1];
    }
  }

  /** The words before `p` play no part. */
  lemma {:induction false} TokenizeWordsShift(pre: seq<Lexeme>, ls: seq<Lexeme>, p: nat)
    ensures TokenizeWords(pre + ls, |pre| + p) == TokenizeWords(ls, p)
    decreases |ls| - p
  {
    if p < |ls| {
      ReadTokenShift(pre, ls, p);
      var step := ReadToken(ls, p);
      if step.Ok? {
        TokenizeWordsShift(pre, ls, step.value.1);
      }
    }
  }

  // ---------------------------------------------------------------------------
  // Commands

  predicate HasKind(ts: seq<Token>, k: TokenType)
  {
    exists i | 0 <= i < |ts| :: ts[i].kind == k
  }

  /** `isValidCommand`: a guard and an ending somewhere on the line. */
  predicate ValidCommand(ts: seq<Token>)
  {
    HasKind(ts, IF) && (HasKind(ts, GOTO) || HasKind(ts, HALT))
  }

  /** The value of the last token of kind `k`, or `otherwise` if none. */
  function LastOf(ts: seq<Token>, k: TokenType, otherwise: int64): int64
    decreases |ts|
  {
    if ts == [] then otherwise
    else if ts[|ts| - 1].kind == k then ts[|ts| - 1].value
    else LastOf(ts[..|ts| - 1], k, otherwise)
  }

  /** `LastOf` is the value of the last token of kind `k`, and the default
      exactly when there is none. */
  lemma {:induction false} LastOfIsLast(ts: seq<Token>, k: TokenType, otherwise: int64)
    ensures !HasKind(ts, k) ==> LastOf(ts, k, otherwise) == otherwise
    ensures HasKind(ts, k) ==> exists i | 0 <= i < |ts| ::
      && ts[i].kind == k && LastOf(ts, k, otherwise) == ts[i].value
      && forall j | i < j < |ts| :: ts[j].kind != k
    decreases |ts|
  {
    if ts == [] {
    } else if ts[|ts| - 1].kind == k {
      assert ts[|ts| - 1].kind == k && LastOf(ts, k, otherwise) == ts[|ts| - 1].value;
    } else {
      var init := ts[..|ts| - 1];
      LastOfIsLast(init, k, otherwise);
      assert LastOf(ts, k, otherwise) == LastOf(init, k, otherwise);
      if HasKind(ts, k) {
        var h :| 0 <= h < |ts| && ts[h].kind == k;
        assert init[h].kind == k;
        var i :| && 0 <= i < |init| && init[i].kind == k && LastOf(init, k, otherwise) == init[i].value
                 && forall j | i < j < |init| :: init[j].kind != k;
        assert ts[i] == init[i];
        forall j | i < j < |ts| ensures ts[j].kind != k {
          if j < |init| {
            assert ts[j] == init[j];
          }
        }
      } else {
        forall i | 0 <= i < |init| ensures init[i].kind != k {
          assert init[i] == ts[i];
        }
      }
    }
  }

  function Kept(ts: seq<Token>): (r: seq<Token>)
    ensures |r| <= |ts|
    decreases |ts|
  {
    if ts == [] then []
    else
      var last := ts[|ts| - 1];
      var init := ts[..|ts| - 1];
      if last.kind == IF || last.kind == GOTO then Kept(init) else Kept(init) + [last]
  }

  /** `Kept` drops every `if` and `goto`, and keeps a line without them whole. */
  lemma {:induction false} KeptDropsGuards(ts: seq<Token>)
    ensures forall i | 0 <= i < |Kept(ts)| :: Kept(ts)[i].kind != IF && Kept(ts)[i].kind != GOTO
    ensures (forall i | 0 <= i < |ts| :: ts[i].kind != IF && ts[i].kind != GOTO) ==> Kept(ts) == ts
    decreases |ts|
  {
    if ts != [] {
      var init := ts[..|ts| - 1];
      KeptDropsGuards(init);
      assert ts == init + [ts[|ts| - 1]];
    }
  }

  /** Keeping works piece by piece. */
  lemma {:induction false} KeptOfConcat(a: seq<Token>, b: seq<Token>)
    ensures Kept(a + b) == Kept(a) + Kept(b)
    decreases |b|
  {
    if b == [] {
      assert a + b == a;
    } else {
      var init := b[..|b| - 1];
      assert (a + b)[..|a + b| - 1] == a + init;
      assert (a + b)[|a + b| - 1] == b[|b| - 1];
      KeptOfConcat(a, init);
    }
  }

  /** Extending a line by one token. */
  lemma Snoc(ts: seq<Token>, t: Token)
    ensures LastOf(ts + [t], IF, 0) == if t.kind == IF then t.value else LastOf(ts, IF, 0)
    ensures LastOf(ts + [t], GOTO, 0) == if t.kind == GOTO then t.value else LastOf(ts, GOTO, 0)
    ensures Kept(ts + [t]) == if t.kind == IF || t.kind == GOTO then Kept(ts) else Kept(ts) + [t]
  {
    assert (ts + [t])[..|ts|] == ts;
  }

  /** `newCommand` on a valid line: the last `if` gives the condition, the last
      `goto` the next state (0 without one), the rest are the instructions. */
  function CommandOf(ts: seq<Token>): Command
  {
    Command(LastOf(ts, IF, 0), Kept(ts), LastOf(ts, GOTO, 0))
  }

  method IsValidCommand(instructions: seq<Token>) returns (b: bool)
    ensures b <==> ValidCommand(instructions)
  {
    var hasCondition, hasEnd := false, false;
    var i := 0;
    while i < |instructions|
      invariant 0 <= i <= |instructions|
      invariant hasCondition <==> exists j | 0 <= j < i :: instructions[j].kind == IF
      invariant hasEnd <==> exists j | 0 <= j < i :: instructions[j].kind == GOTO || instructions[j].kind == HALT
    {
      match instructions[i].kind {
        case IF => hasCondition := true;
        case GOTO => hasEnd := true;
        case HALT => hasEnd := true;
        case _ =>
      }
      i := i + 1;
    }
    return hasCondition && hasEnd;
  }

  method NewCommand(instructions: seq<Token>) returns (r: Result<Command, ReadError>)
    ensures r.Ok? <==> ValidCommand(instructions)
    ensures r.Ok? ==> r.value == CommandOf(instructions)
    ensures r.Err? ==> r.error == InvalidCommand
  {
    var valid := IsValidCommand(instructions);
    if !valid {
      return Err(InvalidCommand);
    }
    var command: Command := Command(0, [], 0);
    var i := 0;
    while i < |instructions|
      invariant 0 <= i <= |instructions|
      invariant command.condition == LastOf(instructions[..i], IF, 0)
      invariant command.instructions == Kept(instructions[..i])
      invariant command.nextState == LastOf(instructions[..i], GOTO, 0)
    {
      var instruction := instructions[i];
      assert instructions[..i + 1] == instructions[..i] + [instruction];
      Snoc(instructions[..i], instruction);
      match instruction.kind {
        case IF => command := command.(condition := instruction.value);
        case GOTO => command := command.(nextState := instruction.value);
        case _ => command := command.(instructions := command.instructions + [instruction]);
      }
      i := i + 1;
    }
    assert instructions[..i] == instructions;
    return Ok(command);
  }

  // ---------------------------------------------------------------------------
  // States and the algorithm

  class State {
    var commands: map<int64, Command>

    /** `NewState`. */
    constructor ()
      ensures commands == map[]
    {
      commands := map[];
    }

    /** `addCommand`: a later command with the same condition replaces the
        earlier one. */
    method AddCommand(cmd: Command)
      modifies this
      ensures commands == old(commands)[cmd.condition := cmd]
    {
      commands := commands[cmd.condition := cmd];
    }
  }

  class Algorithm {
    var states: seq<State>

    /** No state is listed twice, so changing one leaves the others alone. */
    ghost predicate Valid()
      reads this
    {
      forall i, j | 0 <= i < j < |states| :: states[i] != states[j]
    }

    /** The commands of each state, in state order. */
    function Contents(): (c: seq<map<int64, Command>>)
      reads this, states
      ensures |c| == |states|
      ensures forall i | 0 <= i < |states| :: c[i] == states[i].commands
    {
      seq(|states|, i reads this, states requires 0 <= i < |states| => states[i].commands)
    }

    constructor ()
      ensures states == []
    {
      states := [];
    }

    /** `addState`. */
    method AddState(state: State)
      modifies this
      ensures states == old(states) + [state]
      ensures Contents() == old(Contents()) + [state.commands]
      ensures old(Valid()) && state !in old(states) ==> Valid()
    {
      states := states + [state];
    }

    /** `getState`: the state at `index`; an index outside the list panics. */
    function GetState(index: int): (r: Option<State>)
      reads this
      ensures r.Some? <==> 0 <= index < |states|
      ensures r.Some? ==> r.value == states[index]
    {
      if 0 <= index < |states| then Some(states[index]) else None
    }
  }

  // ---------------------------------------------------------------------------
  // Reading a program

  /** The command a non-blank line holds, its words read from word `p` on. */
  function ReadLine(line: string, p: nat): Result<Command, ReadError>
  {
    var ts := TokenizeLine(line, p);
    if ts.Err? then Err(ts.error)
    else if !ValidCommand(ts.value) then Err(InvalidCommand)
    else Ok(CommandOf(ts.value))
  }

  /** The command read from a line has no guard and no `goto` among its
      instructions. */
  lemma ReadLineInstructions(line: string, p: nat)
    ensures var r := ReadLine(line, p);
      r.Ok? ==> forall j | 0 <= j < |r.value.instructions| ::
        r.value.instructions[j].kind != IF && r.value.instructions[j].kind != GOTO
  {
    var ts := TokenizeLine(line, p);
    if ts.Ok? {
      KeptDropsGuards(ts.value);
    }
  }

  /** The states with `c` filed under its condition in the newest one. */
  function FileLast(states: seq<map<int64, Command>>, c: Command): (r: seq<map<int64, Command>>)
    requires |states| >= 1
    ensures |r| == |states|
  {
    var last := |states| - 1;
    var filed: map<int64, Command> := states[last][c.condition := c];
    states[last := filed]
  }

  /** Filing a command touches only the newest state, where it stores the
      command under its condition and keeps the other entries. */
  lemma FileLastKeeps(states: seq<map<int64, Command>>, c: Command)
    requires |states| >= 1
    ensures forall i | 0 <= i < |states| - 1 :: FileLast(states, c)[i] == states[i]
    ensures var newest := FileLast(states, c)[|states| - 1];
      && c.condition in newest && newest[c.condition] == c
      && forall k | k in states[|states| - 1] && k != c.condition :: k in newest && newest[k] == states[|states| - 1][k]
  {
  }

  /** What `Read` builds from the remaining lines, given the states so far and
      the word position the next line is read from: a blank line opens a new
      state, any other line adds its command to the newest state. */
  function ReadFrom(lines: seq<string>, p: nat, states: seq<map<int64, Command>>): (r: Result<seq<map<int64, Command>>, ReadError>)
    requires |states| >= 1
    decreases |lines|
  {
    if lines == [] then Ok(states)
    else if |lines[0]| == 0 then ReadFrom(lines[1..], p, states + [map[]])
    else
      var c := ReadLine(lines[0], p);
      if c.Err? then Err(c.error) else ReadFrom(lines[1..], 0, FileLast(states, c.value))
  }

  /** One round of `Read`, on line `k`. */
  lemma ReadFromUnfold(lines: seq<string>, k: nat, p: nat, states: seq<map<int64, Command>>)
    requires k < |lines| && |states| >= 1
    ensures |lines[k]| == 0 ==> ReadFrom(lines[k..], p, states) == ReadFrom(lines[k + 1..], p, states + [map[]])
    ensures |lines[k]| > 0 && ReadLine(lines[k], p).Err? ==>
      ReadFrom(lines[k..], p, states) == Err(ReadLine(lines[k], p).error)
    ensures |lines[k]| > 0 && ReadLine(lines[k], p).Ok? ==>
      ReadFrom(lines[k..], p, states) == ReadFrom(lines[k + 1..], 0, FileLast(states, ReadLine(lines[k], p).value))
  {
    assert lines[k..][0] == lines[k] && lines[k..][1..] == lines[k + 1..];
  }

  function CountBlank(lines: seq<string>): nat
    decreases |lines|
  {
    if lines == [] then 0 else (if |lines[0]| == 0 then 1 else 0) + CountBlank(lines[1..])
  }

  /** Each command is filed under its own condition and holds no guard and no
      `goto`. */
  predicate Filed(states: seq<map<int64, Command>>)
  {
    forall i, k | 0 <= i < |states| && k in states[i] ::
      && states[i][k].condition == k
      && forall j | 0 <= j < |states[i][k].instructions| ::
           states[i][k].instructions[j].kind != IF && states[i][k].instructions[j].kind != GOTO
  }

  /** A program has one state more than it has blank lines. */
  lemma {:induction false} StateCount(lines: seq<string>, p: nat, states: seq<map<int64, Command>>)
    requires |states| >= 1
    ensures ReadFrom(lines, p, states).Ok? ==> |ReadFrom(lines, p, states).value| == |states| + CountBlank(lines)
    decreases |lines|
  {
    if lines != [] {
      if |lines[0]| == 0 {
        StateCount(lines[1..], p, states + [map[]]);
      } else if ReadLine(lines[0], p).Ok? {
        StateCount(lines[1..], 0, FileLast(states, ReadLine(lines[0], p).value));
      }
    }
  }

  /** Reading files every command under its condition. */
  lemma {:induction false} ReadFiles(lines: seq<string>, p: nat, states: seq<map<int64, Command>>)
    requires |states| >= 1 && Filed(states)
    ensures ReadFrom(lines, p, states).Ok? ==> Filed(ReadFrom(lines, p, states).value)
    decreases |lines|
  {
    if lines != [] {
      if |lines[0]| == 0 {
        var next := states + [map[]];
        assert forall i | 0 <= i < |states| :: next[i] == states[i];
        ReadFiles(lines[1..], p, next);
      } else if ReadLine(lines[0], p).Ok? {
        ReadLineInstructions(lines[0], p);
        ReadFiles(lines[1..], 0, FileLast(states, ReadLine(lines[0], p).value));
      }
    }
  }

  // ---------------------------------------------------------------------------
  // Round trip: printing a command as a line and reading the line gives the
  // command back.


  function KeywordOf(k: TokenType): string
  {
    match k
    case IF => "if"
    case ERASE => "erase"
    case WRITE => "write"
    case MOVER => "mover"
    case MOVEL => "movel"
    case GOTO => "goto"
    case HALT => "halt"
    case OPERAND => "0"
  }

  function RenderToken(t: Token): seq<string>
  {
    if TakesOperand(t.kind) then [KeywordOf(t.kind), Render(t.value)] else [KeywordOf(t.kind)]
  }

  function RenderTokens(ts: seq<Token>): (ws: seq<string>)
    decreases |ts|
  {
    if ts == [] then [] else RenderToken(ts[0]) + RenderTokens(ts[1..])
  }

  lemma KeywordReads(k: TokenType)
    requires k != OPERAND
    ensures ToToken(KeywordOf(k)) == Ok(Token(k, 0))
  {
    var w := KeywordOf(k);
    NotANumber(w);
    LowerIsSame(w);
  }

  lemma NumberReads(n: int64)
    ensures Atoi(Render(n)) == Some(n)
  {
    RenderParses(n);
    AtoiAccepts(Render(n));
  }

  /** The lexemes a printable token is written as: its keyword, then its
      operand when it takes one. */
  function TokenLexemes(t: Token): (ls: seq<Lexeme>)
    requires t.kind != OPERAND
    ensures |ls| == |RenderToken(t)|
  {
    var keyword := Keyword(KeywordOf(t.kind), t.kind);
    if TakesOperand(t.kind) then [keyword, Number(Render(t.value), t.value)] else [keyword]
  }

  function RenderLexemes(ts: seq<Token>): seq<Lexeme>
    requires forall i | 0 <= i < |ts| :: Printable(ts[i])
    decreases |ts|
  {
    if ts == [] then []
    else
      var rest := ts[1..];
      assert Printable(ts[0]);
      assert forall i | 0 <= i < |rest| :: rest[i] == ts[i + 1];
      TokenLexemes(ts[0]) + RenderLexemes(rest)
  }

  /** The words of a printable token lex as its lexemes. */
  lemma LexRenderedToken(t: Token)
    requires Printable(t)
    ensures Lexemes(RenderToken(t)) == TokenLexemes(t)
  {
    var w := RenderToken(t);
    KeywordReads(t.kind);
    assert Lex(w[0]) == Keyword(KeywordOf(t.kind), t.kind);
    if TakesOperand(t.kind) {
      NumberReads(t.value);
      assert Lex(w[1]) == Number(Render(t.value), t.value);
    }
  }

  lemma {:induction false} LexRenderedTokens(ts: seq<Token>)
    requires forall i | 0 <= i < |ts| :: Printable(ts[i])
    ensures Lexemes(RenderTokens(ts)) == RenderLexemes(ts)
    decreases |ts|
  {
    if ts != [] {
      var head := RenderToken(ts[0]);
      var rest := RenderTokens(ts[1..]);
      assert RenderTokens(ts) == head + rest;
      MapOfConcat(Lex, head, rest);
      LexRenderedToken(ts[0]);
      LexRenderedTokens(ts[1..]);
    }
  }

  /** A printable token's lexemes read back as the token. */
  lemma ReadTokenLexemes(t: Token, rest: seq<Lexeme>)
    requires Printable(t)
    ensures ReadToken(TokenLexemes(t) + rest, 0) == Ok((t, |TokenLexemes(t)|))
  {
    var all := TokenLexemes(t) + rest;
    assert all[0] == Keyword(KeywordOf(t.kind), t.kind);
    if TakesOperand(t.kind) {
      assert all[1] == Number(Render(t.value), t.value);
    }
  }

  lemma {:induction false} TokenizeRenderedLexemes(ts: seq<Token>)
    requires forall i | 0 <= i < |ts| :: Printable(ts[i])
    ensures TokenizeWords(RenderLexemes(ts), 0) == Ok(ts)
    decreases |ts|
  {
    if ts != [] {
      var head := TokenLexemes(ts[0]);
      var rest := RenderLexemes(ts[1..]);
      assert RenderLexemes(ts) == head + rest;
      ReadTokenLexemes(ts[0], rest);
      TokenizeWordsShift(head, rest, 0);
      TokenizeRenderedLexemes(ts[1..]);
      assert TokenizeWords(head + rest, 0) == TokenizeAt(head + rest, 0);
      assert [ts[0]] + ts[1..] == ts;
    }
  }

  /** Printed tokens read back as themselves. */
  lemma TokenizeRendered(ts: seq<Token>)
    requires forall i | 0 <= i < |ts| :: Printable(ts[i])
    ensures TokenizeWords(Lexemes(RenderTokens(ts)), 0) == Ok(ts)
  {
    LexRenderedTokens(ts);
    TokenizeRenderedLexemes(ts);
  }

  lemma RenderedWordsHaveNoSpace(ts: seq<Token>)
    ensures forall i | 0 <= i < |RenderTokens(ts)| :: ' ' !in RenderTokens(ts)[i]
    decreases |ts|
  {
    if ts != [] {
      RenderIsWord(ts[0].value);
      RenderedWordsHaveNoSpace(ts[1..]);
    }
  }

  /** The line a command is printed as: its guard, its instructions, and a
      `goto` naming its next state. */
  function CommandLine(c: Command): string
  {
    Join(RenderTokens([Token(IF, c.condition)] + c.instructions + [Token(GOTO, c.nextState)]), ' ')
  }

  /** Reading the printed line of a command gives the command back, provided
      its instructions can be written and are neither guards nor `goto`s. */
  lemma CommandRoundTrip(c: Command)
    requires forall i | 0 <= i < |c.instructions| ::
      Printable(c.instructions[i]) && c.instructions[i].kind != IF && c.instructions[i].kind != GOTO
    ensures TokenizeLine(CommandLine(c), 0).Ok?
    ensures var ts := TokenizeLine(CommandLine(c), 0).value;
      ValidCommand(ts) && CommandOf(ts) == c
  {
    var ts := [Token(IF, c.condition)] + c.instructions + [Token(GOTO, c.nextState)];
    LineTokens(ts);
    AssembleLine(c);
  }

  /** The words of a printed line read back as its tokens. */
  lemma LineTokens(ts: seq<Token>)
    requires |ts| >= 1 && forall i | 0 <= i < |ts| :: Printable(ts[i])
    ensures TokenizeLine(Join(RenderTokens(ts), ' '), 0) == Ok(ts)
  {
    var ws := RenderTokens(ts);
    assert ws == RenderToken(ts[0]) + RenderTokens(ts[1..]);
    RenderedWordsHaveNoSpace(ts);
    SplitOfJoin(ws, ' ');
    TokenizeRendered(ts);
  }

  /** A guard, instructions free of guards and `goto`s, and a `goto` assemble
      into the command they came from. */
  lemma AssembleLine(c: Command)
    requires forall i | 0 <= i < |c.instructions| :: c.instructions[i].kind != IF && c.instructions[i].kind != GOTO
    ensures var ts := [Token(IF, c.condition)] + c.instructions + [Token(GOTO, c.nextState)];
      ValidCommand(ts) && CommandOf(ts) == c
  {
    var guard, end := Token(IF, c.condition), Token(GOTO, c.nextState);
    var front := [guard] + c.instructions;
    var ts := front + [end];
    assert ValidCommand(ts) by {
      assert ts[0].kind == IF && ts[|ts| - 1].kind == GOTO;
    }
    Snoc(front, end);
    assert LastOf(ts, IF, 0) == c.condition by {
      LastIfIsGuard(guard, c.instructions);
    }
    assert Kept(ts) == c.instructions by {
      KeptOfConcat([guard], c.instructions);
      KeptDropsGuards(c.instructions);
      assert [guard][..0] == [];
    }
  }

  lemma {:induction false} LastIfIsGuard(guard: Token, rest: seq<Token>)
    requires guard.kind == IF
    requires forall i | 0 <= i < |rest| :: rest[i].kind != IF
    ensures LastOf([guard] + rest, IF, 0) == guard.value
    decreases |rest|
  {
    if rest != [] {
      var init := rest[..|rest| - 1];
      assert ([guard] + rest)[..|rest|] == [guard] + init;
      LastIfIsGuard(guard, init);
    }
  }

  // ---------------------------------------------------------------------------
  // The reader object

  class Reader {
    /** The index of the next word of the line being tokenized. */
    var position: nat

    /** `NewReader`, with the opened file left out: the lines are handed to
        `Read`. */
    constructor ()
      ensures position == 0
    {
      position := 0;
    }

    /** One round of `TokenizeCommand`'s loop: the token at `position`, with
        its operand when it takes one; `position` is left on its last word. */
    method NextToken(ghost line: string, words: seq<string>) returns (r: Result<Token, ReadError>)
      requires words == Split(line, ' ') && position < |words|
      modifies this`position
      ensures r.Err? ==> TokenizeLine(line, old(position)) == Err(r.error)
      ensures r.Ok? ==> old(position) <= position < |words|
      ensures r.Ok? ==> TokenizeLine(line, old(position)) == Prepend([r.value], TokenizeLine(line, position + 1))
    {
      TokenizeStep(line, position);
      var word := words[position];
      var token := ToToken(word);
      if token.Err? {
        return Err(token.error);
      }
      var t := token.value;
      if TakesOperand(t.kind) {
        position := position + 1;
        if position >= |words| {
          return Err(MissingOperand(word));
        }
        var nextWord := words[position];
        var operand := Atoi(nextWord);
        if operand.None? {
          return Err(MissingOperand(word));
        }
        t := t.(value := operand.value);
      } else if t.kind == OPERAND {
        return Err(MisplacedOperand(word));
      }
      return Ok(t);
    }

    /** `TokenizeCommand`: the tokens of the line from `position` on, or the
        first syntax error; `position` goes back to 0 after a whole line. */
    method TokenizeCommand(line: string) returns (r: Result<seq<Token>, ReadError>)
      modifies this`position
      ensures r == TokenizeLine(line, old(position))
      ensures r.Ok? ==> position == 0
    {
      var tokens: seq<Token> := [];
      var words := Split(line, ' ');
      PrependNothing(TokenizeLine(line, position));
      while position < |words|
        invariant TokenizeLine(line, old(position)) == Prepend(tokens, TokenizeLine(line, position))
        decreases |words| - position
      {
        var token := NextToken(line, words);
        if token.Err? {
          return Err(token.error);
        }
        PrependTwice(tokens, [token.value], TokenizeLine(line, position + 1));
        tokens := tokens + [token.value];
        position := position + 1;
      }
      assert tokens + [] == tokens;
      position := 0;
      return Ok(tokens);
    }

    /** The body of `Read` for a non-blank line: its command goes into the
        newest state. */
    method ReadCommandLine(algorithm: Algorithm, stateCount: nat, line: string) returns (r: Result<Command, ReadError>)
      requires algorithm.Valid() && |algorithm.states| == stateCount + 1
      modifies this`position, algorithm.states[stateCount]
      ensures r == ReadLine(line, old(position))
      ensures r.Ok? ==> position == 0 && algorithm.Contents() == FileLast(old(algorithm.Contents()), r.value)
    {
      var state := algorithm.GetState(stateCount).value;
      ghost var states := algorithm.states;
      var instructions := TokenizeCommand(line);
      if instructions.Err? {
        return Err(instructions.error);
      }
      var command := NewCommand(instructions.value);
      if command.Err? {
        return Err(command.error);
      }
      assert algorithm.states == states;
      FileCommand(algorithm, state, command.value);
      return command;
    }

    /** `state.addCommand` on the newest state of the algorithm. */
    static method FileCommand(algorithm: Algorithm, state: State, cmd: Command)
      requires algorithm.Valid() && |algorithm.states| >= 1
      requires state == algorithm.states[|algorithm.states| - 1]
      modifies state
      ensures algorithm.Contents() == FileLast(old(algorithm.Contents()), cmd)
    {
      ghost var after := FileLast(algorithm.Contents(), cmd);
      state.AddCommand(cmd);
      forall i | 0 <= i < |algorithm.states|
        ensures algorithm.Contents()[i] == after[i]
      {
        if i != |algorithm.states| - 1 {
          assert algorithm.states[i] != state;
        }
      }
    }

    /** `Read` over the lines of the file: starts with one empty state. */
    method Read(lines: seq<string>) returns (r: Result<Algorithm, ReadError>)
      modifies this`position
      ensures r.Ok? <==> ReadFrom(lines, old(position), [map[]]).Ok?
      ensures r.Err? ==> r.error == ReadFrom(lines, old(position), [map[]]).error
      ensures r.Ok? ==> fresh(r.value) && r.value.Valid() && r.value.Contents() == ReadFrom(lines, old(position), [map[]]).value
    {
      var algorithm := new Algorithm();
      var first := new State();
      algorithm.AddState(first);
      var stateCount := 0;
      var k := 0;
      assert lines[0..] == lines;
      assert algorithm.Contents() == [map[]];
      while k < |lines|
        invariant 0 <= k <= |lines|
        invariant fresh(algorithm) && algorithm.Valid()
        invariant |algorithm.states| == stateCount + 1
        invariant fresh(algorithm.states[stateCount])
        invariant ReadFrom(lines, old(position), [map[]]) == ReadFrom(lines[k..], position, algorithm.Contents())
      {
        var line := lines[k];
        ghost var before := algorithm.Contents();
        ghost var p := position;
        if |line| == 0 {
          assert ReadFrom(lines[k..], p, before) == ReadFrom(lines[k + 1..], p, before + [map[]]) by {
            ReadFromUnfold(lines, k, p, before);
          }
          var state := new State();
          assert state !in algorithm.states;
          algorithm.AddState(state);
          stateCount := stateCount + 1;
        } else {
          var command := ReadCommandLine(algorithm, stateCount, line);
          if command.Err? {
            assert ReadFrom(lines[k..], p, before) == Err(command.error) by {
              ReadFromUnfold(lines, k, p, before);
            }
            return Err(command.error);
          }
          assert ReadFrom(lines[k..], p, before) == ReadFrom(lines[k + 1..], 0, FileLast(before, command.value)) by {
            ReadFromUnfold(lines, k, p, before);
          }
        }
        k := k + 1;
      }
      return Ok(algorithm);
    }
  }
}
