/** The loader of the Rust interpreter: the `Parser` with its word cursor, which
    turns each source line into one `Command`.

    A panic of the original becomes `Err` with a typed reason. The pure
    functions `NextTokenAt`, `TokenizeFrom`, `ParseCommandAt` and
    `ParseLinesFrom` say what the `Parser` methods compute, including where the
    cursor stands afterwards; the lemmas state what the loader promises. */
module SasmParser {
  import opened Wrappers
  import opened Numbers
  import opened Text

  datatype Token =
    | Eof
    | Erase
    | Goto(v: i32)
    | Halt
    | If(v: i32)
    | Illegal(word: string)
    | Movel(v: i32)
    | Mover(v: i32)
    | Operand(v: i32)
    | Write(v: i32)

  /** One source line: the guard (if any) and the body, then the terminator. */
  datatype Command = Command(toDo: seq<Token>, inEnd: Token)

  datatype ParseError =
    | MissingOperand(keyword: string)      // an argument keyword not followed by a number
    | MisplacedOperand(value: i32)         // a number where an instruction was expected
    | NotAnInstruction(word: string)       // an unknown word
    | LengthUnderflow                      // `tokens.len() - 1` on a line without tokens
    | SliceIndexOrder                      // `tokens[1 .. 0]` on a line with one token
    | IfNotAtStart(token: Token)           // a guard strictly inside the line
    | TerminatorNotAtEnd(token: Token)     // a goto or halt strictly inside the line
    | MissingTerminator                    // the last token is neither goto nor halt

  /** `str::parse::<i32>`. */
  function ParseI32(w: string): (r: Option<i32>)
  {
    match ParseIntIn(w, I32_MIN, I32_MAX)
    case Some(n) => Some(n)
    case None => None
  }

  predicate IsArgKeyword(w: string)
  {
    w == "if" || w == "write" || w == "mover" || w == "movel" || w == "goto"
  }

  function ArgToken(keyword: string, v: i32): Token
    requires IsArgKeyword(keyword)
  {
    if keyword == "if" then If(v)
    else if keyword == "write" then Write(v)
    else if keyword == "mover" then Mover(v)
    else if keyword == "movel" then Movel(v)
    else Goto(v)
  }

  /** A token that `tokenize` keeps: everything but `Eof`, `Operand` and `Illegal`. */
  predicate IsInstruction(t: Token) { !(t.Eof? || t.Operand? || t.Illegal?) }

  /** A token that may only start (`If`) or end (`Goto`, `Halt`) a line. */
  predicate IsControl(t: Token) { t.If? || t.Goto? || t.Halt? }

  predicate IsTerminator(t: Token) { t.Goto? || t.Halt? }

  // ---------------------------------------------------------------------------
  // Specification of the cursor-driven tokenizer

  /** `next_token` started with the cursor at `p`: the token (or the panic) and
      the cursor afterwards. An argument keyword fetches its operand by a
      recursive call. */
  function NextTokenAt(lexemes: seq<string>, p: nat): (res: (Result<Token, ParseError>, nat))
    ensures p >= |lexemes| ==> res == (Ok(Eof), p)
    ensures p < |lexemes| ==> p < res.1 <= |lexemes|
    decreases |lexemes| - p
  {
    if p >= |lexemes| then (Ok(Eof), p)
    else
      var lexeme := lexemes[p];
      match ParseI32(lexeme)
      case Some(n) => (Ok(Operand(n)), p + 1)
      case None =>
        if IsArgKeyword(lexeme) then
          var (next, q) := NextTokenAt(lexemes, p + 1);
          if next.Err? then (next, q)
          else if next.value.Operand? then (Ok(ArgToken(lexeme, next.value.v)), q)
          else (Err(MissingOperand(lexeme)), q)
        else if lexeme == "erase" then (Ok(Erase), p + 1)
        else if lexeme == "halt" then (Ok(Halt), p + 1)
        else (Ok(Illegal(lexeme)), p + 1)
  }

  /** `tokenize` started with the cursor at `p`. */
  function TokenizeFrom(lexemes: seq<string>, p: nat): (res: (Result<seq<Token>, ParseError>, nat))
    ensures res.0.Ok? ==> res.1 == if p <= |lexemes| then |lexemes| else p
    decreases |lexemes| - p
  {
    var (r, q) := NextTokenAt(lexemes, p);
    match r
    case Err(e) => (Err(e), q)
    case Ok(t) =>
      if t.Eof? then (Ok([]), q)
      else if t.Operand? then (Err(MisplacedOperand(t.v)), q)
      else if t.Illegal? then (Err(NotAnInstruction(t.word)), q)
      else
        var (rest, q') := TokenizeFrom(lexemes, q);
        (Prepend([t], rest), q')
  }

  /** The first token of the inner part of a line that may not stand there. */
  function Misplaced(middle: seq<Token>): (r: Option<ParseError>)
    ensures r.Some? ==> middle != []
    decreases |middle|
  {
    if middle == [] then None
    else if middle[0].If? then Some(IfNotAtStart(middle[0]))
    else if middle[0].Halt? || middle[0].Goto? then Some(TerminatorNotAtEnd(middle[0]))
    else Misplaced(middle[1..])
  }

  /** The checks of `parse_command` on a tokenized line. A line is accepted
      exactly when it has at least two tokens, nothing strictly inside it is a
      guard or a terminator, and it ends with a terminator; the command then
      holds every token but the last, in order, and the last as terminator. The
      first token is not checked (see `BuildCommandChecks`). */
  function BuildCommand(tokens: seq<Token>): (r: Result<Command, ParseError>)
    ensures r.Ok? ==> |r.value.toDo| + 1 == |tokens|
  {
    if |tokens| == 0 then Err(LengthUnderflow)
    else if |tokens| == 1 then Err(SliceIndexOrder)
    else
      match Misplaced(tokens[1..|tokens| - 1])
      case Some(e) => Err(e)
      case None =>
        var last := tokens[|tokens| - 1];
        if last.Goto? || last.Halt? then Ok(Command(tokens[..|tokens| - 1], last))
        else Err(MissingTerminator)
  }

  /** `parse_command` started with the cursor at `p`. */
  function ParseCommandAt(lexemes: seq<string>, p: nat): (Result<Command, ParseError>, nat)
  {
    var (r, q) := TokenizeFrom(lexemes, p);
    (if r.Ok? then BuildCommand(r.value) else Err(r.error), q)
  }

  /** The command line `i` yields, or why it fails: `parse_algorithm` reads the
      first line from the cursor position `p` the parser had, every later one
      from 0. */
  function LineResult(lines: seq<string>, p: nat, i: nat): Result<Command, ParseError>
    requires i < |lines|
  {
    ParseCommandAt(Words(lines[i]), if i == 0 then p else 0).0
  }

  function LineResults(lines: seq<string>, p: nat): seq<Result<Command, ParseError>>
  {
    seq(|lines|, i requires 0 <= i < |lines| => LineResult(lines, p, i))
  }

  /** The error of the first failing line, or else the commands of all lines. */
  function FirstFailure(rs: seq<Result<Command, ParseError>>): (r: Result<seq<Command>, ParseError>)
    ensures r.Ok? ==> |r.value| == |rs|
    decreases |rs|
  {
    if rs == [] then Ok([])
    else if rs[0].Err? then Err(rs[0].error)
    else Prepend([rs[0].value], FirstFailure(rs[1..]))
  }

  /** `FirstFailure` succeeds exactly when every result does, and then holds
      their values in order; otherwise its error is that of a failing result,
      the first one. */
  lemma {:induction false} FirstFailureIsFirst(rs: seq<Result<Command, ParseError>>)
    ensures FirstFailure(rs).Ok? <==> forall i | 0 <= i < |rs| :: rs[i].Ok?
    ensures FirstFailure(rs).Ok? ==> forall i | 0 <= i < |rs| :: FirstFailure(rs).value[i] == rs[i].value
    ensures FirstFailure(rs).Err? ==> exists i | 0 <= i < |rs| ::
      rs[i].Err? && FirstFailure(rs).error == rs[i].error && forall j | 0 <= j < i :: rs[j].Ok?
    decreases |rs|
  {
    if rs != [] && rs[0].Ok? {
      var rest := rs[1..];
      FirstFailureIsFirst(rest);
      forall i | 1 <= i < |rs| ensures rs[i] == rest[i - 1] { }
      if FirstFailure(rest).Err? {
        var i :| 0 <= i < |rest| && rest[i].Err? && FirstFailure(rest).error == rest[i].error
          && forall j | 0 <= j < i :: rest[j].Ok?;
        assert rs[i + 1] == rest[i];
      } else {
        assert FirstFailure(rs).value == [rs[0].value] + FirstFailure(rest).value;
      }
    }
  }

  /** `parse_algorithm` over the given lines. */
  function ParseLinesFrom(lines: seq<string>, p: nat): Result<seq<Command>, ParseError>
  {
    FirstFailure(LineResults(lines, p))
  }

  /** `Misplaced` finds nothing exactly when no token is a guard or a
      terminator. */
  lemma {:induction false} MisplacedFindsControl(middle: seq<Token>)
    ensures Misplaced(middle).None? <==> forall i | 0 <= i < |middle| :: !IsControl(middle[i])
    decreases |middle|
  {
    if middle != [] && !IsControl(middle[0]) {
      MisplacedFindsControl(middle[1..]);
      forall i | 1 <= i < |middle| ensures middle[i] == middle[1..][i - 1] { }
    }
  }

  /** A line is accepted exactly when it has at least two tokens, nothing
      strictly inside it is a guard or a terminator, and it ends with a
      terminator; the command then holds the tokens in order. No token
      leaves `LengthUnderflow`, one leaves `SliceIndexOrder`. */
  lemma BuildCommandChecks(tokens: seq<Token>)
    ensures BuildCommand(tokens).Ok? <==>
      && |tokens| >= 2
      && (forall i | 1 <= i < |tokens| - 1 :: !IsControl(tokens[i]))
      && IsTerminator(tokens[|tokens| - 1])
    ensures BuildCommand(tokens).Ok? ==> BuildCommand(tokens).value.toDo + [BuildCommand(tokens).value.inEnd] == tokens
    ensures |tokens| == 0 ==> BuildCommand(tokens) == Err(LengthUnderflow)
    ensures |tokens| == 1 ==> BuildCommand(tokens) == Err(SliceIndexOrder)
  {
    if |tokens| >= 2 {
      var middle := tokens[1..|tokens| - 1];
      MisplacedFindsControl(middle);
      forall i | 1 <= i < |tokens| - 1 ensures tokens[i] == middle[i - 1] { }
    }
  }

  /** `tokenize` keeps only instructions. */
  lemma {:induction false} TokenizedAreInstructions(lexemes: seq<string>, p: nat)
    requires TokenizeFrom(lexemes, p).0.Ok?
    ensures forall i | 0 <= i < |TokenizeFrom(lexemes, p).0.value| :: IsInstruction(TokenizeFrom(lexemes, p).0.value[i])
    decreases |lexemes| - p
  {
    var (r, q) := NextTokenAt(lexemes, p);
    if r.value != Eof {
      TokenizeUnfold(lexemes, p);
      TokenizedAreInstructions(lexemes, q);
      var rest := TokenizeFrom(lexemes, q).0.value;
      assert TokenizeFrom(lexemes, p).0.value == [r.value] + rest;
    }
  }

  /** One round of `tokenize`: a kept token is followed by the rest of the line. */
  lemma TokenizeUnfold(lexemes: seq<string>, p: nat)
    requires NextTokenAt(lexemes, p).0.Ok? && IsInstruction(NextTokenAt(lexemes, p).0.value)
    ensures var (t, q) := (NextTokenAt(lexemes, p).0.value, NextTokenAt(lexemes, p).1);
      && TokenizeFrom(lexemes, p).0 == Prepend([t], TokenizeFrom(lexemes, q).0)
      && TokenizeFrom(lexemes, p).1 == TokenizeFrom(lexemes, q).1
  {
  }

  /** One round of `parse_algorithm`: a failing line ends the load, a line that
      parses is followed by the rest. */
  lemma FirstFailureUnfold(rs: seq<Result<Command, ParseError>>, k: nat)
    requires k < |rs|
    ensures rs[k].Err? ==> FirstFailure(rs[k..]) == Err(rs[k].error)
    ensures rs[k].Ok? ==> FirstFailure(rs[k..]) == Prepend([rs[k].value], FirstFailure(rs[k + 1..]))
  {
    assert rs[k..][0] == rs[k] && rs[k..][1..] == rs[k + 1..];
  }

  // ---------------------------------------------------------------------------
  // What the loader promises

  /** A word that starts with a letter is never a number. */
  lemma LetterWordIsNotNumber(w: string)
    requires |w| > 0 && IsLetter(w[0])
    ensures ParseI32(w).None? && ParseSigned(w).None?
  {
    assert !IsDigit(w[0]);
  }

  /** Only a numeral yields an `Operand`, and it takes exactly one word. */
  lemma OperandComesFromNumeral(lexemes: seq<string>, p: nat)
    requires NextTokenAt(lexemes, p).0.Ok? && NextTokenAt(lexemes, p).0.value.Operand?
    ensures p < |lexemes| && ParseI32(lexemes[p]) == Some(NextTokenAt(lexemes, p).0.value.v)
    ensures NextTokenAt(lexemes, p).1 == p + 1
  {
  }

  /** How `next_token` classifies the word under the cursor (matching is
      case-sensitive): a numeral is an `Operand`; an argument keyword takes the
      following word as its operand and fails unless that word is a numeral;
      `erase` and `halt` take one word; any other word is `Illegal`. */
  lemma NextTokenClassifies(lexemes: seq<string>, p: nat)
    requires p < |lexemes|
    ensures var (r, q) := NextTokenAt(lexemes, p);
      var w := lexemes[p];
      && (ParseI32(w).Some? ==> r == Ok(Operand(ParseI32(w).value)) && q == p + 1)
      && (IsArgKeyword(w) && p + 1 < |lexemes| && ParseI32(lexemes[p + 1]).Some? ==>
            r == Ok(ArgToken(w, ParseI32(lexemes[p + 1]).value)) && q == p + 2)
      && (IsArgKeyword(w) && (p + 1 == |lexemes| || ParseI32(lexemes[p + 1]).None?) ==> r.Err?)
      && (w == "erase" ==> r == Ok(Erase) && q == p + 1)
      && (w == "halt" ==> r == Ok(Halt) && q == p + 1)
      && (ParseI32(w).None? && !IsArgKeyword(w) && w != "erase" && w != "halt" ==>
            r == Ok(Illegal(w)) && q == p + 1)
  {
    var w := lexemes[p];
    if IsArgKeyword(w) || w == "erase" || w == "halt" {
      LetterWordIsNotNumber(w);
    }
    if IsArgKeyword(w) && p + 1 < |lexemes| {
      var (next, q) := NextTokenAt(lexemes, p + 1);
      if next.Ok? && next.value.Operand? {
        OperandComesFromNumeral(lexemes, p + 1);
      }
    }
  }

  /** `tokenize` makes at most one token per word it reads. */
  lemma {:induction false} TokenCountBound(lexemes: seq<string>, p: nat)
    requires p <= |lexemes| && TokenizeFrom(lexemes, p).0.Ok?
    ensures |TokenizeFrom(lexemes, p).0.value| <= |lexemes| - p
    decreases |lexemes| - p
  {
    var (r, q) := NextTokenAt(lexemes, p);
    if r.value != Eof {
      TokenizeUnfold(lexemes, p);
      TokenCountBound(lexemes, q);
    }
  }

  /** A word `next_token` does not know: neither an i32 numeral nor a
      keyword. */
  predicate IsUnknownWord(w: string)
  {
    ParseI32(w).None? && !IsArgKeyword(w) && w != "erase" && w != "halt"
  }

  /** Reading one token from before an unknown word at `i` fails, stops on
      that word as `Illegal`, or stops at or before it. */
  lemma {:induction false} NextTokenPastUnknown(lexemes: seq<string>, p: nat, i: nat)
    requires p <= i < |lexemes| && IsUnknownWord(lexemes[i])
    ensures var (r, q) := NextTokenAt(lexemes, p);
      r.Err? || (r.value.Illegal? && p == i) || q <= i
    decreases i - p
  {
    if p < i && IsArgKeyword(lexemes[p]) {
      LetterWordIsNotNumber(lexemes[p]);
      NextTokenPastUnknown(lexemes, p + 1, i);
    }
  }

  /** An unknown word anywhere from the cursor on makes the line fail, either
      on its own or as the missing operand of the keyword before it. */
  lemma {:induction false} UnknownWordFailsLine(lexemes: seq<string>, p: nat, i: nat)
    requires p <= i < |lexemes| && IsUnknownWord(lexemes[i])
    ensures TokenizeFrom(lexemes, p).0.Err?
    decreases i - p
  {
    var (r, q) := NextTokenAt(lexemes, p);
    NextTokenPastUnknown(lexemes, p, i);
    if r.Ok? && IsInstruction(r.value) {
      TokenizeUnfold(lexemes, p);
      UnknownWordFailsLine(lexemes, q, i);
    }
  }

  /** A line with fewer than two words cannot be loaded: a blank line or a lone
      `halt` is rejected. */
  lemma {:induction false} ShortLineRejected(lexemes: seq<string>, p: nat)
    requires |lexemes| <= 1
    ensures ParseCommandAt(lexemes, p).0.Err?
  {
    if p <= |lexemes| && TokenizeFrom(lexemes, p).0.Ok? {
      TokenCountBound(lexemes, p);
    }
  }

  /** A line made only of white space fails on the empty token list. */
  lemma BlankLineRejected(line: string, p: nat)
    requires forall i | 0 <= i < |line| :: IsSpace(line[i])
    ensures ParseCommandAt(Words(line), p).0 == Err(LengthUnderflow)
  {
    BlankHasNoWords(line);
  }

  /** What a parsed command looks like: a non-empty `toDo` of instructions in
      which only the first may be a guard or a terminator, then a terminator. */
  predicate WellFormed(c: Command)
  {
    && |c.toDo| >= 1
    && (forall i | 0 <= i < |c.toDo| :: IsInstruction(c.toDo[i]))
    && (forall i | 1 <= i < |c.toDo| :: !IsControl(c.toDo[i]))
    && IsTerminator(c.inEnd)
  }

  lemma ParsedCommandIsWellFormed(lexemes: seq<string>, p: nat)
    requires ParseCommandAt(lexemes, p).0.Ok?
    ensures WellFormed(ParseCommandAt(lexemes, p).0.value)
  {
    var ts := TokenizeFrom(lexemes, p).0.value;
    var c := ParseCommandAt(lexemes, p).0.value;
    TokenizedAreInstructions(lexemes, p);
    BuildCommandChecks(ts);
    forall i | 0 <= i < |c.toDo|
      ensures IsInstruction(c.toDo[i]) && (i >= 1 ==> !IsControl(c.toDo[i]))
    {
      assert c.toDo[i] == ts[i];
    }
  }

  /** Loading succeeds exactly when every line parses on its own, and then it
      yields one command per line, in line order. */
  lemma LoadIsLineByLine(lines: seq<string>, p: nat)
    ensures ParseLinesFrom(lines, p).Ok? <==> forall i | 0 <= i < |lines| :: LineResult(lines, p, i).Ok?
    ensures ParseLinesFrom(lines, p).Ok? ==>
      && |ParseLinesFrom(lines, p).value| == |lines|
      && forall i | 0 <= i < |lines| :: ParseLinesFrom(lines, p).value[i] == LineResult(lines, p, i).value
  {
    var rs := LineResults(lines, p);
    FirstFailureIsFirst(rs);
    assert |rs| == |lines| && forall i | 0 <= i < |lines| :: rs[i] == LineResult(lines, p, i);
  }

  /** One line that cannot hold a command makes the whole load fail. */
  lemma ShortLineFailsLoad(lines: seq<string>, p: nat, i: nat)
    requires i < |lines| && |Words(lines[i])| <= 1
    ensures ParseLinesFrom(lines, p).Err?
  {
    ShortLineRejected(Words(lines[i]), if i == 0 then p else 0);
    FirstFailureIsFirst(LineResults(lines, p));
    assert LineResults(lines, p)[i].Err?;
  }

  // ---------------------------------------------------------------------------
  // Round trip: printing commands as source text and loading that text gives
  // the same commands back.

  function RenderToken(t: Token): (ws: seq<string>)
    requires IsInstruction(t)
  {
    match t
    case Erase => ["erase"]
    case Halt => ["halt"]
    case If(v) => ["if", Render(v)]
    case Write(v) => ["write", Render(v)]
    case Mover(v) => ["mover", Render(v)]
    case Movel(v) => ["movel", Render(v)]
    case Goto(v) => ["goto", Render(v)]
  }

  function RenderTokens(ts: seq<Token>): seq<string>
    requires forall i | 0 <= i < |ts| :: IsInstruction(ts[i])
    decreases |ts|
  {
    if ts == [] then [] else RenderToken(ts[0]) + RenderTokens(ts[1..])
  }

  /** A printed token starts with its keyword, followed by the operand exactly
      when the keyword takes one. */
  lemma RenderedKeyword(t: Token)
    requires IsInstruction(t)
    ensures var ws := RenderToken(t);
      && 1 <= |ws| <= 2 && |ws[0]| > 0 && IsLetter(ws[0][0])
      && (|ws| == 2 <==> IsArgKeyword(ws[0]))
      && (|ws| == 2 ==> ArgToken(ws[0], t.v) == t && ws[1] == Render(t.v))
      && (|ws| == 1 ==> (ws[0] == "erase" && t == Erase) || (ws[0] == "halt" && t == Halt))
  {
  }

  lemma NextTokenOfRendered(lexemes: seq<string>, p: nat, t: Token)
    requires IsInstruction(t)
    requires p + |RenderToken(t)| <= |lexemes|
    requires lexemes[p..p + |RenderToken(t)|] == RenderToken(t)
    ensures NextTokenAt(lexemes, p) == (Ok(t), p + |RenderToken(t)|)
  {
    var ws := RenderToken(t);
    RenderedKeyword(t);
    assert lexemes[p] == ws[0];
    LetterWordIsNotNumber(ws[0]);
    if |ws| == 2 {
      assert lexemes[p + 1] == ws[1];
      RenderParses(t.v);
      assert ParseI32(ws[1]) == Some(t.v);
      assert NextTokenAt(lexemes, p + 1) == (Ok(Operand(t.v)), p + 2);
    }
  }

  lemma {:induction false} TokenizeRendered(lexemes: seq<string>, p: nat, ts: seq<Token>)
    requires forall i | 0 <= i < |ts| :: IsInstruction(ts[i])
    requires p <= |lexemes| && lexemes[p..] == RenderTokens(ts)
    ensures TokenizeFrom(lexemes, p) == (Ok(ts), |lexemes|)
    decreases |ts|
  {
    if ts == [] {
      assert |lexemes[p..]| == 0;
    } else {
      var k := |RenderToken(ts[0])|;
      assert lexemes[p..][..k] == RenderToken(ts[0]);
      assert lexemes[p..p + k] == lexemes[p..][..k];
      NextTokenOfRendered(lexemes, p, ts[0]);
      assert lexemes[p + k..] == lexemes[p..][k..];
      TokenizeRendered(lexemes, p + k, ts[1..]);
      TokenizeUnfold(lexemes, p);
      assert [ts[0]] + ts[1..] == ts;
    }
  }

  function RenderCommand(c: Command): seq<string>
    requires WellFormed(c)
  {
    RenderTokens(c.toDo + [c.inEnd])
  }

  lemma CommandRoundTrip(c: Command)
    requires WellFormed(c)
    ensures ParseCommandAt(RenderCommand(c), 0) == (Ok(c), |RenderCommand(c)|)
  {
    var ts := c.toDo + [c.inEnd];
    TokenizeRendered(RenderCommand(c), 0, ts);
    BuildCommandChecks(ts);
    assert ts[..|ts| - 1] == c.toDo;
    var middle := ts[1..|ts| - 1];
    forall i | 0 <= i < |middle|
      ensures !IsControl(middle[i])
    {
      assert middle[i] == c.toDo[i + 1];
    }
  }

  lemma RenderedWordsArePlain(t: Token)
    requires IsInstruction(t)
    ensures forall i | 0 <= i < |RenderToken(t)| :: |RenderToken(t)[i]| > 0 && NoSpace(RenderToken(t)[i])
  {
    if |RenderToken(t)| == 2 {
      RenderIsWord(t.v);
    }
  }

  lemma {:induction false} RenderedTokensArePlain(ts: seq<Token>)
    requires forall i | 0 <= i < |ts| :: IsInstruction(ts[i])
    ensures forall i | 0 <= i < |RenderTokens(ts)| :: |RenderTokens(ts)[i]| > 0 && NoSpace(RenderTokens(ts)[i])
    decreases |ts|
  {
    if ts != [] {
      RenderedWordsArePlain(ts[0]);
      RenderedTokensArePlain(ts[1..]);
    }
  }

  /** The source line of a command: its words separated by single spaces. */
  function SourceLine(c: Command): string
    requires WellFormed(c)
  {
    Join(RenderCommand(c), ' ')
  }

  function SourceLines(cs: seq<Command>): seq<string>
    requires forall i | 0 <= i < |cs| :: WellFormed(cs[i])
  {
    seq(|cs|, i requires 0 <= i < |cs| => SourceLine(cs[i]))
  }

  /** Printing well-formed commands one per line and loading the text gives the
      same commands. */
  lemma ProgramRoundTrip(cs: seq<Command>)
    requires forall i | 0 <= i < |cs| :: WellFormed(cs[i])
    ensures ParseLinesFrom(Lines(Unlines(SourceLines(cs))), 0) == Ok(cs)
  {
    var ls := SourceLines(cs);
    forall i | 0 <= i < |ls|
      ensures PlainLine(ls[i]) && Words(ls[i]) == RenderCommand(cs[i])
    {
      RenderedTokensArePlain(cs[i].toDo + [cs[i].inEnd]);
      JoinedWordsArePlain(RenderCommand(cs[i]));
      WordsOfJoin(RenderCommand(cs[i]));
    }
    LinesOfUnlines(ls);
    LoadIsLineByLine(ls, 0);
    forall i | 0 <= i < |ls|
      ensures LineResult(ls, 0, i) == Ok(cs[i])
    {
      CommandRoundTrip(cs[i]);
    }
    assert ParseLinesFrom(ls, 0).value == cs;
  }

  /** The first token of a line is not checked: a line that starts with a
      terminator loads, and the terminator lands in `toDo`. */
  lemma LeadingTerminatorLoads()
    ensures ParseCommandAt(["goto", "1", "halt"], 0).0 == Ok(Command([Goto(1)], Halt))
  {
    var lexemes := ["goto", "1", "halt"];
    assert Render(1) == "1";
    NextTokenOfRendered(lexemes, 0, Goto(1));
    NextTokenOfRendered(lexemes, 2, Halt);
    TokenizeUnfold(lexemes, 0);
    TokenizeUnfold(lexemes, 2);
    assert TokenizeFrom(lexemes, 3).0 == Ok([]);
    assert [Halt] + [] == [Halt];
    assert TokenizeFrom(lexemes, 2).0 == Prepend([Halt], Ok([]));
    assert TokenizeFrom(lexemes, 0).0 == Ok([Goto(1)] + [Halt]);
  }

  // ---------------------------------------------------------------------------
  // The parser object

  class Parser {
    var lexemes: seq<string>
    var pointer: nat

    constructor ()
      ensures lexemes == [] && pointer == 0
    {
      lexemes := [];
      pointer := 0;
    }

    method NextToken() returns (r: Result<Token, ParseError>)
      modifies this`pointer
      ensures (r, pointer) == NextTokenAt(lexemes, old(pointer))
      decreases |lexemes| - pointer
    {
      if pointer >= |lexemes| {
        return Ok(Eof);
      }
      var lexeme := lexemes[pointer];
      pointer := pointer + 1;
      var number := ParseI32(lexeme);
      if number.Some? {
        return Ok(Operand(number.value));
      }
      if IsArgKeyword(lexeme) {
        var next := NextToken();
        if next.Err? {
          return next;
        }
        if !next.value.Operand? {
          return Err(MissingOperand(lexeme));
        }
        return Ok(ArgToken(lexeme, next.value.v));
      } else if lexeme == "erase" {
        return Ok(Erase);
      } else if lexeme == "halt" {
        return Ok(Halt);
      } else {
        return Ok(Illegal(lexeme));
      }
    }

    method Tokenize() returns (r: Result<seq<Token>, ParseError>)
      modifies this`pointer
      ensures r == TokenizeFrom(lexemes, old(pointer)).0
      ensures pointer == TokenizeFrom(lexemes, old(pointer)).1
    {
      var tokens: seq<Token> := [];
      PrependNothing(TokenizeFrom(lexemes, pointer).0);
      while true
        invariant TokenizeFrom(lexemes, old(pointer)).0 == Prepend(tokens, TokenizeFrom(lexemes, pointer).0)
        invariant TokenizeFrom(lexemes, old(pointer)).1 == TokenizeFrom(lexemes, pointer).1
        decreases |lexemes| - pointer
      {
        ghost var before := pointer;
        var token := NextToken();
        if token.Err? {
          return Err(token.error);
        }
        var t := token.value;
        if t.Eof? {
          assert tokens + [] == tokens;
          return Ok(tokens);
        } else if t.Operand? {
          return Err(MisplacedOperand(t.v));
        } else if t.Illegal? {
          return Err(NotAnInstruction(t.word));
        }
        TokenizeUnfold(lexemes, before);
        PrependTwice(tokens, [t], TokenizeFrom(lexemes, pointer).0);
        tokens := tokens + [t];
      }
    }

    method ParseCommand() returns (r: Result<Command, ParseError>)
      modifies this`pointer
      ensures (r, pointer) == ParseCommandAt(lexemes, old(pointer))
    {
      var tokenized := Tokenize();
      if tokenized.Err? {
        return Err(tokenized.error);
      }
      var tokens := tokenized.value;
      if |tokens| == 0 {
        return Err(LengthUnderflow);
      }
      if |tokens| == 1 {
        return Err(SliceIndexOrder);
      }
      var i := 1;
      while i < |tokens| - 1
        invariant 1 <= i <= |tokens| - 1
        invariant Misplaced(tokens[1..|tokens| - 1]) == Misplaced(tokens[i..|tokens| - 1])
      {
        var token := tokens[i];
        assert tokens[i..|tokens| - 1][0] == token;
        assert tokens[i..|tokens| - 1][1..] == tokens[i + 1..|tokens| - 1];
        if token.If? {
          return Err(IfNotAtStart(token));
        } else if token.Halt? || token.Goto? {
          return Err(TerminatorNotAtEnd(token));
        }
        i := i + 1;
      }
      var last := tokens[|tokens| - 1];
      tokens := tokens[..|tokens| - 1];
      if last.Goto? || last.Halt? {
        return Ok(Command(tokens, last));
      }
      return Err(MissingTerminator);
    }

    /** One command per line, in line order; the first failing line fails the
        whole load. */
    method ParseAlgorithm(algorithm: string) returns (r: Result<seq<Command>, ParseError>)
      modifies this
      ensures r == ParseLinesFrom(Lines(algorithm), old(pointer))
      ensures r.Ok? && Lines(algorithm) != [] ==>
        pointer == 0 && lexemes == Words(Lines(algorithm)[|Lines(algorithm)| - 1])
      ensures r.Ok? && Lines(algorithm) == [] ==>
        pointer == old(pointer) && lexemes == old(lexemes)
    {
      var commands: seq<Command> := [];
      var lines := Lines(algorithm);
      ghost var results := LineResults(lines, old(pointer));
      var k := 0;
      assert results[0..] == results;
      PrependNothing(FirstFailure(results));
      while k < |lines|
        invariant 0 <= k <= |lines|
        invariant FirstFailure(results) == Prepend(commands, FirstFailure(results[k..]))
        invariant k == 0 ==> pointer == old(pointer) && lexemes == old(lexemes)
        invariant k > 0 ==> pointer == 0 && lexemes == Words(lines[k - 1])
      {
        lexemes := Words(lines[k]);
        var command := ParseCommand();
        assert command == results[k];
        FirstFailureUnfold(results, k);
        if command.Err? {
          return Err(command.error);
        }
        PrependTwice(commands, [command.value], FirstFailure(results[k + 1..]));
        commands := commands + [command.value];
        pointer := 0;
        k := k + 1;
      }
      assert results[k..] == [];
      assert commands + [] == commands;
      return Ok(commands);
    }
  }
}
