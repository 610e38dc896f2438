/** The character-level lexer of the Go `turingmach` interpreter. A command
    text is a run of instruction words; `write`, `mover` and `movel` may be
    followed by a number that replaces their default operand (0 for
    `write`, 1 for the moves). Numbers never make tokens of their own.

    `LexFrom` follows the `Tokenize` loop character by character and is what
    the `Lexer` methods are proved against; `LexWords` is an independent
    word-level grammar (an instruction word, then an optional number), and
    `LexIsWordLevel` shows the two agree. */
module TuringLexer {
  import opened Wrappers
  import opened Numbers
  import opened Text

  /** `NONE` is the empty type of Go's zero `Token{}`, the lexer's initial
      previous token. */
  datatype TokenType = NONE | ERASE | WRITE | MOVER | MOVEL | HALT | OPERAND

  datatype Token = Token(kind: TokenType, value: int64)

  datatype LexError =
    | NotAnInstruction(word: string)        // a word starting with a letter that is no keyword
    | OperandNotAccepted(previous: TokenType) // a number after anything but write/mover/movel
    | BadOperand(word: string)              // a word starting with a digit that `Atoi` refuses
    | UnknownCharacter(c: char)             // neither a letter, a digit nor a space
    | NoTokenToUpdate                       // an operand with no token yet to give it to
    | PositionOutOfRange(position: int)     // a negative `Position`

  /** The keyword table of `tokenizeInstruction`, on the lower-cased word. */
  function Instruction(lower: string): (r: Option<Token>)
    ensures r.Some? ==> r.value.kind in {ERASE, WRITE, MOVER, MOVEL, HALT}
    ensures r.Some? ==> r.value.value == if r.value.kind in {MOVER, MOVEL} then 1 else 0
  {
    match lower
    case "write" => Some(Token(WRITE, 0))
    case "erase" => Some(Token(ERASE, 0))
    case "mover" => Some(Token(MOVER, 1))
    case "movel" => Some(Token(MOVEL, 1))
    case "halt" => Some(Token(HALT, 0))
    case _ => None
  }

  /** The instructions whose value an operand replaces. */
  predicate AcceptsOperand(k: TokenType) { k == WRITE || k == MOVER || k == MOVEL }

  /** What `strconv.Atoi` accepts keeps its value, and a word the lexer
      hands it (one led by a digit) never comes back negative. */
  lemma AtoiDigitLed(w: string)
    ensures Atoi(w).Some? ==> ParseSigned(w) == Some(Atoi(w).value as int)
    ensures Atoi(w).Some? && |w| > 0 && IsDigit(w[0]) ==> Atoi(w).value >= 0
  {
  }

  /** Where the word starting at `p` ends: the first space at or after `p`,
      or the end of the text. */
  function WordEnd(text: string, p: nat): (e: nat)
    requires p <= |text|
    ensures p <= e <= |text|
    ensures NoSpace(text[p..e])
    ensures e == |text| || IsSpace(text[e])
  {
    RunIsWord(text[p..]);
    assert text[p..][..RunLength(text[p..])] == text[p..p + RunLength(text[p..])];
    p + RunLength(text[p..])
  }

  /** `Tokenize` from position `p`, with the previous token's type and the
      tokens so far. An operand replaces the value of the last token. */
  function LexFrom(text: string, p: int, previous: TokenType, tokens: seq<Token>): Result<seq<Token>, LexError>
    decreases |text| - p
  {
    if p >= |text| then Ok(tokens)
    else if p < 0 then Err(PositionOutOfRange(p))
    else
      var c := text[p];
      if IsLetter(c) then
        var e := WordEnd(text, p);
        var word := text[p..e];
        match Instruction(ToLower(word))
        case None => Err(NotAnInstruction(word))
        case Some(t) => LexFrom(text, e, t.kind, tokens + [t])
      else if IsDigit(c) then
        if !AcceptsOperand(previous) then Err(OperandNotAccepted(previous))
        else
          var e := WordEnd(text, p);
          var word := text[p..e];
          match Atoi(word)
          case None => Err(BadOperand(word))
          case Some(n) =>
            if tokens == [] then Err(NoTokenToUpdate)
            else
              var last := |tokens| - 1;
              LexFrom(text, e, OPERAND, tokens[last := Token(tokens[last].kind, n)])
      else if IsSpace(c) then LexFrom(text, p + 1, previous, tokens)
      else Err(UnknownCharacter(c))
  }

  /** A fresh lexer's `Tokenize` over the whole text. */
  function Lex(text: string): Result<seq<Token>, LexError>
  {
    LexFrom(text, 0, NONE, [])
  }

  // ---------------------------------------------------------------------------
  // The word-level grammar

  /** The words `ws` after the instruction `t`: a number that follows an
      instruction taking an operand becomes its value. */
  function AfterInstruction(t: Token, ws: seq<string>): Result<seq<Token>, LexError>
    decreases |ws| + 1, 0
  {
    if |ws| > 0 && |ws[0]| > 0 && IsDigit(ws[0][0]) && AcceptsOperand(t.kind) then
      match Atoi(ws[0])
      case None => Err(BadOperand(ws[0]))
      case Some(n) => Prepend([Token(t.kind, n)], LexWords(ws[1..], OPERAND))
    else Prepend([t], LexWords(ws, t.kind))
  }

  /** A sequence of instruction words, each optionally followed by a number;
      `previous` is the type of what came before, for the error message. */
  function LexWords(ws: seq<string>, previous: TokenType): (r: Result<seq<Token>, LexError>)
    decreases |ws|, 1
  {
    if ws == [] then Ok([])
    else
      var w := ws[0];
      if w == [] then LexWords(ws[1..], previous)
      else if IsLetter(w[0]) then
        match Instruction(ToLower(w))
        case None => Err(NotAnInstruction(w))
        case Some(t) => AfterInstruction(t, ws[1..])
      else if IsDigit(w[0]) then Err(OperandNotAccepted(previous))
      else Err(UnknownCharacter(w[0]))
  }

  /** Every token is an instruction; `erase` and `halt` have value 0, and
      the others a value that is never negative, since an operand cannot
      carry a sign. */
  predicate Lexed(ts: seq<Token>)
  {
    forall i | 0 <= i < |ts| ::
      && ts[i].kind in {ERASE, WRITE, MOVER, MOVEL, HALT}
      && (if AcceptsOperand(ts[i].kind) then ts[i].value >= 0 else ts[i].value == 0)
  }

  /** How many words start with a letter. */
  function InstructionWords(ws: seq<string>): nat
  {
    if ws == [] then 0
    else (if |ws[0]| > 0 && IsLetter(ws[0][0]) then 1 else 0) + InstructionWords(ws[1..])
  }

  /** A successful lexing gives one instruction token per instruction word,
      and every token is `Lexed`. */
  lemma {:induction false} LexWordsShape(ws: seq<string>, previous: TokenType)
    ensures LexWords(ws, previous).Ok? ==>
      |LexWords(ws, previous).value| == InstructionWords(ws) && Lexed(LexWords(ws, previous).value)
    decreases |ws|
  {
    if ws != [] {
      var w := ws[0];
      if w == [] {
        LexWordsShape(ws[1..], previous);
      } else if IsLetter(w[0]) && Instruction(ToLower(w)).Some? {
        var t := Instruction(ToLower(w)).value;
        var rest := ws[1..];
        if |rest| > 0 && |rest[0]| > 0 && IsDigit(rest[0][0]) && AcceptsOperand(t.kind) {
          LexWordsShape(rest[1..], OPERAND);
          assert InstructionWords(rest) == InstructionWords(rest[1..]);
        } else {
          LexWordsShape(rest, t.kind);
        }
      }
    }
  }

  /** The words of the text from a position that is not inside a word. */
  lemma WordsFrom(text: string, p: nat)
    requires p < |text|
    ensures IsSpace(text[p]) ==> Words(text[p..]) == Words(text[p + 1..])
    ensures !IsSpace(text[p]) ==>
      Words(text[p..]) == [text[p..WordEnd(text, p)]] + Words(text[WordEnd(text, p)..])
  {
    var s := text[p..];
    assert s[1..] == text[p + 1..];
    var n := RunLength(s);
    assert s[..n] == text[p..p + n] && s[n..] == text[p + n..];
  }

  /** The character loop and the word grammar agree. After an operand or at
      the start nothing is pending; after an instruction `t`, an operand
      may still replace its value. */
  lemma {:induction false} LexFromIsWordLevel(text: string, p: nat, previous: TokenType, before: seq<Token>, t: Token)
    requires p <= |text|
    ensures !AcceptsOperand(previous) ==>
      LexFrom(text, p, previous, before) == Prepend(before, LexWords(Words(text[p..]), previous))
    ensures LexFrom(text, p, t.kind, before + [t]) == Prepend(before, AfterInstruction(t, Words(text[p..])))
    decreases |text| - p
  {
    var pending := before + [t];
    if p == |text| {
      assert text[p..] == [];
      assert [t] + [] == [t] && before + [] == before;
    } else {
      WordsFrom(text, p);
      var c := text[p];
      if IsSpace(c) {
        LexFromIsWordLevel(text, p + 1, previous, before, t);
      } else {
        var e := WordEnd(text, p);
        var word := text[p..e];
        var rest := Words(text[e..]);
        assert Words(text[p..]) == [word] + rest;
        assert word[0] == c;
        if IsLetter(c) {
          match Instruction(ToLower(word))
          case None =>
          case Some(u) =>
            LexFromIsWordLevel(text, e, previous, before, u);
            LexFromIsWordLevel(text, e, previous, pending, u);
            PrependTwice(before, [t], AfterInstruction(u, rest));
        } else if IsDigit(c) {
          if AcceptsOperand(t.kind) {
            match Atoi(word)
            case None =>
            case Some(n) =>
              var replaced := Token(t.kind, n);
              assert pending[|pending| - 1 := replaced] == before + [replaced];
              LexFromIsWordLevel(text, e, OPERAND, before + [replaced], t);
              PrependTwice(before, [replaced], LexWords(rest, OPERAND));
          }
        }
      }
    }
  }

  /** A fresh lexer reads the text as the word grammar does. */
  lemma LexIsWordLevel(text: string)
    ensures Lex(text) == LexWords(Words(text), NONE)
  {
    LexFromIsWordLevel(text, 0, NONE, [], Token(NONE, 0));
    assert text[0..] == text;
    PrependNothing(LexWords(Words(text), NONE));
  }

  /** `Tokenize` makes one token per instruction word, all `Lexed`: no
      token is a number, and no operand is negative. */
  lemma LexShape(text: string)
    ensures Lex(text).Ok? ==> |Lex(text).value| == InstructionWords(Words(text)) && Lexed(Lex(text).value)
  {
    LexIsWordLevel(text);
    LexWordsShape(Words(text), NONE);
  }

  /** A number with no instruction before it is refused. */
  lemma LeadingNumberRefused(n: nat)
    ensures Lex(Render(n)).Err?
  {
    RenderParses(n);
    RenderIsWord(n);
    var w := Render(n);
    assert IsDigit(w[0]);
    LexIsWordLevel(w);
    assert w[..RunLength(w)] == w && w[RunLength(w)..] == [];
    assert Words(w) == [w];
  }

  // ---------------------------------------------------------------------------
  // Round trip: writing tokens out and reading them back

  /** The words for one token; the operand is always written out. */
  function TokenWords(t: Token): seq<string>
  {
    if AcceptsOperand(t.kind) then [Keyword(t.kind), Render(t.value)] else [Keyword(t.kind)]
  }

  function RenderWords(ts: seq<Token>): seq<string>
    decreases |ts|
  {
    if ts == [] then [] else TokenWords(ts[0]) + RenderWords(ts[1..])
  }

  /** A command text for the tokens. */
  function RenderText(ts: seq<Token>): string
  {
    Join(RenderWords(ts), ' ')
  }

  lemma {:induction false} RenderWordsArePlain(ts: seq<Token>)
    requires Lexed(ts)
    ensures forall i | 0 <= i < |RenderWords(ts)| :: |RenderWords(ts)[i]| > 0 && NoSpace(RenderWords(ts)[i])
    decreases |ts|
  {
    if ts != [] {
      RenderIsWord(ts[0].value);
      LexedTail(ts);
      RenderWordsArePlain(ts[1..]);
    }
  }

  /** The words of tokens start with an instruction word. */
  lemma RenderWordsStartWithKeyword(ts: seq<Token>)
    ensures RenderWords(ts) != [] ==> RenderWords(ts)[0] == Keyword(ts[0].kind)
  {
  }

  lemma LexedTail(ts: seq<Token>)
    requires ts != [] && Lexed(ts)
    ensures Lexed(ts[1..])
  {
    forall i | 0 <= i < |ts| - 1 ensures ts[1..][i] == ts[i + 1] { }
  }

  /** The keyword each instruction is written as. */
  function Keyword(k: TokenType): (w: string)
    ensures |w| > 0 && IsLetter(w[0]) && ToLower(w) == w
  {
    match k
    case ERASE => "erase"
    case WRITE => "write"
    case MOVER => "mover"
    case MOVEL => "movel"
    case _ => "halt"
  }

  /** The grammar reads an instruction with an operand back from its two
      words. */
  lemma LexOperandWords(t: Token, more: seq<string>, previous: TokenType)
    requires AcceptsOperand(t.kind) && t.value >= 0
    ensures LexWords([Keyword(t.kind), Render(t.value)] + more, previous) ==
      Prepend([t], LexWords(more, OPERAND))
  {
    var ws := [Keyword(t.kind), Render(t.value)] + more;
    assert Instruction(Keyword(t.kind)).value.kind == t.kind;
    RenderParses(t.value);
    assert Atoi(Render(t.value)) == Some(t.value);
    assert ws[1..] == [Render(t.value)] + more;
    assert ws[1..][1..] == more;
  }

  /** The grammar reads `erase` or `halt` back from its word, when the next
      word, if any, is an instruction word. */
  lemma LexBareWord(t: Token, more: seq<string>, previous: TokenType)
    requires t.kind in {ERASE, HALT} && t.value == 0
    requires more != [] ==> |more[0]| > 0 && IsLetter(more[0][0])
    ensures LexWords([Keyword(t.kind)] + more, previous) == Prepend([t], LexWords(more, t.kind))
  {
    var ws := [Keyword(t.kind)] + more;
    assert Instruction(Keyword(t.kind)) == Some(t);
    assert ws[1..] == more;
  }

  /** The grammar reads the words of `Lexed` tokens back as those tokens. */
  lemma {:induction false} LexRenderedWords(ts: seq<Token>, previous: TokenType)
    requires Lexed(ts)
    ensures LexWords(RenderWords(ts), previous) == Ok(ts)
    decreases |ts|
  {
    if ts != [] {
      var t := ts[0];
      LexedTail(ts);
      RenderWordsStartWithKeyword(ts[1..]);
      var more := RenderWords(ts[1..]);
      assert RenderWords(ts) == TokenWords(t) + more;
      if AcceptsOperand(t.kind) {
        LexOperandWords(t, more, previous);
        LexRenderedWords(ts[1..], OPERAND);
      } else {
        LexBareWord(t, more, previous);
        LexRenderedWords(ts[1..], t.kind);
      }
      assert [t] + ts[1..] == ts;
    }
  }

  /** Writing `Lexed` tokens out and lexing the text gives them back. */
  lemma LexRenderText(ts: seq<Token>)
    requires Lexed(ts)
    ensures Lex(RenderText(ts)) == Ok(ts)
  {
    RenderWordsArePlain(ts);
    WordsOfJoin(RenderWords(ts));
    LexIsWordLevel(RenderText(ts));
    LexRenderedWords(ts, NONE);
  }

  // ---------------------------------------------------------------------------
  // The lexer object

  class Lexer {
    var text: string
    var position: int
    var previousToken: Token

    /** `NewLexer`. */
    constructor (cmd: string)
      ensures text == cmd && position == 0 && previousToken == Token(NONE, 0)
    {
      text := cmd;
      position := 0;
      previousToken := Token(NONE, 0);
    }

    /** `getCurrentWord`: the word at `position`. It stops on the word's last
        character, or at the end of the text. */
    method CurrentWord() returns (word: string)
      requires 0 <= position <= |text|
      modifies this`position
      ensures word == text[old(position)..WordEnd(text, old(position))]
      ensures position == if WordEnd(text, old(position)) < |text| then WordEnd(text, old(position)) - 1 else |text|
    {
      ghost var start := position;
      word := "";
      while position < |text|
        invariant start <= position <= WordEnd(text, start)
        invariant word == text[start..position]
      {
        var c := text[position];
        if IsSpace(c) {
          assert forall j | start <= j < WordEnd(text, start) :: text[j] == text[start..WordEnd(text, start)][j - start];
          position := position - 1;
          return;
        }
        word := word + [c];
        position := position + 1;
      }
    }

    /** `tokenizeOperand`: the number at `position`. */
    method TokenizeOperand() returns (r: Result<Token, LexError>)
      requires 0 <= position <= |text|
      modifies this`position, this`previousToken
      ensures var word := text[old(position)..WordEnd(text, old(position))];
        r == if Atoi(word).Some? then Ok(Token(OPERAND, Atoi(word).value)) else Err(BadOperand(word))
      ensures r.Ok? ==> previousToken == r.value
      ensures position == if WordEnd(text, old(position)) < |text| then WordEnd(text, old(position)) - 1 else |text|
    {
      var word := CurrentWord();
      var number := Atoi(word);
      if number.None? {
        return Err(BadOperand(word));
      }
      var token := Token(OPERAND, number.value);
      previousToken := token;
      return Ok(token);
    }

    /** `tokenizeInstruction`: the instruction word at `position`, matched
        without regard to case. */
    method TokenizeInstruction() returns (r: Result<Token, LexError>)
      requires 0 <= position <= |text|
      modifies this`position, this`previousToken
      ensures var word := text[old(position)..WordEnd(text, old(position))];
        r == if Instruction(ToLower(word)).Some? then Ok(Instruction(ToLower(word)).value) else Err(NotAnInstruction(word))
      ensures r.Ok? ==> previousToken == r.value
      ensures position == if WordEnd(text, old(position)) < |text| then WordEnd(text, old(position)) - 1 else |text|
    {
      var word := CurrentWord();
      var token := Instruction(ToLower(word));
      if token.None? {
        return Err(NotAnInstruction(word));
      }
      previousToken := token.value;
      return Ok(token.value);
    }

    /** One round of the `Tokenize` loop on the character at `position`,
        with `tokens` lexed so far: an error ends the lexing, otherwise the
        position moves on and the rest lexes to the same outcome. */
    method Advance(tokens: seq<Token>) returns (r: Result<seq<Token>, LexError>)
      requires position < |text|
      modifies this`position, this`previousToken
      ensures r.Err? ==> LexFrom(text, old(position), old(previousToken).kind, tokens) == Err(r.error)
      ensures r.Ok? ==> old(position) < position
      ensures r.Ok? ==>
        LexFrom(text, old(position), old(previousToken).kind, tokens) == LexFrom(text, position, previousToken.kind, r.value)
    {
      if position < 0 {
        return Err(PositionOutOfRange(position));
      }
      var c := text[position];
      var next := tokens;
      if IsLetter(c) {
        var t := TokenizeInstruction();
        if t.Err? {
          return Err(t.error);
        }
        next := tokens + [t.value];
      } else if IsDigit(c) {
        if !AcceptsOperand(previousToken.kind) {
          return Err(OperandNotAccepted(previousToken.kind));
        }
        var operand := TokenizeOperand();
        if operand.Err? {
          return Err(operand.error);
        }
        if tokens == [] {
          return Err(NoTokenToUpdate);
        }
        var last := |tokens| - 1;
        next := tokens[last := Token(tokens[last].kind, operand.value.value)];
      } else if !IsSpace(c) {
        return Err(UnknownCharacter(c));
      }
      position := position + 1;
      return Ok(next);
    }

    /** `Tokenize`: the tokens of the rest of the text. */
    method Tokenize() returns (r: Result<seq<Token>, LexError>)
      modifies this`position, this`previousToken
      ensures r == LexFrom(text, old(position), old(previousToken).kind, [])
    {
      var tokens: seq<Token> := [];
      while position < |text|
        invariant LexFrom(text, old(position), old(previousToken).kind, []) == LexFrom(text, position, previousToken.kind, tokens)
        decreases |text| - position
      {
        var step := Advance(tokens);
        if step.Err? {
          return Err(step.error);
        }
        tokens := step.value;
      }
      return Ok(tokens);
    }
  }
}
