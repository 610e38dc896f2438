/** Characters, words, lines and decimal numerals, over ASCII.
    These stand for the library routines the interpreters rely on: Rust's
    `str::split_whitespace`, `str::lines` and `str::parse`, and Go's
    `strings.Split`, `strings.ToLower`, `strconv.Atoi` and the `unicode`
    character classes. */
module Text {
  import opened Wrappers
  import opened Numbers

  // ---------------------------------------------------------------------------
  // Character classes

  /** ASCII white space: tab, line feed, vertical tab, form feed, carriage return, space. */
  predicate IsSpace(c: char) { c == ' ' || '\t' <= c <= '\r' }

  predicate IsDigit(c: char) { '0' <= c <= '9' }

  predicate IsLetter(c: char) { 'a' <= c <= 'z' || 'A' <= c <= 'Z' }

  function LowerChar(c: char): char
  {
    if 'A' <= c <= 'Z' then (c as int - 'A' as int + 'a' as int) as char else c
  }

  /** `strings.ToLower` restricted to ASCII. */
  function ToLower(s: string): (r: string)
    ensures |r| == |s|
    decreases |s|
  {
    if s == [] then [] else [LowerChar(s[0])] + ToLower(s[1..])
  }

  /** Each character of `ToLower(s)` is the lower case of the one of `s` in
      its place. */
  lemma {:induction false} ToLowerChars(s: string)
    ensures forall i | 0 <= i < |s| :: ToLower(s)[i] == LowerChar(s[i])
    decreases |s|
  {
    if s != [] {
      ToLowerChars(s[1..]);
    }
  }

  /** A word without upper-case letters is its own lower case. */
  lemma {:induction false} LowerIsSame(s: string)
    requires forall i | 0 <= i < |s| :: !('A' <= s[i] <= 'Z')
    ensures ToLower(s) == s
    decreases |s|
  {
    if s != [] {
      LowerIsSame(s[1..]);
      assert s == [s[0]] + s[1..];
    }
  }

  // ---------------------------------------------------------------------------
  // Decimal numerals

  predicate AllDigits(s: string)
    decreases |s|
  {
    s == [] || (AllDigits(s[..|s| - 1]) && IsDigit(s[|s| - 1]))
  }

  /** `AllDigits` says that every character is a digit. */
  lemma {:induction false} AllDigitsAt(s: string)
    ensures AllDigits(s) <==> forall i | 0 <= i < |s| :: IsDigit(s[i])
    decreases |s|
  {
    if s != [] {
      var init := s[..|s| - 1];
      AllDigitsAt(init);
      assert forall i | 0 <= i < |init| :: init[i] == s[i];
    }
  }

  function DigitOf(c: char): nat
    requires IsDigit(c)
  {
    c as int - '0' as int
  }

  function DigitChar(d: nat): (c: char)
    requires d < 10
    ensures IsDigit(c) && DigitOf(c) == d
  {
    ('0' as int + d) as char
  }

  /** The value of a run of decimal digits, most significant first. */
  function DigitsValue(s: string): nat
    requires AllDigits(s)
    decreases |s|
  {
    if s == [] then 0 else DigitsValue(s[..|s| - 1]) * 10 + DigitOf(s[|s| - 1])
  }

  /** An optional `+` or `-` followed by at least one decimal digit: the syntax
      that both Rust's integer `parse` and Go's `strconv.Atoi` accept. */
  function ParseSigned(s: string): (r: Option<int>)
    ensures r.Some? ==> |s| > 0 && (IsDigit(s[0]) || s[0] == '-' || s[0] == '+')
    ensures r.Some? && IsDigit(s[0]) ==> r.value >= 0
  {
    var signed := |s| > 0 && (s[0] == '-' || s[0] == '+');
    var digits := if signed then s[1..] else s;
    if |digits| > 0 && AllDigits(digits) then
      AllDigitsAt(digits);
      var magnitude: int := DigitsValue(digits);
      Some(if signed && s[0] == '-' then -magnitude else magnitude)
    else
      None
  }

  /** A numeral whose value lies in `[lo, hi]`; out-of-range numerals are rejected. */
  function ParseIntIn(s: string, lo: int, hi: int): (r: Option<int>)
    ensures r.Some? ==> lo <= r.value <= hi && ParseSigned(s) == r
    ensures ParseSigned(s).Some? && lo <= ParseSigned(s).value <= hi ==> r == ParseSigned(s)
  {
    match ParseSigned(s)
    case Some(n) => if lo <= n <= hi then Some(n) else None
    case None => None
  }

  /** `strconv.Atoi`: an optional sign and decimal digits, within Go's 64-bit `int`. */
  function Atoi(w: string): Option<int64>
  {
    match ParseIntIn(w, INT64_MIN, INT64_MAX)
    case Some(n) => Some(n as int64)
    case None => None
  }

  /** The shortest decimal numeral of a natural number. */
  function NatDigits(n: nat): (s: string)
    ensures |s| > 0 && AllDigits(s)
    decreases n
  {
    if n < 10 then
      var s := [DigitChar(n)];
      assert s[..0] == [];
      s
    else
      var init := NatDigits(n / 10);
      var s := init + [DigitChar(n % 10)];
      assert s[..|s| - 1] == init;
      s
  }

  /** The canonical numeral of an integer, with a `-` sign when negative. */
  function Render(n: int): string
  {
    if n < 0 then "-" + NatDigits(-n) else NatDigits(n)
  }

  lemma {:induction false} NatDigitsValue(n: nat)
    ensures DigitsValue(NatDigits(n)) == n
    decreases n
  {
    if n >= 10 {
      var s := NatDigits(n);
      var p := NatDigits(n / 10);
      assert s == p + [DigitChar(n % 10)];
      assert s[..|s| - 1] == p;
      NatDigitsValue(n / 10);
    }
  }

  /** Rendering then parsing gives back the number. */
  lemma RenderParses(n: int)
    ensures ParseSigned(Render(n)) == Some(n)
    ensures Render(n) != [] && (IsDigit(Render(n)[0]) || Render(n)[0] == '-')
  {
    if n < 0 {
      var d := NatDigits(-n);
      assert Render(n) == "-" + d;
      assert Render(n)[0] == '-' && Render(n)[1..] == d;
      NatDigitsValue(-n);
    } else {
      var d := NatDigits(n);
      AllDigitsAt(d);
      assert Render(n) == d && IsDigit(d[0]);
      NatDigitsValue(n);
    }
  }

  /** A rendered number is one word. */
  lemma RenderIsWord(n: int)
    ensures |Render(n)| > 0 && NoSpace(Render(n))
  {
    var r := Render(n);
    var d := if n < 0 then NatDigits(-n) else NatDigits(n);
    AllDigitsAt(d);
    forall i | 0 <= i < |r| ensures !IsSpace(r[i]) {
      if n >= 0 {
        assert IsDigit(d[i]);
      } else if i > 0 {
        assert r[i] == d[i - 1];
        assert IsDigit(d[i - 1]);
      }
    }
  }

  // ---------------------------------------------------------------------------
  // Words separated by white space (Rust's `split_whitespace`)

  predicate NoSpace(w: string) { forall i | 0 <= i < |w| :: !IsSpace(w[i]) }

  /** Length of the run of non-space characters at the start of `s`. */
  function RunLength(s: string): (n: nat)
    ensures n <= |s|
    ensures n == |s| || IsSpace(s[n])
    decreases |s|
  {
    if s == [] || IsSpace(s[0]) then 0 else 1 + RunLength(s[1..])
  }

  /** The run holds no white space. */
  lemma {:induction false} RunIsWord(s: string)
    ensures NoSpace(s[..RunLength(s)])
    decreases |s|
  {
    var n := RunLength(s);
    if n > 0 {
      RunIsWord(s[1..]);
      forall i | 0 <= i < n ensures !IsSpace(s[i]) {
        if i > 0 {
          assert s[i] == s[1..][..n - 1][i - 1];
        }
      }
    }
  }

  /** The maximal runs of non-space characters of `s`, in order. */
  function Words(s: string): (ws: seq<string>)
    ensures |ws| <= |s|
    decreases |s|
  {
    if s == [] then []
    else if IsSpace(s[0]) then Words(s[1..])
    else
      var n := RunLength(s);
      [s[..n]] + Words(s[n..])
  }

  /** Every word is non-empty and holds no white space. */
  lemma {:induction false} WordsArePlain(s: string)
    ensures forall i | 0 <= i < |Words(s)| :: |Words(s)[i]| > 0 && NoSpace(Words(s)[i])
    decreases |s|
  {
    if s == [] {
    } else if IsSpace(s[0]) {
      WordsArePlain(s[1..]);
    } else {
      var n := RunLength(s);
      RunIsWord(s);
      WordsArePlain(s[n..]);
      var ws := Words(s);
      assert ws == [s[..n]] + Words(s[n..]);
      forall i | 0 <= i < |ws| ensures |ws[i]| > 0 && NoSpace(ws[i]) {
        if i > 0 {
          assert ws[i] == Words(s[n..])[i - 1];
        }
      }
    }
  }

  /** A line made only of white space has no words. */
  lemma {:induction false} BlankHasNoWords(s: string)
    requires forall i | 0 <= i < |s| :: IsSpace(s[i])
    ensures Words(s) == []
    decreases |s|
  {
    if s != [] {
      BlankHasNoWords(s[1..]);
    }
  }

  lemma {:induction false} RunLengthOfWord(w: string, t: string)
    requires NoSpace(w)
    ensures RunLength(w + t) == |w| + RunLength(t)
    decreases |w|
  {
    if w != [] {
      assert (w + t)[0] == w[0] && !IsSpace(w[0]);
      assert (w + t)[1..] == w[1..] + t;
      assert RunLength(w + t) == 1 + RunLength(w[1..] + t);
      RunLengthOfWord(w[1..], t);
    } else {
      assert w + t == t;
    }
  }

  /** Words joined by single characters `sep`. */
  function Join(ws: seq<string>, sep: char): string
    decreases |ws|
  {
    if |ws| == 0 then ""
    else if |ws| == 1 then ws[0]
    else ws[0] + [sep] + Join(ws[1..], sep)
  }

  /** Splitting the space-joined words gives the words back. */
  lemma {:induction false} WordsOfJoin(ws: seq<string>)
    requires forall i | 0 <= i < |ws| :: |ws[i]| > 0 && NoSpace(ws[i])
    ensures Words(Join(ws, ' ')) == ws
    decreases |ws|
  {
    if |ws| == 1 {
      var w := ws[0];
      RunLengthOfWord(w, "");
      assert w + "" == w;
      assert w[|w|..] == [];
    } else if |ws| > 1 {
      var w, rest := ws[0], Join(ws[1..], ' ');
      var s := w + [' '] + rest;
      assert s == w + ([' '] + rest);
      RunLengthOfWord(w, [' '] + rest);
      assert s[..|w|] == w;
      assert s[|w|..] == [' '] + rest;
      assert ([' '] + rest)[1..] == rest;
      WordsOfJoin(ws[1..]);
    }
  }

  /** Words joined by single spaces hold no line break and no carriage return. */
  lemma {:induction false} JoinedWordsArePlain(ws: seq<string>)
    requires forall i | 0 <= i < |ws| :: NoSpace(ws[i])
    ensures forall c | c in Join(ws, ' ') :: c == ' ' || !IsSpace(c)
    ensures PlainLine(Join(ws, ' '))
    decreases |ws|
  {
    var s := Join(ws, ' ');
    if |ws| > 1 {
      JoinedWordsArePlain(ws[1..]);
      assert forall c | c in ws[0] :: !IsSpace(c) by {
        forall c | c in ws[0] ensures !IsSpace(c) {
          var i :| 0 <= i < |ws[0]| && ws[0][i] == c;
        }
      }
    } else if |ws| == 1 {
      assert forall c | c in ws[0] :: !IsSpace(c) by {
        forall c | c in ws[0] ensures !IsSpace(c) {
          var i :| 0 <= i < |ws[0]| && ws[0][i] == c;
        }
      }
    }
    if |s| > 0 {
      assert s[|s| - 1] in s;
    }
  }

  // ---------------------------------------------------------------------------
  // Lines (Rust's `str::lines`)

  /** Index of the first line feed in `s`, or `|s|` when there is none. */
  function UntilNewline(s: string): (n: nat)
    ensures n <= |s|
    ensures n < |s| ==> s[n] == '\n'
    decreases |s|
  {
    if s == [] || s[0] == '\n' then 0 else 1 + UntilNewline(s[1..])
  }

  /** No line feed comes before that index. */
  lemma {:induction false} BeforeNewline(s: string)
    ensures '\n' !in s[..UntilNewline(s)]
    decreases |s|
  {
    var n := UntilNewline(s);
    if n > 0 {
      BeforeNewline(s[1..]);
      assert s[..n] == [s[0]] + s[1..][..n - 1];
    }
  }

  function StripCarriageReturn(s: string): string
  {
    if |s| > 0 && s[|s| - 1] == '\r' then s[..|s| - 1] else s
  }

  /** The lines of `text`: split after each line feed; a line that ended in
      "\r\n" loses both characters; a final line feed does not start a line. */
  function Lines(text: string): (ls: seq<string>)
    ensures |ls| <= |text|
    decreases |text|
  {
    if text == [] then []
    else
      var n := UntilNewline(text);
      if n == |text| then [text]
      else [StripCarriageReturn(text[..n])] + Lines(text[n + 1..])
  }

  /** No line holds a line feed. */
  lemma {:induction false} LinesLackNewline(text: string)
    ensures forall i | 0 <= i < |Lines(text)| :: '\n' !in Lines(text)[i]
    decreases |text|
  {
    if text != [] {
      var n := UntilNewline(text);
      BeforeNewline(text);
      if n < |text| {
        LinesLackNewline(text[n + 1..]);
        var ls := Lines(text);
        var line := text[..n];
        assert StripCarriageReturn(line) == line || StripCarriageReturn(line) == line[..|line| - 1];
        assert '\n' !in StripCarriageReturn(line) by {
          if StripCarriageReturn(line) != line {
            assert forall c | c in line[..|line| - 1] :: c in line;
          }
        }
        forall i | 0 <= i < |ls| ensures '\n' !in ls[i] {
          if i > 0 {
            assert ls[i] == Lines(text[n + 1..])[i - 1];
          }
        }
      } else {
        assert text[..n] == text;
      }
    }
  }

  /** Each line followed by a line feed. */
  function Unlines(ls: seq<string>): string
    decreases |ls|
  {
    if ls == [] then "" else ls[0] + "\n" + Unlines(ls[1..])
  }

  predicate PlainLine(l: string) { '\n' !in l && (|l| == 0 || l[|l| - 1] != '\r') }

  lemma {:induction false} UntilNewlineOfLine(l: string, t: string)
    requires '\n' !in l
    ensures UntilNewline(l + "\n" + t) == |l|
    decreases |l|
  {
    if l != [] {
      assert (l + "\n" + t)[1..] == l[1..] + "\n" + t;
      UntilNewlineOfLine(l[1..], t);
    }
  }

  /** Writing lines out, each ended by a line feed, and reading them back gives
      the same lines. */
  lemma {:induction false} LinesOfUnlines(ls: seq<string>)
    requires forall i | 0 <= i < |ls| :: PlainLine(ls[i])
    ensures Lines(Unlines(ls)) == ls
    decreases |ls|
  {
    if ls != [] {
      var l, t := ls[0], Unlines(ls[1..]);
      var text := l + "\n" + t;
      UntilNewlineOfLine(l, t);
      assert text[..|l|] == l;
      assert text[|l| + 1..] == t;
      LinesOfUnlines(ls[1..]);
    }
  }

  // ---------------------------------------------------------------------------
  // Go's `strings.Split(s, string(sep))`: every separator ends a part, so two
  // separators in a row give an empty part.

  function Split(s: string, sep: char): (parts: seq<string>)
    ensures |parts| >= 1
    decreases |s|
  {
    if s == [] then [""]
    else if s[0] == sep then [""] + Split(s[1..], sep)
    else
      var r := Split(s[1..], sep);
      [[s[0]] + r[0]] + r[1..]
  }

  /** No part holds the separator. */
  lemma {:induction false} SplitPartsLackSeparator(s: string, sep: char)
    ensures forall i | 0 <= i < |Split(s, sep)| :: sep !in Split(s, sep)[i]
    decreases |s|
  {
    if s != [] {
      SplitPartsLackSeparator(s[1..], sep);
      var r := Split(s[1..], sep);
      if s[0] != sep {
        assert forall i | 1 <= i < |Split(s, sep)| :: Split(s, sep)[i] == r[i];
      }
    }
  }

  lemma {:induction false} SplitOfPart(w: string, t: string, sep: char)
    requires sep !in w
    ensures Split(w + t, sep) == [w + Split(t, sep)[0]] + Split(t, sep)[1..]
    decreases |w|
  {
    if w != [] {
      assert (w + t)[0] == w[0] && w[0] != sep;
      assert (w + t)[1..] == w[1..] + t;
      SplitOfPart(w[1..], t, sep);
      var r := Split(w[1..] + t, sep);
      assert Split(w + t, sep) == [[w[0]] + r[0]] + r[1..];
      assert r[0] == w[1..] + Split(t, sep)[0];
      assert r[1..] == Split(t, sep)[1..];
      assert [w[0]] + (w[1..] + Split(t, sep)[0]) == w + Split(t, sep)[0];
    } else {
      assert w + t == t;
      assert w + Split(t, sep)[0] == Split(t, sep)[0];
    }
  }

  /** Splitting words joined by `sep` gives the words back (there is always at
      least one part, so the empty list is not a joined value). */
  lemma {:induction false} SplitOfJoin(ws: seq<string>, sep: char)
    requires |ws| >= 1
    requires forall i | 0 <= i < |ws| :: sep !in ws[i]
    ensures Split(Join(ws, sep), sep) == ws
    decreases |ws|
  {
    if |ws| == 1 {
      SplitOfPart(ws[0], "", sep);
      assert ws[0] + "" == ws[0];
    } else {
      var w, rest := ws[0], Join(ws[1..], sep);
      assert w + [sep] + rest == w + ([sep] + rest);
      SplitOfPart(w, [sep] + rest, sep);
      assert ([sep] + rest)[0] == sep && ([sep] + rest)[1..] == rest;
      assert Split([sep] + rest, sep) == [""] + Split(rest, sep);
      SplitOfJoin(ws[1..], sep);
      assert w + "" == w;
      assert Join(ws, sep) == w + [sep] + rest;
    }
  }
}
