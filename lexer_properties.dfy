/**
 * What one scan step yields, stated from the shape of the input rather than
 * from the scanner's own recursion.
 */
module LexerProperties {
  import opened Wrappers
  import opened Tokens
  import opened Lexing

  /**
   * A maximal alphanumeric run that starts with a letter becomes the
   * reserved kind when it is exactly a table key, and an identifier
   * carrying its text otherwise.
   */
  lemma WordToken(line: string, p: nat, q: nat)
    requires p < q <= |line| && IsAlphabetic(line[p])
    requires forall i :: p <= i < q ==> IsAlphanumeric(line[i])
    requires q == |line| || !IsAlphanumeric(line[q])
    ensures line[p..q] in ReservedKeywords ==> Scan(line, p) == Lexed(Ok(ReservedKeywords[line[p..q]]), q)
    ensures line[p..q] !in ReservedKeywords ==> Scan(line, p) == Lexed(Ok(Id(line[p..q])), q)
  {
  }

  /** The reserved words are exactly these eight spellings; `DIV` is integer division. */
  lemma ReservedWords(text: string)
    ensures Word(text).Id? <==> text !in {"PROGRAM", "VAR", "DIV", "INTEGER", "REAL", "BEGIN", "END", "PROCEDURE"}
    ensures Word("DIV") == IntegerDiv && Word("PROCEDURE") == ProcedureKw
    ensures Word("Begin") == Id("Begin")
  {
  }

  /** Scanning a number over a run of digits does not stop inside the run. */
  lemma {:induction false} NumberEndOverDigits(line: string, i: nat, q: nat, seenDot: bool)
    requires i <= q <= |line|
    requires forall k :: i <= k < q ==> IsDigit(line[k])
    ensures NumberEnd(line, i, seenDot) == NumberEnd(line, q, seenDot)
    decreases q - i
  {
    if i < q {
      NumberEndOverDigits(line, i + 1, q, seenDot);
    }
  }

  /** A digit run not followed by `.` is one integer literal with the run's decimal value. */
  lemma IntegerLiteral(line: string, p: nat, q: nat)
    requires p < q <= |line|
    requires forall i :: p <= i < q ==> IsDigit(line[i])
    requires q == |line| || (!IsDigit(line[q]) && line[q] != '.')
    ensures AllDigits(line[p..q])
    ensures Scan(line, p) == Lexed(Ok(IntegerConst(DigitsValue(line[p..q]))), q)
  {
    NumberEndOverDigits(line, p, q, false);
    assert AllDigits(line[p..q]);
    assert '.' !in line[p..q] by {
      forall i | 0 <= i < q - p ensures line[p..q][i] != '.' {
        assert IsDigit(line[p + i]);
      }
    }
  }

  /**
   * Digits, one `.`, digits: one real literal whose payload is that text.
   * Whatever follows that is not a digit ends it, a second `.` included,
   * and is left for the next scan.
   */
  lemma RealLiteral(line: string, p: nat, d: nat, q: nat)
    requires p < d < q <= |line| && line[d] == '.'
    requires forall i :: p <= i < d ==> IsDigit(line[i])
    requires forall i :: d < i < q ==> IsDigit(line[i])
    requires q == |line| || !IsDigit(line[q])
    ensures Scan(line, p) == Lexed(Ok(RealConst(Literal(line[p..q]))), q)
  {
    NumberEndOverDigits(line, p, d, false);
    NumberEndOverDigits(line, d + 1, q, true);
    assert NumberEnd(line, p, false) == q;
    assert line[p..q][d - p] == '.';
  }

  /** `:` directly followed by `=` is one assignment token; otherwise `:` alone is a colon. */
  lemma BecomesOrColon(line: string, p: nat)
    requires p < |line| && line[p] == ':'
    ensures p + 1 < |line| && line[p + 1] == '=' ==> Scan(line, p) == Lexed(Ok(Becomes), p + 2)
    ensures !(p + 1 < |line| && line[p + 1] == '=') ==> Scan(line, p) == Lexed(Ok(Colon), p + 1)
  {
  }

  /** `/` is real division. */
  lemma SlashIsFloatDiv(line: string, p: nat)
    requires p < |line| && line[p] == '/'
    ensures Scan(line, p) == Lexed(Ok(FloatDiv), p + 1)
  {
  }

  /** A whitespace character produces no token: scanning from it is scanning from the next one. */
  lemma WhitespaceSkipped(line: string, p: nat)
    requires p < |line| && IsWhitespace(line[p])
    ensures Scan(line, p) == Scan(line, p + 1)
  {
    assert WhitespaceEnd(line, p) == WhitespaceEnd(line, p + 1);
  }

  /** A comment body is skipped up to a `}` that has no `}` before it. */
  lemma {:induction false} CommentEndOverBody(line: string, i: nat, q: nat)
    requires i <= q <= |line|
    requires forall k :: i <= k < q ==> line[k] != '}'
    ensures CommentEnd(line, i) == CommentEnd(line, q)
    decreases q - i
  {
    if i < q {
      CommentEndOverBody(line, i + 1, q);
    }
  }

  /**
   * A comment runs from `{` to the first `}` and produces no token; any `{`
   * inside it is ordinary text, so comments do not nest.
   */
  lemma CommentSkipped(line: string, p: nat, q: nat)
    requires p < q < |line| && line[p] == '{' && line[q] == '}'
    requires forall i :: p < i < q ==> line[i] != '}'
    ensures Scan(line, p) == Scan(line, q + 1)
  {
    CommentEndOverBody(line, p + 1, q);
  }

  /** A comment that is never closed runs to the end of the input: the scan yields EOF. */
  lemma UnclosedComment(line: string, p: nat)
    requires p < |line| && line[p] == '{'
    requires forall i :: p < i < |line| ==> line[i] != '}'
    ensures Scan(line, p) == Lexed(Ok(Eof), |line|)
  {
    CommentEndOverBody(line, p + 1, |line|);
  }

  /** A character that starts no token is reported, naming the character, and is not consumed. */
  lemma InvalidCharacterReported(line: string, p: nat)
    requires p < |line|
    requires line[p] != '{' && !IsWhitespace(line[p]) && !IsAlphanumeric(line[p]) && line[p] != ':'
    requires SingleChar(line[p]).None?
    ensures Scan(line, p) == Lexed(Err(InvalidCharacter(line[p])), p)
  {
  }

  /** Once EOF has been produced, every further scan produces EOF again without moving. */
  lemma EofRepeats(line: string, p: nat)
    requires Scan(line, p).token == Ok(Eof)
    ensures Scan(line, Scan(line, p).pos) == Lexed(Ok(Eof), Scan(line, p).pos)
  {
  }
}
