/**
 * The lexer (part11 lexer.rs): a single forward scan over the characters of
 * the source that yields one token kind per call.
 *
 * `Scan(line, pos)` states what one call of `next_token` computes from the
 * position it starts at; the class `Lexer` is the scanner itself, with the
 * fields `pos` and `currentChar` that `advance` updates, and each of its
 * methods is proved against the functions below.
 */
module Lexing {
  import opened Wrappers
  import opened Tokens

  // ---------------------------------------------------------------------
  // Character classes (Rust's `is_ascii_*` predicates)
  // ---------------------------------------------------------------------

  /** `char::is_ascii_whitespace`: space, tab, line feed, form feed, carriage return. */
  predicate IsWhitespace(c: char)
  {
    c == ' ' || c == '\t' || c == '\n' || c == '\U{000C}' || c == '\r'
  }

  predicate IsDigit(c: char)
  {
    '0' <= c <= '9'
  }

  predicate IsAlphabetic(c: char)
  {
    'A' <= c <= 'Z' || 'a' <= c <= 'z'
  }

  predicate IsAlphanumeric(c: char)
  {
    IsAlphabetic(c) || IsDigit(c)
  }

  predicate AllDigits(s: string)
  {
    forall i :: 0 <= i < |s| ==> IsDigit(s[i])
  }

  /**
   * The reserved words, matched case-sensitively. The part11 table has the
   * first seven entries; PROCEDURE is the entry the part15 parser needs.
   */
  const ReservedKeywords: map<string, Kind> := map[
    "PROGRAM" := ProgramKw,
    "VAR" := VarKw,
    "DIV" := IntegerDiv,
    "INTEGER" := TypeName(IntegerType),
    "REAL" := TypeName(RealType),
    "BEGIN" := BeginKw,
    "END" := EndKw,
    "PROCEDURE" := ProcedureKw
  ]

  // ---------------------------------------------------------------------
  // Where each sub-scanner stops
  // ---------------------------------------------------------------------

  /** End of the maximal run of whitespace starting at `p`. */
  function WhitespaceEnd(line: string, p: nat): (q: nat)
    requires p <= |line|
    ensures p <= q <= |line|
    ensures forall i :: p <= i < q ==> IsWhitespace(line[i])
    ensures q == |line| || !IsWhitespace(line[q])
    decreases |line| - p
  {
    if p == |line| || !IsWhitespace(line[p]) then p else WhitespaceEnd(line, p + 1)
  }

  /**
   * End of a comment whose body starts at `p` (just after its `{`): one past
   * the first `}` at or after `p`, or the end of the input when there is
   * none. A `{` inside a comment is not special: comments do not nest.
   */
  function CommentEnd(line: string, p: nat): (q: nat)
    requires p <= |line|
    ensures p <= q <= |line|
    ensures q == |line| || (p < q && line[q - 1] == '}')
    ensures forall i :: p <= i < q - 1 ==> line[i] != '}'
    ensures q == |line| && (q == p || line[q - 1] != '}') ==> forall i :: p <= i < |line| ==> line[i] != '}'
    decreases |line| - p
  {
    if p == |line| then p
    else if line[p] == '}' then p + 1
    else CommentEnd(line, p + 1)
  }

  /** End of the maximal alphanumeric run starting at `p`. */
  function IdEnd(line: string, p: nat): (q: nat)
    requires p <= |line|
    ensures p <= q <= |line|
    ensures forall i :: p <= i < q ==> IsAlphanumeric(line[i])
    ensures q == |line| || !IsAlphanumeric(line[q])
    decreases |line| - p
  {
    if p == |line| || !IsAlphanumeric(line[p]) then p else IdEnd(line, p + 1)
  }

  /**
   * End of a number literal scanned from `p`, where `seenDot` says whether a
   * `.` was already taken: digits, and at most one `.` in all; the scan stops
   * before any other character and before a second `.`.
   */
  function NumberEnd(line: string, p: nat, seenDot: bool): (q: nat)
    requires p <= |line|
    ensures p <= q <= |line|
    ensures forall i :: p <= i < q ==> IsDigit(line[i]) || line[i] == '.'
    decreases |line| - p
  {
    if p == |line| then p
    else if line[p] == '.' then (if seenDot then p else NumberEnd(line, p + 1, true))
    else if IsDigit(line[p]) then NumberEnd(line, p + 1, seenDot)
    else p
  }

  /**
   * A number literal holds at most one `.` (none when one was already taken
   * before `p`), and the scan stops only at the end of the input, at a
   * character that is neither a digit nor a dot, or at a second dot.
   */
  lemma {:induction false} NumberEndDots(line: string, p: nat, seenDot: bool)
    requires p <= |line|
    ensures var q := NumberEnd(line, p, seenDot);
      && (seenDot ==> '.' !in line[p..q])
      && (forall i, j :: p <= i < j < q && line[i] == '.' ==> line[j] != '.')
      && (q == |line| || (!IsDigit(line[q]) && (line[q] != '.' || seenDot || '.' in line[p..q])))
    decreases |line| - p
  {
    if p < |line| && line[p] == '.' && !seenDot {
      NumberEndDots(line, p + 1, true);
      var q := NumberEnd(line, p, seenDot);
      SliceHead(line, p, q);
      NoDotAt(line, p + 1, q);
    } else if p < |line| && IsDigit(line[p]) {
      NumberEndDots(line, p + 1, seenDot);
      SliceHead(line, p, NumberEnd(line, p, seenDot));
    }
  }

  /** A slice with at least one character is its first character followed by the rest. */
  lemma SliceHead(line: string, p: nat, q: nat)
    requires p < q <= |line|
    ensures line[p..q] == [line[p]] + line[p + 1..q]
    ensures forall ch :: ch in line[p..q] <==> ch == line[p] || ch in line[p + 1..q]
  {
    assert line[p..q] == [line[p]] + line[p + 1..q];
  }

  /** A slice without a `.` has no `.` at any of its positions. */
  lemma NoDotAt(line: string, p: nat, q: nat)
    requires p <= q <= |line| && '.' !in line[p..q]
    ensures forall j :: p <= j < q ==> line[j] != '.'
  {
    forall j | p <= j < q
      ensures line[j] != '.'
    {
      assert line[j] == line[p..q][j - p];
    }
  }

  /** One character taken by the number scan: the stopping point and the seen-dot flag carry over. */
  lemma NumberStep(line: string, p0: nat, p: nat, seen: bool)
    requires p0 <= p < |line|
    requires IsDigit(line[p]) || (line[p] == '.' && !seen)
    requires seen <==> '.' in line[p0..p]
    ensures NumberEnd(line, p, seen) == NumberEnd(line, p + 1, seen || line[p] == '.')
    ensures line[p0..p + 1] == line[p0..p] + [line[p]]
    ensures (seen || line[p] == '.') <==> '.' in line[p0..p + 1]
  {
    assert line[p0..p + 1] == line[p0..p] + [line[p]];
  }

  /** Where the number scan stops, every character taken is a digit or a dot. */
  lemma NumberStops(line: string, p0: nat, p: nat, seen: bool)
    requires p0 <= p <= |line|
    requires NumberEnd(line, p, seen) == NumberEnd(line, p0, false)
    requires p == |line| || (!IsDigit(line[p]) && (line[p] != '.' || seen))
    ensures p == NumberEnd(line, p0, false)
    ensures forall i :: 0 <= i < p - p0 ==> IsDigit(line[p0..p][i]) || line[p0..p][i] == '.'
  {
    assert NumberEnd(line, p, seen) == p;
    forall i | 0 <= i < p - p0
      ensures IsDigit(line[p0..p][i]) || line[p0..p][i] == '.'
    {
      assert line[p0..p][i] == line[p0 + i];
    }
  }

  // ---------------------------------------------------------------------
  // The token a scanned run of characters becomes
  // ---------------------------------------------------------------------

  /** The decimal value of a digit string (`str::parse::<i32>` without the overflow check). */
  function DigitsValue(s: string): (n: nat)
    requires AllDigits(s)
    ensures |s| > 0 ==> n % 10 == s[|s| - 1] as int - '0' as int
  {
    if s == [] then 0
    else
      var x, d := DigitsValue(s[..|s| - 1]), s[|s| - 1] as int - '0' as int;
      ShiftDigit(x, d);
      x * 10 + d
  }

  /** Appending a digit `d` to a number `x` gives `x * 10 + d`, whose last digit is `d`. */
  lemma ShiftDigit(x: nat, d: int)
    requires 0 <= d < 10
    ensures (x * 10 + d) % 10 == d
  {
  }

  /** An identifier-shaped word: its reserved kind if it is a table key, else an identifier. */
  function Word(text: string): (k: Kind)
    ensures k.Id? <==> text !in ReservedKeywords
    ensures k.Id? ==> k.name == text
    ensures !k.Id? ==> k == ReservedKeywords[text]
  {
    if text in ReservedKeywords then ReservedKeywords[text] else Id(text)
  }

  /** A scanned number: a real literal (payload kept as text) when it holds a `.`, else an integer. */
  function NumberKind(text: string): (k: Kind)
    requires forall i :: 0 <= i < |text| ==> IsDigit(text[i]) || text[i] == '.'
    ensures k.RealConst? <==> '.' in text
    ensures '.' in text ==> k.number == Literal(text)
    ensures '.' !in text ==> k == IntegerConst(DigitsValue(text))
  {
    if '.' in text then RealConst(Literal(text)) else IntegerConst(DigitsValue(text))
  }

  /** The single-character tokens. */
  function SingleChar(c: char): (r: Option<Kind>)
    ensures r.Some? <==> c in ";*-,+/:()."
    ensures r.Some? ==> !r.value.Id? && !r.value.IntegerConst? && !r.value.RealConst? && r.value != Eof
  {
    match c
    case ';' => Some(Semi)
    case '*' => Some(Mul)
    case '-' => Some(Minus)
    case ',' => Some(Comma)
    case '+' => Some(Plus)
    case '/' => Some(FloatDiv)
    case ':' => Some(Colon)
    case '(' => Some(LParen)
    case ')' => Some(RParen)
    case '.' => Some(Dot)
    case _ => None
  }

  /** What one call of `next_token` yields, and the position it leaves the scan at. */
  datatype Lexed = Lexed(token: Result<Kind, Error>, pos: nat)

  /**
   * One call of `next_token` started at `pos`: skip whitespace and comments,
   * then scan one token. A position at or past the end yields EOF and moves
   * nothing; an invalid character is reported without being consumed.
   */
  function Scan(line: string, pos: nat): (r: Lexed)
    ensures pos <= r.pos
    ensures pos <= |line| ==> r.pos <= |line|
    ensures r.token.Ok? && r.token.value != Eof ==> pos < r.pos
    ensures r.token == Ok(Eof) ==> r.pos >= |line|
    ensures pos >= |line| ==> r == Lexed(Ok(Eof), pos)
    decreases |line| - pos
  {
    if pos >= |line| then Lexed(Ok(Eof), pos)
    else
      var c := line[pos];
      if c == '{' then Scan(line, CommentEnd(line, pos + 1))
      else if IsWhitespace(c) then Scan(line, WhitespaceEnd(line, pos))
      else if IsAlphabetic(c) then
        var e := IdEnd(line, pos);
        Lexed(Ok(Word(line[pos..e])), e)
      else if IsDigit(c) then
        var e := NumberEnd(line, pos, false);
        Lexed(Ok(NumberKind(line[pos..e])), e)
      else if c == ':' && pos + 1 < |line| && line[pos + 1] == '=' then
        Lexed(Ok(Becomes), pos + 2)
      else
        match SingleChar(c)
        case Some(k) => Lexed(Ok(k), pos + 1)
        case None => Lexed(Err(InvalidCharacter(c)), pos)
  }

  // ---------------------------------------------------------------------
  // The scanner object
  // ---------------------------------------------------------------------

  class Lexer {
    const line: string
    var pos: nat
    var currentChar: Option<char>

    /** `currentChar` is the character at `pos`, or none once the input is exhausted. */
    ghost predicate Valid()
      reads this
    {
      pos <= |line| && currentChar == (if pos < |line| then Some(line[pos]) else None)
    }

    /** `Lexer::new`; the source indexes `line[0]`, so the input must not be empty. */
    constructor(line: string)
      requires |line| > 0
      ensures Valid() && this.line == line && pos == 0
    {
      this.line := line;
      pos := 0;
      currentChar := Some(line[0]);
    }

    method Advance()
      requires Valid() && pos < |line|
      modifies this
      ensures Valid() && pos == old(pos) + 1
    {
      pos := pos + 1;
      if pos < |line| {
        currentChar := Some(line[pos]);
      } else {
        currentChar := None;
      }
    }

    /** The character after the current one, without moving. */
    function Peek(): (r: Option<char>)
      reads this
      ensures r.Some? <==> pos + 1 < |line|
      ensures r.Some? ==> r.value == line[pos + 1]
    {
      if pos + 1 < |line| then Some(line[pos + 1]) else None
    }

    method SkipWhitespace()
      requires Valid()
      modifies this
      ensures Valid() && pos == WhitespaceEnd(line, old(pos))
    {
      while currentChar.Some?
        invariant Valid() && old(pos) <= pos
        invariant WhitespaceEnd(line, pos) == WhitespaceEnd(line, old(pos))
        decreases |line| - pos
      {
        if !IsWhitespace(currentChar.value) {
          break;
        }
        Advance();
      }
    }

    method SkipComment()
      requires Valid()
      modifies this
      ensures Valid() && pos == CommentEnd(line, old(pos))
    {
      while currentChar.Some?
        invariant Valid() && old(pos) <= pos
        invariant CommentEnd(line, pos) == CommentEnd(line, old(pos))
        decreases |line| - pos
      {
        if currentChar.value == '}' {
          Advance();
          break;
        }
        Advance();
      }
    }

    method Number() returns (k: Kind)
      requires Valid()
      modifies this
      ensures Valid() && pos == NumberEnd(line, old(pos), false)
      ensures k == NumberKind(line[old(pos)..pos])
    {
      var result := "";
      var isReal := false;
      while currentChar.Some?
        invariant Valid() && old(pos) <= pos
        invariant result == line[old(pos)..pos]
        invariant isReal <==> '.' in result
        invariant NumberEnd(line, pos, isReal) == NumberEnd(line, old(pos), false)
        decreases |line| - pos
      {
        var c := currentChar.value;
        if c == '.' {
          if isReal {
            break;
          }
        } else if !IsDigit(c) {
          break;
        }
        NumberStep(line, old(pos), pos, isReal);
        isReal := isReal || c == '.';
        result := result + [c];
        Advance();
      }
      NumberStops(line, old(pos), pos, isReal);
      if isReal {
        k := RealConst(Literal(result));
      } else {
        k := IntegerConst(DigitsValue(result));
      }
    }

    method Id() returns (r: Result<Kind, Error>)
      requires Valid()
      modifies this
      ensures Valid() && pos == IdEnd(line, old(pos))
      ensures r == Ok(Word(line[old(pos)..pos]))
    {
      var result := "";
      while currentChar.Some?
        invariant Valid() && old(pos) <= pos
        invariant result == line[old(pos)..pos]
        invariant IdEnd(line, pos) == IdEnd(line, old(pos))
        decreases |line| - pos
      {
        if !IsAlphanumeric(currentChar.value) {
          break;
        }
        result := result + [currentChar.value];
        Advance();
      }
      if result in ReservedKeywords {
        r := Ok(ReservedKeywords[result]);
      } else {
        r := Ok(Kind.Id(result));
      }
    }

    /** `next_token`: exactly one step of `Scan`. */
    method NextToken() returns (r: Result<Kind, Error>)
      requires Valid()
      modifies this
      ensures Valid() && Scan(line, old(pos)) == Lexed(r, pos)
    {
      while currentChar.Some?
        invariant Valid()
        invariant Scan(line, pos) == Scan(line, old(pos))
        decreases |line| - pos
      {
        var c := currentChar.value;
        if c == '{' {
          Advance();
          SkipComment();
          continue;
        }
        if IsWhitespace(c) {
          SkipWhitespace();
          continue;
        }
        if IsAlphabetic(c) {
          r := Id();
          return;
        }
        if IsDigit(c) {
          var k := Number();
          return Ok(k);
        }
        if c == ':' && Peek().Some? && Peek().value == '=' {
          Advance();
          Advance();
          return Ok(Becomes);
        }
        var single := SingleChar(c);
        if single.None? {
          return Err(InvalidCharacter(c));
        }
        Advance();
        return Ok(single.value);
      }
      return Ok(Eof);
    }
  }
}
