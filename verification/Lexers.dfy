/**
 The lexer object: a cursor over the input, the current token with its value, the line count and
 the one-token hold flag.  Its methods are proved against module Lexing.
 */
module Lexers {
  import opened Lexing
  import opened LineCounting
  import opened Results

  /** A runtime_error thrown by the lexer, with the line its message reports. */
  datatype LexFailure = LexFailure(error: LexError, line: nat)

  class Lexer {
    const input: string
    var pos: nat
    var style: LexerStyle
    var current: Token
    var text: string      // value of the last quoted string or identifier
    var number: string    // literal of the last number
    var line: nat
    var hold: bool

    constructor (input: string, style: LexerStyle)
      ensures Valid() && Ahead() == Lex(input, 1, style)
      ensures !hold && this.input == input && this.style == style && this.line == 1
    {
      this.input, this.style := input, style;
      pos, current, text, number, line, hold := 0, End, "", "", 1, false;
    }

    ghost predicate Valid()
      reads this
    {
      pos <= |input| && (hold && current == End ==> pos == |input|)
    }

    function Rest(): string
      requires pos <= |input|
      reads this
    {
      input[pos..]
    }

    /** The value of the current token. */
    function Value(): string
      reads this
    {
      match current
      case Text => text
      case Ident => text
      case Number => number
      case _ => ""
    }

    /** The tokens ahead if lexed in style ls: the held one, if any, before those of the rest. */
    ghost function AheadIn(ls: LexerStyle): (l: Stream)
      requires Valid()
      reads this
      ensures l.More? ==> l.head.tok != End
    {
      var rest := Lex(Rest(), line, ls);
      if hold && current != End then More(Lexeme(current, Value(), line), rest) else rest
    }

    ghost function Ahead(): (l: Stream)
      requires Valid()
      reads this
      ensures l.More? ==> l.head.tok != End
    {
      AheadIn(style)
    }

    /** The current token has just been read as the first of l. */
    ghost predicate JustRead(l: Stream)
      reads this
    {
      && Valid() && !hold && !l.Fault? && (current == End ==> pos == |input|)
      && (l.More? ==> current != End && l.head == Lexeme(current, Value(), line) && Ahead() == l.tail)
      && (l.Done? ==> current == End && Ahead() == l)
    }

    method SetStyle(ls: LexerStyle)
      requires Valid()
      modifies this`style
      ensures Valid() && style == ls && Ahead() == old(AheadIn(ls))
    {
      style := ls;
    }

    lemma SplitRest(from: nat, to: nat)
      requires from <= to <= |input|
      ensures input[from..][..to - from] == input[from..to] && input[from..][to - from..] == input[to..]
    {
    }

    /** Consumes the rest of the line; false if the input ends first. */
    method SkipToNewline() returns (found: bool)
      requires pos <= |input|
      modifies this`pos
      ensures old(pos) <= pos <= |input|
      ensures found <==> AfterNewline(old(Rest())).Some?
      ensures if found then pos > old(pos) && AfterNewline(old(Rest())).value == Rest() else pos == |input|
    {
      while pos < |input|
        invariant old(pos) <= pos <= |input|
        invariant AfterNewline(Rest()) == AfterNewline(old(Rest()))
      {
        var c := input[pos];
        pos := pos + 1;
        if IsNewline(c) { return true; }
      }
      return false;
    }

    /** Consumes characters, counting lines, until the next asterisk or the end. */
    method SkipToAsterisk()
      requires pos <= |input|
      modifies this`pos, this`line
      ensures old(pos) <= pos <= |input| && (pos < |input| ==> input[pos] == '*')
      ensures AfterBlock(Rest(), line) == AfterBlock(old(Rest()), old(line))
    {
      while pos < |input| && input[pos] != '*'
        invariant old(pos) <= pos <= |input|
        invariant AfterBlock(Rest(), line) == AfterBlock(old(Rest()), old(line))
      {
        assert Rest()[1..] == input[pos + 1..];
        if IsNewline(input[pos]) { line := line + 1; }
        pos := pos + 1;
      }
    }

    /** Consumes a block comment up to and including the first asterisk-slash, counting lines. */
    method MunchTillAsteriskSlash()
      requires pos <= |input|
      modifies this`pos, this`line
      ensures old(pos) <= pos <= |input|
      ensures (Rest(), line) == AfterBlock(old(Rest()), old(line))
    {
      while true
        invariant old(pos) <= pos <= |input|
        invariant AfterBlock(Rest(), line) == AfterBlock(old(Rest()), old(line))
        decreases |input| - pos
      {
        SkipToAsterisk();
        if pos == |input| { return; }
        assert Rest()[1..] == input[pos + 1..];
        pos := pos + 1;
        if pos == |input| { return; }
        if input[pos] == '/' {
          pos := pos + 1;
          return;
        }
      }
    }

    lemma SpaceStep(s: string, n: nat, t: string, m: nat, st: LexerStyle)
      requires s != "" && IsSpace(s[0]) && t == s[1..] && m == n + if IsNewline(s[0]) then 1 else 0
      ensures SkipGaps(s, n, st) == SkipGaps(t, m, st)
    {
    }

    method SkipOneSpace()
      requires pos < |input| && IsSpace(input[pos])
      modifies this`pos, this`line
      ensures pos == old(pos) + 1
      ensures SkipGaps(Rest(), line, style) == SkipGaps(old(Rest()), old(line), style)
    {
      ghost var s, n := Rest(), line;
      if IsNewline(input[pos]) { line := line + 1; }
      pos := pos + 1;
      SpaceStep(s, n, Rest(), line, style);
    }

    /** Consumes white space, counting lines. */
    method SkipSpace()
      requires pos <= |input|
      modifies this`pos, this`line
      ensures old(pos) <= pos <= |input| && (pos < |input| ==> !IsSpace(input[pos]))
      ensures SkipGaps(Rest(), line, style) == SkipGaps(old(Rest()), old(line), style)
    {
      while pos < |input| && IsSpace(input[pos])
        invariant old(pos) <= pos <= |input|
        invariant SkipGaps(Rest(), line, style) == SkipGaps(old(Rest()), old(line), style)
      {
        SkipOneSpace();
      }
    }

    /** Consumes the comment at the cursor, if there is one. */
    method SkipComment() returns (found: bool, closed: bool)
      requires pos < |input| && !IsSpace(input[pos])
      modifies this`pos, this`line
      ensures match GapAt(old(Rest()), old(line), style)
              case NoGap => !found && pos == old(pos) && line == old(line)
              case Skip(rest, n) => found && closed && old(pos) < pos <= |input| && Rest() == rest && line == n
              case CutOff(n) => found && !closed && pos == |input| && line == n
    {
      var c, next := input[pos], if pos + 1 < |input| then input[pos + 1] else ' ';
      if ((c == '#' || c == '%') && style.comments != CComments && CommentChar(style) == c)
         || (c == '/' && next == '/' && style.comments != HashComments)
      {
        assert Rest()[1..] == input[pos + 1..];
        found, pos := true, pos + 1;
        closed := SkipToNewline();
        if closed { line := line + 1; }
      } else if c == '/' && next == '*' && style.comments == CComments {
        assert Rest()[2..] == input[pos + 2..];
        found, closed, pos := true, true, pos + 2;
        MunchTillAsteriskSlash();
      } else {
        found, closed := false, true;
      }
    }

    lemma ScanStep(s: string, quote: char, acc: string)
      requires s != "" && !IsNewline(s[0]) && s[0] != quote
      ensures s[0] != '\\' ==> ScanString(s, quote, acc) == ScanString(s[1..], quote, acc + [s[0]])
      ensures s[0] == '\\' && |s| > 1 && Unescaped(s[1], quote).Some? ==>
        ScanString(s, quote, acc) == ScanString(s[2..], quote, acc + [Unescaped(s[1], quote).value])
      ensures s[0] == '\\' && (|s| == 1 || Unescaped(s[1], quote).None?) ==>
        ScanString(s, quote, acc) == Unscannable(BadEscape)
    {
    }

    /** The character an escape stands for. */
    method ReadEscape(quote: char) returns (c: Option<char>)
      requires pos <= |input|
      modifies this`pos
      ensures old(pos) <= pos <= |input|
      ensures c == if old(pos) == |input| then None else Unescaped(input[old(pos)], quote)
      ensures c.Some? ==> pos == old(pos) + 1
    {
      if pos == |input| { return None; }
      var cc := input[pos];
      pos := pos + 1;
      if cc == quote { return Some(quote); }
      if cc == 'n' { return Some('\n'); }
      if cc == '\\' { return Some('\\'); }
      return None;
    }

    /** Reads a quoted string after its opening quote into text. */
    method ReadString() returns (failure: Option<LexError>)
      requires pos <= |input|
      modifies this`pos, this`text
      ensures old(pos) <= pos <= |input|
      ensures match ScanString(old(Rest()), QuoteChar(style), "")
              case Value(v, rest) => failure == None && text == v && Rest() == rest
              case Unscannable(e) => failure == Some(e)
    {
      var quote := QuoteChar(style);
      text := "";
      ghost var all := Rest();
      while true
        invariant old(pos) <= pos <= |input|
        invariant ScanString(Rest(), quote, text) == ScanString(all, quote, "")
        decreases |input| - pos
      {
        if pos == |input| || IsNewline(input[pos]) { return Some(UnterminatedString); }
        ghost var s := Rest();
        var c := input[pos];
        pos := pos + 1;
        assert s[1..] == Rest();
        if c == quote { return None; }
        ScanStep(s, quote, text);
        if c == '\\' {
          var escaped := ReadEscape(quote);
          if escaped.None? { return Some(BadEscape); }
          assert s[2..] == Rest();
          c := escaped.value;
        }
        text := text + [c];
      }
    }

    lemma {:induction false} WordEnds(s: string, n: nat)
      requires n <= |s| && (forall i :: 0 <= i < n ==> IsWordChar(s[i])) && (n == |s| || !IsWordChar(s[n]))
      ensures WordLength(s) == n
    {
      if n > 0 { WordEnds(s[1..], n - 1); }
    }

    lemma WordRead(from: nat, to: nat)
      requires from < to <= |input| && (forall i :: from < i < to ==> IsWordChar(input[i]))
      requires to == |input| || !IsWordChar(input[to])
      ensures var s := input[from..]; var n := 1 + WordLength(s[1..]);
              input[from..to] == s[..n] && input[to..] == s[n..]
    {
      SplitRest(from, from + 1);
      WordEnds(input[from + 1..], to - from - 1);
      SplitRest(from, to);
    }

    method ReadWordChars(ghost start: nat)
      requires start + 1 == pos <= |input| && text == input[start..pos]
      modifies this`pos, this`text
      ensures old(pos) <= pos <= |input| && (pos == |input| || !IsWordChar(input[pos]))
      ensures forall i :: start < i < pos ==> IsWordChar(input[i])
      ensures text == input[start..pos]
    {
      while pos < |input| && IsWordChar(input[pos])
        invariant start < pos <= |input|
        invariant forall i :: start < i < pos ==> IsWordChar(input[i])
        invariant text == input[start..pos]
      {
        text := text + [input[pos]];
        pos := pos + 1;
      }
    }

    /** Reads an identifier into text. */
    method ReadWord()
      requires pos < |input|
      modifies this`pos, this`text
      ensures old(pos) < pos <= |input|
      ensures var s := old(Rest());
              var n := 1 + WordLength(s[1..]);
              text == s[..n] && Rest() == s[n..]
    {
      ghost var start := pos;
      text := [input[pos]];
      pos := pos + 1;
      ReadWordChars(start);
      WordRead(start, pos);
    }

    /** Reads a literal into number. */
    method ReadNumber() returns (failure: Option<LexError>)
      requires pos < |input| && StartsNumber(input[pos])
      modifies this`pos, this`number
      ensures old(pos) <= pos <= |input|
      ensures match ScanNumber(old(Rest()))
              case Value(v, rest) => failure == None && number == v && Rest() == rest
              case Unscannable(e) => failure == Some(e)
    {
      match ScanNumber(Rest())
      case Value(v, rest) =>
        number := v;
        pos := |input| - |rest|;
        failure := None;
      case Unscannable(e) =>
        failure := Some(e);
    }

    method ReadLiteral() returns (r: Result<Token, LexFailure>)
      requires pos < |input| && StartsNumber(input[pos])
      modifies this`pos, this`current, this`number
      ensures pos <= |input|
      ensures match ScanNumber(old(Rest()))
              case Value(v, rest) => r == Ok(Number) && Rest() == rest && current == Number && number == v
              case Unscannable(e) => r == Err(LexFailure(e, line))
    {
      var failure := ReadNumber();
      if failure.Some? { return Err(LexFailure(failure.value, line)); }
      current := Number;
      return Ok(Number);
    }

    /** Numbers and identifiers. */
    method ReadValue() returns (r: Result<Token, LexFailure>)
      requires pos < |input|
      modifies this`pos, this`current, this`text, this`number
      ensures pos <= |input|
      ensures match ValueAt(old(Rest()), line)
              case Read(tok, v, rest, n) =>
                r == Ok(tok) && Rest() == rest && current == tok && Value() == v && line == n
              case Bad(e, n) => r == Err(LexFailure(e, n))
    {
      var c := input[pos];
      if StartsNumber(c) {
        r := ReadLiteral();
      } else if IsAlpha(c) {
        ReadWord();
        current := Ident;
        r := Ok(Ident);
      } else {
        r := Err(LexFailure(BadCharacter, line));
      }
    }

    /** The switch of get_token() past comments: the token at the cursor. */
    method ReadToken() returns (r: Result<Token, LexFailure>)
      requires pos < |input|
      modifies this`pos, this`current, this`text, this`number
      ensures pos <= |input|
      ensures match TokenAt(old(Rest()), line, style)
              case Read(tok, v, rest, n) =>
                r == Ok(tok) && Rest() == rest && current == tok && Value() == v && line == n
              case Bad(e, n) => r == Err(LexFailure(e, n))
    {
      var c := input[pos];
      assert Rest()[1..] == input[pos + 1..];
      if c == '#' || c == '%' {
        pos := pos + 1;
        current := if c == '#' then Hash else Percent;
      } else if c == '/' {
        pos := pos + 1;
        if pos == |input| || input[pos] == '/' {
          current := Slash;
        } else if input[pos] == '*' {
          current := Asterisk;
        } else {
          return Err(LexFailure(BadCommentStart, line));
        }
      } else if CharToken(c).Some? {
        pos := pos + 1;
        current := CharToken(c).value;
      } else if c == '"' || c == '\'' {
        if QuoteChar(style) != c { return Err(LexFailure(UnknownCharacter, line)); }
        pos := pos + 1;
        var failure := ReadString();
        if failure.Some? { return Err(LexFailure(failure.value, line)); }
        current := Text;
      } else {
        r := ReadValue();
        return;
      }
      return Ok(current);
    }

    /** Past the hold flag: the next token of the input. */
    method Advance() returns (r: Result<Token, LexFailure>)
      requires pos <= |input| && !hold
      modifies this
      ensures pos <= |input| && !hold && style == old(style)
      ensures match Next(old(Rest()), old(line), style)
              case Read(tok, v, rest, n) => r == Ok(tok) && current == tok && Value() == v && Rest() == rest && line == n
              case AtEnd(n) => r == Ok(End) && current == End && pos == |input| && line == n
              case Bad(e, n) => r == Err(LexFailure(e, n))
    {
      while true
        invariant pos <= |input| && !hold && style == old(style)
        invariant SkipGaps(Rest(), line, style) == SkipGaps(old(Rest()), old(line), old(style))
        decreases |input| - pos
      {
        SkipSpace();
        if pos == |input| {
          current := End;
          return Ok(End);
        }
        var found, closed := SkipComment();
        if !found {
          r := ReadToken();
          return;
        }
        if !closed {
          current := End;
          return Ok(End);
        }
      }
    }

    /** The line number counts the newlines up to the cursor. */
    ghost predicate LineRight()
      requires pos <= |input|
      reads this
    {
      line == LineOf(input, pos)
    }

    /** The cursor is as far from the end as the rest is long. */
    lemma RestIs()
      requires pos <= |input|
      ensures |input| - |Rest()| == pos
    {
    }

    method TakeHeld() returns (tok: Token)
      requires pos <= |input| && hold
      modifies this`hold
      ensures !hold && tok == current
      ensures if old(Valid()) then JustRead(old(Ahead())) && tok == Head(old(Ahead())) && (tok == End ==> old(Ahead()) == Done(line))
              else tok == End
    {
      hold := false;
      tok := current;
    }

    lemma LexNext(s: string, n: nat, st: LexerStyle)
      ensures match Next(s, n, st)
              case Read(tok, v, rest, m) => Lex(s, n, st) == More(Lexeme(tok, v, m), Lex(rest, m, st))
              case AtEnd(m) => Lex(s, n, st) == Done(m)
              case Bad(e, m) => Lex(s, n, st) == Fault(e, m)
    {
    }

    /** Having moved from start to the cursor over what Next reads, the line is right if it was. */
    lemma KeepsLine(start: nat, s: string, n: nat)
      requires start <= |input| && pos <= |input| && s == input[start..]
      ensures match Next(s, n, style)
              case Read(_, _, rest, m) =>
                n == LineOf(input, start) && Rest() == rest && line == m ==> LineRight()
              case AtEnd(m) => n == LineOf(input, start) && pos == |input| && line == m ==> LineRight()
              case Bad(_, _) => true
    {
      if n == LineOf(input, start) {
        LineFollows(input, start, n, style);
        RestIs();
      }
    }

    method ReadAhead() returns (r: Result<Token, LexFailure>)
      requires pos <= |input| && !hold
      modifies this
      ensures pos <= |input| && style == old(style) && !hold
      ensures match old(Ahead())
              case Fault(e, n) => r == Err(LexFailure(e, n))
              case Done(n) => r == Ok(End) && line == n
              case More(h, _) => r == Ok(h.tok)
      ensures r.Ok? ==> JustRead(old(Ahead())) && (old(LineRight()) ==> LineRight())
    {
      ghost var start, s, n := pos, Rest(), line;
      LexNext(s, n, style);
      r := Advance();
      KeepsLine(start, s, n);
    }

    /** Consumes and returns the next of the tokens ahead; a held token comes first.  If END itself
        was put back before the end of the input it is returned once more, and then the input goes
        on where it was.  The line number stays right. */
    method GetToken() returns (r: Result<Token, LexFailure>)
      requires pos <= |input|
      modifies this
      ensures style == old(style)
      ensures old(Valid()) ==>
        && (match old(Ahead())
            case Fault(e, n) => r == Err(LexFailure(e, n))
            case Done(n) => r == Ok(End) && line == n
            case More(h, _) => r == Ok(h.tok))
        && (r.Ok? ==> JustRead(old(Ahead())))
      ensures !old(Valid()) ==> r == Ok(End) && Valid() && Ahead() == Lex(old(Rest()), old(line), style)
      ensures pos <= |input| && (r.Ok? && old(LineRight()) ==> LineRight())
    {
      if hold {
        var tok := TakeHeld();
        r := Ok(tok);
      } else {
        r := ReadAhead();
      }
    }

    /** Un-reads the current token, with its value. */
    method Putback()
      requires pos <= |input|
      modifies this`hold
      ensures hold
      ensures (current == End ==> pos == |input|) ==>
        && Valid()
        && Ahead() == (if old(hold) || current == End then old(Ahead())
                       else More(Lexeme(current, Value(), line), old(Ahead())))
    {
      hold := true;
    }

    /** Returns the next token without consuming it: the tokens ahead stay the same. */
    method PeekToken() returns (r: Result<Token, LexFailure>)
      requires Valid()
      modifies this
      ensures r.Ok? ==> Valid() && Ahead() == old(Ahead()) && style == old(style)
      ensures match old(Ahead())
              case Done(_) => r == Ok(End)
              case Fault(e, n) => r == Err(LexFailure(e, n))
              case More(h, _) => r == Ok(h.tok)
    {
      if hold {
        r := Ok(current);
      } else {
        r := GetToken();
        if r.Ok? { Putback(); }
      }
    }
  }
}
