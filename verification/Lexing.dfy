/**
 The registry's lexical grammar: what the next token of a text is, as a function of the remaining
 characters.  Module Lexers holds the lexer object that computes it.
 */
module Lexing {
  import opened Results

  datatype Token =
    | End | LeftParen | RightParen | LeftBrace | RightBrace | LeftBracket | RightBracket
    | Asterisk | Slash | Hash | Percent | Assign | Comma | DoubleQuote | SingleQuote
    | Text | Ident | Number

  datatype CommentStyle = CComments | HashComments | PercentComments

  datatype QuoteStyle = SingleQuotes | DoubleQuotes

  datatype LexerStyle = LexerStyle(comments: CommentStyle, quotes: QuoteStyle)

  datatype LexError =
    | UnknownCharacter | BadCommentStart | UnterminatedString | BadEscape | BadNumber | BadCharacter

  /** The outcome of reading one token; line counts from 1 and is that after the token. */
  datatype Lexed =
    | Read(tok: Token, text: string, rest: string, line: nat)
    | AtEnd(line: nat)
    | Bad(error: LexError, line: nat)

  // ---------------------------------------------------------------- characters

  predicate IsNewline(c: char) { c == '\n' }

  predicate IsSpace(c: char) { c == ' ' || '\t' <= c <= '\r' }

  predicate IsDigit(c: char) { '0' <= c <= '9' }

  predicate IsAlpha(c: char) { 'a' <= c <= 'z' || 'A' <= c <= 'Z' }

  predicate IsWordChar(c: char) { IsAlpha(c) || IsDigit(c) || c == '_' }

  predicate IsSign(c: char) { c == '+' || c == '-' }

  predicate StartsNumber(c: char) { IsDigit(c) || c == '.' || IsSign(c) }

  function QuoteChar(st: LexerStyle): char { if st.quotes == SingleQuotes then '\'' else '"' }

  function CommentChar(st: LexerStyle): char { if st.comments == HashComments then '#' else '%' }

  /** The tokens that are single characters, but for the slash. */
  function CharToken(c: char): Option<Token> {
    match c
    case '(' => Some(LeftParen)
    case ')' => Some(RightParen)
    case '{' => Some(LeftBrace)
    case '}' => Some(RightBrace)
    case '[' => Some(LeftBracket)
    case ']' => Some(RightBracket)
    case ',' => Some(Comma)
    case '=' => Some(Assign)
    case _ => None
  }

  // ---------------------------------------------------------------- comments

  function Newlines(s: string): nat {
    if s == "" then 0 else (if IsNewline(s[0]) then 1 else 0) + Newlines(s[1..])
  }

  /** What follows the first newline, if there is one. */
  function AfterNewline(s: string): (r: Option<string>)
    ensures r.Some? ==> |r.value| < |s|
  {
    if s == "" then None
    else if IsNewline(s[0]) then Some(s[1..])
    else AfterNewline(s[1..])
  }

  /** What follows the first asterisk-slash, or nothing; and the line there. */
  function AfterBlock(s: string, line: nat): (r: (string, nat))
    ensures |r.0| <= |s|
  {
    if s == "" then ("", line)
    else if s[0] != '*' then AfterBlock(s[1..], line + if IsNewline(s[0]) then 1 else 0)
    else if |s| == 1 then ("", line)
    else if s[1] == '/' then (s[2..], line)
    else AfterBlock(s[1..], line)
  }

  // ---------------------------------------------------------------- values

  datatype Scanned = Value(text: string, rest: string) | Unscannable(error: LexError)

  /** What a backslash and c stand for. */
  function Unescaped(c: char, quote: char): Option<char> {
    if c == quote || c == '\\' then Some(c)
    else if c == 'n' then Some('\n')
    else None
  }

  /** The rest of a quoted string, with escapes resolved and appended to acc. */
  function ScanString(s: string, quote: char, acc: string): (r: Scanned)
    ensures r.Value? ==> |r.rest| < |s|
  {
    if s == "" || IsNewline(s[0]) then Unscannable(UnterminatedString)
    else if s[0] == quote then Value(acc, s[1..])
    else if s[0] != '\\' then ScanString(s[1..], quote, acc + [s[0]])
    else if |s| == 1 then Unscannable(BadEscape)
    else match Unescaped(s[1], quote)
      case Some(c) => ScanString(s[2..], quote, acc + [c])
      case None => Unscannable(BadEscape)
  }

  /** How many characters of s continue a word. */
  function WordLength(s: string): (n: nat)
    ensures n <= |s|
  {
    if s != "" && IsWordChar(s[0]) then 1 + WordLength(s[1..]) else 0
  }

  /** What has been seen of a decimal literal after its sign: a point, an exponent mark, a digit of
      the mantissa, a digit of the exponent. */
  datatype Seen = Seen(point: bool, mark: bool, mantissa: bool, exponent: bool)

  function Longer(n: nat, r: (nat, bool)): (nat, bool) { (n + r.0, r.1) }

  /** How many characters of s continue the literal, and whether it is then complete. */
  function NumberLength(s: string, seen: Seen): (r: (nat, bool))
    ensures r.0 <= |s|
  {
    if s == "" then (0, seen.mantissa && (seen.mark ==> seen.exponent))
    else if s[0] == '.' && !seen.point && !seen.mark then
      Longer(1, NumberLength(s[1..], seen.(point := true)))
    else if IsDigit(s[0]) then
      Longer(1, NumberLength(s[1..], if seen.mark then seen.(exponent := true) else seen.(mantissa := true)))
    else if (s[0] == 'e' || s[0] == 'E') && !seen.mark && seen.mantissa then
      var n := if |s| > 1 && IsSign(s[1]) then 2 else 1;
      Longer(n, NumberLength(s[n..], seen.(mark := true)))
    else (0, seen.mantissa && (seen.mark ==> seen.exponent))
  }

  const NOTHING_SEEN := Seen(false, false, false, false)

  lemma NumberNonempty(s: string, seen: Seen)
    requires NumberLength(s, seen).1 && !seen.mantissa
    ensures NumberLength(s, seen).0 > 0
  {
  }

  /** The literal at the start of s, sign included. */
  function ScanNumber(s: string): (r: Scanned)
    requires s != "" && StartsNumber(s[0])
    ensures r.Value? ==> r.text + r.rest == s && |r.rest| < |s|
  {
    var sign := if IsSign(s[0]) then 1 else 0;
    var (n, complete) := NumberLength(s[sign..], NOTHING_SEEN);
    if complete then
      NumberNonempty(s[sign..], NOTHING_SEEN);
      Value(s[..sign + n], s[sign + n..])
    else Unscannable(BadNumber)
  }

  // ---------------------------------------------------------------- tokens

  /** What a text starts with when it is not a token: white space or a comment that is skipped, or
      a comment that the end of the text cuts off. */
  datatype Gap = NoGap | Skip(rest: string, line: nat) | CutOff(line: nat)

  function LineComment(s: string, line: nat): (g: Gap)
    ensures g.Skip? ==> |g.rest| < |s|
    ensures g != NoGap
  {
    match AfterNewline(s)
    case None => CutOff(line)
    case Some(rest) => Skip(rest, line + 1)
  }

  function GapAt(s: string, line: nat, st: LexerStyle): (g: Gap)
    requires s != ""
    ensures g.Skip? ==> |g.rest| < |s|
  {
    var c := s[0];
    if IsSpace(c) then Skip(s[1..], line + if IsNewline(c) then 1 else 0)
    else if (c == '#' || c == '%') && st.comments != CComments && CommentChar(st) == c then
      LineComment(s[1..], line)
    else if c == '/' && |s| > 1 && s[1] == '/' && st.comments != HashComments then
      LineComment(s[1..], line)
    else if c == '/' && |s| > 1 && s[1] == '*' && st.comments == CComments then
      var (rest, n) := AfterBlock(s[2..], line);
      Skip(rest, n)
    else NoGap
  }

  function FromScan(tok: Token, v: Scanned, line: nat): Lexed {
    match v
    case Value(text, rest) => Read(tok, text, rest, line)
    case Unscannable(e) => Bad(e, line)
  }

  /** A number or an identifier at the start of s. */
  function ValueAt(s: string, line: nat): (r: Lexed)
    requires s != ""
    ensures r.Read? ==> |r.rest| < |s| && r.tok != End
    ensures !r.AtEnd? && r.line == line
  {
    if StartsNumber(s[0]) then FromScan(Number, ScanNumber(s), line)
    else if IsAlpha(s[0]) then
      var n := 1 + WordLength(s[1..]);
      Read(Ident, s[..n], s[n..], line)
    else Bad(BadCharacter, line)
  }

  /** The token at the start of s. */
  function TokenAt(s: string, line: nat, st: LexerStyle): (r: Lexed)
    requires s != ""
    ensures r.Read? ==> |r.rest| < |s| && r.tok != End
    ensures !r.AtEnd? && r.line == line
  {
    var c := s[0];
    if c == '#' then Read(Hash, "", s[1..], line)
    else if c == '%' then Read(Percent, "", s[1..], line)
    else if c == '/' then
      if |s| == 1 || s[1] == '/' then Read(Slash, "", s[1..], line)
      else if s[1] == '*' then Read(Asterisk, "", s[1..], line)
      else Bad(BadCommentStart, line)
    else if CharToken(c).Some? then Read(CharToken(c).value, "", s[1..], line)
    else if c == '"' || c == '\'' then
      if QuoteChar(st) != c then Bad(UnknownCharacter, line)
      else FromScan(Text, ScanString(s[1..], c, ""), line)
    else ValueAt(s, line)
  }

  /** Where the next token starts, if there is one. */
  datatype Start = TokenStarts(rest: string, line: nat) | Over(line: nat)

  function SkipGaps(s: string, line: nat, st: LexerStyle): (r: Start)
    ensures r.TokenStarts? ==> 0 < |r.rest| <= |s|
    decreases |s|
  {
    if s == "" then Over(line)
    else match GapAt(s, line, st)
      case Skip(rest, n) => SkipGaps(rest, n, st)
      case CutOff(n) => Over(n)
      case NoGap => TokenStarts(s, line)
  }

  function TokenFrom(start: Start, st: LexerStyle): (r: Lexed)
    requires start.TokenStarts? ==> start.rest != ""
    ensures r.Read? ==> start.TokenStarts? && |r.rest| < |start.rest| && r.tok != End
  {
    match start
    case Over(n) => AtEnd(n)
    case TokenStarts(rest, n) => TokenAt(rest, n, st)
  }

  /** The next token of s. */
  function Next(s: string, line: nat, st: LexerStyle): (r: Lexed)
    ensures r.Read? ==> |r.rest| < |s| && r.tok != End
  {
    TokenFrom(SkipGaps(s, line, st), st)
  }

  // ---------------------------------------------------------------- token streams

  datatype Lexeme = Lexeme(tok: Token, text: string, line: nat)

  /** All the tokens of a text, up to its end or to the first lexical error. */
  datatype Stream =
    | Done(line: nat)
    | Fault(error: LexError, line: nat)
    | More(head: Lexeme, tail: Stream)

  function Lex(s: string, line: nat, st: LexerStyle): (l: Stream)
    ensures l.More? ==> l.head.tok != End
    decreases |s|
  {
    match Next(s, line, st)
    case AtEnd(n) => Done(n)
    case Bad(e, n) => Fault(e, n)
    case Read(tok, text, rest, n) => More(Lexeme(tok, text, n), Lex(rest, n, st))
  }

  function Length(l: Stream): nat {
    if l.More? then 1 + Length(l.tail) else 0
  }

  /** The next token; the end of the input repeats for ever. */
  function Head(l: Stream): Token { if l.More? then l.head.tok else End }
}
