/**
 The registry's tokens, white space and comments, each described by its characters alone: what a
 reader of a registry file would have to know.  Nothing here says how a text is scanned.
 */
module Lexicon {
  import opened Lexing
  import opened Results

  // ---------------------------------------------------------------- characters

  predicate Space(c: char) {
    c == ' ' || c == '\t' || c == '\n' || c == '\U{0B}' || c == '\U{0C}' || c == '\r'
  }

  predicate Digit(c: char) { '0' <= c <= '9' }

  predicate Letter(c: char) { 'a' <= c <= 'z' || 'A' <= c <= 'Z' }

  predicate Digits(s: string) { forall c :: c in s ==> Digit(c) }

  function Quote(st: LexerStyle): char {
    match st.quotes
    case SingleQuotes => '\''
    case DoubleQuotes => '"'
  }

  /** The marks with which a comment to the end of the line may begin. */
  function LineMarks(st: LexerStyle): set<string> {
    match st.comments
    case CComments => {"//"}
    case HashComments => {"#"}
    case PercentComments => {"%", "//"}
  }

  // ---------------------------------------------------------------- identifiers

  predicate WordChar(c: char) { Letter(c) || Digit(c) || c == '_' }

  /** Letters, digits and underscores, beginning with a letter. */
  predicate Word(t: string) { t != "" && Letter(t[0]) && forall c :: c in t ==> WordChar(c) }

  // ---------------------------------------------------------------- numbers

  function Unsigned(t: string): string {
    if t != "" && (t[0] == '+' || t[0] == '-') then t[1..] else t
  }

  /** Digits with at most one point among them, and at least one digit. */
  predicate Mantissa(m: string) {
    && (forall c :: c in m ==> Digit(c) || c == '.')
    && (forall i, j :: 0 <= i < j < |m| ==> !(m[i] == '.' && m[j] == '.'))
    && exists c :: c in m && Digit(c)
  }

  predicate IsE(c: char) { c == 'e' || c == 'E' }

  /** Where the first e stands, or the end. */
  function FirstE(t: string): (k: nat)
    ensures k <= |t| && (k < |t| ==> IsE(t[k])) && forall i :: 0 <= i < k ==> !IsE(t[i])
  {
    if t == "" || IsE(t[0]) then 0 else 1 + FirstE(t[1..])
  }

  /** A sign at most, and then at least one digit. */
  predicate Integer(t: string) { Unsigned(t) != "" && Digits(Unsigned(t)) }

  /** A decimal number: a sign at most, a mantissa, and at most an exponent after an e. */
  predicate Decimal(t: string) {
    var u := Unsigned(t);
    Mantissa(u[..FirstE(u)]) && (FirstE(u) < |u| ==> Integer(u[FirstE(u) + 1..]))
  }

  /** Some decimal number begins so. */
  ghost predicate BeginsDecimal(t: string) { exists more :: Decimal(t + more) }

  /** t begins a number, and with what follows it no longer would. */
  ghost predicate Longest(t: string, rest: string) {
    BeginsDecimal(t) && (rest == "" || !BeginsDecimal(t + [rest[0]]))
  }

  /** t begins a number, and cannot go on, but is none. */
  ghost predicate NoNumber(t: string, rest: string) { t != "" && Longest(t, rest) && !Decimal(t) }

  // ---------------------------------------------------------------- quoted strings

  /** Between quotes q the characters of body stand for text: themselves, but for a backslash and what
      it escapes. */
  predicate Encodes(body: string, text: string, q: char) {
    if body == "" then text == ""
    else if body[0] == '\\' then
      && |body| > 1 && text != "" && Encodes(body[2..], text[1..], q)
      && ( || (body[1] == q && text[0] == q)
           || (body[1] == '\\' && text[0] == '\\')
           || (body[1] == 'n' && text[0] == '\n'))
    else
      && body[0] != q && body[0] != '\n'
      && text != "" && text[0] == body[0] && Encodes(body[1..], text[1..], q)
  }

  predicate WrongEscape(s: string, q: char) {
    s != "" && s[0] == '\\' && (|s| == 1 || s[1] !in {q, '\\', 'n'})
  }

  /** s is a quote, and characters that stand for text, up to rest. */
  predicate Quoted(s: string, text: string, rest: string, q: char) {
    && |s| > |rest| && s[0] == q && s[|s| - |rest|..] == rest
    && Encodes(s[1..|s| - |rest|], text, q)
  }

  // ---------------------------------------------------------------- tokens

  /** The tokens that are always a single character. */
  function TokenChar(t: Token): Option<char> {
    match t
    case LeftParen => Some('(')
    case RightParen => Some(')')
    case LeftBrace => Some('{')
    case RightBrace => Some('}')
    case LeftBracket => Some('[')
    case RightBracket => Some(']')
    case Comma => Some(',')
    case Assign => Some('=')
    case _ => None
  }

  /** With rest behind it, t is the token tok with the given value. */
  ghost predicate Written(tok: Token, text: string, t: string, rest: string, st: LexerStyle) {
    match tok
    case Ident => text == t && Word(t) && (rest == "" || !WordChar(rest[0]))
    case Number => text == t && Decimal(t) && Longest(t, rest)
    case Text => Quoted(t, text, [Quote(st)], Quote(st))
    case Hash => text == "" && t == "#" && st.comments != HashComments
    case Percent => text == "" && t == "%" && st.comments != PercentComments
    case Slash => text == "" && t == "/" && (rest == "" || (rest[0] == '/' && st.comments == HashComments))
    case Asterisk => text == "" && t == "/" && rest != "" && rest[0] == '*' && st.comments != CComments
    case _ => text == "" && TokenChar(tok).Some? && t == [TokenChar(tok).value]
  }

  /** s begins with something that is neither gap nor token. */
  ghost predicate Malformed(e: LexError, s: string, st: LexerStyle) {
    s != "" &&
    match e
    case UnknownCharacter => s[0] in {'"', '\''} && s[0] != Quote(st)
    case BadCommentStart => s[0] == '/' && |s| > 1 && s[1] != '/' && s[1] != '*'
    case UnterminatedString => exists text, rest :: Quoted(s, text, rest, Quote(st)) && (rest == "" || rest[0] == '\n')
    case BadEscape => exists text, rest :: Quoted(s, text, rest, Quote(st)) && WrongEscape(rest, Quote(st))
    case BadNumber => exists n :: 0 <= n <= |s| && NoNumber(s[..n], s[n..])
    case BadCharacter =>
      !(Letter(s[0]) || Digit(s[0]) || Space(s[0]) || s[0] in "+-.(){}[],=#%/\"\'")
  }
}
