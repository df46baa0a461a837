/**
 The registry's grammar: what terms and key/value pairs a token stream spells, for a choice of
 delimiters and comma policy.  Module Parsers holds the parser and registry objects.
 */
module Parsing {
  import opened Lexing
  import opened Results

  datatype CommaStyle = CommaRequired | CommaOptional

  datatype ParserStyle = ParserStyle(commas: CommaStyle, list: Token, expr: Token)

  /** Values: the literal of a number, a string (quoted or a bare identifier), a list, or an
      expression with its head. */
  datatype Term =
    | Num(literal: string)
    | Str(value: string)
    | List(elements: seq<Term>)
    | Expr(head: string, tail: seq<Term>)

  datatype ParseError =
    | Lexical(error: LexError)
    | TermExpected
    | TokenExpected(tok: Token)
    | Redefined(key: string)

  /** What was read and the tokens left, or the error. */
  datatype Parsed<+T> = Good(value: T, rest: Stream) | Failed(error: ParseError)

  predicate Opening(t: Token) { t in {LeftParen, LeftBrace, LeftBracket} }

  /** Lists and expressions are delimited by brackets. */
  predicate ValidStyle(ps: ParserStyle) { Opening(ps.list) && Opening(ps.expr) }

  function ClosingToken(t: Token): (r: Token)
    requires Opening(t)
    ensures !Opening(r) && r != Comma && r != End && r != Number && r != Text && r != Ident
  {
    match t
    case LeftParen => RightParen
    case LeftBrace => RightBrace
    case _ => RightBracket
  }

  // ---------------------------------------------------------------- reading the stream

  function Tail(l: Stream): Stream { if l.More? then l.tail else l }

  function FaultOf<T>(l: Stream): Parsed<T>
    requires l.Fault?
  {
    Failed(Lexical(l.error))
  }

  // ---------------------------------------------------------------- terms and lists

  function ParseTerm(l: Stream, ps: ParserStyle): (r: Parsed<Term>)
    requires ValidStyle(ps)
    ensures r.Good? ==> Length(r.rest) < Length(l)
    decreases Length(l), 0
  {
    if l.Fault? then FaultOf(l)
    else if l.Done? then Failed(TermExpected)
    else
      var h, t := l.head, l.tail;
      if h.tok == Number then Good(Num(h.text), t)
      else if h.tok == Text then Good(Str(h.text), t)
      else if h.tok == Ident then
        if t.Fault? then FaultOf(t)
        else if Head(t) == ps.expr then
          assert t.More? && Length(t) == 1 + Length(t.tail);
          match ParseList(t.tail, ClosingToken(ps.expr), true, ps)
          case Good(args, rest) => Good(Expr(h.text, args), rest)
          case Failed(e) => Failed(e)
        else Good(Str(h.text), t)
      else if h.tok == ps.list then
        match ParseList(t, ClosingToken(ps.list), true, ps)
        case Good(elements, rest) => Good(List(elements), rest)
        case Failed(e) => Failed(e)
      else Failed(TermExpected)
  }

  /** What separates an element from the one before: the stream after it. */
  function Separator(l: Stream, first: bool, ps: ParserStyle): (r: Parsed<()>)
    ensures r.Good? ==> Length(r.rest) <= Length(l)
  {
    if first then Good((), l)
    else if ps.commas == CommaRequired then
      if Head(l) == Comma then Good((), l.tail) else Failed(TokenExpected(Comma))
    else Good((), if Head(l) == Comma then l.tail else l)
  }

  function Prepend<T>(vs: seq<T>, p: Parsed<seq<T>>): Parsed<seq<T>> {
    if p.Good? then Good(vs + p.value, p.rest) else p
  }

  /** The elements up to the closing token; first says that none has been read yet. */
  function ParseList(l: Stream, close: Token, first: bool, ps: ParserStyle): (r: Parsed<seq<Term>>)
    requires ValidStyle(ps) && close != End
    ensures r.Good? ==> Length(r.rest) < Length(l)
    decreases Length(l), 1
  {
    if l.Fault? then FaultOf(l)
    else if Head(l) == close then Good([], l.tail)
    else
      match Separator(l, first, ps)
      case Failed(e) => Failed(e)
      case Good(_, m) =>
        match ParseTerm(m, ps)
        case Failed(e) => Failed(e)
        case Good(v, rest) => Prepend([v], ParseList(rest, close, false, ps))
  }

  /** What a name followed by t is: the head of an expression, or a string. */
  function Named(name: string, t: Stream, ps: ParserStyle): Parsed<Term>
    requires ValidStyle(ps)
  {
    if t.Fault? then FaultOf(t)
    else if Head(t) != ps.expr then Good(Str(name), t)
    else
      match ParseList(t.tail, ClosingToken(ps.expr), true, ps)
      case Good(args, rest) => Good(Expr(name, args), rest)
      case Failed(e) => Failed(e)
  }

  lemma PrependNothing<T>(p: Parsed<seq<T>>)
    ensures Prepend([], p) == p
  {
    if p.Good? { assert [] + p.value == p.value; }
  }

  lemma PrependTwice<T>(vs: seq<T>, ws: seq<T>, p: Parsed<seq<T>>)
    ensures Prepend(vs, Prepend(ws, p)) == Prepend(vs + ws, p)
  {
    if p.Good? { assert vs + (ws + p.value) == (vs + ws) + p.value; }
  }

  /** One element with the separator before it, or nothing at the closing token. */
  function Element(l: Stream, close: Token, first: bool, ps: ParserStyle): Parsed<Option<Term>>
    requires ValidStyle(ps) && close != End
  {
    if l.Fault? then FaultOf(l)
    else if Head(l) == close then Good(None, l.tail)
    else
      match Separator(l, first, ps)
      case Failed(e) => Failed(e)
      case Good(_, m) =>
        match ParseTerm(m, ps)
        case Failed(e) => Failed(e)
        case Good(v, rest) => Good(Some(v), rest)
  }

  lemma ListByElements(l: Stream, close: Token, first: bool, ps: ParserStyle)
    requires ValidStyle(ps) && close != End
    ensures match Element(l, close, first, ps)
            case Failed(e) => ParseList(l, close, first, ps) == Failed(e)
            case Good(None, rest) => ParseList(l, close, first, ps) == Good([], rest)
            case Good(Some(v), rest) =>
              && Length(rest) < Length(l)
              && ParseList(l, close, first, ps) == Prepend([v], ParseList(rest, close, false, ps))
  {
  }

  lemma ListStep(l: Stream, m: Stream, v: Term, r: Stream, close: Token, first: bool, ps: ParserStyle)
    requires ValidStyle(ps) && close != End && l.More? && l.head.tok != close
    requires Separator(l, first, ps) == Good((), m) && ParseTerm(m, ps) == Good(v, r)
    ensures ParseList(l, close, first, ps) == Prepend([v], ParseList(r, close, false, ps))
  {
  }

  // ---------------------------------------------------------------- registries

  /** A value with the line of its key. */
  datatype Entry = Entry(value: Term, line: nat)

  /** A key/value pair, or nothing if the next token is no identifier. */
  function ParsePair(l: Stream, ps: ParserStyle): (r: Parsed<Option<(string, Entry)>>)
    requires ValidStyle(ps)
    ensures r.Good? && r.value.Some? ==> Length(r.rest) < Length(l)
  {
    if l.Fault? then FaultOf(l)
    else if Head(l) != Ident then Good(None, l)
    else
      var t := l.tail;
      if t.Fault? then FaultOf(t)
      else if Head(t) != Assign then Failed(TokenExpected(Assign))
      else
        match ParseTerm(t.tail, ps)
        case Failed(e) => Failed(e)
        case Good(v, rest) => Good(Some((l.head.text, Entry(v, l.head.line))), rest)
  }

  /** Adds pairs to kv while there are any. */
  function ReadPairs(l: Stream, ps: ParserStyle, unique: bool, kv: map<string, Entry>)
    : (r: Parsed<map<string, Entry>>)
    requires ValidStyle(ps)
    ensures r.Good? ==> !r.rest.Fault?
    decreases Length(l)
  {
    match ParsePair(l, ps)
    case Failed(e) => Failed(e)
    case Good(None, rest) => Good(kv, rest)
    case Good(Some((key, entry)), rest) =>
      if unique && key in kv then Failed(Redefined(key))
      else ReadPairs(rest, ps, unique, kv[key := entry])
  }

  /** What kv holds when reading ends, be it with an error.  If redefinition is not allowed, no
      existing entry is ever changed. */
  function Stored(l: Stream, ps: ParserStyle, unique: bool, kv: map<string, Entry>): (kv': map<string, Entry>)
    requires ValidStyle(ps)
    ensures forall k :: k in kv ==> k in kv' && (unique ==> kv'[k] == kv[k])
    ensures ReadPairs(l, ps, unique, kv).Good? ==> kv' == ReadPairs(l, ps, unique, kv).value
    decreases Length(l)
  {
    match ParsePair(l, ps)
    case Good(Some((key, entry)), rest) =>
      if unique && key in kv then kv else Stored(rest, ps, unique, kv[key := entry])
    case _ => kv
  }

  /** A whole text: pairs, then the end of input. */
  function ReadText(s: string, ls: LexerStyle, ps: ParserStyle, unique: bool, kv: map<string, Entry>)
    : Result<map<string, Entry>, ParseError>
    requires ValidStyle(ps)
  {
    match ReadPairs(Lex(s, 1, ls), ps, unique, kv)
    case Failed(e) => Err(e)
    case Good(kv', rest) => if Head(rest) == End then Ok(kv') else Err(TokenExpected(End))
  }
}
