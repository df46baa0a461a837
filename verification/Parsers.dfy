/**
 The parser and registry objects, proved against module Parsing.  The parser pulls tokens from a
 lexer and hands back the one it has read too many.
 */
module Parsers {
  import opened Lexing
  import opened Lexers
  import opened Parsing
  import opened Results

  class Parser {
    const lex: Lexer
    const style: ParserStyle
    var state: bool

    constructor (lex: Lexer, style: ParserStyle)
      ensures this.lex == lex && this.style == style && state
    {
      this.lex, this.style, state := lex, style, true;
    }

    /** Ready to read on, with these tokens ahead. */
    ghost predicate At(l: Stream)
      reads lex
    {
      lex.Valid() && ValidStyle(style) && lex.Ahead() == l
    }

    /** Reads one token, which must be t. */
    method Expect(t: Token) returns (r: Result<(), ParseError>)
      requires lex.Valid() && ValidStyle(style)
      modifies lex
      ensures match old(lex.Ahead())
              case Fault(e, _) => r == Err(Lexical(e))
              case l => r == if Head(l) == t then Ok(()) else Err(TokenExpected(t))
      ensures r.Ok? ==> At(Tail(old(lex.Ahead()))) && lex.style == old(lex.style)
    {
      var tt := lex.GetToken();
      match tt
      case Err(f) => r := Err(Lexical(f.error));
      case Ok(tok) => r := if tok == t then Ok(()) else Err(TokenExpected(t));
    }

    /** What stands between the last element and the token just read, which starts here. */
    method Separate(first: bool, ghost here: Stream) returns (r: Result<(), ParseError>)
      requires lex.JustRead(here) && ValidStyle(style)
      modifies lex`hold
      ensures match Separator(here, first, style)
              case Good(_, l) => r == Ok(()) && At(l)
              case Failed(e) => r == Err(e)
    {
      if first {
        lex.Putback();
      } else if style.commas == CommaRequired {
        if lex.current != Comma { return Err(TokenExpected(Comma)); }
      } else if lex.current != Comma {
        lex.Putback();
      }
      return Ok(());
    }

    /** What follows a name: the list of an expression with that head, or nothing. */
    method ParseNamed(name: string) returns (r: Result<Term, ParseError>)
      requires lex.Valid() && ValidStyle(style)
      modifies lex
      ensures match Named(name, old(lex.Ahead()), style)
              case Good(v, rest) => r == Ok(v) && At(rest) && lex.style == old(lex.style)
              case Failed(e) => r == Err(e)
      decreases Length(lex.Ahead()), 3
    {
      var next := lex.GetToken();
      if next.Err? { return Err(Lexical(next.error.error)); }
      if next.value != style.expr {
        lex.Putback();
        return Ok(Str(name));
      }
      var args := ParseList(ClosingToken(style.expr));
      if args.Err? { return Err(args.error); }
      return Ok(Expr(name, args.value));
    }

    method ParseTerm() returns (r: Result<Term, ParseError>)
      requires lex.Valid() && ValidStyle(style)
      modifies lex
      ensures match Parsing.ParseTerm(old(lex.Ahead()), style)
              case Good(v, rest) => r == Ok(v) && At(rest) && lex.style == old(lex.style)
              case Failed(e) => r == Err(e)
      decreases Length(lex.Ahead()), 0
    {
      var tok := lex.GetToken();
      if tok.Err? { return Err(Lexical(tok.error.error)); }
      if lex.current == Number {
        return Ok(Num(lex.Value()));
      } else if lex.current == Text {
        return Ok(Str(lex.Value()));
      } else if lex.current == Ident {
        r := ParseNamed(lex.Value());
        return;
      } else if lex.current == style.list {
        var elements := ParseList(ClosingToken(style.list));
        if elements.Err? { return Err(elements.error); }
        return Ok(List(elements.value));
      }
      return Err(TermExpected);
    }

    /** One round of the list loop: the closing token, or a separator and an element. */
    method ParseElement(close: Token, first: bool) returns (r: Result<Option<Term>, ParseError>)
      requires lex.Valid() && ValidStyle(style) && close != End
      modifies lex
      ensures match Element(old(lex.Ahead()), close, first, style)
              case Good(v, rest) => r == Ok(v) && At(rest) && lex.style == old(lex.style)
              case Failed(e) => r == Err(e)
      decreases Length(lex.Ahead()), 1
    {
      ghost var here := lex.Ahead();
      var tok := lex.GetToken();
      if tok.Err? { return Err(Lexical(tok.error.error)); }
      if tok.value == close { return Ok(None); }
      var separated := Separate(first, here);
      if separated.Err? { return Err(separated.error); }
      var e := ParseTerm();
      if e.Err? { return Err(e.error); }
      return Ok(Some(e.value));
    }

    method ParseList(close: Token) returns (r: Result<seq<Term>, ParseError>)
      requires lex.Valid() && ValidStyle(style) && close != End
      modifies lex
      ensures match Parsing.ParseList(old(lex.Ahead()), close, true, style)
              case Good(vs, rest) => r == Ok(vs) && At(rest) && lex.style == old(lex.style)
              case Failed(e) => r == Err(e)
      decreases Length(lex.Ahead()), 2
    {
      var v: seq<Term> := [];
      var first := true;
      ghost var all := Parsing.ParseList(lex.Ahead(), close, true, style);
      PrependNothing(all);
      while true
        invariant lex.Valid() && lex.style == old(lex.style)
        invariant Length(lex.Ahead()) <= Length(old(lex.Ahead()))
        invariant all == Prepend(v, Parsing.ParseList(lex.Ahead(), close, first, style))
        decreases Length(lex.Ahead())
      {
        ListByElements(lex.Ahead(), close, first, style);
        var e := ParseElement(close, first);
        if e.Err? { return Err(e.error); }
        if e.value.None? {
          assert v + [] == v;
          return Ok(v);
        }
        PrependTwice(v, [e.value.value], Parsing.ParseList(lex.Ahead(), close, false, style));
        v := v + [e.value.value];
        first := false;
      }
    }

    /** Reads a pair, or clears state when the next token, which is consumed, is no identifier. */
    method ParsePair() returns (r: Result<Option<(string, Entry)>, ParseError>)
      requires lex.Valid() && ValidStyle(style)
      modifies this`state, lex
      ensures !old(state) ==> r == Ok(None) && !state && At(old(lex.Ahead())) && lex.style == old(lex.style)
      ensures old(state) ==>
                match Parsing.ParsePair(old(lex.Ahead()), style)
                case Good(None, l) => r == Ok(None) && !state && lex.JustRead(l) && lex.style == old(lex.style)
                case Good(pair, rest) => r == Ok(pair) && state && At(rest) && lex.style == old(lex.style)
                case Failed(e) => r == Err(e)
    {
      if !state { return Ok(None); }
      var tok := lex.GetToken();
      if tok.Err? { return Err(Lexical(tok.error.error)); }
      if tok.value != Ident {
        state := false;
        return Ok(None);
      }
      var line, key := lex.line, lex.Value();
      var equals := Expect(Assign);
      if equals.Err? { return Err(equals.error); }
      var v := ParseTerm();
      if v.Err? { return Err(v.error); }
      return Ok(Some((key, Entry(v.value, line))));
    }
  }

  class Registry {
    var kv: map<string, Entry>

    constructor ()
      ensures kv == map[]
    {
      kv := map[];
    }

    /** Adds or overwrites a key; if redefinition is not allowed an existing key is an error. */
    method AddAny(key: string, entry: Entry, unique: bool) returns (r: Result<(), ParseError>)
      modifies this
      ensures r == if unique && key in old(kv) then Err(Redefined(key)) else Ok(())
      ensures kv == if r.Ok? then old(kv)[key := entry] else old(kv)
    {
      if unique && key in kv { return Err(Redefined(key)); }
      kv := kv[key := entry];
      return Ok(());
    }

    /** Adds the next pair, if there is one. */
    method AddPair(p: Parser, unique: bool) returns (r: Result<bool, ParseError>)
      requires p.lex.Valid() && p.state && ValidStyle(p.style)
      modifies this, p, p.lex
      ensures r == Ok(true) ==>
        && p.lex.Valid() && p.state && Length(p.lex.Ahead()) < Length(old(p.lex.Ahead()))
        && ReadPairs(old(p.lex.Ahead()), p.style, unique, old(kv)) == ReadPairs(p.lex.Ahead(), p.style, unique, kv)
        && Stored(old(p.lex.Ahead()), p.style, unique, old(kv)) == Stored(p.lex.Ahead(), p.style, unique, kv)
      ensures r != Ok(true) ==> kv == old(kv) == Stored(old(p.lex.Ahead()), p.style, unique, old(kv))
      ensures match r
              case Ok(more) => !more ==>
                && ReadPairs(old(p.lex.Ahead()), p.style, unique, old(kv)) == Good(kv, old(p.lex.Ahead()))
                && p.lex.JustRead(old(p.lex.Ahead()))
              case Err(e) => ReadPairs(old(p.lex.Ahead()), p.style, unique, old(kv)) == Failed(e)
    {
      var pair := p.ParsePair();
      if pair.Err? { return Err(pair.error); }
      if pair.value.None? { return Ok(false); }
      var added := AddAny(pair.value.value.0, pair.value.value.1, unique);
      if added.Err? { return Err(added.error); }
      return Ok(true);
    }

    /** Puts the token read last back in front. */
    method HandBack(p: Parser, ghost rest: Stream)
      requires p.lex.JustRead(rest)
      modifies p.lex
      ensures p.lex.Valid() && p.lex.Ahead() == rest
    {
      p.lex.Putback();
    }

    /** Adds pairs while the parser finds any; the first token that starts none is handed back. */
    method AddPairs(p: Parser, unique: bool) returns (r: Result<(), ParseError>)
      requires p.lex.Valid() && p.state && ValidStyle(p.style)
      modifies this, p, p.lex
      ensures kv == Stored(old(p.lex.Ahead()), p.style, unique, old(kv))
      ensures match ReadPairs(old(p.lex.Ahead()), p.style, unique, old(kv))
              case Good(kv', rest) => r == Ok(()) && kv == kv' && p.lex.Valid() && p.lex.Ahead() == rest
              case Failed(e) => r == Err(e)
    {
      ghost var all := ReadPairs(p.lex.Ahead(), p.style, unique, kv);
      ghost var stored := Stored(p.lex.Ahead(), p.style, unique, kv);
      ghost var rest := p.lex.Ahead();
      var more := true;
      while more
        invariant more ==> p.lex.Valid() && p.state
        invariant more ==> rest == p.lex.Ahead() && all == ReadPairs(rest, p.style, unique, kv)
        invariant more ==> stored == Stored(rest, p.style, unique, kv)
        invariant !more ==> p.lex.JustRead(rest) && all == Good(kv, rest) && stored == kv
        decreases more, Length(rest)
      {
        var added := AddPair(p, unique);
        if added.Err? { return Err(added.error); }
        more := added.value;
        if more { rest := p.lex.Ahead(); }
      }
      HandBack(p, rest);
      return Ok(());
    }

    /** Reads pairs from a lexer, in the given styles, starting with a token it may still hold. */
    method ReadFrom(lex: Lexer, ls: LexerStyle, ps: ParserStyle, unique: bool) returns (r: Result<(), ParseError>)
      requires lex.Valid() && ValidStyle(ps)
      modifies this, lex
      ensures kv == Stored(old(lex.AheadIn(ls)), ps, unique, old(kv))
      ensures match ReadPairs(old(lex.AheadIn(ls)), ps, unique, old(kv))
              case Good(kv', rest) => r == Ok(()) && kv == kv' && lex.Valid() && lex.Ahead() == rest
              case Failed(e) => r == Err(e)
    {
      lex.SetStyle(ls);
      var p := new Parser(lex, ps);
      r := AddPairs(p, unique);
    }

    /** Reads a whole file, given its contents. */
    method ReadFile(contents: string, ls: LexerStyle, ps: ParserStyle, unique: bool) returns (r: Result<(), ParseError>)
      requires ValidStyle(ps)
      modifies this
      ensures kv == Stored(Lex(contents, 1, ls), ps, unique, old(kv))
      ensures match ReadText(contents, ls, ps, unique, old(kv))
              case Ok(kv') => r == Ok(()) && kv == kv'
              case Err(e) => r == Err(e)
    {
      var lex := new Lexer(contents, ls);
      r := ReadFrom(lex, ls, ps, unique);
      if r.Err? { return; }
      var p := new Parser(lex, ps);
      r := p.Expect(End);
    }
  }
}
