/** What the stripping passes mean: a decorated token sequence loses its comments and its
    trailing commas and nothing else. */
module JsoncTokens {
  import opened Basics
  import opened Jsonc

  /** `Mark` is one of the six structural characters, `Word` a number or a literal name;
      `Space`, `Line` and `Block` are decoration. */
  datatype Piece =
    | Space(text: string)
    | Line(text: string)
    | Block(text: string)
    | Str(body: string)
    | Mark(c: char)
    | Word(text: string)

  const COMMA := Mark(',')

  predicate IsMark(c: char) {
    c == '{' || c == '}' || c == '[' || c == ']' || c == ':' || c == ','
  }

  predicate IsWordChar(c: char) {
    !IsSpace(c) && !IsMark(c) && c != '"' && c != '/'
  }

  /** Between the quotes: escapes in pairs, and no bare quote. */
  predicate IsStringBody(body: string) {
    if body == "" then true
    else if body[0] == '\\' then |body| >= 2 && IsStringBody(body[2..])
    else body[0] != '"' && IsStringBody(body[1..])
  }

  predicate IsPiece(p: Piece) {
    match p
    case Space(text) => text != "" && forall i | 0 <= i < |text| :: IsSpace(text[i])
    case Line(text) => forall i | 0 <= i < |text| :: text[i] != '\n' && text[i] != '\r'
    case Block(text) => forall i | 0 <= i < |text| - 1 :: !(text[i] == '*' && text[i + 1] == '/')
    case Str(body) => IsStringBody(body)
    case Mark(c) => IsMark(c)
    case Word(text) => text != "" && forall i | 0 <= i < |text| :: IsWordChar(text[i])
  }

  function Render(p: Piece): string {
    match p
    case Space(text) => text
    case Line(text) => "//" + text
    case Block(text) => "/*" + text + "*/"
    case Str(body) => "\"" + body + "\""
    case Mark(c) => [c]
    case Word(text) => text
  }

  function Text(ps: seq<Piece>): string {
    if ps == [] then "" else Render(ps[0]) + Text(ps[1..])
  }

  predicate EndsLine(ps: seq<Piece>) {
    ps == [] || (ps[0].Space? && ps[0].text != "" && (ps[0].text[0] == '\n' || ps[0].text[0] == '\r'))
  }

  /** Every piece is well formed and every line comment runs to the end of its line. */
  predicate Decorated(ps: seq<Piece>) {
    ps == [] || (IsPiece(ps[0]) && (ps[0].Line? ==> EndsLine(ps[1..])) && Decorated(ps[1..]))
  }

  predicate IsComment(p: Piece) {
    p.Line? || p.Block?
  }

  /** The pieces without their comments. */
  function WithoutComments(ps: seq<Piece>): seq<Piece> {
    if ps == [] then []
    else if IsComment(ps[0]) then WithoutComments(ps[1..])
    else [ps[0]] + WithoutComments(ps[1..])
  }

  /** The next piece that is not decoration is a closing brace or bracket. */
  predicate CloserAhead(ps: seq<Piece>) {
    ps != [] && if ps[0].Space? || IsComment(ps[0]) then CloserAhead(ps[1..])
              else ps[0] == Mark('}') || ps[0] == Mark(']')
  }

  /** The pieces without their trailing commas. */
  function WithoutTrailing(ps: seq<Piece>): seq<Piece> {
    if ps == [] then []
    else if ps[0] == COMMA && CloserAhead(ps[1..]) then WithoutTrailing(ps[1..])
    else [ps[0]] + WithoutTrailing(ps[1..])
  }

  // ---- pass one ----

  lemma {:induction false} PlainRun(u: string, rest: string)
    requires forall i :: 0 <= i < |u| ==> u[i] != '"' && u[i] != '/'
    ensures Uncomment(u + rest, false) == u + Uncomment(rest, false)
  {
    if u == "" {
      assert u + rest == rest;
    } else {
      assert (u + rest)[1..] == u[1..] + rest;
      PlainRun(u[1..], rest);
    }
  }

  lemma Regroup(body: string, tail: string, rest: string, step: nat)
    requires step <= |body|
    ensures (body + tail)[step..] == body[step..] + tail
    ensures body[..step] + (body[step..] + rest) == body + rest
  {
  }

  /** Inside a string body the next turn copies one unit of it. */
  lemma BodyTurn(body: string, tail: string) returns (step: nat)
    requires IsStringBody(body) && body != ""
    ensures 1 <= step <= |body| && IsStringBody(body[step..])
    ensures CopyTurn(body + tail) == Turn(body[..step], step, true)
  {
    step := if body[0] == '\\' then 2 else 1;
  }

  lemma {:induction false} CommentBodyRun(body: string, tail: string)
    requires IsStringBody(body)
    ensures Uncomment(body + tail, true) == body + Uncomment(tail, true)
    decreases |body|
  {
    if body == "" {
      assert body + tail == tail;
    } else {
      var step := BodyTurn(body, tail);
      CommentBodyRun(body[step..], tail);
      Regroup(body, tail, Uncomment(tail, true), step);
    }
  }

  lemma {:induction false} LineRun(text: string, rest: string)
    requires forall i :: 0 <= i < |text| ==> text[i] != '\n' && text[i] != '\r'
    requires rest == "" || rest[0] == '\n' || rest[0] == '\r'
    ensures AfterLine(text + rest) == rest
  {
    if text == "" {
      assert text + rest == rest;
    } else {
      assert (text + rest)[1..] == text[1..] + rest;
      LineRun(text[1..], rest);
    }
  }

  lemma {:induction false} BlockRun(text: string, rest: string)
    requires forall i :: 0 <= i < |text| - 1 ==> !(text[i] == '*' && text[i + 1] == '/')
    ensures AfterBlock(text + "*/" + rest) == rest
  {
    var t := text + "*/" + rest;
    if text == "" {
      assert t == "*/" + rest && t[2..] == rest;
    } else {
      assert t[1..] == text[1..] + "*/" + rest;
      assert !StartsWith(t, '*', '/');
      forall i | 0 <= i < |text[1..]| - 1 ensures !(text[1..][i] == '*' && text[1..][i + 1] == '/') {
        assert !(text[i + 1] == '*' && text[i + 2] == '/');
      }
      BlockRun(text[1..], rest);
    }
  }

  lemma LineUncomments(text: string, rest: string)
    requires IsPiece(Line(text)) && (rest == "" || rest[0] == '\n' || rest[0] == '\r')
    ensures Uncomment("//" + text + rest, false) == Uncomment(rest, false)
  {
    var t := "//" + text + rest;
    LineRun("//" + text, rest);
    assert t[|t| - |rest|..] == rest;
  }

  lemma BlockUncomments(text: string, rest: string)
    requires IsPiece(Block(text))
    ensures Uncomment("/*" + text + "*/" + rest, false) == Uncomment(rest, false)
  {
    var t := "/*" + text + "*/" + rest;
    assert t[2..] == text + "*/" + rest;
    BlockRun(text, rest);
    assert t[|t| - |rest|..] == rest;
  }

  lemma StrUncomments(body: string, rest: string)
    requires IsStringBody(body)
    ensures Uncomment(Render(Str(body)) + rest, false) == Render(Str(body)) + Uncomment(rest, false)
  {
    var tail := "\"" + rest;
    assert Render(Str(body)) + rest == "\"" + (body + tail);
    CommentBodyRun(body, tail);
  }

  lemma PieceUncomments(p: Piece, rest: string)
    requires IsPiece(p) && (p.Line? ==> rest == "" || rest[0] == '\n' || rest[0] == '\r')
    ensures Uncomment(Render(p) + rest, false) == (if IsComment(p) then "" else Render(p)) + Uncomment(rest, false)
  {
    match p
    case Line(text) => LineUncomments(text, rest);
    case Block(text) => BlockUncomments(text, rest);
    case Str(body) => StrUncomments(body, rest);
    case _ => PlainRun(Render(p), rest);
  }

  /** The first pass removes the comments and keeps everything else. */
  lemma {:induction false} StripsExactlyTheComments(ps: seq<Piece>)
    requires Decorated(ps)
    ensures Uncomment(Text(ps), false) == Text(WithoutComments(ps))
  {
    if ps != [] {
      StripsExactlyTheComments(ps[1..]);
      PieceUncomments(ps[0], Text(ps[1..]));
    }
  }

  // ---- pass two ----

  lemma {:induction false} PlainCommaRun(u: string, rest: string)
    requires forall i :: 0 <= i < |u| ==> u[i] != '"' && u[i] != ','
    ensures Uncomma(u + rest, false) == u + Uncomma(rest, false)
  {
    if u == "" {
      assert u + rest == rest;
    } else {
      assert (u + rest)[1..] == u[1..] + rest;
      PlainCommaRun(u[1..], rest);
    }
  }

  lemma {:induction false} CommaBodyRun(body: string, tail: string)
    requires IsStringBody(body)
    ensures Uncomma(body + tail, true) == body + Uncomma(tail, true)
    decreases |body|
  {
    if body == "" {
      assert body + tail == tail;
    } else {
      var step := BodyTurn(body, tail);
      CommaBodyRun(body[step..], tail);
      Regroup(body, tail, Uncomma(tail, true), step);
    }
  }

  lemma StrUncommas(body: string, rest: string)
    requires IsStringBody(body)
    ensures Uncomma(Render(Str(body)) + rest, false) == Render(Str(body)) + Uncomma(rest, false)
  {
    var tail := "\"" + rest;
    assert Render(Str(body)) + rest == "\"" + (body + tail);
    CommaBodyRun(body, tail);
  }

  lemma {:induction false} SpaceThenCloser(u: string, rest: string)
    requires forall i :: 0 <= i < |u| ==> IsSpace(u[i])
    ensures CloserNext(u + rest) == CloserNext(rest)
  {
    if u == "" {
      assert u + rest == rest;
    } else {
      assert (u + rest)[1..] == u[1..] + rest;
      SpaceThenCloser(u[1..], rest);
    }
  }

  predicate NoComments(ps: seq<Piece>) {
    forall i | 0 <= i < |ps| :: !IsComment(ps[i])
  }

  /** Looking ahead in the text is looking ahead in the pieces. */
  lemma {:induction false} LooksAheadAlike(ps: seq<Piece>)
    requires Decorated(ps) && NoComments(ps)
    ensures CloserNext(Text(ps)) == CloserAhead(ps)
  {
    if ps != [] {
      var rest := Text(ps[1..]);
      if ps[0].Space? {
        SpaceThenCloser(ps[0].text, rest);
        LooksAheadAlike(ps[1..]);
      } else {
        assert Text(ps)[0] == Render(ps[0])[0];
      }
    }
  }

  /** The second pass removes the trailing commas and keeps everything else. */
  lemma {:induction false} StripsExactlyTheTrailingCommas(ps: seq<Piece>)
    requires Decorated(ps) && NoComments(ps)
    ensures Uncomma(Text(ps), false) == Text(WithoutTrailing(ps))
  {
    if ps != [] {
      var rest := Text(ps[1..]);
      StripsExactlyTheTrailingCommas(ps[1..]);
      if ps[0] == COMMA {
        LooksAheadAlike(ps[1..]);
        assert ([','] + rest)[1..] == rest;
      } else if ps[0].Str? {
        StrUncommas(ps[0].body, rest);
      } else {
        PlainCommaRun(Render(ps[0]), rest);
      }
    }
  }

  lemma {:induction false} WithoutCommentsIsDecorated(ps: seq<Piece>)
    requires Decorated(ps)
    ensures Decorated(WithoutComments(ps)) && NoComments(WithoutComments(ps))
  {
    if ps != [] {
      WithoutCommentsIsDecorated(ps[1..]);
    }
  }

  // ---- tokens ----

  /** The pieces that mean something. */
  function Tokens(ps: seq<Piece>): seq<Piece> {
    if ps == [] then []
    else if ps[0].Space? || IsComment(ps[0]) then Tokens(ps[1..])
    else [ps[0]] + Tokens(ps[1..])
  }

  predicate IsCloserToken(p: Piece) {
    p == Mark('}') || p == Mark(']')
  }

  /** A token sequence without the commas that stand right before a closer. */
  function DropTrailing(ts: seq<Piece>): seq<Piece> {
    if ts == [] then []
    else if ts[0] == COMMA && |ts| > 1 && IsCloserToken(ts[1]) then DropTrailing(ts[1..])
    else [ts[0]] + DropTrailing(ts[1..])
  }

  /** JSON never puts two numbers or literal names side by side. */
  predicate WordsApart(ts: seq<Piece>) {
    forall i | 0 <= i < |ts| - 1 :: !(ts[i].Word? && ts[i + 1].Word?)
  }

  lemma {:induction false} AheadIsFirstToken(ps: seq<Piece>)
    ensures CloserAhead(ps) <==> Tokens(ps) != [] && IsCloserToken(Tokens(ps)[0])
  {
    if ps != [] { AheadIsFirstToken(ps[1..]); }
  }

  lemma {:induction false} TokensAfterStripping(ps: seq<Piece>)
    ensures Tokens(WithoutComments(ps)) == Tokens(ps)
    ensures Tokens(WithoutTrailing(ps)) == DropTrailing(Tokens(ps))
  {
    if ps != [] {
      TokensAfterStripping(ps[1..]);
      AheadIsFirstToken(ps[1..]);
    }
  }

  lemma {:induction false} WithoutTrailingIsDecorated(ps: seq<Piece>)
    requires Decorated(ps) && NoComments(ps)
    ensures Decorated(WithoutTrailing(ps)) && NoComments(WithoutTrailing(ps))
  {
    if ps != [] { WithoutTrailingIsDecorated(ps[1..]); }
  }

  lemma {:induction false} DroppingKeepsWordsApart(ts: seq<Piece>)
    requires WordsApart(ts)
    ensures WordsApart(DropTrailing(ts))
    ensures DropTrailing(ts) != [] && DropTrailing(ts)[0].Word? ==> ts[0].Word?
  {
    if ts != [] {
      assert WordsApart(ts[1..]) by {
        forall i | 0 <= i < |ts[1..]| - 1 ensures !(ts[1..][i].Word? && ts[1..][i + 1].Word?) {
          assert !(ts[i + 1].Word? && ts[i + 2].Word?);
        }
      }
      DroppingKeepsWordsApart(ts[1..]);
      if DropTrailing(ts) == [ts[0]] + DropTrailing(ts[1..]) && |ts| > 1 {
        assert !(ts[0].Word? && ts[1].Word?);
      }
    }
  }

  // ---- reading the result back ----

  /** Where the string that starts before `t` ends. */
  function StringEnd(t: string): Option<nat> {
    if t == "" then None
    else if t[0] == '"' then Some(0)
    else
      var step := if t[0] == '\\' then 2 else 1;
      if |t| < step then None
      else match StringEnd(t[step..]) case None => None case Some(n) => Some(n + step)
  }

  function WordEnd(t: string): nat {
    if t == "" || !IsWordChar(t[0]) then 0 else 1 + WordEnd(t[1..])
  }

  lemma {:induction false} EndsAreInside(t: string)
    ensures WordEnd(t) <= |t|
    ensures StringEnd(t).Some? ==> StringEnd(t).value < |t|
    decreases |t|
  {
    if t != "" {
      EndsAreInside(t[1..]);
      if |t| >= 2 { EndsAreInside(t[2..]); }
    }
  }

  /** A JSON lexer: white space separates, words are read as far as they go. */
  function Lex(t: string): Option<seq<Piece>>
    decreases |t|
  {
    EndsAreInside(t);
    if t == "" then Some([])
    else if IsSpace(t[0]) then Lex(t[1..])
    else if t[0] == '"' then
      EndsAreInside(t[1..]);
      (match StringEnd(t[1..]) case None => None case Some(n) => Cons(Str(t[1..][..n]), Lex(t[n + 2..])))
    else if IsMark(t[0]) then Cons(Mark(t[0]), Lex(t[1..]))
    else if IsWordChar(t[0]) then Cons(Word(t[..WordEnd(t)]), Lex(t[WordEnd(t)..]))
    else None
  }

  function Cons(p: Piece, rest: Option<seq<Piece>>): Option<seq<Piece>> {
    match rest case None => None case Some(ts) => Some([p] + ts)
  }

  lemma {:induction false} LexSpace(u: string, rest: string)
    requires forall i :: 0 <= i < |u| ==> IsSpace(u[i])
    ensures Lex(u + rest) == Lex(rest)
  {
    if u == "" {
      assert u + rest == rest;
    } else {
      assert (u + rest)[1..] == u[1..] + rest;
      LexSpace(u[1..], rest);
    }
  }

  lemma {:induction false} StringEndsAtQuote(body: string, rest: string)
    requires IsStringBody(body)
    ensures StringEnd(body + "\"" + rest) == Some(|body|)
    decreases |body|
  {
    var t := body + "\"" + rest;
    if body != "" {
      var step := if body[0] == '\\' then 2 else 1;
      assert t[step..] == body[step..] + "\"" + rest;
      StringEndsAtQuote(body[step..], rest);
    }
  }

  lemma {:induction false} WordEndsAtSeparator(u: string, rest: string)
    requires forall i :: 0 <= i < |u| ==> IsWordChar(u[i])
    requires rest == "" || !IsWordChar(rest[0])
    ensures WordEnd(u + rest) == |u|
  {
    if u == "" {
      assert u + rest == rest;
    } else {
      assert (u + rest)[1..] == u[1..] + rest;
      WordEndsAtSeparator(u[1..], rest);
    }
  }

  lemma LexStr(body: string, rest: string)
    requires IsStringBody(body)
    ensures Lex("\"" + body + "\"" + rest) == Cons(Str(body), Lex(rest))
  {
    var t := "\"" + body + "\"" + rest;
    assert t[1..] == body + "\"" + rest;
    StringEndsAtQuote(body, rest);
    assert t[1..][..|body|] == body && t[|body| + 2..] == rest;
  }

  lemma LexWord(u: string, rest: string)
    requires u != "" && forall i :: 0 <= i < |u| ==> IsWordChar(u[i])
    requires rest == "" || !IsWordChar(rest[0])
    ensures Lex(u + rest) == Cons(Word(u), Lex(rest))
  {
    WordEndsAtSeparator(u, rest);
    assert (u + rest)[0] == u[0];
    assert (u + rest)[..|u|] == u && (u + rest)[|u|..] == rest;
  }

  lemma LexMark(c: char, rest: string)
    requires IsMark(c)
    ensures Lex([c] + rest) == Cons(Mark(c), Lex(rest))
  {
    assert ([c] + rest)[1..] == rest;
  }

  lemma NextIsNoWord(ps: seq<Piece>)
    requires WordsApart(Tokens(ps)) && ps != [] && ps[0].Word?
    ensures ps[1..] != [] ==> !ps[1..][0].Word?
  {
    if ps[1..] != [] && ps[1..][0].Word? {
      TwoWordsMakeTwoTokens(ps);
    }
  }

  lemma TwoWordsMakeTwoTokens(ps: seq<Piece>)
    requires |ps| >= 2 && ps[0].Word? && ps[1].Word?
    ensures |Tokens(ps)| >= 2 && Tokens(ps)[0].Word? && Tokens(ps)[1].Word?
  {
    assert Tokens(ps) == [ps[0]] + Tokens(ps[1..]);
    assert Tokens(ps[1..])[0] == ps[1];
  }

  lemma {:induction false} LexesBack(ps: seq<Piece>)
    requires Decorated(ps) && NoComments(ps) && WordsApart(Tokens(ps))
    ensures Lex(Text(ps)) == Some(Tokens(ps))
  {
    if ps != [] {
      var rest := ps[1..];
      assert WordsApart(Tokens(rest)) by {
        if !ps[0].Space? { assert Tokens(ps)[1..] == Tokens(rest); }
      }
      LexesBack(rest);
      match ps[0]
      case Space(text) => LexSpace(text, Text(rest));
      case Str(body) => LexStr(body, Text(rest));
      case Mark(c) => LexMark(c, Text(rest));
      case Word(text) =>
        NextIsNoWord(ps);
        LexWord(text, Text(rest));
      case _ =>
    }
  }

  // ---- the two passes together ----

  function Strip(text: string): string {
    Uncomma(Uncomment(text, false), false)
  }

  /** Whatever comments, white space and trailing commas a token sequence is decorated with,
      stripping yields a text that reads back as exactly that sequence. */
  lemma StrippingUndecorates(ps: seq<Piece>)
    requires Decorated(ps) && WordsApart(Tokens(ps))
    ensures Strip(Text(ps)) == Text(WithoutTrailing(WithoutComments(ps)))
    ensures Lex(Strip(Text(ps))) == Some(DropTrailing(Tokens(ps)))
  {
    var qs := WithoutComments(ps);
    StripsExactlyTheComments(ps);
    WithoutCommentsIsDecorated(ps);
    StripsExactlyTheTrailingCommas(qs);
    WithoutTrailingIsDecorated(qs);
    TokensAfterStripping(ps);
    TokensAfterStripping(qs);
    DroppingKeepsWordsApart(Tokens(ps));
    LexesBack(WithoutTrailing(qs));
  }

  /** Plain JSON text passes through both passes unchanged. */
  lemma PlainTextIsUntouched(ps: seq<Piece>)
    requires Decorated(ps) && NoComments(ps) && NoTrailing(ps)
    ensures Uncomment(Text(ps), false) == Text(ps) && Uncomma(Text(ps), false) == Text(ps)
  {
    StripsExactlyTheComments(ps);
    StripsExactlyTheTrailingCommas(ps);
    NothingToDrop(ps);
  }

  predicate NoTrailing(ps: seq<Piece>) {
    forall i | 0 <= i < |ps| :: ps[i] == COMMA ==> !CloserAhead(ps[i + 1..])
  }

  lemma {:induction false} NothingToDrop(ps: seq<Piece>)
    ensures NoComments(ps) ==> WithoutComments(ps) == ps
    ensures NoTrailing(ps) ==> WithoutTrailing(ps) == ps
  {
    if ps != [] {
      NothingToDrop(ps[1..]);
      if NoTrailing(ps) {
        forall i | 0 <= i < |ps[1..]| && ps[1..][i] == COMMA ensures !CloserAhead(ps[1..][i + 1..]) {
          assert ps[i + 1] == COMMA && ps[1..][i + 1..] == ps[i + 2..];
        }
      }
    }
  }

  function ParsedJsonc<V>(parse: string -> Option<V>, text: string): Option<V> {
    var stripped := Uncomment(text, false);
    if parse(stripped).Some? then parse(stripped) else parse(Uncomma(stripped, false))
  }

  /** The parser does not take the text while it has trailing commas. */
  ghost predicate RejectsTrailing<V>(parse: string -> Option<V>, ps: seq<Piece>) {
    !NoTrailing(ps) ==> parse(Text(ps)).None?
  }

  /** With a parser that rejects trailing commas, the result is the parse of the undecorated
      text. */
  lemma ParsesTheUndecoratedText<V>(parse: string -> Option<V>, ps: seq<Piece>)
    requires Decorated(ps) && WordsApart(Tokens(ps)) && RejectsTrailing(parse, WithoutComments(ps))
    ensures ParsedJsonc(parse, Text(ps)) == parse(Text(WithoutTrailing(WithoutComments(ps))))
  {
    StrippingUndecorates(ps);
    StripsExactlyTheComments(ps);
    NothingToDrop(WithoutComments(ps));
  }

  /** `parseJsonc`, for any JSON parser: a decorated text parses to what its undecorated text does. What the
      second attempt is given only matters when the first one fails. */
  method ParseJsonc<V>(parse: string -> Option<V>, text: string) returns (r: Option<V>)
    ensures r == ParsedJsonc(parse, text)
    ensures forall ps ::
      Decorated(ps) && WordsApart(Tokens(ps)) && RejectsTrailing(parse, WithoutComments(ps)) && Text(ps) == text ==>
        r == parse(Text(WithoutTrailing(WithoutComments(ps))))
  {
    var stripped := StripJsonComments(text);
    r := parse(stripped);
    if r.None? {
      var bare := StripTrailingCommas(stripped);
      r := parse(bare);
    }
    forall ps | Decorated(ps) && WordsApart(Tokens(ps)) && RejectsTrailing(parse, WithoutComments(ps))
                && Text(ps) == text
      ensures r == parse(Text(WithoutTrailing(WithoutComments(ps))))
    {
      ParsesTheUndecoratedText(parse, ps);
    }
  }
}
