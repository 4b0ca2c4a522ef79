/** JSONC: the two stripping passes, and what they leave of a decorated token sequence. */
module Jsonc {
  import opened Basics

  // ---- the passes as functions of the remaining text ----

  predicate StartsWith(t: string, c: char, d: char) {
    |t| >= 2 && t[0] == c && t[1] == d
  }

  /** From the slashes of a line comment to its line feed or carriage return. */
  function AfterLine(t: string): string {
    if t == "" || t[0] == '\n' || t[0] == '\r' then t else AfterLine(t[1..])
  }

  /** Past the end of a block comment, or to the end of the text if it never ends. */
  function AfterBlock(t: string): string {
    if t == "" then "" else if StartsWith(t, '*', '/') then t[2..] else AfterBlock(t[1..])
  }

  lemma {:induction false} SkippingShortens(t: string)
    ensures |AfterLine(t)| <= |t| && |AfterBlock(t)| <= |t|
  {
    if t != "" { SkippingShortens(t[1..]); }
  }

  /** One turn of a pass: what it emits, how far it moves, and whether it is then inside a
      string literal. */
  datatype Turn = Turn(out: string, moved: nat, inString: bool)

  /** Inside a string literal both passes copy; an escape is copied with what it escapes. */
  function CopyTurn(t: string): (turn: Turn)
    requires t != ""
    ensures 1 <= turn.moved <= |t|
  {
    if t[0] != '\\' then Turn([t[0]], 1, t[0] != '"')
    else if |t| >= 2 then Turn([t[0], t[1]], 2, true)
    else Turn([t[0]], 1, true)
  }

  function CommentTurn(t: string, inString: bool): (turn: Turn)
    requires t != ""
    ensures 1 <= turn.moved <= |t|
  {
    if inString then CopyTurn(t)
    else if t[0] == '"' then Turn([t[0]], 1, true)
    else if StartsWith(t, '/', '/') then
      SkippingShortens(t[1..]);
      Turn("", |t| - |AfterLine(t)|, false)
    else if StartsWith(t, '/', '*') then
      SkippingShortens(t[2..]);
      Turn("", |t| - |AfterBlock(t[2..])|, false)
    else Turn([t[0]], 1, false)
  }

  function Uncomment(t: string, inString: bool): string
    decreases |t|
  {
    if t == "" then ""
    else
      var turn := CommentTurn(t, inString);
      turn.out + Uncomment(t[turn.moved..], turn.inString)
  }

  predicate IsCloser(c: char) {
    c == '}' || c == ']'
  }

  /** Past white space, the text goes on with a closing brace or bracket. */
  predicate CloserNext(t: string) {
    t != "" && if IsSpace(t[0]) then CloserNext(t[1..]) else IsCloser(t[0])
  }

  function CommaTurn(t: string, inString: bool): (turn: Turn)
    requires t != ""
    ensures 1 <= turn.moved <= |t|
  {
    if inString then CopyTurn(t)
    else if t[0] == ',' && CloserNext(t[1..]) then Turn("", 1, false)
    else Turn([t[0]], 1, t[0] == '"')
  }

  function Uncomma(t: string, inString: bool): string
    decreases |t|
  {
    if t == "" then ""
    else
      var turn := CommaTurn(t, inString);
      turn.out + Uncomma(t[turn.moved..], turn.inString)
  }

  // ---- the code ----

  lemma TurnAdvances(text: string, i: nat, turn: Turn, before: string, rest: string)
    requires i < |text| && turn.moved <= |text[i..]|
    ensures text[i..][turn.moved..] == text[i + turn.moved..]
    ensures (before + turn.out) + rest == before + (turn.out + rest)
  {
  }

  method StripJsonComments(text: string) returns (result: string)
    ensures result == Uncomment(text, false)
  {
    result := "";
    var i := 0;
    var inString := false;
    while i < |text|
      invariant 0 <= i <= |text|
      invariant Uncomment(text, false) == result + Uncomment(text[i..], inString)
    {
      ghost var turn := CommentTurn(text[i..], inString);
      TurnAdvances(text, i, turn, result, Uncomment(text[i + turn.moved..], turn.inString));
      i, inString, result := CommentLoopBody(text, i, inString, result);
    }
  }

  /** The body of the comment-stripping loop. */
  method CommentLoopBody(text: string, i: nat, inString: bool, result: string)
    returns (i': nat, inString': bool, result': string)
    requires i < |text|
    ensures var turn := CommentTurn(text[i..], inString);
      i' == i + turn.moved && inString' == turn.inString && result' == result + turn.out
  {
    i', inString', result' := i, inString, result;
    if inString {
      if text[i] == '\\' {
        result' := result + (if i + 1 < |text| then [text[i], text[i + 1]] else [text[i]]);
        i' := if i + 1 < |text| then i + 2 else |text|;
        return;
      }
      if text[i] == '"' { inString' := false; }
      result', i' := result + [text[i]], i + 1;
      return;
    }
    if text[i] == '"' {
      inString' := true;
      result', i' := result + [text[i]], i + 1;
      return;
    }
    if i + 1 < |text| && text[i] == '/' && text[i + 1] == '/' {
      i' := SkipLine(text, i);
      return;
    }
    if i + 1 < |text| && text[i] == '/' && text[i + 1] == '*' {
      assert text[i..][2..] == text[i + 2..];
      i' := SkipBlock(text, i + 2);
      return;
    }
    result', i' := result + [text[i]], i + 1;
  }

  method SkipLine(text: string, start: nat) returns (i: nat)
    requires start <= |text|
    ensures start <= i <= |text| && text[i..] == AfterLine(text[start..])
  {
    i := start;
    while i < |text| && text[i] != '\n' && text[i] != '\r'
      invariant start <= i <= |text|
      invariant AfterLine(text[i..]) == AfterLine(text[start..])
    {
      i := i + 1;
    }
  }

  method SkipBlock(text: string, start: nat) returns (i: nat)
    requires start <= |text|
    ensures start <= i <= |text| && text[i..] == AfterBlock(text[start..])
  {
    i := start;
    while i < |text| && !StartsWith(text[i..], '*', '/')
      invariant start <= i <= |text|
      invariant AfterBlock(text[i..]) == AfterBlock(text[start..])
    {
      i := i + 1;
    }
    i := if i < |text| then i + 2 else |text|;
  }

  method StripTrailingCommas(text: string) returns (result: string)
    ensures result == Uncomma(text, false)
  {
    result := "";
    var i := 0;
    var inString := false;
    while i < |text|
      invariant 0 <= i <= |text|
      invariant Uncomma(text, false) == result + Uncomma(text[i..], inString)
    {
      ghost var turn := CommaTurn(text[i..], inString);
      TurnAdvances(text, i, turn, result, Uncomma(text[i + turn.moved..], turn.inString));
      i, inString, result := CommaLoopBody(text, i, inString, result);
    }
  }

  /** The body of the comma-stripping loop, with the loop's own increment at its end. */
  method CommaLoopBody(text: string, i: nat, inString: bool, result: string)
    returns (i': nat, inString': bool, result': string)
    requires i < |text|
    ensures var turn := CommaTurn(text[i..], inString);
      i' == i + turn.moved && inString' == turn.inString && result' == result + turn.out
  {
    i', inString', result' := i, inString, result;
    var c := text[i];
    if inString {
      result' := result' + [c];
      if c == '\\' {
        if i + 1 < |text| {
          i' := i + 1;
          result' := result' + [text[i']];
        }
      } else if c == '"' {
        inString' := false;
      }
      i' := i' + 1;
      return;
    }
    if c == '"' {
      inString' := true;
    } else if c == ',' {
      assert text[i..][1..] == text[i + 1..];
      var dropped := CloserFollows(text, i + 1);
      if dropped {
        i' := i' + 1;
        return;
      }
    }
    result', i' := result' + [c], i' + 1;
  }

  method CloserFollows(text: string, start: nat) returns (yes: bool)
    requires start <= |text|
    ensures yes == CloserNext(text[start..])
  {
    var next := start;
    while next < |text| && IsSpace(text[next])
      invariant start <= next <= |text|
      invariant CloserNext(text[next..]) == CloserNext(text[start..])
    {
      next := next + 1;
    }
    yes := next < |text| && IsCloser(text[next]);
  }
}
