/** The parameter flags of `akm workflow run`: one pass over the arguments, a unit at a time. */
module WorkflowFlags {
  import opened Basics

  datatype Value = Text(text: string) | True

  datatype Flag = Flag(name: string, value: Value)

  datatype Problem = AfterDashes | BeforeTarget | Extra(token: string) | ParamsRemoved

  datatype Outcome = Ok(flags: seq<Flag>) | Err(problem: Problem)

  /** The option names the command keeps for itself. */
  datatype Reserved = Reserved(valued: set<string>, plain: set<string>, removed: string)

  const WORKFLOW_RUN := Reserved(
    {"max-steps", "maxSteps", "max-retries", "maxRetries", "timeout", "format", "detail", "shape", "output"},
    {"quiet", "verbose", "help", "no-quiet", "no-verbose", "new", "no-new", "skip-if-locked", "no-skip-if-locked"},
    "params")

  // ---- one token ----

  predicate IsDashed(t: string) {
    t != "" && t[0] == '-'
  }

  predicate IsLong(t: string) {
    |t| >= 2 && t[0] == '-' && t[1] == '-'
  }

  predicate IsNegativeNumber(t: string) {
    |t| >= 2 && t[0] == '-' && '0' <= t[1] <= '9'
  }

  predicate IsPositional(t: string) {
    !IsDashed(t) || t == "-" || IsNegativeNumber(t)
  }

  /** A token the flag before it takes as its value; a lone dash is none. */
  predicate IsValue(t: string) {
    !IsDashed(t) || IsNegativeNumber(t)
  }

  function NameOf(body: string): string {
    if body == "" || body[0] == '=' then "" else [body[0]] + NameOf(body[1..])
  }

  function InlineOf(body: string): Option<string> {
    if body == "" then None else if body[0] == '=' then Some(body[1..]) else InlineOf(body[1..])
  }

  lemma {:induction false} SplitAtEquals(name: string, value: string)
    requires '=' !in name
    ensures NameOf(name) == name && InlineOf(name) == None
    ensures NameOf(name + "=" + value) == name && InlineOf(name + "=" + value) == Some(value)
  {
    if name == "" {
      assert (name + "=" + value)[0] == '=' && (name + "=" + value)[1..] == value;
    } else {
      assert (name + "=" + value)[1..] == name[1..] + "=" + value;
      SplitAtEquals(name[1..], value);
    }
  }

  lemma {:induction false} NamesHaveNoEquals(body: string)
    ensures '=' !in NameOf(body)
    ensures InlineOf(body) == None ==> NameOf(body) == body
  {
    if body != "" && body[0] != '=' {
      NamesHaveNoEquals(body[1..]);
    }
  }

  // ---- one unit ----

  /** What one round of the loop does with the arguments that are left. */
  datatype Turn = Stop(problem: Problem) | Go(flags: seq<Flag>, moved: nat, seen: bool)

  function TurnOf(cli: Reserved, tokens: seq<string>, target: string, seen: bool): (turn: Turn)
    requires tokens != []
    ensures turn.Go? ==> 1 <= turn.moved
  {
    var token := tokens[0];
    if token == "--" then Stop(AfterDashes)
    else if IsPositional(token) then
      if seen then Stop(Extra(token)) else if token != target then Stop(BeforeTarget) else Go([], 1, true)
    else if !IsLong(token) then Go([], 1, seen)
    else
      var name, inline := NameOf(token[2..]), InlineOf(token[2..]);
      if name == cli.removed then Stop(ParamsRemoved)
      else if name in cli.valued then Go([], if inline == None then 2 else 1, seen)
      else if name in cli.plain then Go([], 1, seen)
      else if !seen then Stop(BeforeTarget)
      else if inline.Some? then Go([Flag(name, Text(inline.value))], 1, seen)
      else if |tokens| > 1 && IsValue(tokens[1]) then Go([Flag(name, Text(tokens[1]))], 2, seen)
      else Go([Flag(name, True)], 1, seen)
  }

  function Drop(tokens: seq<string>, n: nat): (rest: seq<string>)
    ensures n > 0 && tokens != [] ==> |rest| < |tokens|
  {
    if n <= |tokens| then tokens[n..] else []
  }

  function Then(flags: seq<Flag>, rest: Outcome): Outcome {
    if rest.Ok? then Ok(flags + rest.flags) else rest
  }

  function Parse(cli: Reserved, tokens: seq<string>, target: string, seen: bool): Outcome
    decreases |tokens|, 1
  {
    if tokens == [] then Ok([]) else After(cli, TurnOf(cli, tokens, target, seen), tokens, target)
  }

  function After(cli: Reserved, turn: Turn, tokens: seq<string>, target: string): Outcome
    requires tokens != [] && (turn.Go? ==> 1 <= turn.moved)
    decreases |tokens|, 0
  {
    if turn.Stop? then Err(turn.problem) else Then(turn.flags, Parse(cli, Drop(tokens, turn.moved), target, turn.seen))
  }

  lemma OneRound(cli: Reserved, rawArgs: seq<string>, at: nat, target: string, seen: bool, turn: Turn,
                 before: seq<Flag>, rest: Outcome)
    returns (next: Outcome)
    requires at < |rawArgs| && turn == TurnOf(cli, rawArgs[at..], target, seen)
    requires rest == Parse(cli, Drop(rawArgs, at), target, seen)
    ensures turn.Stop? ==> Then(before, rest) == Err(turn.problem)
    ensures turn.Go? ==> Then(before, rest) == Then(before + turn.flags, next)
    ensures turn.Go? ==> next == Parse(cli, Drop(rawArgs, at + turn.moved), target, turn.seen)
  {
    next := rest;
    if turn.Go? {
      assert Drop(rawArgs[at..], turn.moved) == Drop(rawArgs, at + turn.moved);
      next := Parse(cli, Drop(rawArgs, at + turn.moved), target, turn.seen);
    }
  }

  /** One round of the loop below: the argument at `index`, with its value if it takes one. */
  method ReadArgument(cli: Reserved, rawArgs: seq<string>, index: nat, target: string, targetSeen: bool)
    returns (turn: Turn)
    requires index < |rawArgs|
    ensures turn == TurnOf(cli, rawArgs[index..], target, targetSeen)
    ensures turn.Go? ==> 1 <= turn.moved
  {
    var token := rawArgs[index];
    if token == "--" { return Stop(AfterDashes); }
    if IsPositional(token) {
      if targetSeen { return Stop(Extra(token)); }
      if token != target { return Stop(BeforeTarget); }
      return Go([], 1, true);
    }
    if !IsLong(token) { return Go([], 1, targetSeen); }
    var body := token[2..];
    var name, inlineValue := NameOf(body), InlineOf(body);
    if name == cli.removed { return Stop(ParamsRemoved); }
    if name in cli.valued { return Go([], if inlineValue == None then 2 else 1, targetSeen); }
    if name in cli.plain { return Go([], 1, targetSeen); }
    if !targetSeen { return Stop(BeforeTarget); }
    if inlineValue.Some? { return Go([Flag(name, Text(inlineValue.value))], 1, targetSeen); }
    if index + 1 < |rawArgs| && IsValue(rawArgs[index + 1]) {
      return Go([Flag(name, Text(rawArgs[index + 1]))], 2, targetSeen);
    }
    return Go([Flag(name, True)], 1, targetSeen);
  }

  /** What the whole parse comes to, once `flags` are read and `index` is reached. */
  ghost predicate Reached(cli: Reserved, rawArgs: seq<string>, target: string, index: nat, seen: bool,
                          flags: seq<Flag>, whole: Outcome) {
    whole == Then(flags, Parse(cli, Drop(rawArgs, index), target, seen))
  }

  method ReadNext(cli: Reserved, rawArgs: seq<string>, index: nat, target: string, targetSeen: bool,
                  flags: seq<Flag>, ghost whole: Outcome)
    returns (turn: Turn)
    requires index < |rawArgs| && Reached(cli, rawArgs, target, index, targetSeen, flags, whole)
    ensures turn.Stop? ==> whole == Err(turn.problem)
    ensures turn.Go? ==> 1 <= turn.moved
    ensures turn.Go? ==> Reached(cli, rawArgs, target, index + turn.moved, turn.seen, flags + turn.flags, whole)
  {
    turn := ReadArgument(cli, rawArgs, index, target, targetSeen);
    ghost var rest := Parse(cli, Drop(rawArgs, index), target, targetSeen);
    rest := OneRound(cli, rawArgs, index, target, targetSeen, turn, flags, rest);
  }

  lemma ReachedAtFirst(cli: Reserved, rawArgs: seq<string>, target: string)
    ensures Reached(cli, rawArgs, target, 0, false, [], Parse(cli, rawArgs, target, false))
  {
    assert Drop(rawArgs, 0) == rawArgs;
    var whole := Parse(cli, rawArgs, target, false);
    assert whole.Ok? ==> [] + whole.flags == whole.flags;
  }

  lemma ReachedAtLast(cli: Reserved, rawArgs: seq<string>, target: string, index: nat, seen: bool,
                      flags: seq<Flag>, whole: Outcome)
    requires Reached(cli, rawArgs, target, index, seen, flags, whole) && index >= |rawArgs|
    ensures whole == Ok(flags)
  {
    assert Drop(rawArgs, index) == [];
    assert flags + [] == flags;
  }

  method ParseWorkflowParameterFlags(cli: Reserved, rawArgs: seq<string>, target: string) returns (outcome: Outcome)
    ensures outcome == Parse(cli, rawArgs, target, false)
  {
    var flags: seq<Flag> := [];
    var targetSeen := false;
    var index := 0;
    ghost var whole := Parse(cli, rawArgs, target, false);
    ReachedAtFirst(cli, rawArgs, target);
    while index < |rawArgs|
      invariant Reached(cli, rawArgs, target, index, targetSeen, flags, whole)
    {
      var turn := ReadNext(cli, rawArgs, index, target, targetSeen, flags, whole);
      if turn.Stop? { return Err(turn.problem); }
      flags, index, targetSeen := flags + turn.flags, index + turn.moved, turn.seen;
    }
    ReachedAtLast(cli, rawArgs, target, index, targetSeen, flags, whole);
    return Ok(flags);
  }

  // ---- printing parses back ----

  function PrintFlag(f: Flag): string {
    if f.value.True? then "--" + f.name else "--" + f.name + "=" + f.value.text
  }

  function Print(flags: seq<Flag>): seq<string> {
    if flags == [] then [] else [PrintFlag(flags[0])] + Print(flags[1..])
  }

  /** Names the parser can report: not reserved, without `=`, and empty only before one. */
  predicate IsPrintable(cli: Reserved, f: Flag) {
    && '=' !in f.name && f.name != cli.removed && f.name !in cli.valued && f.name !in cli.plain
    && (f.value.True? ==> f.name != "")
  }

  predicate ArePrintable(cli: Reserved, flags: seq<Flag>) {
    forall i | 0 <= i < |flags| :: IsPrintable(cli, flags[i])
  }

  lemma PrintedBody(f: Flag)
    requires '=' !in f.name
    ensures |PrintFlag(f)| >= 2 && PrintFlag(f)[..2] == "--"
    ensures NameOf(PrintFlag(f)[2..]) == f.name
    ensures InlineOf(PrintFlag(f)[2..]) == if f.value.True? then None else Some(f.value.text)
  {
    if f.value.True? {
      SplitAtEquals(f.name, "");
      assert PrintFlag(f)[2..] == f.name;
    } else {
      SplitAtEquals(f.name, f.value.text);
      assert PrintFlag(f)[2..] == f.name + "=" + f.value.text;
    }
  }

  lemma PrintedIsNoValue(f: Flag)
    requires '=' !in f.name
    ensures !IsValue(PrintFlag(f))
  {
    PrintedBody(f);
    assert PrintFlag(f)[0] == '-' && PrintFlag(f)[1] == '-';
  }

  lemma PrintedTurn(cli: Reserved, f: Flag, rest: seq<string>, target: string)
    requires IsPrintable(cli, f) && (rest != [] ==> !IsValue(rest[0]))
    ensures TurnOf(cli, [PrintFlag(f)] + rest, target, true) == Go([f], 1, true)
  {
    PrintedBody(f);
    var token := PrintFlag(f);
    assert token[0] == '-' && token[1] == '-' && !IsPositional(token);
    assert |token| > 2;
  }

  lemma OneFlagMore(cli: Reserved, f: Flag, rest: seq<string>, target: string, flags: seq<Flag>)
    requires IsPrintable(cli, f) && (rest != [] ==> !IsValue(rest[0]))
    requires Parse(cli, rest, target, true) == Ok(flags)
    ensures Parse(cli, [PrintFlag(f)] + rest, target, true) == Ok([f] + flags)
  {
    PrintedTurn(cli, f, rest, target);
    assert Drop([PrintFlag(f)] + rest, 1) == rest;
  }

  lemma PrintStartsWithNoValue(flags: seq<Flag>)
    requires flags != [] && '=' !in flags[0].name
    ensures Print(flags) != [] && !IsValue(Print(flags)[0])
  {
    PrintedIsNoValue(flags[0]);
  }

  lemma {:induction false} PrintedFlagsParse(cli: Reserved, flags: seq<Flag>, target: string)
    requires ArePrintable(cli, flags)
    ensures Parse(cli, Print(flags), target, true) == Ok(flags)
  {
    if flags != [] {
      var f, rest := flags[0], Print(flags[1..]);
      assert IsPrintable(cli, f) && ArePrintable(cli, flags[1..]);
      assert rest != [] ==> !IsValue(rest[0]) by {
        if |flags| > 1 { PrintStartsWithNoValue(flags[1..]); }
      }
      assert Parse(cli, [PrintFlag(f)] + rest, target, true) == Ok([f] + flags[1..]) by {
        PrintedFlagsParse(cli, flags[1..], target);
        OneFlagMore(cli, f, rest, target, flags[1..]);
      }
      assert flags == [f] + flags[1..];
      assert Print(flags) == [PrintFlag(f)] + rest;
    }
  }

  lemma TurnsArePrintable(cli: Reserved, tokens: seq<string>, target: string, seen: bool)
    requires tokens != [] && TurnOf(cli, tokens, target, seen).Go?
    ensures ArePrintable(cli, TurnOf(cli, tokens, target, seen).flags)
  {
    var token := tokens[0];
    if !IsPositional(token) && IsLong(token) {
      NamesHaveNoEquals(token[2..]);
      assert token == "--" + token[2..];
    }
  }

  lemma {:induction false} ParsedIsPrintable(cli: Reserved, tokens: seq<string>, target: string, seen: bool)
    requires Parse(cli, tokens, target, seen).Ok?
    ensures ArePrintable(cli, Parse(cli, tokens, target, seen).flags)
    decreases |tokens|
  {
    if tokens != [] {
      var turn := TurnOf(cli, tokens, target, seen);
      TurnsArePrintable(cli, tokens, target, seen);
      ParsedIsPrintable(cli, Drop(tokens, turn.moved), target, turn.seen);
    }
  }

  /** Flags printed after the target parse back to themselves exactly when every name is one the parser can report. */
  lemma PrintedFlagsParseBack(cli: Reserved, flags: seq<Flag>, target: string)
    requires IsPositional(target)
    ensures Parse(cli, [target] + Print(flags), target, false) == Ok(flags) <==> ArePrintable(cli, flags)
  {
    var tokens := [target] + Print(flags);
    assert Drop(tokens, 1) == Print(flags);
    assert TurnOf(cli, tokens, target, false) == Go([], 1, true);
    if ArePrintable(cli, flags) {
      PrintedFlagsParse(cli, flags, target);
      assert [] + flags == flags;
    }
    if Parse(cli, tokens, target, false).Ok? {
      ParsedIsPrintable(cli, tokens, target, false);
    }
  }

  // ---- units ----

  /** How many arguments the first unit takes; a value flag always takes two. */
  function UnitLength(cli: Reserved, tokens: seq<string>): (n: nat)
    requires tokens != []
    ensures 1 <= n <= 2
  {
    var token := tokens[0];
    if token == "--" || IsPositional(token) || !IsLong(token) then 1
    else if InlineOf(token[2..]).Some? then 1
    else
      var name := NameOf(token[2..]);
      if name in cli.valued then 2
      else if name == cli.removed || name in cli.plain then 1
      else if |tokens| > 1 && IsValue(tokens[1]) then 2
      else 1
  }

  /** The first `k` arguments are whole units. */
  predicate Boundary(cli: Reserved, tokens: seq<string>, k: nat)
    requires k <= |tokens|
    decreases k
  {
    k == 0 || (var n := UnitLength(cli, tokens); n <= k && Boundary(cli, tokens[n..], k - n))
  }

  lemma TurnMovesOneUnit(cli: Reserved, tokens: seq<string>, target: string, seen: bool)
    requires tokens != []
    ensures TurnOf(cli, tokens, target, seen).Go? ==> TurnOf(cli, tokens, target, seen).moved == UnitLength(cli, tokens)
  {
  }

  /** After whole units, what parses alike may stand for each other. */
  lemma DropsLeft(a: seq<string>, x: seq<string>, n: nat)
    requires n <= |a|
    ensures Drop(a + x, n) == (a + x)[n..] == a[n..] + x
  {
  }

  lemma SameTurnSameParse(cli: Reserved, x: seq<string>, y: seq<string>, target: string, seen: bool)
    requires x != [] && y != [] && TurnOf(cli, x, target, seen) == TurnOf(cli, y, target, seen)
    requires
      var turn := TurnOf(cli, x, target, seen);
      turn.Go? ==>
        Parse(cli, Drop(x, turn.moved), target, turn.seen) == Parse(cli, Drop(y, turn.moved), target, turn.seen)
    ensures Parse(cli, x, target, seen) == Parse(cli, y, target, seen)
  {
  }

  lemma {:induction false} SameAfterUnits(cli: Reserved, a: seq<string>, x: seq<string>, y: seq<string>,
                                          target: string, seen: bool)
    requires Boundary(cli, a + x, |a|) && Boundary(cli, a + y, |a|)
    requires forall s :: Parse(cli, x, target, s) == Parse(cli, y, target, s)
    ensures Parse(cli, a + x, target, seen) == Parse(cli, a + y, target, seen)
    decreases |a|
  {
    if a == [] {
      assert a + x == x && a + y == y;
    } else {
      var n := UnitLength(cli, a + x);
      SameFirstUnit(cli, a, x, y, target, seen);
      DropsLeft(a, x, n);
      DropsLeft(a, y, n);
      TurnMovesOneUnit(cli, a + x, target, seen);
      var turn := TurnOf(cli, a + x, target, seen);
      if turn.Go? {
        SameAfterUnits(cli, a[n..], x, y, target, turn.seen);
      }
      SameTurnSameParse(cli, a + x, a + y, target, seen);
    }
  }

  lemma SameFirstUnit(cli: Reserved, a: seq<string>, x: seq<string>, y: seq<string>, target: string, seen: bool)
    requires a != [] && UnitLength(cli, a + x) <= |a| && UnitLength(cli, a + y) <= |a|
    ensures UnitLength(cli, a + x) == UnitLength(cli, a + y)
    ensures TurnOf(cli, a + x, target, seen) == TurnOf(cli, a + y, target, seen)
  {
    assert (a + x)[0] == a[0] && (a + y)[0] == a[0];
    if |a| > 1 {
      assert (a + x)[1] == a[1] && (a + y)[1] == a[1];
    }
  }

  /** Whole units stay whole when a flag follows them instead. */
  lemma {:induction false} StaysWhole(cli: Reserved, a: seq<string>, x: seq<string>, y: seq<string>)
    requires Boundary(cli, a + x, |a|) && y != [] && !IsValue(y[0])
    ensures Boundary(cli, a + y, |a|)
    decreases |a|
  {
    if a != [] {
      var n := UnitLength(cli, a + x);
      assert UnitLength(cli, a + y) == n by {
        assert (a + x)[0] == a[0] && (a + y)[0] == a[0];
        if |a| > 1 {
          assert (a + x)[1] == a[1] && (a + y)[1] == a[1];
        } else {
          assert (a + y)[1] == y[0];
        }
      }
      assert (a + x)[n..] == a[n..] + x && (a + y)[n..] == a[n..] + y;
      StaysWhole(cli, a[n..], x, y);
    }
  }

  // ---- reserved flags change nothing ----

  /** A short option, a reserved flag with its value inline or none to take, or a value flag and its value. */
  predicate IsReservedUnit(cli: Reserved, r: seq<string>) {
    && r != [] && !IsPositional(r[0]) && r[0] != "--"
    && if !IsLong(r[0]) then |r| == 1
       else if NameOf(r[0][2..]) == cli.removed then false
       else if NameOf(r[0][2..]) in cli.valued then |r| == (if InlineOf(r[0][2..]) == None then 2 else 1)
       else NameOf(r[0][2..]) in cli.plain && |r| == 1
  }

  lemma ReservedTurn(cli: Reserved, r: seq<string>, rest: seq<string>, target: string, seen: bool)
    requires IsReservedUnit(cli, r)
    ensures TurnOf(cli, r + rest, target, seen) == Go([], |r|, seen) && Drop(r + rest, |r|) == rest
  {
    assert (r + rest)[0] == r[0];
  }

  lemma ReservedUnitParses(cli: Reserved, r: seq<string>, rest: seq<string>, target: string, seen: bool)
    requires IsReservedUnit(cli, r)
    ensures Parse(cli, r + rest, target, seen) == Parse(cli, rest, target, seen)
  {
    ReservedTurn(cli, r, rest, target, seen);
    var outcome := Parse(cli, rest, target, seen);
    if outcome.Ok? {
      assert [] + outcome.flags == outcome.flags;
    }
  }

  /** A reserved flag put between whole units changes neither the flags nor the error. */
  lemma ReservedFlagsChangeNothing(cli: Reserved, a: seq<string>, r: seq<string>, b: seq<string>, target: string)
    requires IsReservedUnit(cli, r) && Boundary(cli, a + b, |a|)
    ensures Parse(cli, a + r + b, target, false) == Parse(cli, a + b, target, false)
  {
    assert a + r + b == a + (r + b) && (r + b)[0] == r[0];
    StaysWhole(cli, a, b, r + b);
    forall s ensures Parse(cli, r + b, target, s) == Parse(cli, b, target, s) {
      ReservedUnitParses(cli, r, b, target, s);
    }
    SameAfterUnits(cli, a, r + b, b, target, false);
  }

  /** A value flag takes whatever follows, even what would have been a parameter. */
  lemma ValueFlagsSwallowFlags(cli: Reserved, target: string, name: string, swallowed: string)
    requires IsPositional(target) && name in cli.valued && name != cli.removed && name != "" && '=' !in name
    ensures Parse(cli, [target, "--" + name, swallowed], target, false) == Ok([])
  {
    var unit := ["--" + name, swallowed];
    assert unit[0][2..] == name;
    SplitAtEquals(name, "");
    ReservedUnitParses(cli, unit, [], target, true);
    assert unit + [] == unit;
    assert Drop([target] + unit, 1) == unit;
    assert [target, "--" + name, swallowed] == [target] + unit;
  }

  lemma RunNamesAreLegal(name: string)
    requires name in WORKFLOW_RUN.valued
    ensures name != "" && name != WORKFLOW_RUN.removed && '=' !in name
  {
  }

  /** So `--timeout --x=1` loses the parameter `x`, and so for every value flag of the command. */
  lemma RunSwallowsFlags(target: string, name: string, swallowed: string)
    requires IsPositional(target) && name in WORKFLOW_RUN.valued
    ensures Parse(WORKFLOW_RUN, [target, "--" + name, swallowed], target, false) == Ok([])
  {
    RunNamesAreLegal(name);
    ValueFlagsSwallowFlags(WORKFLOW_RUN, target, name, swallowed);
  }

  // ---- the spaced form is the inline form ----

  lemma SpacedTurn(cli: Reserved, name: string, value: string, rest: seq<string>, target: string, seen: bool)
    requires IsPrintable(cli, Flag(name, True)) && IsValue(value)
    ensures Parse(cli, ["--" + name, value] + rest, target, seen)
      == Parse(cli, ["--" + name + "=" + value] + rest, target, seen)
  {
    var spaced, inline := ["--" + name, value] + rest, ["--" + name + "=" + value] + rest;
    PrintedBody(Flag(name, True));
    PrintedBody(Flag(name, Text(value)));
    assert spaced[0] == PrintFlag(Flag(name, True)) && inline[0] == PrintFlag(Flag(name, Text(value)));
    assert spaced[0][1] == '-' && inline[0][1] == '-' && spaced[1] == value;
    assert spaced[0] == "--" + spaced[0][2..] && inline[0] == "--" + inline[0][2..];
    assert Drop(spaced, 2) == rest && Drop(inline, 1) == rest;
  }

  /** Anywhere between whole units, `--name value` means `--name=value` if the value is not read as a flag. */
  lemma SpacedIsInline(cli: Reserved, a: seq<string>, name: string, value: string, b: seq<string>, target: string)
    requires IsPrintable(cli, Flag(name, True)) && IsValue(value)
    requires Boundary(cli, a + (["--" + name, value] + b), |a|)
    ensures Parse(cli, a + (["--" + name, value] + b), target, false)
      == Parse(cli, a + (["--" + name + "=" + value] + b), target, false)
  {
    var spaced, inline := ["--" + name, value] + b, ["--" + name + "=" + value] + b;
    assert inline[0][0] == '-' && inline[0][1] == '-';
    StaysWhole(cli, a, spaced, inline);
    forall s ensures Parse(cli, spaced, target, s) == Parse(cli, inline, target, s) {
      SpacedTurn(cli, name, value, b, target, s);
    }
    SameAfterUnits(cli, a, spaced, inline, target, false);
  }

  /** The spaced form gives a value back exactly when it does not start with a dash or is a negative number,
      so `--delta -5` gives `-5`. */
  lemma SpacedExactly(cli: Reserved, name: string, value: string, target: string)
    requires IsPrintable(cli, Flag(name, True)) && IsPositional(target)
    ensures Parse(cli, [target, "--" + name, value], target, false) == Ok([Flag(name, Text(value))])
      <==> value == "" || value[0] != '-' || (|value| >= 2 && '0' <= value[1] <= '9')
  {
    var f := Flag(name, True);
    var tokens := [target, "--" + name, value];
    assert Drop(tokens, 1) == ["--" + name, value];
    assert TurnOf(cli, tokens, target, false) == Go([], 1, true);
    if IsValue(value) {
      SpacedTurn(cli, name, value, [], target, true);
      PrintedFlagsParse(cli, [Flag(name, Text(value))], target);
      assert ["--" + name, value] + [] == ["--" + name, value];
      assert Print([Flag(name, Text(value))]) == ["--" + name + "=" + value] + [];
    } else {
      PrintedTurn(cli, f, [value], target);
      var spaced := ["--" + name, value];
      assert [PrintFlag(f)] + [value] == spaced;
      var rest := Parse(cli, Drop(spaced, 1), target, true);
      assert Parse(cli, spaced, target, true) == Then([f], rest);
      if rest.Ok? {
        assert ([] + ([f] + rest.flags))[0] == f;
      }
    }
  }

  lemma EarlyFlagIsRefused(cli: Reserved, f: Flag, target: string)
    requires IsPrintable(cli, f)
    ensures Parse(cli, [PrintFlag(f)], target, false) == Err(BeforeTarget)
  {
    PrintedBody(f);
    assert PrintFlag(f)[0] == '-' && PrintFlag(f)[1] == '-';
  }

  lemma ParseIsAfter(cli: Reserved, tokens: seq<string>, target: string, seen: bool, turn: Turn, rest: seq<string>)
    requires tokens != [] && turn == TurnOf(cli, tokens, target, seen)
    requires turn.Go? ==> rest == Drop(tokens, turn.moved)
    ensures turn.Stop? ==> Parse(cli, tokens, target, seen) == Err(turn.problem)
    ensures turn.Go? ==> Parse(cli, tokens, target, seen) == Then(turn.flags, Parse(cli, rest, target, turn.seen))
  {
  }

  lemma TargetThenFlag(cli: Reserved, f: Flag, target: string)
    requires IsPrintable(cli, f) && IsPositional(target)
    ensures Parse(cli, [target, PrintFlag(f)], target, false) == Ok([f])
  {
    PrintedFlagsParse(cli, [f], target);
    assert Print([f]) == [PrintFlag(f)] + [] == [PrintFlag(f)];
    ParseIsAfter(cli, [target, PrintFlag(f)], target, false, Go([], 1, true), [PrintFlag(f)]);
    assert [] + [f] == [f];
  }

  /** No turn before the target reports a flag, so without a target the flag is refused or swallowed. */
  lemma DashThenFlag(cli: Reserved, f: Flag, target: string)
    requires IsPrintable(cli, f) && !IsPositional(target)
    ensures Parse(cli, [target, PrintFlag(f)], target, false) != Ok([f])
  {
    var tokens := [target, PrintFlag(f)];
    var turn := TurnOf(cli, tokens, target, false);
    EarlyFlagIsRefused(cli, f, target);
    if turn.Go? {
      ParseIsAfter(cli, tokens, target, false, turn, Drop(tokens, turn.moved));
      if turn.moved == 1 {
        assert Drop(tokens, 1) == [PrintFlag(f)];
      } else {
        assert Drop(tokens, 2) == [] && [] + [] != [f];
      }
    }
  }

  /** A token counts as the target exactly when it does not start with a dash, is a lone dash, or is a negative
      number. */
  lemma TargetExactly(cli: Reserved, target: string, name: string)
    requires IsPrintable(cli, Flag(name, True))
    ensures Parse(cli, [target, "--" + name], target, false) == Ok([Flag(name, True)])
      <==> target == "" || target[0] != '-' || target == "-" || (|target| >= 2 && '0' <= target[1] <= '9')
  {
    if IsPositional(target) {
      TargetThenFlag(cli, Flag(name, True), target);
    } else {
      DashThenFlag(cli, Flag(name, True), target);
    }
  }

  // ---- which problem is reported ----

  /** Printed flags are read one after the other, unless the last one would take what follows as its value. */
  lemma {:induction false} PrintedThen(cli: Reserved, flags: seq<Flag>, rest: seq<string>, target: string)
    requires ArePrintable(cli, flags)
    requires flags == [] || flags[|flags| - 1].value.Text?
    ensures Parse(cli, Print(flags) + rest, target, true) == Then(flags, Parse(cli, rest, target, true))
  {
    var last := Parse(cli, rest, target, true);
    if flags == [] {
      assert Print(flags) + rest == rest;
      assert last.Ok? ==> [] + last.flags == last.flags;
    } else {
      var f, more := flags[0], Print(flags[1..]) + rest;
      assert Print(flags) + rest == [PrintFlag(f)] + more && flags == [f] + flags[1..];
      assert IsPrintable(cli, f) && ArePrintable(cli, flags[1..]);
      PrintedThen(cli, flags[1..], rest, target);
      OneMoreThen(cli, f, more, target, flags[1..], last);
    }
  }

  lemma OneMoreThen(cli: Reserved, f: Flag, more: seq<string>, target: string, others: seq<Flag>, last: Outcome)
    requires IsPrintable(cli, f) && ArePrintable(cli, others)
    requires f.value.Text? || (others != [] && Print(others) <= more)
    requires Parse(cli, more, target, true) == Then(others, last)
    ensures Parse(cli, [PrintFlag(f)] + more, target, true) == Then([f] + others, last)
  {
    FlagTurn(cli, f, more, target, others);
    ParseIsAfter(cli, [PrintFlag(f)] + more, target, true, Go([f], 1, true), more);
    assert last.Ok? ==> [f] + (others + last.flags) == [f] + others + last.flags;
  }

  lemma FlagTurn(cli: Reserved, f: Flag, more: seq<string>, target: string, others: seq<Flag>)
    requires IsPrintable(cli, f) && ArePrintable(cli, others)
    requires f.value.Text? || (others != [] && Print(others) <= more)
    ensures TurnOf(cli, [PrintFlag(f)] + more, target, true) == Go([f], 1, true)
    ensures Drop([PrintFlag(f)] + more, 1) == more
  {
    PrintedBody(f);
    var token := PrintFlag(f);
    assert token[0] == '-' && token[1] == '-';
    if f.value.True? {
      assert IsPrintable(cli, others[0]);
      PrintStartsWithNoValue(others);
      assert more[0] == Print(others)[0];
    }
  }

  /** What follows a target and complete flags: `--` ends the parse, so does another argument that is no option and
      the removed option, and short options are passed over. */
  lemma WhatFollows(cli: Reserved, flags: seq<Flag>, token: string, rest: seq<string>, target: string, value: string)
    requires IsPositional(target) && ArePrintable(cli, flags) && (flags == [] || flags[|flags| - 1].value.Text?)
    requires cli.removed != "" && '=' !in cli.removed
    ensures
      var outcome := Parse(cli, [target] + (Print(flags) + ([token] + rest)), target, false);
      && (token == "--" ==> outcome == Err(AfterDashes))
      && (token == "" || token[0] != '-' || token == "-" || (|token| >= 2 && '0' <= token[1] <= '9') ==>
            outcome == Err(Extra(token)))
      && (token == "--" + cli.removed || token == "--" + cli.removed + "=" + value ==> outcome == Err(ParamsRemoved))
      && (|token| >= 2 && token[0] == '-' && token[1] != '-' && !('0' <= token[1] <= '9') ==>
            outcome == Parse(cli, [target] + (Print(flags) + rest), target, false))
  {
    AfterTarget(cli, flags, [token] + rest, target);
    AfterTarget(cli, flags, rest, target);
    var turn := TurnOf(cli, [token] + rest, target, true);
    assert Drop([token] + rest, 1) == rest;
    ParseIsAfter(cli, [token] + rest, target, true, turn, Drop([token] + rest, if turn.Go? then turn.moved else 1));
    var tail := Parse(cli, rest, target, true);
    assert tail.Ok? ==> [] + tail.flags == tail.flags;
    RemovedName(cli, token, value);
  }

  lemma RemovedName(cli: Reserved, token: string, value: string)
    requires cli.removed != "" && '=' !in cli.removed
    ensures token == "--" + cli.removed || token == "--" + cli.removed + "=" + value ==>
      |token| > 2 && token[0] == '-' && token[1] == '-' && NameOf(token[2..]) == cli.removed
  {
    SplitAtEquals(cli.removed, value);
    if token == "--" + cli.removed {
      assert token[2..] == cli.removed;
    }
    if token == "--" + cli.removed + "=" + value {
      assert token[2..] == cli.removed + "=" + value;
    }
  }

  lemma AfterTarget(cli: Reserved, flags: seq<Flag>, rest: seq<string>, target: string)
    requires IsPositional(target) && ArePrintable(cli, flags) && (flags == [] || flags[|flags| - 1].value.Text?)
    ensures Parse(cli, [target] + (Print(flags) + rest), target, false) == Then(flags, Parse(cli, rest, target, true))
  {
    var tokens := [target] + (Print(flags) + rest);
    assert Drop(tokens, 1) == Print(flags) + rest;
    ParseIsAfter(cli, tokens, target, false, Go([], 1, true), Print(flags) + rest);
    PrintedThen(cli, flags, rest, target);
    var outcome := Then(flags, Parse(cli, rest, target, true));
    assert outcome.Ok? ==> [] + outcome.flags == outcome.flags;
  }

  /** Before the target, another argument that is no option and every parameter flag are refused. */
  lemma NothingBeforeTheTarget(cli: Reserved, token: string, f: Flag, rest: seq<string>, target: string)
    requires IsPrintable(cli, f) && token != target
    requires token == "" || token[0] != '-' || token == "-" || (|token| >= 2 && '0' <= token[1] <= '9')
    ensures Parse(cli, [token] + rest, target, false) == Err(BeforeTarget)
    ensures Parse(cli, [PrintFlag(f)] + rest, target, false) == Err(BeforeTarget)
  {
    PrintedBody(f);
    assert PrintFlag(f)[0] == '-' && PrintFlag(f)[1] == '-';
  }
}
