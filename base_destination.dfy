/**
 The part every destination shares (`BaseDestination`): its identity, its
 level filter, its five display toggles and the formatter that renders one
 log line from them, together with the small rules on file paths and
 function signatures that the formatter and its users rely on.
 */
module BaseDestinations {
  import opened Strings
  import opened Levels

  // ---------------------------------------------------------------------------
  // Paths and function signatures

  /** `fileNameOfFile`: the segment of a path after its last "/". */
  function FileNameOfFile(path: string): (r: string)
    ensures |r| <= |path| && r == path[|path| - |r|..]
    ensures '/' !in r
    ensures |r| == |path| || path[|path| - |r| - 1] == '/'
    ensures '/' !in path ==> r == path
  {
    AfterLast(path, '/')
  }

  /** `fileNameWithoutSuffix`: the base name of a path up to its first ".";
      empty when the base name is empty. */
  function FileNameWithoutSuffix(path: string): (r: string)
    ensures var name := FileNameOfFile(path);
      |r| <= |name| && r == name[..|r|] && '.' !in r && (|r| == |name| || name[|r|] == '.')
    ensures FileNameOfFile(path) == "" ==> r == ""
  {
    var name := FileNameOfFile(path);
    if name != "" then BeforeFirst(name, '.') else ""
  }

  /** `stripParams`: the signature up to its first "(", followed by "()".
      `foo(x:y:)` becomes `foo()`; a name without "(" gains "()". */
  function StripParams(signature: string): (r: string)
    ensures |r| >= 2 && r[|r| - 2..] == "()"
    ensures var name := r[..|r| - 2];
      |name| <= |signature| && name == signature[..|name|] && '(' !in name &&
      (|name| == |signature| || signature[|name|] == '(')
    ensures '(' !in signature ==> r == signature + "()"
  {
    BeforeFirst(signature, '(') + "()"
  }

  /** The result of `StripParams` holds exactly one "(", the one before its final ")". */
  lemma StripParamsHasOneParenthesis(signature: string)
    ensures multiset(StripParams(signature))['('] == 1
  {
    var r := StripParams(signature);
    var name := r[..|r| - 2];
    assert r == name + "()";
    assert multiset(name)['('] == 0;
  }

  // ---------------------------------------------------------------------------
  // Level filter

  /** `shouldLevelBeLogged`: a level passes a destination whose `outputLevel`
      is `threshold` when its raw value is at least the threshold's. */
  predicate Passes(threshold: Level, level: Level) {
    RawValue(level) >= RawValue(threshold)
  }

  /** The levels a destination accepts are exactly those from its output level
      on, in declaration order; the output level itself is accepted. */
  lemma PassesExactlyFromThreshold(threshold: Level)
    ensures Passes(threshold, threshold)
    ensures forall i :: 0 <= i < |AllLevels| ==>
      (Passes(threshold, AllLevels[i]) <==> i >= RawValue(threshold))
  {
    RawValuesFollowDeclarationOrder();
  }

  /** With the default output level `verbose`, every level passes. */
  lemma DefaultThresholdPassesEverything(level: Level)
    ensures Passes(Verbose, level)
  {
  }

  /** Accepting a level means accepting every more severe one too. */
  lemma PassesIsUpwardClosed(threshold: Level, level: Level, more: Level)
    requires Passes(threshold, level) && RawValue(level) <= RawValue(more)
    ensures Passes(threshold, more)
  {
  }

  // ---------------------------------------------------------------------------
  // Formatter

  /** The five display toggles of a destination. */
  datatype Display = Display(
    showDate: bool,
    showLevel: bool,
    showFileName: bool,
    showFunctionName: bool,
    showLineNumber: bool)

  const AllOff := Display(false, false, false, false, false)

  function DateField(d: Display, date: string): string {
    if d.showDate then date + " " else ""
  }

  function LevelField(d: Display, level: Level): string {
    if d.showLevel then "[" + Name(level) + "] " else ""
  }

  /** "[file:line] ", "[file] ", "[line] " or nothing. */
  function LocationField(d: Display, file: string, line: int): string {
    if d.showFileName then "[" + file + (if d.showLineNumber then ":" + IntToString(line) else "") + "] "
    else if d.showLineNumber then "[" + IntToString(line) + "] "
    else ""
  }

  function FunctionField(d: Display, signature: string): string {
    if d.showFunctionName then StripParams(signature) + " " else ""
  }

  /** The rendered line: date, level tag, location, function name, in this
      order and each only when enabled, then "> " and the message. The date
      text is whatever the destination's date formatter produced; the file is
      the call site's `#file` as given, not reduced to its base name. */
  function Render(d: Display, date: string, level: Level, msg: string,
                  file: string, signature: string, line: int): string
  {
    DateField(d, date) + (LevelField(d, level) + (LocationField(d, file, line)
      + (FunctionField(d, signature) + ("> " + msg))))
  }

  /** The date, when shown, leads the line; the rest is the line without it. */
  lemma DateFieldComesFirst(d: Display, date: string, level: Level, msg: string,
                            file: string, signature: string, line: int)
    requires d.showDate
    ensures Render(d, date, level, msg, file, signature, line)
         == date + " " + Render(d.(showDate := false), date, level, msg, file, signature, line)
  {
    var rest := LevelField(d, level) + (LocationField(d, file, line)
      + (FunctionField(d, signature) + ("> " + msg)));
    var d' := d.(showDate := false);
    assert LevelField(d', level) + (LocationField(d', file, line)
      + (FunctionField(d', signature) + ("> " + msg))) == rest;
    assert DateField(d', date) + rest == rest;
  }

  /** After the date comes the level tag, when shown. */
  lemma LevelTagFollowsDate(d: Display, date: string, level: Level, msg: string,
                            file: string, signature: string, line: int)
    requires !d.showDate && d.showLevel
    ensures Render(d, date, level, msg, file, signature, line)
         == "[" + Name(level) + "] " + Render(d.(showLevel := false), date, level, msg, file, signature, line)
  {
    var rest := LocationField(d, file, line) + (FunctionField(d, signature) + ("> " + msg));
    var d' := d.(showLevel := false);
    assert LocationField(d', file, line) + (FunctionField(d', signature) + ("> " + msg)) == rest;
    assert DateField(d', date) + (LevelField(d', level) + rest) == rest;
    assert DateField(d, date) + (LevelField(d, level) + rest) == LevelField(d, level) + rest;
  }

  /** After date and level comes the location bracket, shaped by two toggles. */
  lemma LocationFollowsLevelTag(d: Display, date: string, level: Level, msg: string,
                                file: string, signature: string, line: int)
    requires !d.showDate && !d.showLevel
    ensures var r := Render(d, date, level, msg, file, signature, line);
      var rest := Render(d.(showFileName := false, showLineNumber := false), date, level, msg, file, signature, line);
      (d.showFileName && d.showLineNumber ==> r == "[" + file + ":" + IntToString(line) + "] " + rest) &&
      (d.showFileName && !d.showLineNumber ==> r == "[" + file + "] " + rest) &&
      (!d.showFileName && d.showLineNumber ==> r == "[" + IntToString(line) + "] " + rest) &&
      (!d.showFileName && !d.showLineNumber ==> r == rest)
  {
    var tail := FunctionField(d, signature) + ("> " + msg);
    var d' := d.(showFileName := false, showLineNumber := false);
    assert FunctionField(d', signature) == FunctionField(d, signature);
    assert Render(d', date, level, msg, file, signature, line) == "" + ("" + ("" + tail));
    assert "" + ("" + ("" + tail)) == tail;
    var r := Render(d, date, level, msg, file, signature, line);
    var loc := LocationField(d, file, line);
    assert r == "" + ("" + (loc + tail));
    assert r == loc + tail;
    if d.showFileName && d.showLineNumber {
      assert loc == "[" + file + ":" + IntToString(line) + "] ";
    } else if d.showFileName {
      assert loc == "[" + file + "] ";
    } else if d.showLineNumber {
      assert loc == "[" + IntToString(line) + "] ";
    } else {
      assert loc == "";
      assert loc + tail == tail;
    }
  }

  /** Last before the separator comes the function name with its parameters stripped. */
  lemma FunctionNamePrecedesMessage(d: Display, date: string, level: Level, msg: string,
                                    file: string, signature: string, line: int)
    requires !d.showDate && !d.showLevel && !d.showFileName && !d.showLineNumber
    ensures Render(d, date, level, msg, file, signature, line)
         == (if d.showFunctionName then StripParams(signature) + " " else "") + "> " + msg
  {
  }

  /** Every line ends with "> " and the message; with all toggles off that is
      the whole line. */
  lemma LineEndsWithMessage(d: Display, date: string, level: Level, msg: string,
                            file: string, signature: string, line: int)
    ensures var r := Render(d, date, level, msg, file, signature, line);
      |r| >= |msg| + 2 && r[|r| - |msg| - 2..] == "> " + msg
    ensures Render(AllOff, date, level, msg, file, signature, line) == "> " + msg
  {
    var tail := "> " + msg;
    var a, b, c, e := DateField(d, date), LevelField(d, level), LocationField(d, file, line), FunctionField(d, signature);
    Associate(a, b, c, e, tail);
    var pre := a + b + c + e;
    assert Render(d, date, level, msg, file, signature, line) == pre + tail;
    assert (pre + tail)[|pre|..] == tail;
    assert "" + ("" + ("" + ("" + tail))) == tail;
  }

  lemma Associate(a: string, b: string, c: string, e: string, f: string)
    ensures a + b + c + e + f == a + (b + (c + (e + f)))
  {
  }

  /** A destination's shared state. Two destinations are the same destination
      exactly when their identifiers agree (`==` and `hash` use only the
      identifier), so the identifier is what registries key on. */
  class Destination {
    const identifier: string
    var asynchronously: bool
    var outputLevel: Level
    var showDate: bool
    var showLevel: bool
    var showFileName: bool
    var showFunctionName: bool
    var showLineNumber: bool

    /** The identifier is a parameter here; generating a UUID is not modelled. */
    constructor (identifier: string)
      ensures this.identifier == identifier
      ensures asynchronously && outputLevel == Verbose
      ensures Settings() == Display(true, true, true, true, true)
    {
      this.identifier := identifier;
      asynchronously := true;
      outputLevel := Verbose;
      showDate, showLevel, showFileName, showFunctionName, showLineNumber := true, true, true, true, true;
    }

    function Settings(): Display
      reads this
    {
      Display(showDate, showLevel, showFileName, showFunctionName, showLineNumber)
    }

    predicate ShouldLevelBeLogged(level: Level)
      reads this
    {
      Passes(outputLevel, level)
    }

    /** `formatMessage`: builds the details field by field, as the toggles
        allow, and closes with "> " and the message. `date` is the text of
        the current time. */
    method FormatMessage(date: string, level: Level, msg: string,
                         file: string, signature: string, line: int) returns (r: string)
      ensures r == Render(Settings(), date, level, msg, file, signature, line)
    {
      var extendedDetails := "";
      if showDate {
        extendedDetails := extendedDetails + (date + " ");
      }
      assert extendedDetails == DateField(Settings(), date);
      if showLevel {
        extendedDetails := extendedDetails + ("[" + Name(level) + "] ");
      }
      assert extendedDetails == DateField(Settings(), date) + LevelField(Settings(), level);
      if showFileName {
        extendedDetails := extendedDetails + ("[" + file + (if showLineNumber then ":" + IntToString(line) else "") + "] ");
      } else if showLineNumber {
        extendedDetails := extendedDetails + ("[" + IntToString(line) + "] ");
      }
      assert extendedDetails == DateField(Settings(), date) + LevelField(Settings(), level)
        + LocationField(Settings(), file, line);
      if showFunctionName {
        extendedDetails := extendedDetails + (StripParams(signature) + " ");
      }
      assert extendedDetails == DateField(Settings(), date) + LevelField(Settings(), level)
        + LocationField(Settings(), file, line) + FunctionField(Settings(), signature);
      Associate(DateField(Settings(), date), LevelField(Settings(), level),
        LocationField(Settings(), file, line), FunctionField(Settings(), signature), "> " + msg);
      r := extendedDetails + ("> " + msg);
    }
  }
}
