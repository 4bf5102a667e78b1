/**
  The classification the main loop of shell.c applies to each input line
  before anything is launched: blank lines are skipped (`is_blank`), then
  `handle_builtin` recognises `exit`, `history` and `cd`, in that order;
  everything else is handed to `launch_command`.
 */
module Builtins {
  import Tokenizer

  /** `isspace` in the C locale: space, tab, newline, vertical tab, form feed, carriage return. */
  predicate IsSpace(c: char) {
    c == ' ' || ('\t' <= c <= '\r')
  }

  /** A line all of whose characters are white space; the empty line is blank. */
  predicate AllSpace(s: string) {
    forall i :: 0 <= i < |s| ==> IsSpace(s[i])
  }

  /** `is_blank`: returns at the first non-space character, true if there is none. */
  method IsBlank(input: string) returns (blank: bool)
    ensures blank <==> AllSpace(input)
  {
    var i := 0;
    while i < |input|
      invariant 0 <= i <= |input|
      invariant forall k :: 0 <= k < i ==> IsSpace(input[k])
    {
      if !IsSpace(input[i]) {
        return false;
      }
      i := i + 1;
    }
    return true;
  }

  /**
    The directory argument of `cd`: `strtok(input + 3, " ")`, the first
    space-delimited token of the text from offset 3 on, or absent when there
    is none (`chdir(NULL)` then fails and is reported). For input exactly
    "cd" the byte at offset 3 is the terminator `getline` wrote after the
    newline, which the main loop overwrote with a terminator at offset 2, so
    `strtok` finds no token there either.
   */
  datatype CdArg = Dir(path: string) | NoDir

  /** What `handle_builtin` recognised. */
  datatype Builtin = Exit | ShowHistory | ChangeDir(arg: CdArg) | NotBuiltin {
    /** The value `handle_builtin` returns: -1 to leave, 0 for a built-in, 1 otherwise. */
    function Code(): int {
      match this
      case Exit => -1
      case ShowHistory => 0
      case ChangeDir(_) => 0
      case NotBuiltin => 1
    }
  }

  /** `strncmp(input, "cd", 2) == 0`: the first two characters are `c`, `d`. */
  predicate HasCdPrefix(input: string) {
    |input| >= 2 && input[0] == 'c' && input[1] == 'd'
  }

  function CdArgument(input: string): (a: CdArg)
    requires HasCdPrefix(input)
    ensures a.Dir? ==> |a.path| > 0 && ' ' !in a.path
    ensures a.Dir? ==> |input| > 2 && Tokenizer.Split(input[3..], ' ') != [] && a.path == Tokenizer.Split(input[3..], ' ')[0]
    ensures a.NoDir? <==> |input| == 2 || Tokenizer.Split(input[3..], ' ') == []
  {
    if |input| == 2 then NoDir
    else
      var ts := Tokenizer.Split(input[3..], ' ');
      if ts == [] then NoDir else Dir(ts[0])
  }

  /** `handle_builtin`: exact `exit`, then exact `history`, then any `cd` prefix. */
  function HandleBuiltin(input: string): (b: Builtin)
    ensures b.Exit? <==> input == "exit"
    ensures b.ShowHistory? <==> input == "history"
    ensures b.ChangeDir? <==> HasCdPrefix(input)
    ensures b.ChangeDir? ==> b.arg == CdArgument(input)
  {
    if input == "exit" then Exit
    else if input == "history" then ShowHistory
    else if HasCdPrefix(input) then ChangeDir(CdArgument(input))
    else NotBuiltin
  }

  /** The three return values of `handle_builtin` and the inputs that produce them. */
  lemma BuiltinCodes(input: string)
    ensures HandleBuiltin(input).Code() == -1 <==> input == "exit"
    ensures HandleBuiltin(input).Code() == 0 <==> input == "history" || HasCdPrefix(input)
    ensures HandleBuiltin(input).Code() == 1 <==> input != "exit" && input != "history" && !HasCdPrefix(input)
  {
  }

  /** What one iteration of the main loop does with a line. */
  datatype LineAction = Skip | Leave | RunBuiltin(b: Builtin) | Launch

  /** The main loop's dispatch: blank lines first, then the built-in code. */
  function Classify(line: string): (a: LineAction)
    ensures a.Skip? <==> AllSpace(line)
    ensures a.Leave? <==> line == "exit"
    ensures a.Launch? <==> !AllSpace(line) && HandleBuiltin(line).Code() == 1
  {
    assert line == "exit" ==> !IsSpace(line[0]);
    if AllSpace(line) then Skip
    else
      var b := HandleBuiltin(line);
      if b.Code() == -1 then Leave
      else if b.Code() == 0 then RunBuiltin(b)
      else Launch
  }

  /** Any input beginning with `cd` is taken as the built-in, and its argument starts at offset 3. */
  lemma CdromIsChangeDir()
    ensures HandleBuiltin("cdrom") == ChangeDir(Dir("om"))
  {
    assert "cdrom"[3..] == "om";
    Tokenizer.SplitJoin(["om"], ' ');
  }

  /** `cd` alone, or followed only by spaces, has no directory argument. */
  lemma BareCdHasNoDir()
    ensures HandleBuiltin("cd") == ChangeDir(NoDir)
    ensures HandleBuiltin("cd   ") == ChangeDir(NoDir)
  {
    assert "cd   "[3..] == [' ', ' '];
    Tokenizer.SplitEmptyIff([' ', ' '], ' ');
  }

  /** The built-in names are matched exactly: surrounding spaces make an external command. */
  lemma PaddedExitIsLaunched()
    ensures Classify(" exit") == Launch
    ensures Classify("exit ") == Launch
  {
    assert !IsSpace(" exit"[1]);
    assert !IsSpace("exit "[0]);
  }
}
