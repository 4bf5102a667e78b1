/**
  `launch_command` and `execute_single_command` of shell.c, with the process
  system calls replaced by inputs: what `fork` returned in the parent, the
  three clock readings, whether `strdup` could copy the history text, and the
  set of pids the post-launch `waitpid(..., WNOHANG)` poll reports as exited.

  Undefined behaviour in the C code becomes a `Fault` outcome instead of a
  state: a stage of 1024 or more arguments (the terminating NULL is written
  one past the 1024-slot `args` array), a line of more than 1024 stages (the
  same for `cmd_parts`), and a background launch with no program name (the
  notice prints, and the registry copies, a NULL `args[0]`).
 */
module Launch {
  import Tokenizer
  import History
  import Background

  /** Slots in the `args` and `cmd_parts` arrays. */
  const ArgMaxCount: nat := 1024

  /** A process id as `fork` hands it to the parent. */
  type Pid = p: int | p > 0 witness 1

  /** What `fork` returned in the interpreter. The child's side (`exec`, or
      exit with a failure status) never changes the interpreter's memory. */
  datatype Fork = Spawned(pid: Pid) | ForkFailed

  /**
    The answers of the outside world to one single-stage launch: `fork`, the
    clock before forking (`start`), the clock after `waitpid` returned
    (`end`, foreground only), the clock inside `add_to_history`
    (`recordedAt`), and whether its `strdup` succeeded (`copyOk`).
   */
  datatype Env = Env(fork: Fork, start: int, end: int, recordedAt: int, copyOk: bool)

  /** The interpreter's bookkeeping: history log and background registry. */
  datatype State = State(history: seq<History.Entry>, jobs: seq<Background.Job>)

  predicate Valid(st: State) {
    History.Bounded(st.history) && Background.Bounded(st.jobs)
  }

  datatype Fault = ArgvOverflow | NullProgramName | StageOverflow

  datatype Result<T> = Ok(value: T) | Undefined(fault: Fault)

  /** A stage with its detachment marker resolved. */
  datatype Detached = Detached(background: bool, text: string)

  /** A trailing `&` marks a background command; exactly that character is removed. */
  function StripDetach(stage: string): (d: Detached)
    requires |stage| > 0
    ensures d.background <==> stage[|stage| - 1] == '&'
    ensures d.background ==> d.text + "&" == stage
    ensures !d.background ==> d.text == stage
  {
    if stage[|stage| - 1] == '&' then Detached(true, stage[..|stage| - 1]) else Detached(false, stage)
  }

  /** The duration recorded for a launch: elapsed seconds in the foreground, 0 in the background. */
  function Duration(background: bool, env: Env): (seconds: int) {
    if background then 0 else env.end - env.start
  }

  /**
    `execute_single_command` for a non-empty stage. The history text is the
    stage buffer after `strtok` has cut it at the end of its first argument;
    the registry keeps the first argument.
   */
  function ExecuteSingle(st: State, stage: string, env: Env): (o: Result<State>)
    requires Valid(st) && |stage| > 0
    ensures o.Ok? ==> Valid(o.value)
    ensures o.Undefined? <==>
      var d := StripDetach(stage);
      var args := Tokenizer.Split(d.text, ' ');
      |args| >= ArgMaxCount || (d.background && env.fork.Spawned? && args == [])
    ensures o.Ok? && env.fork.ForkFailed? ==> o.value == st
    ensures o.Ok? && !StripDetach(stage).background ==> o.value.jobs == st.jobs
    ensures o.Ok? && !env.copyOk ==> o.value.history == st.history
    ensures o.Ok? && env.fork.Spawned? && env.copyOk ==>
      var d := StripDetach(stage);
      o.value.history == History.Add(st.history, Tokenizer.FirstTokenCut(d.text, ' '),
                                     env.fork.pid, env.recordedAt, Duration(d.background, env), true)
    ensures o.Ok? && env.fork.Spawned? && StripDetach(stage).background ==>
      o.value.jobs == Background.Register(st.jobs, env.fork.pid, Tokenizer.Split(StripDetach(stage).text, ' ')[0])
  {
    var d := StripDetach(stage);
    var args := Tokenizer.Split(d.text, ' ');
    if |args| >= ArgMaxCount then Undefined(ArgvOverflow)
    else
      match env.fork
      case ForkFailed => Ok(st)
      case Spawned(pid) =>
        var recorded := Tokenizer.FirstTokenCut(d.text, ' ');
        var history := History.Add(st.history, recorded, pid, env.recordedAt, Duration(d.background, env), env.copyOk);
        if !d.background then Ok(State(history, st.jobs))
        else if args == [] then Undefined(NullProgramName)
        else Ok(State(history, Background.Register(st.jobs, pid, args[0])))
  }

  /** The bookkeeping after one launched line and the jobs its sweep reported finished. */
  datatype Step = Step(state: State, finished: seq<Background.Job>)

  /**
    `launch_command`: split the line on runs of `|`; one stage goes to
    `execute_single_command`, any other number (none, for a line of `|`
    only) to `execute_piped_commands`, which never touches history or
    registry; then the background sweep always runs.
   */
  function LaunchCommand(st: State, line: string, env: Env, exited: set<int>): (o: Result<Step>)
    requires Valid(st)
    ensures o.Ok? ==> Valid(o.value.state)
    ensures |Tokenizer.Split(line, '|')| > ArgMaxCount ==> o == Undefined(StageOverflow)
    ensures |Tokenizer.Split(line, '|')| <= ArgMaxCount && |Tokenizer.Split(line, '|')| != 1 ==>
      var r := Background.Sweep(st.jobs, exited);
      o == Ok(Step(State(st.history, r.running), r.finished))
    ensures |Tokenizer.Split(line, '|')| == 1 && ExecuteSingle(st, Tokenizer.Split(line, '|')[0], env).Undefined? ==>
      o == Undefined(ExecuteSingle(st, Tokenizer.Split(line, '|')[0], env).fault)
    ensures |Tokenizer.Split(line, '|')| == 1 && ExecuteSingle(st, Tokenizer.Split(line, '|')[0], env).Ok? ==>
      var s := ExecuteSingle(st, Tokenizer.Split(line, '|')[0], env).value;
      var r := Background.Sweep(s.jobs, exited);
      o == Ok(Step(State(s.history, r.running), r.finished))
  {
    var parts := Tokenizer.Split(line, '|');
    if |parts| > ArgMaxCount then Undefined(StageOverflow)
    else
      var launched := if |parts| == 1 then ExecuteSingle(st, parts[0], env) else Ok(st);
      match launched
      case Undefined(f) => Undefined(f)
      case Ok(s) =>
        var r := Background.Sweep(s.jobs, exited);
        Ok(Step(State(s.history, r.running), r.finished))
  }

  /**
    The entry a successful single-stage launch records: the stage text up to
    the end of its first argument (so tokenising it again gives only the
    program name), the pid `fork` returned, the clock reading taken when the
    entry was stored, and a duration of 0 in the background or the elapsed
    seconds in the foreground, which are non-negative when the clock did not
    go backwards.
   */
  lemma RecordedEntry(st: State, stage: string, env: Env)
    requires Valid(st) && |stage| > 0
    requires ExecuteSingle(st, stage, env).Ok? && env.fork.Spawned? && env.copyOk
    ensures
      var h := ExecuteSingle(st, stage, env).value.history;
      var d := StripDetach(stage);
      var args := Tokenizer.Split(d.text, ' ');
      && |h| > 0
      && h[|h| - 1].cmd == stage[..|h[|h| - 1].cmd|]
      && Tokenizer.Split(h[|h| - 1].cmd, ' ') == args[..if args == [] then 0 else 1]
      && h[|h| - 1].pid == env.fork.pid
      && h[|h| - 1].startTime == env.recordedAt
      && (d.background ==> h[|h| - 1].duration == 0)
      && (!d.background ==> h[|h| - 1].duration == env.end - env.start)
      && (!d.background && env.start <= env.end ==> h[|h| - 1].duration >= 0)
  {
    var d := StripDetach(stage);
    var cut := Tokenizer.FirstTokenCut(d.text, ' ');
    Tokenizer.FirstTokenCutTokens(d.text, ' ');
    assert d.text == stage[..|d.text|];
    assert cut == stage[..|cut|];
  }

  /** A line of two or more stages, or of none, leaves the history log as it was. */
  lemma PipelineKeepsHistory(st: State, line: string, env: Env, exited: set<int>)
    requires Valid(st)
    requires |Tokenizer.Split(line, '|')| != 1 && |Tokenizer.Split(line, '|')| <= ArgMaxCount
    ensures LaunchCommand(st, line, env, exited).Ok?
    ensures LaunchCommand(st, line, env, exited).value.state.history == st.history
  {
  }

  /** The arguments and the recorded text of the stage `ls -l`. */
  lemma LsArguments()
    ensures Tokenizer.Split("ls -l", ' ') == ["ls", "-l"]
    ensures Tokenizer.FirstTokenCut("ls -l", ' ') == "ls"
  {
    Tokenizer.SplitJoin(["ls", "-l"], ' ');
    assert Tokenizer.Join(["ls", "-l"], ' ') == "ls -l";
    assert Tokenizer.LeadingDelims("ls -l", ' ') == 0;
  }

  /** A foreground command: `ls -l` is recorded as `ls`, with its measured duration. */
  lemma ForegroundExample()
    ensures ExecuteSingle(State([], []), "ls -l", Env(Spawned(42), 10, 13, 14, true))
         == Ok(State([History.Entry("ls", 42, 14, 3)], []))
  {
    LsArguments();
    assert StripDetach("ls -l") == Detached(false, "ls -l");
    var env := Env(Spawned(42), 10, 13, 14, true);
    assert Duration(false, env) == 3;
    assert History.Add([], "ls", 42, 14, 3, true) == [History.Entry("ls", 42, 14, 3)];
  }

  /** The arguments of `sleep 5 `, what remains of `sleep 5 &`. */
  lemma SleepArguments()
    ensures Tokenizer.Split("sleep 5 ", ' ') == ["sleep", "5"]
  {
    Tokenizer.SplitJoin(["sleep", "5"], ' ');
    assert Tokenizer.Join(["sleep", "5"], ' ') == "sleep 5";
    Tokenizer.SplitTrailingDelim("sleep 5", ' ');
    assert "sleep 5" + [' '] == "sleep 5 ";
  }

  /** The recorded text of `sleep 5 `. */
  lemma SleepRecorded()
    ensures Tokenizer.FirstTokenCut("sleep 5 ", ' ') == "sleep"
  {
    SleepArguments();
    assert Tokenizer.LeadingDelims("sleep 5 ", ' ') == 0;
  }

  /** A background command: recorded with duration 0 and registered under its program name. */
  lemma BackgroundExample()
    ensures ExecuteSingle(State([], []), "sleep 5 &", Env(Spawned(7), 20, 99, 20, true))
         == Ok(State([History.Entry("sleep", 7, 20, 0)], [Background.Job(7, "sleep")]))
  {
    SleepArguments();
    SleepRecorded();
    var stage := "sleep 5 &";
    assert stage[..|stage| - 1] == "sleep 5 ";
    assert StripDetach(stage) == Detached(true, "sleep 5 ");
    assert History.Add([], "sleep", 7, 20, 0, true) == [History.Entry("sleep", 7, 20, 0)];
    assert Background.Register([], 7, "sleep") == [Background.Job(7, "sleep")];
  }

  /** A lone `&` leaves no program name for the background notice and registry. */
  lemma LoneAmpersandExample()
    ensures ExecuteSingle(State([], []), "&", Env(Spawned(7), 0, 0, 0, true)) == Undefined(NullProgramName)
  {
    assert StripDetach("&").text == "";
  }

  /** A line of `|` only has no stages and takes the pipeline path. */
  lemma AllPipesExample(st: State, env: Env, exited: set<int>)
    requires Valid(st)
    ensures Tokenizer.Split("|||", '|') == []
    ensures LaunchCommand(st, "|||", env, exited).Ok?
    ensures LaunchCommand(st, "|||", env, exited).value.state.history == st.history
  {
    Tokenizer.SplitEmptyIff("|||", '|');
  }

  /** The stages of `ls |` and the arguments of its only stage. */
  lemma TrailingPipeStages()
    ensures Tokenizer.Split("ls |", '|') == ["ls "]
    ensures Tokenizer.Split("ls ", ' ') == ["ls"]
    ensures Tokenizer.FirstTokenCut("ls ", ' ') == "ls"
  {
    Tokenizer.SplitJoin(["ls "], '|');
    Tokenizer.SplitTrailingDelim("ls ", '|');
    assert "ls " + ['|'] == "ls |";
    Tokenizer.SplitJoin(["ls"], ' ');
    Tokenizer.SplitTrailingDelim("ls", ' ');
    assert "ls" + [' '] == "ls ";
    assert Tokenizer.LeadingDelims("ls ", ' ') == 0;
  }

  /** A trailing `|` leaves one stage, so the command runs on the single-stage path and is recorded. */
  lemma TrailingPipeExample()
    ensures LaunchCommand(State([], []), "ls |", Env(Spawned(5), 1, 1, 1, true), {})
         == Ok(Step(State([History.Entry("ls", 5, 1, 0)], []), []))
  {
    TrailingPipeStages();
    assert StripDetach("ls ") == Detached(false, "ls ");
    assert History.Add([], "ls", 5, 1, 0, true) == [History.Entry("ls", 5, 1, 0)];
    assert ExecuteSingle(State([], []), "ls ", Env(Spawned(5), 1, 1, 1, true))
        == Ok(State([History.Entry("ls", 5, 1, 0)], []));
  }
}
