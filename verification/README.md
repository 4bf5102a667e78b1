# A verified model of the SimpleShell interpreter core

SimpleShell is a small interactive command interpreter written in C. Each
line it reads is classified as blank, a built-in (`exit`, `history`, `cd`) or
an external command. External commands are split on `|` into stages. One stage
is launched as a single process, in the foreground or, with a trailing `&`, in
the background. Several stages are launched as a pipeline. Every single-stage
launch is recorded in a bounded history log of 100 entries. Background
processes are tracked in a registry of at most 100 entries. After every
launched line the registry is swept with a non-blocking `waitpid`. The same
repository holds `fib.c`, a recursive Fibonacci benchmark.

This project models the interpreter's decisions and bookkeeping in Dafny. The
operating system is replaced by inputs:

- what `fork` returned in the parent (`Launch.Fork`);
- the clock readings, as whole seconds (`Launch.Env`);
- whether `strdup` could copy the history text (`copyOk`);
- which pids the `waitpid(..., WNOHANG)` poll reports as exited (`exited`).

The modules are:

- `Tokenizer` (tokenizer.dfy): the `strtok` splitting on runs of one delimiter
  character, and the side effect that the tokenised buffer reads as its text
  cut after the first token.
- `History` (history.dfy): the history log, both as a sequence of records
  and as the four parallel arrays of the C code, with the proof that the
  arrays stay index-aligned.
- `Background` (background.dfy): registration, and the sweep as a function
  plus the C loop (with its `i--`) as a method proved equal to it.
- `Builtins` (builtins.dfy): `is_blank`, `handle_builtin` and the main loop's
  dispatch of a line.
- `Launch` (launch.dfy): `execute_single_command` and `launch_command`.
- `Fibonacci` (fib.dfy): `fib` on unbounded integers and in 32-bit `int`,
  and fib.c's `main`.
- `Seqs` (seqs.dfy): two small sequence lemmas used by the others.

Undefined behaviour in the C code is modelled as a `Fault` outcome, not as a
precondition:

- a stage of 1024 or more arguments, whose terminating `NULL` is written one
  past the 1024-slot `args` array (`ArgvOverflow`);
- a line of more than 1024 stages, which overflows `cmd_parts`
  (`StageOverflow`);
- a background stage with no program name, such as a lone `&`, whose
  `args[0]` is `NULL` when printed and copied (`NullProgramName`).

Behaviour of the code worth knowing:

- History text: the code stores the stage as `strtok` left it, cut after its
  first argument. So `ls -l` is recorded as `ls`.
- Delimiters: only the space character separates arguments. A tab does not.
- Routing: any number of stages other than one goes to the pipeline path.
  This includes none, for a line made only of `|`.
- A trailing `|`: `ls |` has one stage and is run and recorded as a single
  command.
- `cd` alone: the byte after the overwritten newline is the terminator
  `getline` wrote, so `strtok(input + 3, " ")` finds no token and `chdir`
  reports an error, as for `cd` followed by spaces only.

## Model

| member | source | states |
|---|---|---|
| Tokenizer.Split | my_shell/shell.c:118-122 | every token is non-empty and contains no delimiter (consecutive delimiters collapse) |
| Tokenizer.SplitJoin | my_shell/shell.c:118-122 | splitting undoes joining with one delimiter: well-formed tokens come back unchanged and in order |
| Tokenizer.ConcatSplit | my_shell/shell.c:118-122 | the tokens concatenated are exactly the non-delimiter characters of the input, in order |
| Tokenizer.SplitEmptyIff | my_shell/shell.c:199-206 | a text has no tokens if and only if it consists of delimiters only (so a line of `\|` has no stages) |
| Tokenizer.SplitTrailingDelim | my_shell/shell.c:199-206 | a trailing delimiter adds no token |
| Tokenizer.Tokenize | my_shell/shell.c:118-122 | the `strtok` loop with its cap returns the first min(n, cap) tokens of the input |
| Tokenizer.FirstTokenCut | my_shell/shell.c:118-121 | after tokenising, the buffer reads as a prefix of its text: the leading delimiters plus the first token, or the whole text when there is no token |
| Tokenizer.FirstTokenCutTokens | my_shell/shell.c:118-121 | tokenising the cut buffer again yields only the first token |
| History.Add | my_shell/shell.c:48-66 | a failed copy changes nothing; below capacity the entry is appended and earlier entries are unchanged; at capacity entry i+1 moves to slot i and the entry lands in slot 99; the length never exceeds 100 |
| History.AddAllKeepsNewest | my_shell/shell.c:53-66 | after any run of recordings the log is the last entries of old log plus new entries, as many as fit, in order |
| History.HistoryAfterRecordings | my_shell/shell.c:48-66 | from an empty log, k recordings leave exactly the last min(k, 100) of them, in order |
| History.MemmoveDown | my_shell/shell.c:55-58 | the memmove gives slot i the old slot i+1 and leaves the last slot as it was |
| History.Evict | my_shell/shell.c:53-60 | evicting from full arrays drops exactly the oldest entry of their view and keeps the arrays aligned |
| History.AddToHistory | my_shell/shell.c:48-66 | the four parallel arrays stay index-aligned: their view changes exactly as the record-log operation says |
| Background.Register | my_shell/shell.c:144-146 | a job is appended only while fewer than 100 are tracked, so the count never exceeds 100 |
| Background.RegisteredJobIsPolled | my_shell/shell.c:144-146 | a job registered under a fresh pid keeps the pids distinct, and the next sweep reports it finished exactly when the poll reports its pid and keeps it tracked otherwise |
| Background.Sweep | my_shell/shell.c:86-101 | the kept and the reported jobs together number as many as the jobs polled, and every reported job's pid was reported exited by the poll |
| Background.SweepKeepsEveryJob | my_shell/shell.c:86-101 | the kept and the reported jobs together are the jobs the sweep started with (as a multiset) |
| Background.SweepIsFilter | my_shell/shell.c:87-99 | with distinct pids the sweep keeps exactly the jobs not reported exited and reports exactly the others, each group in original order |
| Background.StillRunningMembers | my_shell/shell.c:87-99 | a job stays tracked if and only if it was tracked and its pid was not reported |
| Background.ShiftDown | my_shell/shell.c:94-97 | the inner loop removes slot i by shifting the later slots down, keeping their order |
| Background.CheckBackgroundProcesses | my_shell/shell.c:86-101 | the C loop, re-polling slot i after a removal, computes exactly the sweep: no entry is skipped |
| Builtins.IsBlank | my_shell/shell.c:219-226 | true if and only if every character satisfies `isspace`; the empty line is blank |
| Builtins.CdArgument | my_shell/shell.c:241-242 | the `cd` argument is the first space-delimited token from offset 3, and absent exactly when there is none or the input is `cd` alone |
| Builtins.HandleBuiltin | my_shell/shell.c:233-249 | recognises exactly `exit`, exactly `history`, and any input whose first two characters are `cd` |
| Builtins.BuiltinCodes | my_shell/shell.c:233-249 | returns -1 only for `exit`, 0 exactly for `history` or a `cd` prefix, 1 otherwise |
| Builtins.Classify | my_shell/shell.c:271-281 | blank lines are skipped, only `exit` leaves, and a line is launched if and only if it is not blank and not a built-in |
| Builtins.BareCdHasNoDir | my_shell/shell.c:241-245 | `cd` alone and `cd` followed by spaces are the built-in with no directory argument |
| Builtins.CdromIsChangeDir | my_shell/shell.c:241-246 | `cdrom` is taken as `cd` with argument `om` |
| Builtins.PaddedExitIsLaunched | my_shell/shell.c:234-236 | `exit` with a leading or trailing space is launched as an external command |
| Launch.StripDetach | my_shell/shell.c:111-115 | background if and only if the last character is `&`, and exactly that character is removed |
| Launch.ExecuteSingle | my_shell/shell.c:106-151 | faults exactly on 1024 or more arguments or a background launch with no program name; a failed fork changes nothing; a foreground launch leaves the registry alone; otherwise the history gains the cut text, pid, insertion clock and duration, and a background launch registers its first argument |
| Launch.RecordedEntry | my_shell/shell.c:118-143 | the recorded text is a prefix of the stage whose tokens are just the program name; the entry's time is the insertion clock; the duration is 0 in the background and end minus start (non-negative for a clock that does not go back) in the foreground |
| Launch.LaunchCommand | my_shell/shell.c:194-216 | more than 1024 stages fault; one stage runs the single-command path; any other count leaves history and registration alone; the sweep always runs afterwards |
| Launch.PipelineKeepsHistory | my_shell/shell.c:157-189 | a line of zero or at least two stages never changes the history log |
| Launch.ForegroundExample | my_shell/shell.c:136-140 | `ls -l` in the foreground records `ls` with duration end minus start |
| Launch.BackgroundExample | my_shell/shell.c:141-146 | `sleep 5 &` records `sleep` with duration 0 and registers `sleep` |
| Launch.LoneAmpersandExample | my_shell/shell.c:142-145 | a lone `&` launched in the background leaves `args[0]` NULL: a fault |
| Launch.AllPipesExample | my_shell/shell.c:199-212 | `\|\|\|` has no stages and takes the pipeline path, leaving history unchanged |
| Launch.TrailingPipeExample | my_shell/shell.c:199-209 | `ls \|` has one stage, runs as a single command and is recorded as `ls` |
| Fibonacci.FibNonNegativeAndGrowing | my_shell/fib.c:7-10 | for n ≥ 0, 0 ≤ fib(n) ≤ fib(n+1) |
| Fibonacci.FibMonotone | my_shell/fib.c:7-10 | fib never decreases from 0 on |
| Fibonacci.FibLimit | my_shell/fib.c:9 | fib(46) = 1836311903 and fib(47) = 2971215073 |
| Fibonacci.FibFitsIff | my_shell/fib.c:7-10 | for an `int` argument the result fits in 32-bit `int` if and only if n ≤ 46 |
| Fibonacci.FibInt32Agrees | my_shell/fib.c:7-10 | evaluated in 32-bit arithmetic, fib never overflows up to 46 (agreeing with the unbounded value) and always overflows from 47 on |
| Fibonacci.FibMain | my_shell/fib.c:12-24 | fewer than two arguments exit with status 1 without computing; otherwise the answer is fib(n) with status 0, or an overflow for n above 46 |

## Left out

- Process plumbing in `execute_single_command` and `execute_piped_commands` is not modelled: `fork`, `execvp`, `waitpid`, `wait`, `pipe`, `dup2`, `close`. The fork result and the sweep's poll answers are inputs. The pipeline path is modelled only as leaving the bookkeeping unchanged. Its descriptor handling is not modelled: a pipe is also created for the last stage, the parent never closes old read ends, and one `wait(NULL)` reaps one arbitrary child. That child can be a tracked background job (a line of `|` only blocks there until any child exits); the sweep's `waitpid` then fails for it, so it is never reported and stays tracked. The `exited` input allows this, since it need not contain every pid that has exited.
- Clock values and durations are integer seconds supplied as inputs, not the `double` that `difftime` returns. Values read from a one-second clock are integers, so nothing is lost.
- Printing is not modelled: `print_history`, `print_history1`, the prompt, and the `[Background] ... running` notice. The sweep's `finished` list stands for its completion notices.
- `init_history` (allocation, and exit on failure) and the frees at shutdown are not modelled. A history copy that fails is the boolean `copyOk`. A failed `strdup` at registration (shell.c:145) is not modelled.
- The main loop's I/O is not modelled: `getline`, newline removal, the sweep at the top of each iteration, and `chdir` in the `cd` built-in. `Builtins.Classify` keeps only the dispatch of one line.
- Not modelled because they have no effect: `original_cmd` and its `strncpy` in `launch_command` (dead code), and the declarations-only shell.h.
- `atoi` in fib.c's `main` is an external conversion: the model takes its result as the input `n`.
- Characters are Dafny `char`s. A line is taken to be the text before its C terminator. `isspace` is the C-locale set.
