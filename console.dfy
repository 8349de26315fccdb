/** The interactive loop of isf/console/console.py (`start`): it derives the
    prompt from the current module, reads a line, skips blank lines, splits
    the line into a command name and its arguments, looks the name up in the
    registry, enforces the command's minimum number of arguments, runs the
    command and sorts whatever the command raises into a log entry.

    What a command's `run` does is not visible to the console. It enters the
    model as an input: for each line, what the command would raise if it were
    invoked and which module is current once it returns. The prompt front end
    enters as a sequence of events: a typed line, an interrupt while waiting
    for input, or an error raised by the prompt itself (end of input among
    them).
 */
module Console {
  import opened Tokens
  import opened Registry

  // ---------------------------------------------------------------- prompt

  /** The prompt text: `IoTSecFuzz > ` with no module selected, and
      `IoTSecFuzz (<qualified name>) > ` with one selected. */
  function PromptText(current: Option<string>): (p: string)
    ensures |p| >= 13 && p[..10] == "IoTSecFuzz" && p[|p| - 3..] == " > "
    ensures current.None? <==> |p| == 13
    ensures current.Some? ==>
              && |p| == 16 + |current.value|
              && p[10..12] == " (" && p[|p| - 4] == ')' && p[12..|p| - 4] == current.value
  {
    "IoTSecFuzz" + (if current.Some? then " (" + current.value + ")" else "") + " > "
  }

  /** The prompt tells the user exactly which module is selected: two
      different selections never show the same prompt. */
  lemma PromptIdentifiesModule(a: Option<string>, b: Option<string>)
    requires PromptText(a) == PromptText(b)
    ensures a == b
  {
    var p := PromptText(a);
    if a.Some? && b.Some? {
      assert a.value == p[12..|p| - 4] == b.value;
    }
  }

  // -------------------------------------------------------------- dispatch

  /** What the loop decides to do with one input line. */
  datatype Decision =
    | Skip                                        // blank line: next iteration
    | NoSuchCommand(name: string)                 // warning, no command runs
    | TooFewArgs(minArgs: int)                    // warning, no command runs
    | Invoke(cmd: Command, args: seq<string>)     // `cmd.run(args)`

  /** The per-line decision of the loop: blank check, split, lookup and the
      minimum-argument check, in the order the loop makes them. */
  function Decide(commands: map<string, Command>, text: string): (d: Decision)
    ensures d.Skip? <==> IsBlank(text)
    ensures d.NoSuchCommand? ==> Split(text) != [] && Split(text)[0] == d.name && d.name !in commands
    ensures d.TooFewArgs? ==>
              && Split(text) != [] && Split(text)[0] in commands
              && d.minArgs == commands[Split(text)[0]].minArgsNumber
              && |Split(text)| - 1 < d.minArgs
    ensures d.Invoke? ==>
              && Split(text) != [] && Split(text)[0] in commands
              && d.cmd == commands[Split(text)[0]] && d.args == Split(text)[1..]
              && |d.args| >= d.cmd.minArgsNumber
              && (forall i :: 0 <= i < |d.args| ==> IsWord(d.args[i]))
  {
    if IsBlank(text) then Skip
    else
      var data := Split(text);
      assert data != [] && forall i :: 0 <= i < |data| ==> IsWord(data[i]) by {
        SplitEmptyIffBlank(text);
        SplitYieldsWords(text);
      }
      var name, args := data[0], data[1..];
      if name !in commands then NoSuchCommand(name)
      else if |args| < commands[name].minArgsNumber then TooFewArgs(commands[name].minArgsNumber)
      else Invoke(commands[name], args)
  }

  /** A line typed as a command name followed by arguments, separated by
      whitespace, is decided on that name and exactly those arguments. */
  lemma DecideTokens(commands: map<string, Command>, name: string, args: seq<string>)
    requires IsWord(name)
    requires forall i :: 0 <= i < |args| ==> IsWord(args[i])
    ensures Decide(commands, Join([name] + args)) ==
              if name !in commands then NoSuchCommand(name)
              else if |args| < commands[name].minArgsNumber then TooFewArgs(commands[name].minArgsNumber)
              else Invoke(commands[name], args)
  {
    var ws := [name] + args;
    assert forall i :: 0 <= i < |ws| ==> IsWord(ws[i]);
    SplitJoin(ws);
    assert !IsBlank(Join(ws));
    assert ws[0] == name && ws[1..] == args;
  }

  /** Once a command is registered, its name and each of its aliases lead to
      the same decision for the same arguments: typing `start` is typing
      `run` when `start` is an alias of `run`. */
  lemma AliasesDecideAlike(m: map<string, Command>, c: Command, k1: string, k2: string, args: seq<string>)
    requires Insert(m, c).Registered?
    requires k1 in Keys(c) && k2 in Keys(c) && IsWord(k1) && IsWord(k2)
    requires forall i :: 0 <= i < |args| ==> IsWord(args[i])
    ensures var m' := Insert(m, c).commands;
            Decide(m', Join([k1] + args)) == Decide(m', Join([k2] + args))
  {
    var m' := Insert(m, c).commands;
    InsertBinds(m, c);
    DecideTokens(m', k1, args);
    DecideTokens(m', k2, args);
  }

  /** The registrations of `use` (no alias) and `run` (alias `start`, as the
      run command declares it) both succeed, whatever their minimum numbers
      of arguments, and `start` then decides every argument list exactly as
      `run` does. */
  lemma RunStartScenario(useCmd: Command, runCmd: Command, args: seq<string>)
    requires useCmd.name == "use" && useCmd.aliases == []
    requires runCmd.name == "run" && runCmd.aliases == ["start"]
    requires forall i :: 0 <= i < |args| ==> IsWord(args[i])
    ensures Insert(map[], useCmd).Registered?
    ensures var m1 := Insert(map[], useCmd).commands;
            && Insert(m1, runCmd).Registered?
            && var m2 := Insert(m1, runCmd).commands;
               Decide(m2, Join(["start"] + args)) == Decide(m2, Join(["run"] + args))
  {
    var m1 := Insert(map[], useCmd).commands;
    assert Insert(map[], useCmd).Registered? && m1.Keys == {"use"} by {
      InsertRejects(map[], useCmd);
      InsertBinds(map[], useCmd);
      assert Keys(useCmd) == {"use"};
    }
    assert Keys(runCmd) == {"run", "start"};
    assert Insert(m1, runCmd).Registered? by {
      InsertRejects(m1, runCmd);
    }
    LiteralNamesAreWords();
    AliasesDecideAlike(m1, runCmd, "start", "run", args);
  }

  lemma LiteralNamesAreWords()
    ensures IsWord("start") && IsWord("run")
  {
    assert "start"[0] == 's' && "start"[1] == 't' && "start"[2] == 'a' && "start"[3] == 'r' && "start"[4] == 't';
    assert "run"[0] == 'r' && "run"[1] == 'u' && "run"[2] == 'n';
  }

  // -------------------------------------------------------- classification

  /** What a command's `run` can raise, by the handler that catches it.
      `NotAnException` stands for a `BaseException` that is neither an
      `Exception` nor a `KeyboardInterrupt` (`SystemExit`, `GeneratorExit`):
      no handler of the loop catches it. */
  datatype Failure =
    | ParameterValidationError(message: string)
    | ModuleExecutionError(message: string)
    | KeyboardInterrupt
    | OtherException(message: string)
    | NotAnException

  datatype Severity = Info | Warning | Error

  /** One call of the logger: level, text, and whether `exc_info` carries the
      exception's trace. */
  datatype LogEntry = LogEntry(severity: Severity, text: string, withTrace: bool)

  /** The inner handler around `cmd.run(args)`: the log entry it writes, or
      `None` when the failure escapes every handler. */
  function Classify(f: Failure): (h: Option<LogEntry>)
    ensures h.None? <==> f.NotAnException?
    ensures h.Some? ==> (h.value.severity == Warning <==>
                          f.ParameterValidationError? || f.ModuleExecutionError?)
    ensures h.Some? ==> (h.value.severity == Info <==> f.KeyboardInterrupt?)
    ensures h.Some? ==> (h.value.severity == Error <==> f.OtherException?)
    ensures h.Some? ==> (h.value.withTrace <==> f.OtherException?)
    ensures f.ParameterValidationError? || f.ModuleExecutionError? ==> h.value.text == f.message
  {
    match f
    case ParameterValidationError(msg) => Some(LogEntry(Warning, msg, false))
    case ModuleExecutionError(msg) => Some(LogEntry(Warning, msg, false))
    case KeyboardInterrupt => Some(LogEntry(Info, "Execution interrupted by user", false))
    case OtherException(_) => Some(LogEntry(Error, "Error occurred during command execution:", true))
    case NotAnException => None
  }

  // ---------------------------------------------------------------- session

  /** The opaque effect of a command's `run`: what it raises, if anything,
      and the module that is current once it returns. */
  datatype RunEffect = RunEffect(raised: Option<Failure>, currentAfter: Option<string>)

  /** What the prompt front end delivers to one iteration. */
  datatype Event =
    | Typed(text: string, effect: RunEffect)   // a line; `effect` applies if a command runs
    | PromptInterrupted                        // Ctrl-C while waiting for input
    | PromptFailed                             // the prompt raised an Exception (end of input)

  datatype Status =
    | Running
    | LoadFailed      // `core.load_modules()` raised: logged, loop never entered
    | Bye             // interrupt at the prompt
    | Crashed         // an Exception outside `cmd.run`: logged as unhandled
    | Escaped         // a failure of `cmd.run` that no handler catches

  /** A call `cmd.run(args)`. */
  datatype Invocation = Invocation(cmd: Command, args: seq<string>)

  /** The observable state of a session: its status, the current module, the
      prompts shown, the log written and the commands run, oldest first. */
  datatype Session = Session(status: Status, current: Option<string>, prompts: seq<string>,
                             log: seq<LogEntry>, invoked: seq<Invocation>)

  /** Decimal digits of `n`, as `%d` prints it. */
  function Decimal(n: nat): string {
    var d := "0123456789"[n % 10];
    if n < 10 then [d] else Decimal(n / 10) + [d]
  }

  /** One iteration of the loop of `start`. */
  function Step(s: Session, commands: map<string, Command>, e: Event): (s': Session)
    requires s.status == Running
  {
    var shown := s.(prompts := s.prompts + [PromptText(s.current)]);
    match e
    case PromptInterrupted =>
      shown.(status := Bye, log := s.log + [LogEntry(Info, "Bye!", false)])
    case PromptFailed =>
      shown.(status := Crashed, log := s.log + [LogEntry(Error, "Unhandled error:", true)])
    case Typed(text, effect) =>
      match Decide(commands, text)
      case Skip => shown
      case NoSuchCommand(name) =>
        shown.(log := s.log + [LogEntry(Warning, "No command named \"" + name + "\"", false)])
      case TooFewArgs(min) =>
        shown.(log := s.log + [LogEntry(Warning, "Invalid number of arguments; at least "
                                                 + Decimal(min) + " required", false)])
      case Invoke(cmd, args) =>
        var ran := shown.(current := effect.currentAfter,
                          invoked := s.invoked + [Invocation(cmd, args)]);
        if effect.raised.None? then ran
        else match Classify(effect.raised.value)
          case Some(entry) => ran.(log := s.log + [entry])
          case None => ran.(status := Escaped)
  }

  /** The loop over a sequence of events; it stops at the first event that
      ends the session, and later events are never read. */
  function Iterate(s: Session, commands: map<string, Command>, events: seq<Event>): (s': Session)
    decreases |events|
  {
    if events == [] || s.status != Running then s
    else Iterate(Step(s, commands, events[0]), commands, events[1..])
  }

  /** `start()`: load the modules, then run the loop from no selection. */
  function Start(loadOk: bool, commands: map<string, Command>, events: seq<Event>): Session {
    if !loadOk then Session(LoadFailed, None, [], [LogEntry(Error, "Unable to load modules:", true)], [])
    else Iterate(Session(Running, None, [], [], []), commands, events)
  }

  // ------------------------------------------------------ per-line lemmas

  /** A blank line shows a prompt and does nothing else: no lookup, no
      command, no log entry, same current module, session still running. */
  lemma BlankLineDoesNothing(s: Session, commands: map<string, Command>, text: string, effect: RunEffect)
    requires s.status == Running && IsBlank(text)
    ensures Step(s, commands, Typed(text, effect)) == s.(prompts := s.prompts + [PromptText(s.current)])
  {
  }

  /** A non-blank line whose first token is not a key is reported by that
      token and runs nothing, whatever whitespace surrounds the tokens. */
  lemma UnknownCommandRunsNothing(s: Session, commands: map<string, Command>, text: string,
                                  effect: RunEffect)
    requires s.status == Running && !IsBlank(text)
    requires Split(text) != [] && Split(text)[0] !in commands
    ensures var s' := Step(s, commands, Typed(text, effect));
            && s'.status == Running && s'.invoked == s.invoked && s'.current == s.current
            && s'.log == s.log + [LogEntry(Warning, "No command named \"" + Split(text)[0] + "\"", false)]
  {
  }

  /** A non-blank line whose first token is a key but which has fewer
      further tokens than that command's minimum: a warning naming the
      minimum, and the command is not run. */
  lemma TooFewArgumentsRunsNothing(s: Session, commands: map<string, Command>, text: string,
                                   effect: RunEffect)
    requires s.status == Running && !IsBlank(text)
    requires Split(text) != [] && Split(text)[0] in commands
    requires |Split(text)| - 1 < commands[Split(text)[0]].minArgsNumber
    ensures var s' := Step(s, commands, Typed(text, effect));
            && s'.status == Running && s'.invoked == s.invoked && s'.current == s.current
            && s'.log == s.log + [LogEntry(Warning, "Invalid number of arguments; at least "
                                                    + Decimal(commands[Split(text)[0]].minArgsNumber)
                                                    + " required", false)]
  {
  }

  /** A non-blank line whose first token is a key and which has enough
      further tokens: the command filed under that key runs once, with
      exactly the remaining tokens; whatever it raises, the loop goes on
      unless the failure escapes every handler. */
  lemma CommandRunsWithItsArguments(s: Session, commands: map<string, Command>, text: string,
                                    effect: RunEffect)
    requires s.status == Running && !IsBlank(text)
    requires Split(text) != [] && Split(text)[0] in commands
    requires |Split(text)| - 1 >= commands[Split(text)[0]].minArgsNumber
    ensures var s' := Step(s, commands, Typed(text, effect));
            && s'.invoked == s.invoked + [Invocation(commands[Split(text)[0]], Split(text)[1..])]
            && s'.current == effect.currentAfter
            && (s'.status == Running <==> effect.raised != Some(NotAnException))
            && s'.log == s.log + (if effect.raised.None? || effect.raised == Some(NotAnException) then []
                                  else [Classify(effect.raised.value).value])
  {
  }

  /** `UnknownCommandRunsNothing` for a name and arguments typed with single
      spaces between them. */
  lemma UnknownCommandRunsNothingJoined(s: Session, commands: map<string, Command>, name: string,
                                        args: seq<string>, effect: RunEffect)
    requires s.status == Running && IsWord(name) && name !in commands
    requires forall i :: 0 <= i < |args| ==> IsWord(args[i])
    ensures var s' := Step(s, commands, Typed(Join([name] + args), effect));
            && s'.status == Running && s'.invoked == s.invoked && s'.current == s.current
            && s'.log == s.log + [LogEntry(Warning, "No command named \"" + name + "\"", false)]
  {
    DecideTokens(commands, name, args);
  }

  /** `TooFewArgumentsRunsNothing` for a name and arguments typed with single
      spaces between them. */
  lemma TooFewArgumentsRunsNothingJoined(s: Session, commands: map<string, Command>, name: string,
                                         args: seq<string>, effect: RunEffect)
    requires s.status == Running && IsWord(name) && name in commands
    requires forall i :: 0 <= i < |args| ==> IsWord(args[i])
    requires |args| < commands[name].minArgsNumber
    ensures var s' := Step(s, commands, Typed(Join([name] + args), effect));
            && s'.status == Running && s'.invoked == s.invoked && s'.current == s.current
            && s'.log == s.log + [LogEntry(Warning, "Invalid number of arguments; at least "
                                                    + Decimal(commands[name].minArgsNumber)
                                                    + " required", false)]
  {
    DecideTokens(commands, name, args);
  }

  /** `CommandRunsWithItsArguments` for a name and arguments typed with
      single spaces between them: the command runs with exactly `args`. */
  lemma CommandRunsWithItsArgumentsJoined(s: Session, commands: map<string, Command>, name: string,
                                          args: seq<string>, effect: RunEffect)
    requires s.status == Running && IsWord(name) && name in commands
    requires forall i :: 0 <= i < |args| ==> IsWord(args[i])
    requires |args| >= commands[name].minArgsNumber
    ensures var s' := Step(s, commands, Typed(Join([name] + args), effect));
            && s'.invoked == s.invoked + [Invocation(commands[name], args)]
            && s'.current == effect.currentAfter
            && (s'.status == Running <==> effect.raised != Some(NotAnException))
            && s'.log == s.log + (if effect.raised.None? || effect.raised == Some(NotAnException) then []
                                  else [Classify(effect.raised.value).value])
  {
    DecideTokens(commands, name, args);
  }

  /** Only three things end the session: an interrupt at the prompt, an
      error raised by the prompt, and a failure of a command that no handler
      catches. Every failure the handlers classify leaves the loop running. */
  lemma WhatEndsTheSession(s: Session, commands: map<string, Command>, e: Event)
    requires s.status == Running
    ensures Step(s, commands, e).status != Running <==>
              || e.PromptInterrupted? || e.PromptFailed?
              || (e.Typed? && Decide(commands, e.text).Invoke? && e.effect.raised == Some(NotAnException))
  {
  }

  // --------------------------------------------------- session invariants

  /** Every recorded run respects the registry and the argument policy: the
      command is registered under some key, got at least its minimum number
      of arguments, and every argument is a whitespace-free token. */
  ghost predicate InvocationsValid(commands: map<string, Command>, invoked: seq<Invocation>) {
    forall i :: 0 <= i < |invoked| ==> ValidRun(commands, invoked[i])
  }

  ghost predicate ValidRun(commands: map<string, Command>, r: Invocation) {
    && r.cmd in commands.Values
    && |r.args| >= r.cmd.minArgsNumber
    && forall j :: 0 <= j < |r.args| ==> IsWord(r.args[j])
  }

  /** Over any run of the loop the log and the list of runs only grow, one
      prompt is shown per event read, and every run is a valid invocation. */
  lemma {:induction false} IterateKeepsInvariants(s: Session, commands: map<string, Command>, events: seq<Event>)
    requires InvocationsValid(commands, s.invoked)
    ensures var s' := Iterate(s, commands, events);
            && InvocationsValid(commands, s'.invoked)
            && s.invoked <= s'.invoked && s.log <= s'.log && s.prompts <= s'.prompts
            && |s'.prompts| - |s.prompts| <= |events|
    decreases |events|
  {
    if events != [] && s.status == Running {
      var t := Step(s, commands, events[0]);
      StepKeepsInvariants(s, commands, events[0]);
      IterateKeepsInvariants(t, commands, events[1..]);
    }
  }

  /** One iteration adds at most one valid run, and only appends. */
  lemma StepKeepsInvariants(s: Session, commands: map<string, Command>, e: Event)
    requires s.status == Running && InvocationsValid(commands, s.invoked)
    ensures var t := Step(s, commands, e);
            && InvocationsValid(commands, t.invoked)
            && s.invoked <= t.invoked && s.log <= t.log && |t.prompts| == |s.prompts| + 1
            && s.prompts <= t.prompts
  {
    match e {
      case PromptInterrupted =>
      case PromptFailed =>
      case Typed(text, effect) =>
        match Decide(commands, text) {
          case Skip =>
          case NoSuchCommand(_) =>
          case TooFewArgs(_) =>
          case Invoke(cmd, args) =>
            assert cmd in commands.Values;
            assert ValidRun(commands, Invocation(cmd, args));
            assert Step(s, commands, e).invoked == s.invoked + [Invocation(cmd, args)];
        }
    }
  }

  /** A session that has ended reads no further events. */
  lemma {:induction false} EndedSessionIgnoresEvents(s: Session, commands: map<string, Command>,
                                                    events: seq<Event>, more: seq<Event>)
    ensures Iterate(s, commands, events).status != Running ==>
              Iterate(s, commands, events + more) == Iterate(s, commands, events)
    decreases |events|
  {
    if events != [] && s.status == Running {
      assert (events + more)[0] == events[0] && (events + more)[1..] == events[1..] + more;
      EndedSessionIgnoresEvents(Step(s, commands, events[0]), commands, events[1..], more);
    } else if events == [] {
      assert events + more == more;
    }
  }

  // ------------------------------------------------------------- the loop

  /** One pass through the body of the loop of `start`: the prompt text is
      built piece by piece, blank lines are skipped, the line is split, the
      name looked up, the argument count checked, the command run and its
      failure classified, as the source does. */
  method LoopBody(commands: map<string, Command>, s0: Session, e: Event) returns (s: Session)
    requires s0.status == Running
    ensures s == Step(s0, commands, e)
  {
    var promptText := "IoTSecFuzz";
    if s0.current.Some? {
      promptText := promptText + " (" + s0.current.value + ")";
    }
    promptText := promptText + " > ";
    assert promptText == PromptText(s0.current);
    s := s0.(prompts := s0.prompts + [promptText]);
    match e {
      case PromptInterrupted =>
        s := s.(status := Bye, log := s.log + [LogEntry(Info, "Bye!", false)]);
      case PromptFailed =>
        s := s.(status := Crashed, log := s.log + [LogEntry(Error, "Unhandled error:", true)]);
      case Typed(text, effect) =>
        if IsBlank(text) {
          return;
        }
        var data := Split(text);
        SplitEmptyIffBlank(text);
        var cmdName := data[0];
        var args := data[1..];
        assert Decide(commands, text) ==
                 if cmdName !in commands then NoSuchCommand(cmdName)
                 else if |args| < commands[cmdName].minArgsNumber then TooFewArgs(commands[cmdName].minArgsNumber)
                 else Invoke(commands[cmdName], args);
        if cmdName !in commands {
          s := s.(log := s.log + [LogEntry(Warning, "No command named \"" + cmdName + "\"", false)]);
          return;
        }
        var cmd := commands[cmdName];
        if |args| < cmd.minArgsNumber {
          s := s.(log := s.log + [LogEntry(Warning, "Invalid number of arguments; at least "
                                                    + Decimal(cmd.minArgsNumber) + " required", false)]);
          return;
        }
        s := s.(invoked := s.invoked + [Invocation(cmd, args)], current := effect.currentAfter);
        if effect.raised.Some? {
          match Classify(effect.raised.value) {
            case Some(entry) => s := s.(log := s.log + [entry]);
            case None => s := s.(status := Escaped);
          }
        }
    }
  }

  /** `start()` against the registry, with module loading reduced to its
      outcome and the prompt to the events it delivers: the session it
      produces is the one `Start` describes. */
  method StartSession(registry: CommandRegistry, loadOk: bool, events: seq<Event>) returns (s: Session)
    ensures s == Start(loadOk, registry.commands, events)
  {
    if !loadOk {
      return Session(LoadFailed, None, [], [LogEntry(Error, "Unable to load modules:", true)], []);
    }
    var commands := registry.commands;
    s := Session(Running, None, [], [], []);
    var i := 0;
    while i < |events| && s.status == Running
      invariant 0 <= i <= |events|
      invariant Iterate(s, commands, events[i..]) == Start(loadOk, commands, events)
      decreases |events| - i
    {
      assert events[i..][0] == events[i] && events[i..][1..] == events[i + 1..];
      s := LoopBody(commands, s, events[i]);
      i := i + 1;
    }
  }
}
