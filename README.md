# IoTSecFuzz console: command registry and dispatch loop

This project models the core of the IoTSecFuzz interactive console
(`isf/console/console.py`). The core has two parts:

- **The command registry.** This is the module-level `commands` dictionary. `register_command` files a
  command under its name and under each of its aliases. It first checks every key against the
  keys already present. It raises `ValueError` for the first key that clashes, and writes only when no key clashes.
- **The read–dispatch loop of `start`.** Each iteration does the following:
  - builds the prompt from the current module's qualified name;
  - reads a line and skips it when it is blank;
  - splits it on whitespace into a command name and arguments;
  - looks the name up and enforces the command's `min_args_number`;
  - runs the command and sorts whatever it raises into a log entry.

  An interrupt at the prompt ends the session. So does an error raised outside a command.

Files:

- `tokens.dfy` (module `Tokens`) models Python's `str.strip()` emptiness test and `str.split()`
  with no separator, over Python's whitespace set. It proves that the tokens are non-empty and
  whitespace-free. It proves that they hold exactly the line's non-whitespace characters, in order.
  It also proves that splitting undoes joining with spaces.
- `registry.dfy` (module `Registry`) holds the `Command` record (`name`, `aliases`,
  `min_args_number`). It defines the pure registration function `Insert` and its lemmas. It also
  holds the class `CommandRegistry`, whose `Register` method changes the dictionary in place with
  the same two loops as the source.
- `console.dfy` (module `Console`) holds the prompt text, the per-line decision `Decide` and the
  exception classification `Classify`. `Step` models one iteration, and `Iterate`/`Start` model the
  whole session. The method `StartSession` runs the loop; each pass calls `LoopBody`, which is
  proved equal to `Step`.

Some parts of the console are modelled as inputs:

- A command's `run` is opaque. Each typed line carries a `RunEffect`: what `run` would raise if
  invoked, and which module is current afterwards.
- `PromptSession.prompt` becomes a sequence of events: a typed line, an interrupt while waiting,
  or an error raised by the prompt, such as `EOFError` at end of input.
- `core.load_modules()` becomes a success flag.

Three behaviours of the code are worth stating outright:

- A command's failure does not always leave the loop running. A `BaseException` that is not an
  `Exception` (`SystemExit`, `GeneratorExit`) raised by `cmd.run` is caught neither by the inner
  handlers (isf/console/console.py:139-147) nor by the outer ones (150-155). `start` then ends
  with no log entry. The model calls this status `Escaped`.
- `register_command` iterates the alias list (isf/console/console.py:63-68) and checks each key
  only against keys present before the call. An alias that repeats the name, or repeats another
  alias of the same command, is therefore accepted (`AliasesRepeatingNameAccepted`,
  `RepeatedAliasAccepted`).
- Lines 125-126 of isf/console/console.py test whether the token list is empty after a non-blank
  line. That test can never succeed: `Tokens.SplitEmptyIffBlank` proves that the token list is
  empty exactly when the line is blank.

## Model

| member | source | states |
|---|---|---|
| Registry.FirstClash | isf/console/console.py:61-65 | the reported key is the first of name-then-aliases already present; none is reported iff no key is present |
| Registry.FirstClashAt | isf/console/console.py:61-65 | if key i is present and no earlier key is, the reported clash is key i |
| Registry.InsertRejects | isf/console/console.py:60-65 | registration fails iff the name or some alias is already a key; the reported key is one of them, and the name is reported when it clashes |
| Registry.InsertBinds | isf/console/console.py:66-68 | after success: keys = old keys + name + aliases; name and every alias map to the command; every old key keeps its command |
| Registry.InsertKeepsCoherent | isf/console/console.py:60-68 | every key belongs to its command, and a registered command is reachable under all its keys; registration preserves this |
| Registry.AliasesRepeatingNameAccepted | isf/console/console.py:61-68 | when the name is new and every alias repeats it, registration succeeds and files the command under its name alone |
| Registry.RepeatedAliasAccepted | isf/console/console.py:63-68 | an alias listed twice is not rejected when no key of the command is already present |
| Registry.CommandRegistry.FindClash | isf/console/console.py:61-65 | the check loops return exactly the first present key among name-then-aliases, or none |
| Registry.CommandRegistry.WriteKeys | isf/console/console.py:66-68 | the write loops leave the old dictionary extended by the name and every alias, each mapped to the command |
| Registry.CommandRegistry.Register | isf/console/console.py:60-68 | on a clash returns the clashing key and leaves the dictionary exactly as before; otherwise the dictionary becomes the registered one; coherence is preserved |
| Tokens.SplitYieldsWords | isf/console/console.py:124-129 | every token is non-empty and whitespace-free |
| Tokens.SplitEmptyIffBlank | isf/console/console.py:121-126 | there are no tokens iff the line is blank, so the emptiness test after a non-blank line never fires |
| Tokens.SplitKeepsEveryOtherCharacter | isf/console/console.py:124 | the tokens concatenated are the line's non-whitespace characters in order |
| Tokens.SplitJoin | isf/console/console.py:124-129 | splitting well-formed tokens joined with spaces gives back the same tokens in order |
| Console.PromptText | isf/console/console.py:113-118 | the prompt starts `IoTSecFuzz` and ends ` > `; it is 13 characters iff no module is selected; with one, it shows ` (<qualified name>)` in between |
| Console.PromptIdentifiesModule | isf/console/console.py:113-118 | different selections give different prompts |
| Console.Decide | isf/console/console.py:121-149 | a blank line is skipped iff blank; otherwise an unknown first token is reported by name; too few args reports the minimum; a command runs only with at least its minimum of whitespace-free args, namely the tokens after its key |
| Console.DecideTokens | isf/console/console.py:124-136 | a line `name args...` is decided on exactly that name and those arguments |
| Console.AliasesDecideAlike | isf/console/console.py:130-131 | after registration, the name and every alias give the same decision for the same arguments |
| Console.RunStartScenario | isf/cli/cmd/run.py:8-10 | registering `use` (no alias), then `run` with alias `start`, succeeds whatever their minimum argument counts; `start` and `run` then give the same decision for any arguments |
| Console.Classify | isf/console/console.py:137-147 | validation and execution errors give a warning with the error's text and no trace; an interrupt gives info; any other Exception gives an error with trace; a non-Exception escapes every handler |
| Console.BlankLineDoesNothing | isf/console/console.py:121-122 | a blank line only shows a prompt: no command, no log entry, same module, still running |
| Console.UnknownCommandRunsNothing | isf/console/console.py:128-149 | for any non-blank line whose first token is not a key, the step logs "No command named" with that token, runs nothing and keeps running |
| Console.TooFewArgumentsRunsNothing | isf/console/console.py:128-136 | for any non-blank line whose first token is a key with fewer further tokens than its minimum, the step logs the minimum and runs nothing |
| Console.CommandRunsWithItsArguments | isf/console/console.py:128-147 | for any non-blank line whose first token is a key with enough further tokens, the command runs once with exactly the remaining tokens; the loop goes on unless the failure escapes; the log gains the classified entry |
| Console.UnknownCommandRunsNothingJoined | isf/console/console.py:148-149 | a word not registered, typed with word arguments, is reported by that name and nothing runs |
| Console.TooFewArgumentsRunsNothingJoined | isf/console/console.py:132-136 | a registered name typed with fewer word arguments than its minimum logs the minimum and runs nothing |
| Console.CommandRunsWithItsArgumentsJoined | isf/console/console.py:137-147 | a registered name typed with enough word arguments runs its command with exactly those arguments |
| Console.WhatEndsTheSession | isf/console/console.py:137-155 | an iteration ends the session iff the prompt was interrupted, the prompt raised, or the command raised a non-Exception |
| Console.StepKeepsInvariants | isf/console/console.py:112-149 | one iteration shows exactly one prompt, only appends to log and runs, and any run it adds is of a registered command with enough whitespace-free arguments |
| Console.IterateKeepsInvariants | isf/console/console.py:112-149 | across the loop, log, runs and prompts only grow; at most one prompt is shown per event; every run is of a registered command with enough whitespace-free arguments |
| Console.EndedSessionIgnoresEvents | isf/console/console.py:150-155 | once the session has ended, later input is never read |
| Console.LoopBody | isf/console/console.py:113-149 | one pass of the loop body produces exactly the state `Step` describes |
| Console.StartSession | isf/console/console.py:103-155 | the session the loop produces is `Start` of the load outcome, the registry and the events |

## Left out

- The start-up registrations of the eight console commands (isf/console/console.py:72-79): the command classes are not part of this model. Their names, aliases and minimum argument counts are not shown. The only alias shown is `start`, declared by the CLI's run command (isf/cli/cmd/run.py:8-10); no minimum argument count is shown for any command.
- What each command's `run` does (`Use`, `Set`, `Options`, `Run`, `List`, `Back`, `Search`, `Help`), together with the module context and parameter store: they enter only as the opaque `RunEffect` of a line.
- Logging set-up, level names, handlers, formatters, progress-bar styles (isf/console/console.py:23-57) and `print_banner` (84-100): these are presentation only. Log entries are modelled as severity, text and trace flag.
- The HTML markup that wraps the prompt (`<a fg=...>`, isf/console/console.py:120) is presentation. Only the prompt text is modelled.
- `PromptSession` and `core.load_modules()` are external. They become events and a success flag. The text of an exception raised by the prompt or by module loading is not modelled, only the entry logged for it.
- Registry.CommandRegistry.Register: a rejection returns the clashing key instead of raising `ValueError`. The registration at import time that would abort the program is not modelled.
- The loop of the model ends when its sequence of events runs out. The real loop would block waiting for the next line.
- Exceptions raised by the logger itself, or by `str(e)` inside a handler, are not modelled.
- isf/isfpm/cmd/login.py (the package-repository login) is network I/O and configuration storage, and is not part of this model.
- isf/cli/cmd/run.py is used only for the `run`/`start` alias. Its body drains a generator from a module that is not part of this model.
