# runepl session model

A Dafny model of runepl, a read-eval-print loop for the Rune scripting
language. The session keeps one mutable string, the accumulated source
buffer. Each input line is handled by `handle_line`. The lines `.clear`,
`.show` and `.help` are meta-commands and never reach the compiler. Any other
line builds the candidate `buffer + "\n" + line`, wraps it as the body of
`fn repl_main__()`, compiles it, and calls `repl_main__`. The line joins the
buffer only when compilation, the call and the execution all succeed.

The Rune compiler and VM are not modelled. They are the value `Engine`
(`Engine.dfy`), a record of total functions. `load` is `rune::load_source`.
`emitError` and `emitWarnings` say whether writing a compile error or a unit's
warnings to stderr succeeds. `call` is `Vm::new(..).call` and `complete` is
`execution.complete`. The engine is a parameter, so every property below holds
for every engine whose calls always give the same outcome for the same input
(see "## Left out").

Files:
- `Engine.dfy` (module `RuneEngine`): values, sources, diagnostics, the engine interface.
- `Repl.dfy` (module `Repl`): `FormatCode` and its inverse `Unwrap`. `Submit` is the
  compile-and-run protocol. `Step` is one call of `handle_line` as a pure function. The
  class `Session` holds the buffer, and its method `HandleLine` updates it in place in
  the source's step order; it is proved equal to `Step`.
- `Replay.dfy` (module `ReplReplay`): sequences of calls. The lines that succeed are
  appended in order, failed lines never appear, and `.clear` forgets the history.

In these places the code may behave differently from what a reader expects; the model follows the code:
- A line that compiles but fails in `vm.call` or `execution.complete` is not
  appended. The `?` at src/main.rs:66-67 returns before the append at 69-70.
- The buffer starts empty and every append adds `"\n" + line`. So after
  `let x = 1`, `x +` (rejected), `x + 2`, the buffer is `"\nlet x = 1\nx + 2"`,
  with a leading newline (`ReplReplay.InvalidMiddleLineAbsent`).
- A compile error returns `Ok(Value::Unit)`, not an error value. A failure to
  render a diagnostic is returned as an error (`EmitFailed`). That covers both the
  compile error's diagnostic (line 55) and the warnings (line 62). In both cases
  the buffer is unchanged.

## Model

| member | source | states |
|---|---|---|
| `Repl.FormatCode` | src/main.rs:11-14 | the wrapped text is `fn repl_main__() {\n`, then the source unchanged and contiguous, then `\n}`; the source is named `script` |
| `Repl.Unwrap` | src/main.rs:11-14 | finds a source exactly when the text has the wrapper's head and tail, and the found source is the text minus both |
| `Repl.UnwrapFormatCode` | src/main.rs:11-14 | unwrapping a wrapped source gives back that source |
| `Repl.FormatCodeUnwrap` | src/main.rs:11-14 | every text of the wrapper's shape is the wrapping of what unwrapping finds |
| `Repl.FormatCodeInjective` | src/main.rs:11-14 | distinct candidate programs are submitted as distinct texts |
| `Repl.EntryDeclared` | src/main.rs:12 | the wrapper declares `fn repl_main__`, the function the VM is told to call at line 66 |
| `Repl.Submit` | src/main.rs:51-67 | a compile failure gives a rejection, or `EmitFailed` when its diagnostic cannot be written; a failed warnings write gives `EmitFailed`; a failed `vm.call` or `execution.complete` gives that call's error; otherwise the run finishes carrying the value `execution.complete` returned; the run finishes exactly when loading, the warnings write, the call and the execution all succeed |
| `Repl.Step` | src/main.rs:16-73 | the compiler gets text exactly when the line is not a meta-command, and then gets `FormatCode(buffer + "\n" + line)`; `.clear` empties the buffer, `.show` and `.help` keep it, and ordinary source either keeps it or makes it old + `"\n"` + line; a non-Unit value is returned only when the line was appended |
| `Repl.ClearEmpties` | src/main.rs:21-24 | `.clear` empties the buffer whatever it held, returns `Unit` and compiles nothing |
| `Repl.ShowAndHelpKeepBuffer` | src/main.rs:26-41 | `.show` and `.help` keep the buffer, return `Unit` and compile nothing; `.show` prints the buffer verbatim |
| `Repl.NearMissesAreCompiled` | src/main.rs:21-49 | `.clear `, `.Clear` and ` .show` are not meta-commands; they are sent to the compiler inside the candidate program |
| `Repl.RejectedLineDiscarded` | src/main.rs:51-57 | a line the compiler rejects leaves the buffer unchanged; the result is `Unit`, or the rendering error if printing the diagnostic failed |
| `Repl.RuntimeFailureKeepsBuffer` | src/main.rs:60-67 | when rendering warnings, `vm.call` or `execution.complete` fails, that error is returned and the buffer is unchanged |
| `Repl.GrowsExactlyOnSuccess` | src/main.rs:65-72 | the buffer grows if and only if the line is ordinary source that compiled and ran; it then becomes old + `"\n"` + line and the execution's value is returned |
| `Repl.RejectionIdempotent` | src/main.rs:46-57 | a line the compiler rejects keeps the buffer, and submitting it again gives the identical outcome and buffer |
| `Repl.FailureRepeats` | src/main.rs:60-67 | a line whose warnings write, `vm.call` or `execution.complete` fails returns an error, keeps the buffer, and fails identically when submitted again |
| `Repl.Session.constructor` | src/main.rs:79 | a session starts with an empty buffer |
| `Repl.Session.HandleLine` | src/main.rs:16-73 | updates the buffer in place; the return value, the new buffer, the submitted text and the printed lines are exactly those `Step` gives for the old buffer |
| `ReplReplay.Replay` | src/main.rs:84-91 | the buffer after `handle_line` is called on each line in turn; unlike `main` it goes on after an `Err`, which never changes the buffer |
| `ReplReplay.Kept` | src/main.rs:46-72 | the lines a run takes into the buffer are a subsequence of the input lines, in order, and none is a meta-command |
| `ReplReplay.Joined` | src/main.rs:69-70 | the reference join `"\n"+L1 … "\n"+Ln` of the appends; it starts with a newline when there is a line |
| `ReplReplay.ReplayConcat` | src/main.rs:84-91 | handling two runs of lines one after the other is handling their concatenation |
| `ReplReplay.SuccessesAppendInOrder` | src/main.rs:65-72 | after lines L1..Ln that all succeed, the buffer is the starting buffer followed by `"\n"+L1 … "\n"+Ln` |
| `ReplReplay.FromEmptyLeadingNewline` | src/main.rs:69-79 | starting from the empty buffer, successful lines give exactly their newline-preceded join, which starts with `"\n"` |
| `ReplReplay.NoClearKeepsExactlyAccepted` | src/main.rs:46-72 | without `.clear`, the final buffer is the starting buffer followed by exactly the kept lines; rejected or failed lines are absent |
| `ReplReplay.ClearForgetsHistory` | src/main.rs:21-24 | the buffer after a run depends only on the lines after a `.clear`, not on the starting buffer or the earlier lines |
| `ReplReplay.InvalidMiddleLineAbsent` | src/main.rs:46-72 | for `let x = 1`, the rejected `x +`, then `x + 2`, the final buffer is `"\nlet x = 1\nx + 2"` |

## Left out

- `main` (src/main.rs:75-109): the rustyline editor, the prompt, history in `history.txt`, and Ctrl-C/EOF handling are terminal and file I/O. `ReplReplay.Replay` models only the repeated calls of `handle_line`. An `Err` from `handle_line` propagates with `?` at line 89 and ends the process. `Replay` does not stop there, but an error never changes the buffer.
- The Rune compiler, `Vm::new`, `vm.call`, `execution.complete` and `rune::default_context` are foreign library calls. They appear only as the uninterpreted functions of `Engine`. Compiler options and the shared `Arc<Context>` are fixed inside those functions.
- Repl.FailureRepeats: holds only because the engine is deterministic, as explained on the next line.
- Repl.RejectionIdempotent: rests on the engine being deterministic. `Engine`'s operations are functions, so compiling, calling, running and writing to stderr always give the same outcome for the same input. A second submission of a line that failed in `vm.call`, `execution.complete` or a stderr write therefore fails identically. The real VM and terminal need not behave this way; for a compile rejection (lines 51-57) this is the usual expectation of a deterministic compiler.
- The same determinism is assumed by every lemma that relates several calls (`ReplReplay`): an engine with hidden state across calls is not modelled.
- Rendering diagnostics and warnings in colour (lines 54-55, 60-63): only whether the write succeeds is modelled, because a failed write returns an error.
- The `println!` of the result in `main` (line 90) and the value's debug format. A script value other than `Unit` is known only by an opaque debug string.
