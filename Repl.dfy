/** One REPL session: the accumulated source buffer, the meta-commands and
    the compile-and-run protocol of `handle_line`. */
module Repl {
  import opened RuneEngine

  /** Name given to the synthetic source, and the entry function it declares. */
  const ScriptName: string := "script"
  const EntryName: string := "repl_main__"

  const WrapperHead: string := "fn repl_main__() {\n"
  const WrapperTail: string := "\n}"

  /** Lines `.help` prints, in order. */
  const HelpText: seq<string> := [
    "runepl - A REPL for Rune.",
    "",
    "Available commands:",
    " .show  -- Show the current full code buffer.",
    " .clear -- Clear the current full code buffer.",
    " .help  -- Show this help.",
    "",
    "Everything else is appended as code into the buffer and executed."
  ]

  /** The three lines handled without the compiler, recognised by exact
      string equality. */
  predicate IsMeta(line: string) {
    line == ".clear" || line == ".show" || line == ".help"
  }

  /** Wraps `source` as the body of the entry function `repl_main__`.
      The text is the fixed head, then `source` unchanged and contiguous,
      then the fixed tail. */
  function FormatCode(source: string): (r: Source)
    ensures r.name == ScriptName
    ensures |r.code| == |WrapperHead| + |source| + |WrapperTail|
    ensures r.code[..|WrapperHead|] == WrapperHead
    ensures r.code[|WrapperHead|..|WrapperHead| + |source|] == source
    ensures r.code[|WrapperHead| + |source|..] == WrapperTail
  {
    Source(ScriptName, WrapperHead + source + WrapperTail)
  }

  /** Recovers the wrapped source from a text produced by `FormatCode`,
      or `None` when the text does not have the wrapper's shape. */
  function Unwrap(code: string): (r: Option<string>)
    ensures r.Some? <==>
      |WrapperHead| + |WrapperTail| <= |code| &&
      code[..|WrapperHead|] == WrapperHead &&
      code[|code| - |WrapperTail|..] == WrapperTail
    ensures r.Some? ==> |r.value| + |WrapperHead| + |WrapperTail| == |code|
    ensures r.Some? ==> r.value == code[|WrapperHead|..|code| - |WrapperTail|]
  {
    if |WrapperHead| + |WrapperTail| <= |code|
       && code[..|WrapperHead|] == WrapperHead
       && code[|code| - |WrapperTail|..] == WrapperTail
    then Some(code[|WrapperHead|..|code| - |WrapperTail|])
    else None
  }

  datatype Option<T> = None | Some(value: T)

  /** The wrapper declares exactly the function the VM is told to call. */
  lemma EntryDeclared(source: string)
    ensures FormatCode(source).code[..3 + |EntryName|] == "fn " + EntryName
  {
  }

  /** Unwrapping undoes wrapping. */
  lemma UnwrapFormatCode(source: string)
    ensures Unwrap(FormatCode(source).code) == Some(source)
  {
  }

  /** Wrapping undoes unwrapping: a text of the wrapper's shape is the
      wrapping of what `Unwrap` finds in it. */
  lemma FormatCodeUnwrap(code: string)
    requires Unwrap(code).Some?
    ensures FormatCode(Unwrap(code).value).code == code
  {
  }

  /** Distinct candidate programs are submitted as distinct texts. */
  lemma FormatCodeInjective(a: string, b: string)
    requires FormatCode(a) == FormatCode(b)
    ensures a == b
  {
  }

  /** What the compile-and-run part of `handle_line` does with a wrapped
      candidate program. */
  datatype Verdict =
    | Rejected            // the compiler refused it; its diagnostic was printed
    | Aborted(error: Failure)  // an error propagated out with `?`
    | Finished(value: Value)   // it compiled and ran to completion

  /** The source loaded, and its warnings, if any, were written to stderr. */
  predicate WarningsRendered(e: Engine, full: Source) {
    e.load(full).Loaded? &&
    (e.load(full).warnings == [] || e.emitWarnings(e.load(full).warnings, e.load(full).unit))
  }

  /** `rune::load_source`, then diagnostics, then `vm.call` and
      `execution.complete`, in the source's order. */
  function Submit(e: Engine, full: Source): (v: Verdict)
    ensures e.load(full).LoadFailed? ==>
      v == if e.emitError(e.load(full).error) then Rejected else Aborted(EmitFailed)
    ensures v.Rejected? ==> e.load(full).LoadFailed?
    ensures e.load(full).Loaded? && e.load(full).warnings != [] &&
            !e.emitWarnings(e.load(full).warnings, e.load(full).unit) ==>
      v == Aborted(EmitFailed)
    ensures WarningsRendered(e, full) && e.call(e.load(full).unit, [EntryName]).VmError? ==>
      v == Aborted(VmFailed(e.call(e.load(full).unit, [EntryName]).message))
    ensures WarningsRendered(e, full) && e.call(e.load(full).unit, [EntryName]).Done? ==>
      v == match e.complete(e.call(e.load(full).unit, [EntryName]).value)
           case VmError(m) => Aborted(VmFailed(m))
           case Done(value) => Finished(value)
    ensures v.Finished? <==>
      WarningsRendered(e, full) &&
      e.call(e.load(full).unit, [EntryName]).Done? &&
      e.complete(e.call(e.load(full).unit, [EntryName]).value).Done?
  {
    match e.load(full)
    case LoadFailed(d) =>
      if e.emitError(d) then Rejected else Aborted(EmitFailed)
    case Loaded(unit, warnings) =>
      if warnings != [] && !e.emitWarnings(warnings, unit) then Aborted(EmitFailed)
      else
        match e.call(unit, [EntryName])
        case VmError(m) => Aborted(VmFailed(m))
        case Done(x) =>
          match e.complete(x)
          case VmError(m) => Aborted(VmFailed(m))
          case Done(value) => Finished(value)
  }

  /** Everything one call of `handle_line` produces: its return value, the
      buffer afterwards, the text given to the compiler (if any) and the
      lines printed to stdout. */
  datatype Turn = Turn(
    result: Result<Value>,
    buffer: string,
    submitted: Option<Source>,
    printed: seq<string>)

  /** The candidate program for `line`: the buffer, a newline, the line. */
  function Candidate(buffer: string, line: string): string {
    buffer + "\n" + line
  }

  /** One call of `handle_line` as a function of the buffer before it. */
  function Step(e: Engine, buffer: string, line: string): (t: Turn)
    ensures t.submitted == None <==> IsMeta(line)
    ensures !IsMeta(line) ==> t.submitted == Some(FormatCode(Candidate(buffer, line)))
    ensures line == ".clear" ==> t.buffer == ""
    ensures line == ".show" || line == ".help" ==> t.buffer == buffer
    ensures !IsMeta(line) ==> t.buffer == buffer || t.buffer == Candidate(buffer, line)
    ensures t.result.Ok? && t.result.value != Unit ==> t.buffer == Candidate(buffer, line)
  {
    if line == ".clear" then Turn(Ok(Unit), "", None, [])
    else if line == ".show" then Turn(Ok(Unit), buffer, None, [buffer])
    else if line == ".help" then Turn(Ok(Unit), buffer, None, HelpText)
    else
      var full := FormatCode(Candidate(buffer, line));
      match Submit(e, full)
      case Rejected => Turn(Ok(Unit), buffer, Some(full), [])
      case Aborted(f) => Turn(Err(f), buffer, Some(full), [])
      case Finished(value) => Turn(Ok(value), Candidate(buffer, line), Some(full), [])
  }

  /** `.clear` empties the buffer whatever it held and returns `Unit`. */
  lemma ClearEmpties(e: Engine, buffer: string)
    ensures Step(e, buffer, ".clear") == Turn(Ok(Unit), "", None, [])
  {
  }

  /** `.show` and `.help` keep the buffer, return `Unit` and never reach
      the compiler; `.show` prints the buffer verbatim. */
  lemma ShowAndHelpKeepBuffer(e: Engine, buffer: string, line: string)
    requires line == ".show" || line == ".help"
    ensures Step(e, buffer, line).buffer == buffer
    ensures Step(e, buffer, line).result == Ok(Unit)
    ensures Step(e, buffer, line).submitted == None
    ensures line == ".show" ==> Step(e, buffer, line).printed == [buffer]
  {
  }

  /** Near misses of a meta-command are compiled like any other line. */
  lemma NearMissesAreCompiled(e: Engine, buffer: string)
    ensures Step(e, buffer, ".clear ").submitted == Some(FormatCode(Candidate(buffer, ".clear ")))
    ensures Step(e, buffer, ".Clear").submitted == Some(FormatCode(Candidate(buffer, ".Clear")))
    ensures Step(e, buffer, " .show").submitted.Some?
  {
  }

  /** A line the compiler rejects never enters the buffer; the call returns
      `Unit`, or the rendering error if printing the diagnostic failed. */
  lemma RejectedLineDiscarded(e: Engine, buffer: string, line: string)
    requires !IsMeta(line)
    requires e.load(FormatCode(Candidate(buffer, line))).LoadFailed?
    ensures Step(e, buffer, line).buffer == buffer
    ensures Step(e, buffer, line).result ==
      if e.emitError(e.load(FormatCode(Candidate(buffer, line))).error) then Ok(Unit) else Err(EmitFailed)
  {
  }

  /** A line that compiles but whose call or execution fails returns that
      error and leaves the buffer as it was. */
  lemma RuntimeFailureKeepsBuffer(e: Engine, buffer: string, line: string)
    requires !IsMeta(line)
    requires Submit(e, FormatCode(Candidate(buffer, line))).Aborted?
    ensures Step(e, buffer, line).buffer == buffer
    ensures Step(e, buffer, line).result ==
      Err(Submit(e, FormatCode(Candidate(buffer, line))).error)
  {
  }

  /** The buffer grows if and only if the line is ordinary source that
      compiled and ran to completion; it then gains a newline and the line,
      and the execution's value is returned. */
  lemma GrowsExactlyOnSuccess(e: Engine, buffer: string, line: string)
    ensures |Step(e, buffer, line).buffer| > |buffer| <==>
      !IsMeta(line) && Submit(e, FormatCode(Candidate(buffer, line))).Finished?
    ensures !IsMeta(line) && Submit(e, FormatCode(Candidate(buffer, line))).Finished? ==>
      Step(e, buffer, line).buffer == buffer + "\n" + line &&
      Step(e, buffer, line).result == Ok(Submit(e, FormatCode(Candidate(buffer, line))).value)
  {
  }

  /** A line the compiler rejects, submitted twice in a row, keeps the
      buffer and gives the identical outcome both times. */
  lemma RejectionIdempotent(e: Engine, buffer: string, line: string)
    requires !IsMeta(line)
    requires e.load(FormatCode(Candidate(buffer, line))).LoadFailed?
    ensures Step(e, buffer, line).buffer == buffer
    ensures Step(e, Step(e, buffer, line).buffer, line) == Step(e, buffer, line)
  {
  }

  /** A line whose warnings write, call or execution fails, submitted twice
      in a row, keeps the buffer and fails identically both times. */
  lemma FailureRepeats(e: Engine, buffer: string, line: string)
    requires !IsMeta(line)
    requires Submit(e, FormatCode(Candidate(buffer, line))).Aborted?
    ensures Step(e, buffer, line).buffer == buffer
    ensures Step(e, Step(e, buffer, line).buffer, line) == Step(e, buffer, line)
    ensures Step(e, buffer, line).result.Err?
  {
  }

  /** The session state: the accumulated source buffer `source`. */
  class Session {
    var buffer: string

    /** `String::new()`: a session starts with an empty buffer. */
    constructor ()
      ensures buffer == ""
    {
      buffer := "";
    }

    /** `handle_line`: handles one input line, updating the buffer in place.
        Also returns the source given to the compiler and the lines printed. */
    method HandleLine(e: Engine, line: string)
      returns (result: Result<Value>, submitted: Option<Source>, printed: seq<string>)
      modifies this
      ensures Turn(result, buffer, submitted, printed) == Step(e, old(buffer), line)
    {
      submitted, printed := None, [];
      if line == ".clear" {
        buffer := "";
        return Ok(Unit), None, [];
      }
      if line == ".show" {
        printed := [buffer];
        return Ok(Unit), None, printed;
      }
      if line == ".help" {
        return Ok(Unit), None, HelpText;
      }

      var newSource := buffer;
      newSource := newSource + "\n";
      newSource := newSource + line;
      var fullSource := FormatCode(newSource);
      submitted := Some(fullSource);

      var loaded := e.load(fullSource);
      if loaded.LoadFailed? {
        if !e.emitError(loaded.error) {
          return Err(EmitFailed), submitted, [];
        }
        return Ok(Unit), submitted, [];
      }
      var unit := loaded.unit;
      if loaded.warnings != [] && !e.emitWarnings(loaded.warnings, unit) {
        return Err(EmitFailed), submitted, [];
      }

      var execution := e.call(unit, [EntryName]);
      if execution.VmError? {
        return Err(VmFailed(execution.message)), submitted, [];
      }
      var value := e.complete(execution.value);
      if value.VmError? {
        return Err(VmFailed(value.message)), submitted, [];
      }

      buffer := buffer + "\n";
      buffer := buffer + line;
      result := Ok(value.value);
    }
  }
}
