/** The Rune compiler and virtual machine, seen only through the calls the
    REPL makes into them.  Each call is a field of type `A -> B` of the
    `Engine` value, so every property proved about the REPL holds for every
    engine whose operations give the same outcome for the same input. */
module RuneEngine {

  /** A runtime value of the script language.  The REPL itself only ever
      produces `Unit`; every other value is known by its debug text. */
  datatype Value = Unit | Opaque(debug: string)

  /** `Source::new(name, text)`: a named piece of program text. */
  datatype Source = Source(name: string, code: string)

  /** A compiler diagnostic (an error or a warning). */
  datatype Diagnostic = Diagnostic(message: string)

  /** A compiled unit, known only by an opaque handle. */
  datatype CompiledUnit = CompiledUnit(handle: nat)

  /** A live execution created by `Vm::call`, known only by an opaque handle. */
  datatype Execution = Execution(handle: nat)

  /** The errors `handle_line` propagates with `?` (a `Box<dyn Error>`). */
  datatype Failure =
    | EmitFailed        // writing diagnostics to stderr failed
    | VmFailed(message: string)  // `vm.call` or `execution.complete` failed

  datatype Result<T> = Ok(value: T) | Err(error: Failure)

  /** Outcome of a VM operation: a value or a VM error, never a stderr error. */
  datatype VmResult<T> = Done(value: T) | VmError(message: string)

  /** Outcome of `rune::load_source` with default options and a fresh,
      empty warnings collector. */
  datatype LoadOutcome =
    | Loaded(unit: CompiledUnit, warnings: seq<Diagnostic>)
    | LoadFailed(error: Diagnostic)

  /** The engine operations the REPL uses:
      - `load`: `rune::load_source` on the given source;
      - `emitError`: whether `error.emit_diagnostics` writes a compile
        error's diagnostic to stderr successfully;
      - `emitWarnings`: whether `rune::emit_warning_diagnostics` writes the
        warnings of a compiled unit to stderr successfully;
      - `call`: `Vm::new(context, unit).call(path, ())`;
      - `complete`: `execution.complete()`. */
  datatype Engine = Engine(
    load: Source -> LoadOutcome,
    emitError: Diagnostic -> bool,
    emitWarnings: (seq<Diagnostic>, CompiledUnit) -> bool,
    call: (CompiledUnit, seq<string>) -> VmResult<Execution>,
    complete: Execution -> VmResult<Value>)
}
