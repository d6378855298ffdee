/** Sequences of `handle_line` calls on one buffer: which lines end up in
    it, and in what order. */
module ReplReplay {
  import opened RuneEngine
  import opened Repl

  /** The buffer after handling `lines` one after another from `buffer`. */
  function Replay(e: Engine, buffer: string, lines: seq<string>): string
    decreases |lines|
  {
    if lines == [] then buffer
    else Replay(e, Step(e, buffer, lines[0]).buffer, lines[1..])
  }

  /** Each line of `lines`, preceded by a newline, concatenated in order. */
  function Joined(lines: seq<string>): (r: string)
    ensures lines != [] ==> |r| > 0 && r[0] == '\n'
    decreases |lines|
  {
    if lines == [] then "" else "\n" + lines[0] + Joined(lines[1..])
  }

  /** Every line, from `buffer` on, is ordinary source that compiles and
      runs to completion on the buffer it meets. */
  predicate AllSucceed(e: Engine, buffer: string, lines: seq<string>)
    decreases |lines|
  {
    lines == [] ||
    (!IsMeta(lines[0]) &&
     Submit(e, FormatCode(Candidate(buffer, lines[0]))).Finished? &&
     AllSucceed(e, Candidate(buffer, lines[0]), lines[1..]))
  }

  /** `xs` is `ys` with some elements dropped, order kept. */
  predicate Subsequence(xs: seq<string>, ys: seq<string>)
    decreases |ys|
  {
    xs == [] || (ys != [] &&
      ((xs[0] == ys[0] && Subsequence(xs[1..], ys[1..])) || Subsequence(xs, ys[1..])))
  }

  /** The lines of `lines` that the buffer took in, in order. */
  function Kept(e: Engine, buffer: string, lines: seq<string>): (k: seq<string>)
    ensures Subsequence(k, lines)
    ensures forall i :: 0 <= i < |k| ==> !IsMeta(k[i])
    decreases |lines|
  {
    if lines == [] then []
    else
      var rest := Kept(e, Step(e, buffer, lines[0]).buffer, lines[1..]);
      if !IsMeta(lines[0]) && Submit(e, FormatCode(Candidate(buffer, lines[0]))).Finished?
      then [lines[0]] + rest
      else rest
  }

  lemma {:induction false} JoinedCons(line: string, lines: seq<string>)
    ensures Joined([line] + lines) == "\n" + line + Joined(lines)
  {
  }

  /** Handling `xs` then `ys` is handling `xs + ys`. */
  lemma {:induction false} ReplayConcat(e: Engine, buffer: string, xs: seq<string>, ys: seq<string>)
    ensures Replay(e, buffer, xs + ys) == Replay(e, Replay(e, buffer, xs), ys)
    decreases |xs|
  {
    if xs == [] {
      assert xs + ys == ys;
    } else {
      assert (xs + ys)[1..] == xs[1..] + ys;
      ReplayConcat(e, Step(e, buffer, xs[0]).buffer, xs[1..], ys);
    }
  }

  /** After a run of lines that all succeed, the buffer is the starting
      buffer followed by a newline and each line, in order. */
  lemma {:induction false} SuccessesAppendInOrder(e: Engine, buffer: string, lines: seq<string>)
    requires AllSucceed(e, buffer, lines)
    ensures Replay(e, buffer, lines) == buffer + Joined(lines)
    decreases |lines|
  {
    if lines != [] {
      var next := Candidate(buffer, lines[0]);
      GrowsExactlyOnSuccess(e, buffer, lines[0]);
      SuccessesAppendInOrder(e, next, lines[1..]);
      assert buffer + Joined(lines) == next + Joined(lines[1..]);
    }
  }

  /** From an empty buffer, successful lines leave a leading newline. */
  lemma {:induction false} FromEmptyLeadingNewline(e: Engine, lines: seq<string>)
    requires lines != [] && AllSucceed(e, "", lines)
    ensures Replay(e, "", lines) == Joined(lines)
    ensures Replay(e, "", lines)[0] == '\n'
  {
    SuccessesAppendInOrder(e, "", lines);
    assert "" + Joined(lines) == Joined(lines);
  }

  /** Without `.clear`, the buffer is the starting buffer followed by exactly
      the kept lines; a line that was rejected or failed is not among them. */
  lemma {:induction false} NoClearKeepsExactlyAccepted(e: Engine, buffer: string, lines: seq<string>)
    requires forall i :: 0 <= i < |lines| ==> lines[i] != ".clear"
    ensures Replay(e, buffer, lines) == buffer + Joined(Kept(e, buffer, lines))
    decreases |lines|
  {
    if lines == [] {
      assert buffer + Joined([]) == buffer;
    } else {
      var line := lines[0];
      var next := Step(e, buffer, line).buffer;
      assert forall i :: 0 <= i < |lines[1..]| ==> lines[1..][i] != ".clear" by {
        forall i | 0 <= i < |lines[1..]| ensures lines[1..][i] != ".clear" {
          assert lines[1..][i] == lines[i + 1];
        }
      }
      NoClearKeepsExactlyAccepted(e, next, lines[1..]);
      var rest := Kept(e, next, lines[1..]);
      GrowsExactlyOnSuccess(e, buffer, line);
      if !IsMeta(line) && Submit(e, FormatCode(Candidate(buffer, line))).Finished? {
        JoinedCons(line, rest);
        assert buffer + Joined([line] + rest) == next + Joined(rest);
      } else {
        assert line != ".clear";
        assert next == buffer;
      }
    }
  }

  /** `.clear` forgets everything before it: the buffer after a run depends
      only on the lines after its last `.clear`. */
  lemma {:induction false} ClearForgetsHistory(e: Engine, buffer: string, before: seq<string>, after: seq<string>)
    ensures Replay(e, buffer, before + [".clear"] + after) == Replay(e, "", after)
  {
    ReplayConcat(e, buffer, before + [".clear"], after);
    ReplayConcat(e, buffer, before, [".clear"]);
    var mid := Replay(e, buffer, before);
    assert Replay(e, mid, [".clear"]) == Replay(e, Step(e, mid, ".clear").buffer, []);
  }

  /** A three-line session: `let x = 1`, then the invalid `x +`, then
      `x + 2`.  The invalid middle line is absent
      and the buffer keeps the leading newline of its first append. */
  lemma InvalidMiddleLineAbsent(e: Engine)
    requires Submit(e, FormatCode("\nlet x = 1")).Finished?
    requires e.load(FormatCode("\nlet x = 1\nx +")).LoadFailed?
    requires Submit(e, FormatCode("\nlet x = 1\nx + 2")).Finished?
    ensures Replay(e, "", ["let x = 1", "x +", "x + 2"]) == "\nlet x = 1\nx + 2"
  {
    var lines := ["let x = 1", "x +", "x + 2"];
    assert Candidate("", "let x = 1") == "\nlet x = 1";
    assert Candidate("\nlet x = 1", "x +") == "\nlet x = 1\nx +";
    assert Candidate("\nlet x = 1", "x + 2") == "\nlet x = 1\nx + 2";
    assert lines[1..] == ["x +", "x + 2"];
    assert lines[1..][1..] == ["x + 2"];
    assert Step(e, "", "let x = 1").buffer == "\nlet x = 1";
    assert Step(e, "\nlet x = 1", "x +").buffer == "\nlet x = 1";
    assert Step(e, "\nlet x = 1", "x + 2").buffer == "\nlet x = 1\nx + 2";
  }
}
