/**
 * build/lib/squidtools/workflow.py: `next_step_filename`, which names the
 * output of a pipeline step by inserting the step's name just before the
 * file's extension ("a.b.txt" with step "c" gives "a.b.c.txt").
 */
module Workflow {
  import opened Text

  /**
   * The name `next_step_filename(file, step)` returns; the `delimiter` argument
   * plays no part. The method below computes it step by step; the lemmas use this.
   */
  function NextStep(file: string, step: string): string {
    var parts := Split(file, '.');
    Join(parts[..|parts| - 1] + [step] + [parts[|parts| - 1]], ".")
  }

  /**
   * `next_step_filename(file, step, delimiter)`: split on '.', insert the
   * step before the last part (`parts.insert(-1, step)`), join with '.'.
   */
  method NextStepFilename(file: string, step: string, delimiter: string) returns (r: string)
    ensures r == NextStep(file, step)
  {
    var parts := Split(file, '.');
    parts := parts[..|parts| - 1] + [step] + [parts[|parts| - 1]];
    r := Join(parts, ".");
  }

  /** The text after the last '.' of `s`, or all of `s`: its extension. */
  function Extension(s: string): string {
    var parts := Split(s, '.');
    parts[|parts| - 1]
  }

  /**
   * With a step free of '.', the new name's parts are the file's parts with
   * the step inserted just before the last one.
   */
  lemma NextStepParts(file: string, step: string)
    requires '.' !in step
    ensures var parts := Split(file, '.');
            Split(NextStep(file, step), '.') == parts[..|parts| - 1] + [step] + [parts[|parts| - 1]]
  {
    var parts := Split(file, '.');
    var q := parts[..|parts| - 1] + [step] + [parts[|parts| - 1]];
    SplitPiecesFree(file, '.');
    assert forall k :: 0 <= k < |q| ==> q[k] == step || q[k] in parts;
    SplitJoin(q, '.');
  }

  /** The new name ends with '.' and the file's extension, whatever the step. */
  lemma ExtensionKept(file: string, step: string)
    ensures var r := NextStep(file, step);
            var ext := Extension(file);
            |r| > |ext| && r[|r| - |ext| - 1..] == "." + ext
  {
    var parts := Split(file, '.');
    var init := parts[..|parts| - 1] + [step];
    JoinAppend(init, parts[|parts| - 1], ".");
  }

  /** A file name without '.' gets the step and a '.' in front. */
  lemma NoExtension(file: string, step: string)
    requires '.' !in file
    ensures NextStep(file, step) == step + "." + file
  {
    SplitFree(file, '.');
    assert Split(file, '.')[..0] + [step] + [file] == [step, file];
    assert [step, file][1..] == [file];
    assert Join([step, file], ".") == step + "." + Join([file], ".");
  }

  /** With a step free of '.', the new name has exactly one '.' more than the file's. */
  lemma OneMoreDot(file: string, step: string)
    requires '.' !in step
    ensures Count(NextStep(file, step), '.') == Count(file, '.') + 1
  {
    NextStepParts(file, step);
    SplitCount(NextStep(file, step), '.');
    SplitCount(file, '.');
  }

  /** With a step free of '.', dropping the next-to-last part of the new name gives the file name back. */
  lemma StepRemovable(file: string, step: string)
    requires '.' !in step
    ensures var q := Split(NextStep(file, step), '.');
            |q| >= 2 && Join(q[..|q| - 2] + [q[|q| - 1]], ".") == file
  {
    var parts := Split(file, '.');
    NextStepParts(file, step);
    var q := Split(NextStep(file, step), '.');
    assert q[..|q| - 2] + [q[|q| - 1]] == parts[..|parts| - 1] + [parts[|parts| - 1]];
    assert parts[..|parts| - 1] + [parts[|parts| - 1]] == parts;
    JoinSplit(file, '.');
  }

  /** "a.b.txt" splits into "a", "b" and "txt". */
  lemma SplitExample()
    ensures Split("a.b.txt", '.') == ["a", "b", "txt"]
  {
    SplitFree("a", '.');
    SplitFree("b", '.');
    SplitFree("txt", '.');
    SplitAround("b", "txt", '.');
    assert "b" + ['.'] + "txt" == "b.txt";
    SplitAround("a", "b.txt", '.');
    assert "a" + ['.'] + "b.txt" == "a.b.txt";
  }

  /** The example of the source's comment: "a.b.txt" with step "c" gives "a.b.c.txt". */
  lemma CommentExample()
    ensures NextStep("a.b.txt", "c") == "a.b.c.txt"
  {
    SplitExample();
    var parts := Split("a.b.txt", '.');
    assert parts[..|parts| - 1] + ["c"] + [parts[|parts| - 1]] == ["a", "b", "c", "txt"];
    assert Join(["a", "b", "c", "txt"], ".") == "a" + "." + ("b" + "." + ("c" + "." + "txt"));
    assert "a" + "." + ("b" + "." + ("c" + "." + "txt")) == "a.b.c.txt";
  }
}
