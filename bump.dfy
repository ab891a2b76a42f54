/**
 * The `bump` command of the `xtask` tool: how the requested version change is read,
 * and how one `Cargo.toml` is rewritten line by line so that the crate's own
 * `version =` line and its dependencies on the other published crates carry the
 * next version. The file is read as a string and written back as a string.
 */
module Bump {
  import opened Wrappers
  import opened Strings

  /** The version change asked for on the command line. */
  datatype Bump = Major | Minor | Patch | Custom(version: string)

  /** `Bump::from_str`: the three keywords, exactly as spelled; anything else is a version. */
  function ParseBump(s: string): (r: Result<Bump, string>)
    ensures r.Ok?
    ensures r.value == Major <==> s == "major"
    ensures r.value == Minor <==> s == "minor"
    ensures r.value == Patch <==> s == "patch"
    ensures r.value.Custom? ==> r.value.version == s
  {
    Ok(match s
      case "major" => Major
      case "minor" => Minor
      case "patch" => Patch
      case _ => Custom(s))
  }

  /** A crate of the workspace: its package name, manifest path, version and `publish` flag. */
  datatype Crate = Crate(name: string, path: string, version: string, publish: bool)

  const VERSION_KEY: string := "version ="
  const SECTION_START: string := "["
  const DEPENDENCIES: string := "dependencies"

  /** The panic of a dependency line that names a version key but not the crate's version. */
  function DependencyPanic(path: string, other: Crate): string {
    "\"" + path + "\" has a dependency on " + other.name + " but doesn't list version " + other.version
  }

  /** The line declares a dependency on `other` and lists its version. */
  predicate Listed(line: string, other: Crate) {
    StartsWith(line, other.name + " ") && Contains(line, other.version)
  }

  /** The line declares a dependency on `other` with a version key but not its version. */
  predicate Unlisted(line: string, other: Crate) {
    StartsWith(line, other.name + " ") && !Contains(line, other.version) && Contains(line, VERSION_KEY)
  }

  /** The inner loop passes `other` by with `continue`. */
  predicate Skipped(line: string, other: Crate) {
    !Listed(line, other) && !Unlisted(line, other)
  }

  /**
   * The inner loop over `crates` on a line of a dependencies section: the first crate
   * the line lists rewrites it, a crate whose version is missing although the line has
   * a version key panics, and `None` when every crate is passed by.
   */
  function Dependency(path: string, crates: seq<Crate>, line: string, next: string): Outcome<Option<string>>
    decreases |crates|
  {
    if crates == [] then Done(None)
    else
      var other := crates[0];
      if !StartsWith(line, other.name + " ") then Dependency(path, crates[1..], line, next)
      else if !Contains(line, other.version) then
        if !Contains(line, VERSION_KEY) then Dependency(path, crates[1..], line, next)
        else Panic(DependencyPanic(path, other))
      else Done(Some(ReplaceAll(line, other.version, next)))
  }

  /** The inner loop passes every crate by exactly when it yields `None`. */
  lemma {:induction false} DependencyNone(path: string, crates: seq<Crate>, line: string, next: string)
    ensures Dependency(path, crates, line, next) == Done(None) <==>
            forall i :: 0 <= i < |crates| ==> Skipped(line, crates[i])
    decreases |crates|
  {
    if crates != [] {
      var rest := crates[1..];
      DependencyNone(path, rest, line, next);
      if Skipped(line, crates[0]) {
        assert forall i :: 1 <= i < |crates| ==> crates[i] == rest[i - 1];
      }
    }
  }

  /** A rewritten line is rewritten for the first crate it lists, all crates before it passed by. */
  lemma {:induction false} DependencyRewrites(path: string, crates: seq<Crate>, line: string, next: string)
    requires Dependency(path, crates, line, next).Done? && Dependency(path, crates, line, next).value.Some?
    ensures exists i :: 0 <= i < |crates| && Listed(line, crates[i]) &&
              (forall j :: 0 <= j < i ==> Skipped(line, crates[j])) &&
              Dependency(path, crates, line, next).value.value == ReplaceAll(line, crates[i].version, next)
    decreases |crates|
  {
    var rest := crates[1..];
    if Skipped(line, crates[0]) {
      DependencyRewrites(path, rest, line, next);
      var i :| 0 <= i < |rest| && Listed(line, rest[i]) && (forall j :: 0 <= j < i ==> Skipped(line, rest[j]))
               && Dependency(path, rest, line, next).value.value == ReplaceAll(line, rest[i].version, next);
      assert forall j :: 1 <= j < |crates| ==> crates[j] == rest[j - 1];
      assert Listed(line, crates[i + 1]);
    } else {
      assert Listed(line, crates[0]);
    }
  }

  /** A panic comes from the first crate the line names without its version, all crates before it passed by. */
  lemma {:induction false} DependencyPanics(path: string, crates: seq<Crate>, line: string, next: string)
    requires Dependency(path, crates, line, next).Panic?
    ensures exists i :: 0 <= i < |crates| && Unlisted(line, crates[i]) &&
              (forall j :: 0 <= j < i ==> Skipped(line, crates[j])) &&
              Dependency(path, crates, line, next).message == DependencyPanic(path, crates[i])
    decreases |crates|
  {
    var rest := crates[1..];
    if Skipped(line, crates[0]) {
      DependencyPanics(path, rest, line, next);
      var i :| 0 <= i < |rest| && Unlisted(line, rest[i]) && (forall j :: 0 <= j < i ==> Skipped(line, rest[j]))
               && Dependency(path, rest, line, next).message == DependencyPanic(path, rest[i]);
      assert forall j :: 1 <= j < |crates| ==> crates[j] == rest[j - 1];
      assert Unlisted(line, crates[i + 1]);
    } else {
      assert Unlisted(line, crates[0]);
    }
  }

  /** What one line becomes, and the section flag after it. */
  datatype LineStep = LineStep(output: string, reading: bool)

  /**
   * One iteration of the outer loop of `update_version`, on a line read while the
   * section flag was `reading`: the top-level `version =` line gets the crate's own
   * version replaced, a section header sets the flag, a dependency line inside a
   * dependencies section goes through the inner loop, and any line not rewritten is
   * kept as it is.
   */
  function Step(krate: Crate, crates: seq<Crate>, next: string, reading: bool, line: string): (r: Outcome<LineStep>)
    ensures r.Done? ==> r.value.reading == if StartsWith(line, SECTION_START) then Contains(line, DEPENDENCIES) else reading
  {
    var top := !reading && StartsWith(line, VERSION_KEY);
    var pushed := if top then ReplaceAll(line, krate.version, next) else "";
    var reading' := if StartsWith(line, SECTION_START) then Contains(line, DEPENDENCIES) else reading;
    var dependency := if reading' then Dependency(krate.path, crates, line, next) else Done(None);
    match dependency
    case Panic(m) => Panic(m)
    case Done(d) =>
      var pushed' := if d.Some? then pushed + d.value else pushed;
      Done(LineStep(if top || d.Some? then pushed' else line, reading'))
  }

  /** A top-level `version =` line has the crate's own version replaced by the next one. */
  lemma StepTopLevel(krate: Crate, crates: seq<Crate>, next: string, line: string)
    requires StartsWith(line, VERSION_KEY)
    ensures Step(krate, crates, next, false, line) == Done(LineStep(ReplaceAll(line, krate.version, next), false))
  {
    assert line[0] == VERSION_KEY[0];
    assert !StartsWith(line, SECTION_START);
  }

  /**
   * Inside a dependencies section, a line is rewritten, left alone or panics as the
   * inner loop decides; the line is not a top-level version line there.
   */
  lemma StepDependency(krate: Crate, crates: seq<Crate>, next: string, reading: bool, line: string)
    requires if StartsWith(line, SECTION_START) then Contains(line, DEPENDENCIES) else reading
    ensures match Dependency(krate.path, crates, line, next)
      case Panic(m) => Step(krate, crates, next, reading, line) == Panic(m)
      case Done(None) => Step(krate, crates, next, reading, line) == Done(LineStep(line, true))
      case Done(Some(s)) => Step(krate, crates, next, reading, line) == Done(LineStep(s, true))
  {
    if StartsWith(line, VERSION_KEY) {
      assert line[0] == VERSION_KEY[0];
      assert !StartsWith(line, SECTION_START);
    }
    var d := Dependency(krate.path, crates, line, next);
    if d.Done? && d.value.Some? {
      assert "" + d.value.value == d.value.value;
    }
  }

  /** Outside a dependencies section, every line but a top-level version line is copied unchanged. */
  lemma StepCopies(krate: Crate, crates: seq<Crate>, next: string, reading: bool, line: string)
    requires !(if StartsWith(line, SECTION_START) then Contains(line, DEPENDENCIES) else reading)
    requires !(!reading && StartsWith(line, VERSION_KEY))
    ensures Step(krate, crates, next, reading, line) == Done(LineStep(line, false))
  {
  }

  /** No output line contains a newline when neither the line nor the next version does. */
  lemma StepOneLine(krate: Crate, crates: seq<Crate>, next: string, reading: bool, line: string)
    requires '\n' !in line && '\n' !in next
    requires Step(krate, crates, next, reading, line).Done?
    ensures '\n' !in Step(krate, crates, next, reading, line).value.output
  {
    var reading' := if StartsWith(line, SECTION_START) then Contains(line, DEPENDENCIES) else reading;
    if reading' {
      StepDependency(krate, crates, next, reading, line);
      var d := Dependency(krate.path, crates, line, next);
      if d.value.Some? {
        DependencyRewrites(krate.path, crates, line, next);
        var i :| 0 <= i < |crates| && d.value.value == ReplaceAll(line, crates[i].version, next);
        ReplaceKeepsOut(line, crates[i].version, next, '\n');
      }
    } else if !reading && StartsWith(line, VERSION_KEY) {
      ReplaceKeepsOut(line, krate.version, next, '\n');
    }
  }

  /** The text written so far and the section flag. */
  datatype Progress = Progress(text: string, reading: bool)

  /** The outer loop from `p` over `lines`: each line's output followed by `"\n"`, stopping at a panic. */
  function Run(krate: Crate, crates: seq<Crate>, next: string, p: Progress, lines: seq<string>): Outcome<Progress>
    decreases |lines|
  {
    if lines == [] then Done(p)
    else match Step(krate, crates, next, p.reading, lines[0])
      case Panic(m) => Panic(m)
      case Done(s) => Run(krate, crates, next, Progress(p.text + s.output + "\n", s.reading), lines[1..])
  }

  /**
   * The loop emits exactly one `"\n"`-terminated line per input line: what was written
   * is kept, and one newline is added per line.
   */
  lemma {:induction false} RunOneLineEach(krate: Crate, crates: seq<Crate>, next: string, p: Progress, lines: seq<string>)
    requires '\n' !in next && forall i :: 0 <= i < |lines| ==> '\n' !in lines[i]
    requires Run(krate, crates, next, p, lines).Done?
    ensures StartsWith(Run(krate, crates, next, p, lines).value.text, p.text)
    ensures Occurrences(Run(krate, crates, next, p, lines).value.text, '\n') == Occurrences(p.text, '\n') + |lines|
    ensures lines != [] ==> Run(krate, crates, next, p, lines).value.text[|Run(krate, crates, next, p, lines).value.text| - 1] == '\n'
    decreases |lines|
  {
    if lines != [] {
      var s := Step(krate, crates, next, p.reading, lines[0]).value;
      StepOneLine(krate, crates, next, p.reading, lines[0]);
      var p' := Progress(p.text + s.output + "\n", s.reading);
      AppendLine(p.text, s.output);
      assert forall i :: 0 <= i < |lines[1..]| ==> '\n' !in lines[1..][i];
      assert Run(krate, crates, next, p, lines) == Run(krate, crates, next, p', lines[1..]);
      RunOneLineEach(krate, crates, next, p', lines[1..]);
      var t := Run(krate, crates, next, p', lines[1..]).value.text;
      assert t[..|p.text|] == p'.text[..|p.text|];
    }
  }

  /** Appending one output line and its `"\n"` adds exactly one newline at the end. */
  lemma AppendLine(text: string, output: string)
    requires '\n' !in output
    ensures StartsWith(text + output + "\n", text)
    ensures Occurrences(text + output + "\n", '\n') == Occurrences(text, '\n') + 1
    ensures (text + output + "\n")[|text + output + "\n"| - 1] == '\n'
  {
    assert text + output + "\n" == text + (output + "\n");
    assert (text + output + "\n")[..|text|] == text;
    OccurrencesAppend(text, output + "\n", '\n');
    OccurrencesAppend(output, "\n", '\n');
    OccurrencesAbsent(output, '\n');
    assert Occurrences("\n", '\n') == 1;
  }

  /**
   * What `update_version` does to one manifest: the rewrite of all its lines from an
   * empty text outside any section, written back unless `dry_run`; a panic of the inner
   * loop stops it.
   */
  function UpdateVersionResult(krate: Crate, crates: seq<Crate>, next: string, dryRun: bool, contents: string): Outcome<Option<string>> {
    match Run(krate, crates, next, Progress("", false), Lines(contents))
    case Panic(m) => Panic(m)
    case Done(p) => Done(if dryRun then None else Some(p.text))
  }

  /** A dry run writes nothing. */
  lemma DryRunWritesNothing(krate: Crate, crates: seq<Crate>, next: string, contents: string)
    ensures UpdateVersionResult(krate, crates, next, true, contents).Done? ==>
            UpdateVersionResult(krate, crates, next, true, contents).value.None?
  {
  }

  /** The written text has one `"\n"`-terminated line per line of the manifest. */
  lemma WrittenLineCount(krate: Crate, crates: seq<Crate>, next: string, contents: string)
    requires '\n' !in next
    requires UpdateVersionResult(krate, crates, next, false, contents).Done?
    ensures var t := UpdateVersionResult(krate, crates, next, false, contents).value.value;
            Occurrences(t, '\n') == |Lines(contents)| && (t == [] || t[|t| - 1] == '\n')
  {
    var lines := Lines(contents);
    RunOneLineEach(krate, crates, next, Progress("", false), lines);
    if lines == [] {
      assert Run(krate, crates, next, Progress("", false), lines).value.text == "";
    }
  }

  /**
   * The inner loop of `update_version` over the workspace crates, on a line read with
   * section flag `reading`: every crate is passed by outside a dependencies section;
   * inside, the loop stops at the first crate the line lists, with the rewritten line,
   * or panics at a crate whose version is missing from a line with a version key.
   */
  method DependencyLoop(path: string, crates: seq<Crate>, line: string, next: string, reading: bool)
    returns (r: Outcome<Option<string>>)
    ensures r == if reading then Dependency(path, crates, line, next) else Done(None)
  {
    var i := 0;
    while i < |crates|
      invariant 0 <= i <= |crates|
      invariant reading ==> Dependency(path, crates, line, next) == Dependency(path, crates[i..], line, next)
    {
      var other := crates[i];
      assert crates[i..][0] == other && crates[i..][1..] == crates[i + 1..];
      if !reading || !StartsWith(line, other.name + " ") {
        i := i + 1;
        continue;
      }
      if !Contains(line, other.version) {
        if !Contains(line, VERSION_KEY) {
          i := i + 1;
          continue;
        }
        return Panic(DependencyPanic(path, other));
      }
      return Done(Some(ReplaceAll(line, other.version, next)));
    }
    assert crates[i..] == [];
    return Done(None);
  }

  /**
   * The body of the outer loop of `update_version` on one line: what it pushes onto
   * the new contents before the `"\n"`, and the section flag after the line.
   */
  method RewriteLine(krate: Crate, crates: seq<Crate>, next: string, reading: bool, line: string)
    returns (r: Outcome<LineStep>)
    ensures r == Step(krate, crates, next, reading, line)
  {
    var pushed := "";
    var rewritten := false;
    if !reading && StartsWith(line, VERSION_KEY) {
      assert "" + ReplaceAll(line, krate.version, next) == ReplaceAll(line, krate.version, next);
      pushed := pushed + ReplaceAll(line, krate.version, next);
      rewritten := true;
    }
    var readingDependencies := if StartsWith(line, SECTION_START) then Contains(line, DEPENDENCIES) else reading;
    var dependency := DependencyLoop(krate.path, crates, line, next, readingDependencies);
    match dependency {
      case Panic(m) =>
        return Panic(m);
      case Done(d) =>
        if d.Some? {
          rewritten := true;
          pushed := pushed + d.value;
        }
    }
    if !rewritten {
      pushed := pushed + line;
    }
    assert "" + line == line;
    return Done(LineStep(pushed, readingDependencies));
  }

  /**
   * `update_version`: the outer loop over the manifest's lines, and the write unless
   * `dry_run`.
   */
  method UpdateVersion(krate: Crate, crates: seq<Crate>, next: string, dryRun: bool, contents: string)
    returns (r: Outcome<Option<string>>)
    ensures r == UpdateVersionResult(krate, crates, next, dryRun, contents)
  {
    var lines := Lines(contents);
    var newContents := "";
    var readingDependencies := false;
    for k := 0 to |lines|
      invariant Run(krate, crates, next, Progress(newContents, readingDependencies), lines[k..])
             == Run(krate, crates, next, Progress("", false), lines)
    {
      assert lines[k..][0] == lines[k] && lines[k..][1..] == lines[k + 1..];
      var step := RewriteLine(krate, crates, next, readingDependencies, lines[k]);
      match step {
        case Panic(m) =>
          return Panic(m);
        case Done(s) =>
          newContents := newContents + s.output + "\n";
          readingDependencies := s.reading;
      }
    }
    assert lines[|lines|..] == [];
    if dryRun {
      return Done(None);
    }
    return Done(Some(newContents));
  }
}
