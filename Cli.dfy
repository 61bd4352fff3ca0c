/**
 * The input rules of `Application.call`: the validation of the paths to
 * analyse (which fills `filePaths` and `topLevel`), and the reading of the
 * include file, one include path per line.
 *
 * The file system is not modelled: a file is the record of what `File`
 * reports about an already absolute, normalised path, and `Paths.get(a, b)`
 * is the function parameter `join`.
 */
module Cli {

  import opened Wrappers

  /**
   * What `java.io.File` reports about one path: `present` is `exists()`, `hidden` is
   * `isHidden`, `parent` is the path of `parentFile`, None when that is null.
   */
  datatype FileInfo = FileInfo(path: string, present: bool, hidden: bool, isDirectory: bool, parent: Option<string>)

  /** The exceptions `call` can throw in the parts modelled here. */
  datatype CliError =
    | IllegalArgument(message: string)   // from `require`
    | NullPointer                         // a null `parentFile` dereferenced, or `topLevel!!`
    | IndexOutOfBounds                    // `it[0]` on an empty line
    | FileNotFound                        // `inputStream()` on a missing include file

  /** The state `call` goes on with after the loop: the `filePaths` array and `topLevel`. */
  datatype Validated = Validated(filePaths: seq<FileInfo>, topLevel: string)

  const CorrectPathMessage: string := "Please use a correct path. It was: "
  const SameTopLevelMessage: string := "All files should have the same top level path."

  /** What the first file makes the top level: itself if it is a directory, else its parent. */
  function TopLevelOf(f: FileInfo): Option<string> {
    if f.isDirectory then Some(f.path) else f.parent
  }

  /** The value of `topLevel` after the loop has accepted the first i files. */
  function TopLevelAfter(files: seq<FileInfo>, i: nat): Option<string>
    requires i <= |files|
  {
    if i == 0 then None
    else
      var t := TopLevelAfter(files, i - 1);
      if t.None? then TopLevelOf(files[i - 1]) else t
  }

  /** The exception one iteration throws for file `f` when `topLevel` holds `topLevel`, if any. */
  function FileCheck(f: FileInfo, topLevel: Option<string>): Option<CliError> {
    if !f.present || f.hidden then Some(IllegalArgument(CorrectPathMessage + f.path))
    else if topLevel.None? then None
    else if f.parent.None? then Some(NullPointer)
    else if topLevel.value != f.parent.value then Some(IllegalArgument(SameTopLevelMessage))
    else None
  }

  /** The loop's k-th iteration accepts its file. */
  predicate PassesAt(files: seq<FileInfo>, k: nat)
    requires k < |files|
  {
    FileCheck(files[k], TopLevelAfter(files, k)).None?
  }

  /** The index of the first file the loop rejects, |files| when it rejects none. */
  function FirstRejectedFile(files: seq<FileInfo>, from: nat): (p: nat)
    requires from <= |files|
    ensures from <= p <= |files|
    ensures forall k :: from <= k < p ==> PassesAt(files, k)
    ensures p < |files| ==> !PassesAt(files, p)
    decreases |files| - from
  {
    if from == |files| || !PassesAt(files, from) then from
    else FirstRejectedFile(files, from + 1)
  }

  /** The outcome of the validation loop and of `topLevel!!`. */
  function Validation(files: seq<FileInfo>): Result<Validated, CliError> {
    var p := FirstRejectedFile(files, 0);
    if p < |files| then Err(FileCheck(files[p], TopLevelAfter(files, p)).value)
    else if TopLevelAfter(files, |files|).None? then Err(NullPointer)
    else Ok(Validated(files, TopLevelAfter(files, |files|).value))
  }

  /** The first file the loop rejects decides the exception. */
  lemma RejectedAt(files: seq<FileInfo>, i: nat, error: CliError)
    requires i < |files| && FirstRejectedFile(files, 0) >= i
    requires FileCheck(files[i], TopLevelAfter(files, i)) == Some(error)
    ensures Validation(files) == Err(error)
  {
    assert !PassesAt(files, i);
  }

  /** The values of a sequence of Somes: `filePaths` once the loop has filled every slot. */
  function Unwrapped<T>(s: seq<Option<T>>): (r: seq<T>)
    requires forall i :: 0 <= i < |s| ==> s[i].Some?
    ensures |r| == |s| && forall i :: 0 <= i < |s| ==> s[i] == Some(r[i])
  {
    seq(|s|, i requires 0 <= i < |s| => s[i].value)
  }

  lemma UnwrappedFilled<T>(s: seq<Option<T>>, values: seq<T>)
    requires |s| == |values| && forall i :: 0 <= i < |s| ==> s[i] == Some(values[i])
    ensures Unwrapped(s) == values
  {
  }

  /** A file the loop accepts moves the first rejection past it. */
  lemma AcceptedAt(files: seq<FileInfo>, i: nat)
    requires i < |files| && FirstRejectedFile(files, 0) >= i
    requires FileCheck(files[i], TopLevelAfter(files, i)).None?
    ensures FirstRejectedFile(files, 0) >= i + 1
    ensures TopLevelAfter(files, i + 1) ==
      if TopLevelAfter(files, i).None? then TopLevelOf(files[i]) else TopLevelAfter(files, i)
  {
  }

  /** When the loop accepts every file, `topLevel!!` decides the outcome. */
  lemma AcceptedAll(files: seq<FileInfo>)
    requires FirstRejectedFile(files, 0) >= |files|
    ensures Validation(files) ==
      if TopLevelAfter(files, |files|).None? then Err(NullPointer)
      else Ok(Validated(files, TopLevelAfter(files, |files|).value))
  {
  }

  /**
   * The loop of `call` over `files`: every path must exist and not be hidden;
   * the first file fixes `topLevel`, every later file's parent must equal it;
   * `filePaths[index]` receives the index-th file. `topLevel!!` follows.
   */
  method ValidatePaths(files: seq<FileInfo>) returns (r: Result<Validated, CliError>)
    ensures r == Validation(files)
  {
    var filePaths := new Option<FileInfo>[|files|](_ => None);
    var topLevel: Option<string> := None;
    for index := 0 to |files|
      invariant topLevel == TopLevelAfter(files, index)
      invariant FirstRejectedFile(files, 0) >= index
      invariant filePaths.Length == |files|
      invariant forall k :: 0 <= k < index ==> filePaths[k] == Some(files[k])
    {
      var file := files[index];
      var failure: Option<CliError> := None;
      if !file.present || file.hidden {
        failure := Some(IllegalArgument(CorrectPathMessage + file.path));
      } else if topLevel.None? {
        topLevel := if file.isDirectory then Some(file.path) else file.parent;
      } else if file.parent.None? {
        failure := Some(NullPointer);
      } else if topLevel.value != file.parent.value {
        failure := Some(IllegalArgument(SameTopLevelMessage));
      }
      if failure.Some? {
        RejectedAt(files, index, failure.value);
        return Err(failure.value);
      }
      AcceptedAt(files, index);
      filePaths[index] := Some(file);
    }
    AcceptedAll(files);
    if topLevel.None? {
      return Err(NullPointer);
    }
    var accepted := Unwrapped(filePaths[..]);
    assert accepted == files by {
      UnwrappedFilled(filePaths[..], files);
    }
    return Ok(Validated(accepted, topLevel.value));
  }

  /**
   * The loop accepts exactly when every file exists and is not hidden, every
   * file met after `topLevel` was set has that top level as its parent, and
   * some file set `topLevel`; then `filePaths` holds the files in order.
   */
  lemma ValidationAccepts(files: seq<FileInfo>)
    ensures Validation(files).Ok? <==>
      && (forall i :: 0 <= i < |files| ==> files[i].present && !files[i].hidden)
      && (forall i :: 0 <= i < |files| && TopLevelAfter(files, i).Some? ==> files[i].parent == TopLevelAfter(files, i))
      && TopLevelAfter(files, |files|).Some?
    ensures Validation(files).Ok? ==>
      Validation(files).value.filePaths == files && Some(Validation(files).value.topLevel) == TopLevelAfter(files, |files|)
  {
    var p := FirstRejectedFile(files, 0);
    if p < |files| {
      assert !PassesAt(files, p);
    } else {
      forall i | 0 <= i < |files|
        ensures files[i].present && !files[i].hidden
        ensures TopLevelAfter(files, i).Some? ==> files[i].parent == TopLevelAfter(files, i)
      {
        assert PassesAt(files, i);
      }
    }
  }

  /** Once the first file has given a top level, no later file changes it. */
  lemma {:induction false} TopLevelFixedByFirstFile(files: seq<FileInfo>, i: nat)
    requires 1 <= i <= |files| && TopLevelOf(files[0]).Some?
    ensures TopLevelAfter(files, i) == TopLevelOf(files[0])
  {
    if i > 1 {
      TopLevelFixedByFirstFile(files, i - 1);
    }
  }

  /**
   * When the first file is a directory or has a parent, that is the top level
   * `call` goes on with, and every later file was checked to lie directly in it.
   */
  lemma ValidatedSameTopLevel(files: seq<FileInfo>)
    requires files != [] && TopLevelOf(files[0]).Some?
    requires Validation(files).Ok?
    ensures Some(Validation(files).value.topLevel) == TopLevelOf(files[0])
    ensures forall i :: 1 <= i < |files| ==> files[i].parent == Some(Validation(files).value.topLevel)
  {
    ValidationAccepts(files);
    forall i | 1 <= i <= |files| ensures TopLevelAfter(files, i) == TopLevelOf(files[0]) {
      TopLevelFixedByFirstFile(files, i);
    }
  }

  /** A missing or hidden path is rejected with the message that names it, unless an earlier file was rejected first. */
  lemma UnusablePathRejected(files: seq<FileInfo>, i: nat)
    requires i < |files| && (!files[i].present || files[i].hidden)
    requires forall k :: 0 <= k < i ==> PassesAt(files, k)
    ensures Validation(files) == Err(IllegalArgument(CorrectPathMessage + files[i].path))
  {
    assert !PassesAt(files, i);
  }

  /**
   * A later file whose parent differs from the top level set before it is
   * rejected with "All files should have the same top level path.", unless an
   * earlier file was rejected first.
   */
  lemma MismatchedParentRejected(files: seq<FileInfo>, i: nat)
    requires i < |files| && files[i].present && !files[i].hidden
    requires TopLevelAfter(files, i).Some?
    requires files[i].parent.Some? && files[i].parent != TopLevelAfter(files, i)
    requires forall k :: 0 <= k < i ==> PassesAt(files, k)
    ensures Validation(files) == Err(IllegalArgument(SameTopLevelMessage))
  {
    assert !PassesAt(files, i);
  }

  /**
   * A later file without a parent dereferences a null `parentFile` in the
   * comparison with the top level: a NullPointerException, unless an earlier
   * file was rejected first.
   */
  lemma MissingParentRejected(files: seq<FileInfo>, i: nat)
    requires i < |files| && files[i].present && !files[i].hidden
    requires TopLevelAfter(files, i).Some? && files[i].parent.None?
    requires forall k :: 0 <= k < i ==> PassesAt(files, k)
    ensures Validation(files) == Err(NullPointer)
  {
    assert !PassesAt(files, i);
  }

  /** An existing, visible directory is accepted and becomes the top level itself. */
  lemma DirectoryAccepted(d: FileInfo)
    requires d.present && !d.hidden && d.isDirectory
    ensures Validation([d]) == Ok(Validated([d], d.path))
  {
    assert PassesAt([d], 0);
  }

  /** With no path at all the loop does nothing and `topLevel!!` throws a NullPointerException. */
  lemma NoPathsNullPointer()
    ensures Validation([]) == Err(NullPointer)
  {
  }

  // ----- the include file -----

  /** `Character.isWhitespace`: the characters `String.strip` removes. */
  predicate IsWhitespace(c: char) {
    || c == ' ' || '\t' <= c <= '\r' || '\U{1C}' <= c <= '\U{1F}'
    || c == '\U{1680}' || ('\U{2000}' <= c <= '\U{200A}' && c != '\U{2007}')
    || c == '\U{2028}' || c == '\U{2029}' || c == '\U{205F}' || c == '\U{3000}'
  }

  /** `s` without its leading whitespace. */
  function StripLeading(s: string): (r: string)
    ensures |r| <= |s|
  {
    if s != [] && IsWhitespace(s[0]) then StripLeading(s[1..]) else s
  }

  /** `s` without its trailing whitespace. */
  function StripTrailing(s: string): (r: string)
    ensures |r| <= |s|
  {
    if s != [] && IsWhitespace(s[|s| - 1]) then StripTrailing(s[..|s| - 1]) else s
  }

  /** Stripping the front removes exactly the whitespace before the first other character. */
  lemma {:induction false} StripLeadingRemovesWhitespace(s: string)
    ensures var r := StripLeading(s);
      && |r| <= |s| && r == s[|s| - |r|..]
      && (forall k :: 0 <= k < |s| - |r| ==> IsWhitespace(s[k]))
      && (r != [] ==> !IsWhitespace(r[0]))
  {
    if s != [] && IsWhitespace(s[0]) {
      StripLeadingRemovesWhitespace(s[1..]);
    }
  }

  /** Stripping the back removes exactly the whitespace after the last other character. */
  lemma {:induction false} StripTrailingRemovesWhitespace(s: string)
    ensures var r := StripTrailing(s);
      && |r| <= |s| && r == s[..|r|]
      && (forall k :: |r| <= k < |s| ==> IsWhitespace(s[k]))
      && (r != [] ==> !IsWhitespace(r[|r| - 1]))
  {
    if s != [] && IsWhitespace(s[|s| - 1]) {
      StripTrailingRemovesWhitespace(s[..|s| - 1]);
    }
  }

  /** `String.strip`: the part of `s` between its leading and its trailing whitespace. */
  function Strip(s: string): string {
    StripTrailing(StripLeading(s))
  }

  /**
   * What `strip` leaves is the contiguous part of the line that starts right
   * after its leading whitespace.
   */
  lemma StripInfix(s: string)
    ensures var i := |s| - |StripLeading(s)|; i + |Strip(s)| <= |s| && Strip(s) == s[i..i + |Strip(s)|]
  {
    var l := StripLeading(s);
    StripLeadingRemovesWhitespace(s);
    StripTrailingRemovesWhitespace(l);
    var i := |s| - |l|;
    assert l == s[i..];
    assert Strip(s) == l[..|Strip(s)|];
  }

  /** What `strip` leaves neither starts nor ends with whitespace. */
  lemma StripEnds(s: string)
    ensures Strip(s) != [] ==> !IsWhitespace(Strip(s)[0]) && !IsWhitespace(Strip(s)[|Strip(s)| - 1])
  {
    var l := StripLeading(s);
    var r := StripTrailing(l);
    StripLeadingRemovesWhitespace(s);
    StripTrailingRemovesWhitespace(l);
    if r != [] {
      assert r[0] == l[0];
    }
  }

  /** Stripping twice strips nothing more. */
  lemma StripIdempotent(s: string)
    ensures Strip(Strip(s)) == Strip(s)
  {
    StripEnds(s);
    var r := Strip(s);
    StripTrailingRemovesWhitespace(r);
    assert StripLeading(r) == r;
    assert StripTrailing(r) == r;
  }

  /** Whitespace in front of a line does not change what `strip` makes of it. */
  lemma {:induction false} StripIgnoresLeadingWhitespace(w: string, s: string)
    requires forall k :: 0 <= k < |w| ==> IsWhitespace(w[k])
    ensures Strip(w + s) == Strip(s)
    decreases |w|
  {
    if w == [] {
      assert w + s == s;
    } else {
      assert (w + s)[0] == w[0];
      assert (w + s)[1..] == w[1..] + s;
      assert StripLeading(w + s) == StripLeading(w[1..] + s);
      StripIgnoresLeadingWhitespace(w[1..], s);
    }
  }

  /**
   * One line of the include file: a line whose first character is `/` adds
   * the stripped line itself, any other line the stripped line joined to the
   * include file's directory; `it[0]` fails on an empty line.
   */
  function ResolveIncludeLine(line: string, baseDir: string, join: (string, string) -> string): (r: Result<string, CliError>)
    ensures r.Err? <==> line == []
  {
    if line == [] then Err(IndexOutOfBounds)
    else if line[0] == '/' then Ok(Strip(line))
    else Ok(join(baseDir, Strip(line)))
  }

  /**
   * A line that starts with `/` is taken as an absolute path: stripped, it is
   * added as it is, still starting with `/`, and without the base directory.
   */
  lemma AbsoluteLineStaysAbsolute(line: string, baseDir: string, join: (string, string) -> string)
    requires line != [] && line[0] == '/'
    ensures ResolveIncludeLine(line, baseDir, join) == Ok(Strip(line))
    ensures Strip(line) != [] && Strip(line)[0] == '/'
  {
    assert StripLeading(line) == line;
    var r := StripTrailing(line);
    StripTrailingRemovesWhitespace(line);
    assert r[0] == line[0];
  }

  /**
   * The test looks at the unstripped line: a line with whitespace in front of
   * an absolute path is joined to the base directory like a relative one.
   */
  lemma IndentedAbsoluteLineIsJoined(w: string, path: string, baseDir: string, join: (string, string) -> string)
    requires w != [] && forall k :: 0 <= k < |w| ==> IsWhitespace(w[k])
    requires path != [] && path[0] == '/'
    ensures ResolveIncludeLine(w + path, baseDir, join) == Ok(join(baseDir, Strip(path)))
    ensures Strip(path) != [] && Strip(path)[0] == '/'
  {
    StripIgnoresLeadingWhitespace(w, path);
    assert (w + path)[0] == w[0];
    AbsoluteLineStaysAbsolute(path, baseDir, join);
  }

  /** The directory relative lines are resolved against: the include file's parent, or "" when it has none. */
  function BaseDir(includesFile: FileInfo): (dir: string)
    ensures includesFile.parent.Some? ==> dir == includesFile.parent.value
    ensures includesFile.parent.None? ==> dir == ""
  {
    match includesFile.parent
    case Some(parent) => parent
    case None => ""
  }

  /** The index of the first empty line, |lines| when there is none. */
  function FirstEmptyLine(lines: seq<string>): (p: nat)
    ensures p <= |lines|
    ensures forall k :: 0 <= k < p ==> lines[k] != []
    ensures p < |lines| ==> lines[p] == []
  {
    if lines == [] || lines[0] == [] then 0 else 1 + FirstEmptyLine(lines[1..])
  }

  /** The include paths that a run of non-empty lines adds, line by line. */
  function IncludePaths(lines: seq<string>, baseDir: string, join: (string, string) -> string): seq<string>
    requires forall k :: 0 <= k < |lines| ==> lines[k] != []
  {
    seq(|lines|, k requires 0 <= k < |lines| => ResolveIncludeLine(lines[k], baseDir, join).value)
  }

  /** One more line adds its own include path at the end. */
  lemma IncludePathsStep(lines: seq<string>, i: nat, baseDir: string, join: (string, string) -> string)
    requires i < |lines| && forall k :: 0 <= k <= i ==> lines[k] != []
    ensures IncludePaths(lines[..i + 1], baseDir, join) ==
      IncludePaths(lines[..i], baseDir, join) + [ResolveIncludeLine(lines[i], baseDir, join).value]
  {
    var before := IncludePaths(lines[..i], baseDir, join);
    var after := IncludePaths(lines[..i + 1], baseDir, join);
    forall k | 0 <= k < i ensures after[k] == before[k] {
      assert lines[..i + 1][k] == lines[..i][k];
    }
    assert lines[..i + 1][i] == lines[i];
  }

  /** The include paths the configuration builder collects, in the order they were added. */
  class ConfigurationBuilder {
    var includePaths: seq<string>

    constructor ()
      ensures includePaths == []
    {
      includePaths := [];
    }

    /** `includePath(path)`: appends one include path. */
    method IncludePath(path: string)
      modifies this
      ensures includePaths == old(includePaths) + [path]
    {
      includePaths := includePaths + [path];
    }
  }

  /**
   * The `includesFile?.let` block of `call`: the base directory is the include
   * file's parent, the file is opened (a missing file or a directory throws
   * before any line is read), and each line in turn adds one include path,
   * until an empty line throws.
   */
  method LoadIncludesFile(includesFile: FileInfo, lines: seq<string>, join: (string, string) -> string,
                          builder: ConfigurationBuilder)
      returns (failure: Option<CliError>)
    modifies builder
    ensures !includesFile.present || includesFile.isDirectory ==>
      failure == Some(FileNotFound) && builder.includePaths == old(builder.includePaths)
    ensures includesFile.present && !includesFile.isDirectory ==>
      && (failure.Some? <==> FirstEmptyLine(lines) < |lines|)
      && (failure.Some? ==> failure.value == IndexOutOfBounds)
      && builder.includePaths ==
         old(builder.includePaths) + IncludePaths(lines[..FirstEmptyLine(lines)], BaseDir(includesFile), join)
  {
    var baseDir := "";
    if includesFile.parent.Some? {
      baseDir := includesFile.parent.value;
    }
    if !includesFile.present || includesFile.isDirectory {
      return Some(FileNotFound);
    }
    for i := 0 to |lines|
      invariant forall k :: 0 <= k < i ==> lines[k] != []
      invariant builder.includePaths == old(builder.includePaths) + IncludePaths(lines[..i], baseDir, join)
    {
      var line := lines[i];
      if line == [] {
        return Some(IndexOutOfBounds);
      }
      ghost var added := builder.includePaths;
      if line[0] == '/' {
        builder.IncludePath(Strip(line));
      } else {
        builder.IncludePath(join(baseDir, Strip(line)));
      }
      assert builder.includePaths == added + [ResolveIncludeLine(line, baseDir, join).value];
      IncludePathsStep(lines, i, baseDir, join);
    }
    assert lines[..|lines|] == lines;
    return None;
  }
}
