/**
 * The message view's helpers for tool output
 * (apps/web/src/pages/chat/components/messages.tsx and its copy in
 * src/pages/chat/components/messages.tsx): which view a tool part gets,
 * file paths shown relative to the working directory, and the error lines
 * collected from the language-server diagnostics.
 */
module ToolMessages {
  import opened Wrappers
  import opened OpencodeTypes
  import opened SessionUtils
  import opened OrderedMaps

  /** What `ToolPart` renders. */
  datatype ToolView = NoView | ErrorView | CompletedView

  /**
   * `ToolPart`: nothing for a part that is not a tool; the error box for a
   * tool in error state; the completed view for a completed tool of an
   * assistant message; nothing otherwise (pending or running tools).
   */
  function ToolPartView(part: Part, message: MessageWithParts): ToolView {
    if part.partType != "tool" then NoView
    else if part.status == Some("error") then ErrorView
    else if IsCompletedToolPart(part) && IsAssistantMessage(message) then CompletedView
    else NoView
  }

  /**
   * The error state is checked first and shows whoever wrote the message;
   * the completed view needs a completed tool in an assistant message; and
   * every other part shows nothing.
   */
  lemma {:induction false} ToolPartViewCases(part: Part, message: MessageWithParts)
    ensures ToolPartView(part, message) == ErrorView <==> part.partType == "tool" && part.status == Some("error")
    ensures ToolPartView(part, message) == CompletedView <==>
      part.partType == "tool" && part.status == Some("completed") && message.info.role == Assistant
    ensures ToolPartView(part, message) == ToolPartView(part, MessageWithParts(message.info.(role := User), message.parts)) <==>
      ToolPartView(part, message) != CompletedView
  {
  }

  /** `workingDir` with a '/' appended unless it already ends with one. */
  function DirPrefix(workingDir: string): (r: string)
    ensures |r| > 0 && r[|r| - 1] == '/'
    ensures workingDir <= r && |r| <= |workingDir| + 1
  {
    if |workingDir| > 0 && workingDir[|workingDir| - 1] == '/' then workingDir else workingDir + "/"
  }

  /**
   * `stripWorkingDirectory`: `filePath` as it is when either argument is
   * missing; "" for the working directory itself; the rest of the path under
   * the directory's prefix; any other path unchanged.
   */
  function StripWorkingDirectory(filePath: Option<string>, workingDir: Option<string>): (r: Option<string>)
    ensures filePath.None? || workingDir.None? ==> r == filePath
    ensures r.Some? <==> filePath.Some?
  {
    if filePath.None? || workingDir.None? then filePath
    else
      var prefix := DirPrefix(workingDir.value);
      if filePath.value == workingDir.value then Some("")
      else if prefix <= filePath.value then Some(filePath.value[|prefix|..])
      else filePath
  }

  /**
   * With both arguments present the result is a suffix of the path: empty for
   * the directory itself, the part after the prefix when the path lies under
   * it (so prefix and result make up the path again), else the whole path.
   */
  lemma {:induction false} StripFacts(filePath: string, workingDir: string)
    ensures var r := StripWorkingDirectory(Some(filePath), Some(workingDir)).value;
      && (filePath == workingDir ==> r == "")
      && (filePath != workingDir && DirPrefix(workingDir) <= filePath ==> DirPrefix(workingDir) + r == filePath)
      && (filePath != workingDir && !(DirPrefix(workingDir) <= filePath) ==> r == filePath)
      && filePath == filePath[..|filePath| - |r|] + r
  {
    var r := StripWorkingDirectory(Some(filePath), Some(workingDir)).value;
    if filePath != workingDir && DirPrefix(workingDir) <= filePath {
      assert filePath == DirPrefix(workingDir) + r;
    }
  }

  /** Stripping undoes joining: a path built as prefix + relative path strips back to the relative path. */
  lemma {:induction false} StripJoined(workingDir: string, relative: string)
    ensures StripWorkingDirectory(Some(DirPrefix(workingDir) + relative), Some(workingDir)) == Some(relative)
  {
    var prefix := DirPrefix(workingDir);
    var path := prefix + relative;
    assert prefix <= path;
    assert path[|prefix|..] == relative;
    if path == workingDir {
      assert |prefix| == |workingDir| && |relative| == 0;
    }
  }

  /** A diagnostic of the language server: severity 1 is an error; positions are 0-based. */
  datatype Diagnostic = Diagnostic(severity: int, line: int, character: int, message: string)

  /** One rendered error line: `Error [line:column] message`, with 1-based positions. */
  datatype ErrorLine = ErrorLine(line: int, column: int, message: string)

  function Report(d: Diagnostic): ErrorLine {
    ErrorLine(d.line + 1, d.character + 1, d.message)
  }

  /** The error lines for one file's diagnostics, in order. */
  function FileErrors(diags: seq<Diagnostic>): seq<ErrorLine> {
    if |diags| == 0 then []
    else
      var d := diags[|diags| - 1];
      FileErrors(diags[..|diags| - 1]) + (if d.severity == 1 then [Report(d)] else [])
  }

  /** The error lines for every file, file after file. */
  function AllErrors(files: seq<Entry<seq<Diagnostic>>>): seq<ErrorLine> {
    if |files| == 0 then []
    else AllErrors(files[..|files| - 1]) + FileErrors(files[|files| - 1].value)
  }

  /** What `getDiagnostics` returns: nothing unless the current file has diagnostics, else the errors of all files. */
  function Diagnostics(byFile: Option<seq<Entry<seq<Diagnostic>>>>, currentFile: string): seq<ErrorLine> {
    if byFile.None? || !Has(byFile.value, currentFile) then [] else AllErrors(byFile.value)
  }

  /** `getDiagnostics`: the nested loops over `Object.values(diagnosticsByFile)`. */
  method GetDiagnostics(byFile: Option<seq<Entry<seq<Diagnostic>>>>, currentFile: string) returns (result: seq<ErrorLine>)
    ensures result == Diagnostics(byFile, currentFile)
  {
    result := [];
    if byFile.None? || !Has(byFile.value, currentFile) {
      return;
    }
    var files := byFile.value;
    var i := 0;
    while i < |files|
      invariant 0 <= i <= |files|
      invariant result == AllErrors(files[..i])
    {
      var diags := files[i].value;
      var j := 0;
      while j < |diags|
        invariant 0 <= j <= |diags|
        invariant result == AllErrors(files[..i]) + FileErrors(diags[..j])
      {
        assert diags[..j + 1][..j] == diags[..j];
        var d := diags[j];
        if d.severity == 1 {
          var line := d.line + 1;
          var column := d.character + 1;
          result := result + [ErrorLine(line, column, d.message)];
        }
        j := j + 1;
      }
      assert diags[..|diags|] == diags;
      assert files[..i + 1][..i] == files[..i];
      i := i + 1;
    }
    assert files[..|files|] == files;
  }

  lemma {:induction false} FileErrorsMembers(diags: seq<Diagnostic>, e: ErrorLine)
    ensures e in FileErrors(diags) <==> exists d :: d in diags && d.severity == 1 && e == Report(d)
  {
    if |diags| > 0 {
      var init := diags[..|diags| - 1];
      FileErrorsMembers(init, e);
      assert diags == init + [diags[|diags| - 1]];
    }
  }

  /**
   * An error line is reported exactly when some file, the current one or any
   * other, has an error diagnostic at that 0-based position with that
   * message.
   */
  lemma {:induction false} AllErrorsMembers(files: seq<Entry<seq<Diagnostic>>>, e: ErrorLine)
    ensures e in AllErrors(files) <==>
      exists f, d :: f in files && d in f.value && d.severity == 1 && e == ErrorLine(d.line + 1, d.character + 1, d.message)
  {
    if |files| > 0 {
      var init := files[..|files| - 1];
      var last := files[|files| - 1];
      AllErrorsMembers(init, e);
      FileErrorsMembers(last.value, e);
      assert files == init + [last];
    }
  }

  /** An error in another file is reported too, as long as the current file has an entry. */
  lemma OtherFilesReported()
    ensures var current := Entry("src/app.ts", [Diagnostic(2, 3, 0, "unused")]);
      var other := Entry("src/db.ts", [Diagnostic(1, 9, 4, "type mismatch")]);
      Diagnostics(Some([current, other]), "src/app.ts") == [ErrorLine(10, 5, "type mismatch")]
  {
    var current := Entry("src/app.ts", [Diagnostic(2, 3, 0, "unused")]);
    var other := Entry("src/db.ts", [Diagnostic(1, 9, 4, "type mismatch")]);
    assert Has([current, other], "src/app.ts") by {
      assert [current, other][0].key == "src/app.ts";
    }
    var files := [current, other];
    assert files[..1] == [current];
    assert [current][..0] == [];
    assert FileErrors(current.value) == [] by {
      assert current.value[..0] == [];
    }
    assert FileErrors(other.value) == [ErrorLine(10, 5, "type mismatch")] by {
      assert other.value[..0] == [];
    }
    assert AllErrors([current]) == [];
  }
}
