/** `ScriptWorkspace`: the one script file under a workspace root, written
    whole or patched with a unified diff. The `patch` tool is not modelled:
    its run is given to `ApplyUnifiedDiff` as a `PatchRun` value. */
module Workspace {
  import opened Wrappers
  import opened Text
  import opened Paths

  /** How the patch attempt went: an exception before `patch` could finish
      (temporary file, missing tool), or a run with its return code and the
      script file as the tool left it. */
  datatype PatchRun = Raised | Ran(returnCode: int, fileAfter: Option<string>)

  /** The fallback content: the lines after the first line of the text that
      follows the last "+++", joined with "\n". */
  function FallbackContent(patch: string): string {
    var lines := SplitLines(Last(SplitOn(patch, "+++")));
    Join(if lines == [] then [] else lines[1..], "\n")
  }

  class ScriptWorkspace {
    const root: string
    const path: Path
    /** The content of `path`; None while no such file exists. */
    var file: Option<string>

    /** `existing` is what `root/script.sh` already holds, if anything. */
    constructor (root: string, existing: Option<string>)
      ensures this.root == root && path == Path(root, "script.sh")
      ensures file == existing
    {
      this.root := root;
      path := Path(root, "script.sh");
      file := existing;
    }

    /** `write_new`: the file holds exactly `script`. */
    method WriteNew(script: string)
      modifies this
      ensures file == Some(script)
    {
      file := Some(script);
    }

    /** `apply_unified_diff`: keep what the tool did when it succeeded; when it
        failed, fall back to the text after the last "+++" if there is one;
        when anything raised, write the patch itself. */
    method ApplyUnifiedDiff(patch: string, run: PatchRun)
      modifies this
      ensures run.Raised? ==> file == Some(patch)
      ensures run.Ran? && run.returnCode == 0 ==> file == run.fileAfter
      ensures run.Ran? && run.returnCode != 0 && !Contains(patch, "+++") ==> file == run.fileAfter
      ensures run.Ran? && run.returnCode != 0 && Contains(patch, "+++") ==> file == Some(FallbackContent(patch))
    {
      match run
      case Raised =>
        file := Some(patch);
      case Ran(code, after) =>
        file := after;
        if code != 0 {
          var parts := SplitOn(patch, "+++");
          if |parts| >= 2 {
            var lines := SplitLines(parts[|parts| - 1]);
            file := Some(Join(if lines == [] then [] else lines[1..], "\n"));
          }
        }
    }
  }

  /** For a diff `prefix + "+++" + header + "\n" + body`, where the only "+++" is
      the one after `prefix`, the header line has no break and every break in
      the body is "\n", the fallback writes the body less one final "\n". */
  lemma FallbackOfSingleTarget(prefix: string, header: string, body: string)
    requires forall j: nat :: j < |prefix| ==> !OccursAt(prefix + "+++" + (header + "\n" + body), "+++", j)
    requires !Contains(header + "\n" + body, "+++")
    requires forall i :: 0 <= i < |header| ==> !IsLineBreak(header[i])
    requires forall i :: 0 <= i < |body| && IsLineBreak(body[i]) ==> body[i] == '\n'
    ensures FallbackContent(prefix + "+++" + (header + "\n" + body)) == DropFinalNewline(body)
  {
    var rest := header + "\n" + body;
    SplitOnAround(prefix, "+++", rest);
    SplitLinesFirst(header, body);
    JoinSplitLines(body);
  }

  /** The fallback reads only what follows the last "+++": anything before it is ignored. */
  lemma FallbackIgnoresEarlierTargets(patch: string, earlier: string)
    requires forall j: nat :: j < |earlier| ==> !OccursAt(earlier + "+++" + patch, "+++", j)
    ensures FallbackContent(earlier + "+++" + patch) == FallbackContent(patch)
  {
    var s := earlier + "+++" + patch;
    assert OccursAt(s, "+++", |earlier|);
    assert IndexOf(s, "+++", 0) == Some(|earlier|);
    assert s[|earlier| + 3..] == patch;
    assert s[..|earlier|] == earlier;
    var parts := SplitOn(patch, "+++");
    assert SplitOn(s, "+++") == [earlier] + parts;
    assert Last([earlier] + parts) == Last(parts);
  }

  /** A failed patch that is just "+++" leaves the file empty. */
  lemma FallbackOfBareMarker()
    ensures FallbackContent("+++") == ""
  {
    var s := "+++";
    assert OccursAt(s, "+++", 0);
    assert IndexOf(s, "+++", 0) == Some(0);
    assert SplitOn(s[3..], "+++") == [""];
  }
}
