/** The `install_from_repo` skill: where the repository is cloned, which git
    commands run, and how the outcome of the generated script decides the
    next step. git, the language model, the user's prompts and `bash` are not
    modelled: their answers are fields of `InstallWorld`. */
module InstallFromRepo {
  import opened Wrappers
  import opened Text
  import opened Paths

  predicate IsSlash(c: char) {
    c == '/'
  }

  /** `repo_url.rstrip("/").split("/")[-1].replace(".git", "")` */
  function RepoName(repoUrl: string): (name: string)
    ensures '/' !in name
  {
    var last := Last(SplitOn(RStrip(repoUrl, IsSlash), "/"));
    SplitOnLastHasNoSeparator(RStrip(repoUrl, IsSlash), "/");
    NoCharNoSingleton(last, '/');
    ReplaceKeepsOut(last, ".git", "", '/');
    Replace(last, ".git", "")
  }

  lemma NoCharNoSingleton(s: string, c: char)
    requires !Contains(s, [c])
    ensures c !in s
  {
    if c in s {
      var i :| 0 <= i < |s| && s[i] == c;
      assert OccursAt(s, [c], i);
      ContainsIff(s, [c]);
    }
  }

  /** Trailing slashes do not change the name. */
  lemma RepoNameIgnoresTrailingSlash(repoUrl: string)
    ensures RepoName(repoUrl + "/") == RepoName(repoUrl)
  {
    var s := repoUrl + "/";
    assert s[..|s| - 1] == repoUrl;
  }

  /** The name is the last path segment with every ".git" removed. */
  lemma RepoNameOfSegment(prefix: string, segment: string)
    requires segment != [] && '/' !in segment
    ensures RepoName(prefix + "/" + segment) == Replace(segment, ".git", "")
  {
    var s := prefix + "/" + segment;
    assert RStrip(s, IsSlash) == s;
    SplitOnLastOfChar(prefix, '/', segment);
  }

  /** With a one-character separator absent from `r`, the last piece of
      `p + [c] + r` is `r`. */
  lemma {:induction false} SplitOnLastOfChar(p: string, c: char, r: string)
    requires c !in r
    ensures Last(SplitOn(p + [c] + r, [c])) == r
    decreases |p|
  {
    var s := p + [c] + r;
    assert OccursAt(s, [c], |p|);
    var i := IndexOf(s, [c], 0).value;
    assert i <= |p|;
    var rest := s[i + 1..];
    assert SplitOn(s, [c]) == [s[..i]] + SplitOn(rest, [c]);
    assert Last([s[..i]] + SplitOn(rest, [c])) == Last(SplitOn(rest, [c]));
    if i == |p| {
      assert rest == r;
      NoOccurrence(r, c);
    } else {
      assert rest == p[i + 1..] + [c] + r;
      SplitOnLastOfChar(p[i + 1..], c, r);
    }
  }

  lemma NoOccurrence(r: string, c: char)
    requires c !in r
    ensures SplitOn(r, [c]) == [r]
  {
    forall j: nat | j + 1 <= |r| ensures !OccursAt(r, [c], j) {
      assert r[j..j + 1][0] == r[j];
    }
    assert IndexOf(r, [c], 0).None?;
  }

  /** `Path.cwd() / repo_name` */
  function CloneDir(cwd: string, repoUrl: string): (p: Path)
    ensures p.parent == cwd && p.name == RepoName(repoUrl)
  {
    Path(cwd, RepoName(repoUrl))
  }

  /** `success`: None when the user declined to run the script, otherwise
      whether `bash` exited with 0. */
  function Success(confirmed: bool, returnCode: int): (s: Option<bool>)
    ensures s.None? <==> !confirmed
    ensures s == Some(true) <==> confirmed && returnCode == 0
    ensures s == Some(false) <==> confirmed && returnCode != 0
  {
    if confirmed then Some(returnCode == 0) else None
  }

  /** What `run` does last: ask for the next task, or hand logs to `troubleshoot_task`. */
  datatype NextStep = AskNextTask | AskAfterSkip | Troubleshoot(logs: string)

  /** The branch on `success`. */
  function FollowUp(success: Option<bool>, stdout: string, stderr: string): (n: NextStep)
    ensures success == Some(true) <==> n.AskNextTask?
    ensures success.None? <==> n.AskAfterSkip?
    ensures success == Some(false) <==> n == Troubleshoot(stdout + "\n" + stderr)
  {
    match success
    case Some(true) => AskNextTask
    case Some(false) => Troubleshoot(stdout + "\n" + stderr)
    case None => AskAfterSkip
  }

  /** The answers of everything outside the skill during one `run`. */
  datatype InstallWorld = InstallWorld(
    cloneExists: bool,
    gitFailure: Option<(nat, string)>,   // the index of the failing git command and `str(e)`
    readme: Option<string>,              // the README text, None when the file is missing
    modelScript: string,                 // the model's reply before `.strip()`
    confirmed: bool,
    returnCode: int, stdout: string, stderr: string)

  /** The observable course of one `run`. */
  datatype InstallTrace = InstallTrace(
    gitCommands: seq<seq<string>>,
    script: Option<string>,              // what was written to install.sh
    executed: bool,
    next: NextStep)

  /** The git commands: a clone when the directory is new, else fetch, checkout and pull. */
  function GitCommands(cwd: string, repoUrl: string, gitRef: string, cloneExists: bool): (cmds: seq<seq<string>>)
    ensures !cloneExists ==> |cmds| == 1 && ["git", "clone"] <= cmds[0]
    ensures cloneExists ==> |cmds| == 3 && forall k :: 0 <= k < 3 ==> ["git", "-C", PathText(CloneDir(cwd, repoUrl))] <= cmds[k]
  {
    var dir := PathText(CloneDir(cwd, repoUrl));
    if !cloneExists then [["git", "clone", "--branch", gitRef, repoUrl, dir]]
    else [["git", "-C", dir, "fetch", "origin", gitRef], ["git", "-C", dir, "checkout", gitRef], ["git", "-C", dir, "pull"]]
  }

  /** `run(repo_url, ref, readme_rel_path)` up to the value it returns. */
  function Run(cwd: string, repoUrl: string, gitRef: string, readmeRelPath: string, w: InstallWorld): (t: InstallTrace)
    ensures t.executed ==> w.confirmed && t.script.Some?
    ensures w.gitFailure.Some? ==>
      t.next == Troubleshoot(w.gitFailure.value.1) && t.script.None? && !t.executed
        && t.gitCommands != [] && t.gitCommands <= GitCommands(cwd, repoUrl, gitRef, w.cloneExists)
        && (w.gitFailure.value.0 < |GitCommands(cwd, repoUrl, gitRef, w.cloneExists)| ==>
              t.gitCommands == GitCommands(cwd, repoUrl, gitRef, w.cloneExists)[..w.gitFailure.value.0 + 1])
    ensures w.gitFailure.None? ==> t.gitCommands == GitCommands(cwd, repoUrl, gitRef, w.cloneExists)
    ensures t.script.Some? ==> t.script.value == Strip(w.modelScript)
    ensures w.gitFailure.None? && w.readme.None? ==>
      t.next == Troubleshoot("Missing file: " + PathText(Path(PathText(CloneDir(cwd, repoUrl)), readmeRelPath)))
        && t.script.None?
    ensures w.gitFailure.None? && w.readme.Some? ==>
      t.script == Some(Strip(w.modelScript))
        && t.executed == w.confirmed && t.next == FollowUp(Success(w.confirmed, w.returnCode), w.stdout, w.stderr)
  {
    var all := GitCommands(cwd, repoUrl, gitRef, w.cloneExists);
    match w.gitFailure
    case Some((k, msg)) =>
      var ran := if k < |all| then all[..k + 1] else all;
      InstallTrace(ran, None, false, Troubleshoot(msg))
    case None =>
      var readmePath := Path(PathText(CloneDir(cwd, repoUrl)), readmeRelPath);
      match w.readme
      case None => InstallTrace(all, None, false, Troubleshoot("Missing file: " + PathText(readmePath)))
      case Some(_) =>
        var script := Strip(w.modelScript);
        InstallTrace(all, Some(script), w.confirmed,
          FollowUp(Success(w.confirmed, w.returnCode), w.stdout, w.stderr))
  }

  /** The skill's discovery metadata. */
  datatype SkillInfo = SkillInfo(name: string, description: string, parameters: seq<(string, string)>)

  const Description := "Clone a repo, read a user-specified README, generate/run install script, report success/failure, troubleshoot if failed, and ask next steps."

  /** The module-level `skill` dictionary: the name the registry lists and the three parameters `run` takes (its entrypoint is `Run`). */
  function Metadata(): (info: SkillInfo)
    ensures info.name == "install_from_repo"
    ensures |info.parameters| == 3
    ensures info.parameters[0].0 == "repo_url" && info.parameters[1].0 == "ref"
      && info.parameters[2].0 == "readme_rel_path"
  {
    SkillInfo(
      "install_from_repo",
      Description,
      [("repo_url", "GitHub repository URL"),
       ("ref", "Branch, tag, or commit (default: main)"),
       ("readme_rel_path", "Relative path to README or install instructions inside the repo")])
  }
}
