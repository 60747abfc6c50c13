/** `run_script`: make sure the script starts with a shebang, then run it
    with a shell or inside a docker container. The subprocess is not
    modelled: its result is given as a function of the command and the
    script text. `chmod` is left out. */
module Executor {
  import opened Wrappers
  import opened Text
  import opened Paths
  import opened Workspace

  const Header: string := "#!/usr/bin/env bash\nset -euo pipefail\n\n"

  /** The script as it is run: unchanged when it already has a shebang line,
      otherwise with the bash header in front. */
  function InjectHeader(content: string): (r: string)
    ensures StartsWith(r, "#!")
    ensures EndsWith(r, content)
    ensures r == content <==> StartsWith(content, "#!")
    ensures !StartsWith(content, "#!") ==> r == Header + content
  {
    if StartsWith(content, "#!") then content
    else
      assert Header[0] == '#' && Header[1] == '!';
      assert (Header + content)[..2] == Header[..2] == "#!";
      assert (Header + content)[|Header|..] == content;
      Header + content
  }

  /** Injecting twice is injecting once. */
  lemma InjectHeaderIdempotent(content: string)
    ensures InjectHeader(InjectHeader(content)) == InjectHeader(content)
  {
  }

  /** The argument vector of the subprocess. */
  function CommandVector(path: Path, shell: string, sandbox: Option<string>): (cmd: seq<string>)
    ensures sandbox == Some("docker") ==>
      && |cmd| == 10 && cmd[..4] == ["docker", "run", "--rm", "-v"]
      && cmd[4] == path.parent + ":/workspace"
      && cmd[5..9] == ["-w", "/workspace", "bash", "/bin/bash"]
      && cmd[9] == "/workspace/" + path.name
    ensures sandbox != Some("docker") ==> cmd == [shell, PathText(path)]
  {
    if sandbox == Some("docker") then
      ["docker", "run", "--rm", "-v", path.parent + ":/workspace", "-w", "/workspace",
       "bash", "/bin/bash", "/workspace/" + path.name]
    else [shell, PathText(path)]
  }

  /** `(returncode, stdout, stderr)` */
  datatype RunResult = RunResult(returnCode: int, stdout: string, stderr: string)

  /** `path.read_text()` raises when the script file does not exist. */
  datatype ExecError = ScriptMissing

  /** `run_script` on the workspace's script: the file is rewritten with the
      header only when it lacked a shebang, and the run's triple is returned. */
  method RunScript(ws: ScriptWorkspace, shell: string, sandbox: Option<string>,
                   run: (seq<string>, string) -> RunResult)
    returns (r: Result<RunResult, ExecError>)
    modifies ws
    ensures old(ws.file).None? ==> r == Err(ScriptMissing) && ws.file == old(ws.file)
    ensures old(ws.file).Some? ==>
      && ws.file == Some(InjectHeader(old(ws.file).value))
      && r == Ok(run(CommandVector(ws.path, shell, sandbox), ws.file.value))
    ensures old(ws.file).Some? && StartsWith(old(ws.file).value, "#!") ==> ws.file == old(ws.file)
  {
    if ws.file.None? {
      return Err(ScriptMissing);
    }
    var content := ws.file.value;
    if !StartsWith(content, "#!") {
      content := Header + content;
      ws.file := Some(content);
    }
    var cmd := CommandVector(ws.path, shell, sandbox);
    return Ok(run(cmd, content));
  }
}
