/** The install plans the skill modules return: `{"clarify", "actions", "summary"}`. */
module Actions {
  import opened Wrappers

  /** One `{"run": ..., "cmd": ...}` step; `run` names the tool. */
  datatype PlanAction = PlanAction(run: string, cmd: string)

  datatype InstallPlan = InstallPlan(clarify: Option<string>, actions: seq<PlanAction>, summary: string)
}
