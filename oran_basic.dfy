/** `plan_install_oran`: the fixed five-step plan that installs the O-RAN charts. */
module OranBasic {
  import opened Wrappers
  import opened Text
  import opened Actions

  /** The plan; `cluster` and `namespace` default to "kind-nephio" and "oran-system". */
  function PlanInstallOran(cluster: string := "kind-nephio", namespace: string := "oran-system"): (p: InstallPlan)
    ensures p.clarify == None && |p.actions| == 5
    ensures forall k :: 0 <= k < |p.actions| ==> p.actions[k].run in {"helm", "kubectl"}
    ensures EndsWith(p.actions[2].cmd, "create ns " + namespace + " || true")
    ensures OccursAt(p.actions[3].cmd, "--namespace " + namespace + " ", |"helm upgrade --install oran-core oran/core "|)
    ensures p.actions[4].cmd == "kubectl -n " + namespace + " get pods"
    ensures p.summary == "Install O-RAN components in " + cluster + "/" + namespace
  {
    var nsCreate := "create ns " + namespace + " || true";
    EndsWithLast("kubectl ", nsCreate);
    var nsFlag := "--namespace " + namespace + " ";
    var upgrade := "helm upgrade --install oran-core oran/core " + nsFlag + "--version 5.x.x --wait";
    OccursInMiddle("helm upgrade --install oran-core oran/core ", nsFlag, "--version 5.x.x --wait");
    InstallPlan(None, [
      PlanAction("helm", "helm repo add oran https://example/oran-helm || true"),
      PlanAction("helm", "helm repo update"),
      PlanAction("kubectl", "kubectl " + nsCreate),
      PlanAction("helm", upgrade),
      PlanAction("kubectl", "kubectl -n " + namespace + " get pods")
    ], "Install O-RAN components in " + cluster + "/" + namespace)
  }

  /** The cluster shows up only in the summary: the actions do not depend on it. */
  lemma ActionsIgnoreCluster(c1: string, c2: string, namespace: string)
    ensures PlanInstallOran(c1, namespace).actions == PlanInstallOran(c2, namespace).actions
  {
  }
}
