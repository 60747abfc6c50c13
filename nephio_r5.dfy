/** `plan_install`: the fixed seven-step plan that installs Nephio R5 on a kind cluster. */
module NephioR5 {
  import opened Wrappers
  import opened Text
  import opened Actions

  /** Step 1: install kind when it is not on the PATH. */
  const InstallKind := "command -v kind >/dev/null || go install sigs.k8s.io/kind@v0.23.0"

  /** Step 3: register the Nephio chart repository. */
  const AddRepo := "helm repo add nephio https://nephio-helm.storage.googleapis.com || true"

  /** Step 2: create the kind cluster unless `kind get clusters` already lists it. */
  function EnsureCluster(cluster: string): (cmd: string)
    ensures OccursAt(cmd, "grep -q '^" + cluster + "$'", |"kind get clusters | "|)
    ensures EndsWith(cmd, "kind create cluster --name " + cluster)
  {
    var grep := "grep -q '^" + cluster + "$'";
    var kindCreate := "kind create cluster --name " + cluster;
    OccursInMiddle("kind get clusters | ", grep, " || " + kindCreate);
    EndsWithLast("kind get clusters | " + grep + " || ", kindCreate);
    assert "kind get clusters | " + grep + (" || " + kindCreate) == "kind get clusters | " + grep + " || " + kindCreate;
    "kind get clusters | " + grep + " || " + kindCreate
  }

  /** Step 5: create the namespace, tolerating one that exists. */
  function CreateNamespace(namespace: string): (cmd: string)
    ensures EndsWith(cmd, "create ns " + namespace + " || true")
  {
    EndsWithLast("kubectl ", "create ns " + namespace + " || true");
    "kubectl " + ("create ns " + namespace + " || true")
  }

  /** Step 6: install or upgrade the Nephio core chart into the namespace. */
  function InstallCore(namespace: string): (cmd: string)
    ensures OccursAt(cmd, "--namespace " + namespace + " ", |"helm upgrade --install nephio-core nephio/core "|)
  {
    OccursInMiddle("helm upgrade --install nephio-core nephio/core ", "--namespace " + namespace + " ", "--version 5.x.x --wait");
    "helm upgrade --install nephio-core nephio/core " + ("--namespace " + namespace + " ") + "--version 5.x.x --wait"
  }

  /** The plan; `cluster` and `namespace` default to "kind-nephio" and "nephio-system". */
  function PlanInstall(cluster: string := "kind-nephio", namespace: string := "nephio-system"): (p: InstallPlan)
    ensures p.clarify == None && |p.actions| == 7
    ensures forall k :: 0 <= k < |p.actions| ==> p.actions[k].run in {"bash", "helm", "kubectl"}
    ensures OccursAt(p.actions[1].cmd, "grep -q '^" + cluster + "$'", |"kind get clusters | "|)
    ensures EndsWith(p.actions[1].cmd, "kind create cluster --name " + cluster)
    ensures EndsWith(p.actions[4].cmd, "create ns " + namespace + " || true")
    ensures OccursAt(p.actions[5].cmd, "--namespace " + namespace + " ", |"helm upgrade --install nephio-core nephio/core "|)
    ensures p.actions[6].cmd == "kubectl -n " + namespace + " get pods"
    ensures p.summary == "Install Nephio R5 in " + cluster + "/" + namespace
  {
    InstallPlan(None, [
      PlanAction("bash", InstallKind),
      PlanAction("bash", EnsureCluster(cluster)),
      PlanAction("helm", AddRepo),
      PlanAction("helm", "helm repo update"),
      PlanAction("kubectl", CreateNamespace(namespace)),
      PlanAction("helm", InstallCore(namespace)),
      PlanAction("kubectl", "kubectl -n " + namespace + " get pods")
    ], "Install Nephio R5 in " + cluster + "/" + namespace)
  }
}
