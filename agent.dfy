/** The naive planner of `agent.py`: pick the first skill whose name or
    description occurs in the prompt, ignoring ASCII case, and wrap it in a
    one-action plan. */
module Agent {
  import opened Wrappers
  import opened Text

  /** A skill's metadata dict; `name` is what the plan reports. */
  datatype SkillMeta = SkillMeta(name: string, description: string)

  /** `SKILLS` in insertion order: registry key and metadata. */
  type SkillTable = seq<(string, SkillMeta)>

  /** `any(k.lower() in prompt.lower() for k in [name, meta["description"]])` */
  predicate Matches(prompt: string, entry: (string, SkillMeta)) {
    Contains(Lower(prompt), Lower(entry.0)) || Contains(Lower(prompt), Lower(entry.1.description))
  }

  /** `select_skill`: the metadata of the first matching skill, in table order. */
  function SelectSkill(skills: SkillTable, prompt: string): (r: Option<SkillMeta>)
    ensures r.None? <==> forall i :: 0 <= i < |skills| ==> !Matches(prompt, skills[i])
    ensures r.Some? ==> exists i :: (0 <= i < |skills| && skills[i].1 == r.value
      && Matches(prompt, skills[i]) && forall j :: 0 <= j < i ==> !Matches(prompt, skills[j]))
  {
    if skills == [] then None
    else if Matches(prompt, skills[0]) then Some(skills[0].1)
    else
      var r := SelectSkill(skills[1..], prompt);
      assert forall j :: 1 <= j < |skills| ==> skills[j] == skills[1..][j - 1];
      if r.Some? then
        var i :| 0 <= i < |skills[1..]| && skills[1..][i].1 == r.value
          && Matches(prompt, skills[1..][i]) && forall j :: 0 <= j < i ==> !Matches(prompt, skills[1..][j]);
        assert skills[i + 1] == skills[1..][i];
        r
      else r
  }

  /** An empty name or description occurs in every prompt, so such a skill always matches. */
  lemma EmptyDescriptionMatchesAll(prompt: string, key: string, meta: SkillMeta)
    requires meta.description == ""
    ensures Matches(prompt, (key, meta))
  {
    assert OccursAt(Lower(prompt), Lower(""), 0);
  }

  /** Matching ignores ASCII case: an upper-cased prompt matches the same skills. */
  lemma MatchIgnoresCase(prompt: string, entry: (string, SkillMeta))
    ensures Matches(prompt, entry) == Matches(Lower(prompt), entry)
  {
    forall i | 0 <= i < |prompt| ensures LowerChar(LowerChar(prompt[i])) == LowerChar(prompt[i]) {
    }
    assert Lower(Lower(prompt)) == Lower(prompt);
  }

  /** One `{"run": "skill", "cmd": name, "params": {}}` action. */
  datatype SkillAction = SkillAction(run: string, cmd: string, params: map<string, string>)

  /** The `{"actions", "summary"}` plan. */
  datatype TaskPlan = TaskPlan(actions: seq<SkillAction>, summary: string)

  /** `plan_task` */
  function PlanTask(skills: SkillTable, prompt: string): (p: TaskPlan)
    ensures SelectSkill(skills, prompt).Some? ==>
      var name := SelectSkill(skills, prompt).value.name;
      p.actions == [SkillAction("skill", name, map[])] && p.summary == "Selected skill: " + name
    ensures SelectSkill(skills, prompt).None? ==>
      p.actions == [] && p.summary == "No matching skill found"
  {
    match SelectSkill(skills, prompt)
    case Some(meta) => TaskPlan([SkillAction("skill", meta.name, map[])], "Selected skill: " + meta.name)
    case None => TaskPlan([], "No matching skill found")
  }

  /** A plan has an action exactly when some skill matches. */
  lemma PlanTaskHasActionIffMatch(skills: SkillTable, prompt: string)
    ensures |PlanTask(skills, prompt).actions| == 1 <==> exists i :: 0 <= i < |skills| && Matches(prompt, skills[i])
    ensures |PlanTask(skills, prompt).actions| <= 1
  {
  }
}
