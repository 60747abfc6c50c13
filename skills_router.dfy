/** `SkillRouter`: the skill summaries shown to the routing model, the routing
    prompt, and the filter that keeps only the returned names that are
    registered skills. */
module SkillsRouter {
  import opened Wrappers
  import opened Text
  import opened JsonValue

  /** A loaded skill's metadata; `description` and `intents` may be absent. */
  datatype Skill = Skill(description: Option<string>, intents: Option<seq<string>>, systemPrompt: string)

  /** The skills dict in insertion order. */
  type Registry = seq<(string, Skill)>

  predicate IsKey(reg: Registry, name: string) {
    exists i :: 0 <= i < |reg| && reg[i].0 == name
  }

  /** The entry `skills[name]`: the first one with that key. */
  function Lookup(reg: Registry, name: string): (r: Option<Skill>)
    ensures r.Some? <==> IsKey(reg, name)
    ensures r.Some? ==> exists i :: 0 <= i < |reg| && reg[i] == (name, r.value)
  {
    if reg == [] then None
    else if reg[0].0 == name then Some(reg[0].1)
    else
      var r := Lookup(reg[1..], name);
      assert IsKey(reg, name) ==> reg[0].0 == name || IsKey(reg[1..], name) by {
        if IsKey(reg, name) && reg[0].0 != name {
          var i :| 0 <= i < |reg| && reg[i].0 == name;
          assert reg[1..][i - 1].0 == name;
        }
      }
      assert r.Some? ==> IsKey(reg, name) by {
        if r.Some? {
          var i :| 0 <= i < |reg[1..]| && reg[1..][i].0 == name;
          assert reg[i + 1].0 == name;
        }
      }
      assert r.Some? ==> exists i :: 0 <= i < |reg| && reg[i] == (name, r.value) by {
        if r.Some? {
          var i :| 0 <= i < |reg[1..]| && reg[1..][i] == (name, r.value);
          assert reg[i + 1] == (name, r.value);
        }
      }
      r
  }

  /** One `{"name", "description", "intents"}` summary. */
  datatype Summary = Summary(name: string, description: string, intents: seq<string>)

  /** The summary of one registry entry, with defaults "" and []. */
  function SummaryOf(entry: (string, Skill)): Summary {
    Summary(entry.0, entry.1.description.GetOr(""), entry.1.intents.GetOr([]))
  }

  /** One summary per skill, in registry order. */
  predicate Summarises(summaries: seq<Summary>, reg: Registry) {
    |summaries| == |reg| && forall i :: 0 <= i < |reg| ==> summaries[i] == SummaryOf(reg[i])
  }

  /** `_make_skill_summaries` */
  method MakeSkillSummaries(reg: Registry) returns (summaries: seq<Summary>)
    ensures Summarises(summaries, reg)
  {
    summaries := [];
    for k := 0 to |reg|
      invariant |summaries| == k
      invariant forall i :: 0 <= i < k ==> summaries[i] == SummaryOf(reg[i])
    {
      var (name, skill) := reg[k];
      summaries := summaries + [Summary(name, skill.description.GetOr(""), skill.intents.GetOr([]))];
    }
  }

  const PromptHead: string :=
    "\nYou are a skill router. \n"
    + "Given the user request and the available skills, choose the most relevant skill(s) by name. \n"
    + "Return only a JSON array of skill names. \n\nUser request: \""

  const PromptMiddle: string := "\"\n\nAvailable skills:\n"

  /** The routing prompt; `summariesJson` is `json.dumps(summaries, indent=2)`. */
  function RouterPrompt(userInput: string, summariesJson: string): (p: string)
    ensures OccursAt(p, userInput, |PromptHead|)
    ensures StartsWith(p, PromptHead) && EndsWith(p, summariesJson + "\n")
  {
    var p := PromptHead + userInput + PromptMiddle + summariesJson + "\n";
    assert p[|PromptHead|..|PromptHead| + |userInput|] == userInput;
    assert p[|p| - |summariesJson + "\n"|..] == summariesJson + "\n";
    p
  }

  /** The names among `xs` that are registered, in order and with repetitions. */
  function KeepRegistered(xs: seq<Json>, reg: Registry): (names: seq<string>)
    ensures forall k :: 0 <= k < |names| ==> IsKey(reg, names[k])
    ensures |names| <= |xs|
  {
    if |xs| == 0 then []
    else
      var rest := KeepRegistered(xs[1..], reg);
      if xs[0].JStr? && IsKey(reg, xs[0].s) then
        var r := [xs[0].s] + rest;
        assert forall k :: 1 <= k < |r| ==> r[k] == rest[k - 1];
        r
      else rest
  }

  /** `[s for s in json.loads(response) if s in self.skills]`, with any
      exception turned into []: a parse failure (None), a value that cannot be
      iterated, or an element that cannot be looked up in a dict. */
  function SelectFromParsed(parsed: Option<Json>, reg: Registry): (names: seq<string>)
    ensures forall k :: 0 <= k < |names| ==> IsKey(reg, names[k])
    ensures parsed.None? ==> names == []
    ensures parsed.Some? && Elements(parsed.value).None? ==> names == []
  {
    if parsed.None? then []
    else
      match Elements(parsed.value)
      case None => []
      case Some(xs) =>
        if exists k :: 0 <= k < |xs| && !Hashable(xs[k]) then []
        else KeepRegistered(xs, reg)
  }

  /** `select_skills`: ask the router with the prompt built from the summaries,
      strip its reply, parse it and filter it. The client call, `json.dumps`
      and `json.loads` are given as functions. */
  method SelectSkills(reg: Registry, userInput: string,
                      dumps: seq<Summary> -> string,
                      askRouter: string -> string,
                      loads: string -> Option<Json>)
    returns (names: seq<string>)
    ensures forall k :: 0 <= k < |names| ==> IsKey(reg, names[k])
    ensures exists summaries :: (Summarises(summaries, reg)
      && names == SelectFromParsed(loads(askRouter(RouterPrompt(userInput, dumps(summaries)))), reg))
  {
    var summaries := MakeSkillSummaries(reg);
    var prompt := RouterPrompt(userInput, dumps(summaries));
    var response := askRouter(prompt);
    names := SelectFromParsed(loads(response), reg);
  }

  // ---------------------------------------------------------------------------
  // Properties of the filter
  // ---------------------------------------------------------------------------

  /** Filtering distributes over concatenation, so the kept names keep their order. */
  lemma {:induction false} KeepRegisteredAppend(xs: seq<Json>, ys: seq<Json>, reg: Registry)
    ensures KeepRegistered(xs + ys, reg) == KeepRegistered(xs, reg) + KeepRegistered(ys, reg)
  {
    if xs != [] {
      assert (xs + ys)[0] == xs[0];
      assert (xs + ys)[1..] == xs[1..] + ys;
      KeepRegisteredAppend(xs[1..], ys, reg);
    } else {
      assert xs + ys == ys;
    }
  }

  /** Every registered name is kept as often as it appears; nothing else is kept. */
  lemma {:induction false} KeepRegisteredCounts(xs: seq<Json>, reg: Registry, name: string)
    ensures multiset(KeepRegistered(xs, reg))[name] ==
      if IsKey(reg, name) then multiset(xs)[JStr(name)] else 0
  {
    if xs != [] {
      KeepRegisteredCounts(xs[1..], reg, name);
      assert xs == [xs[0]] + xs[1..];
    }
  }

  /** An empty registry selects nothing, whatever the reply. */
  lemma EmptyRegistrySelectsNothing(parsed: Option<Json>)
    ensures SelectFromParsed(parsed, []) == []
  {
    if parsed.Some? && Elements(parsed.value).Some? {
      KeepRegisteredNone(Elements(parsed.value).value);
    }
  }

  lemma {:induction false} KeepRegisteredNone(xs: seq<Json>)
    ensures KeepRegistered(xs, []) == []
  {
    if xs != [] {
      KeepRegisteredNone(xs[1..]);
    }
  }

  /** A reply list of plain strings keeps exactly its registered names. */
  lemma SelectFromStringList(xs: seq<Json>, reg: Registry)
    requires forall k :: 0 <= k < |xs| ==> xs[k].JStr?
    ensures SelectFromParsed(Some(JArr(xs)), reg) == KeepRegistered(xs, reg)
  {
  }

  /** A reply list holding a nested list selects nothing (TypeError: unhashable). */
  lemma NestedListSelectsNothing(xs: seq<Json>, k: nat, reg: Registry)
    requires k < |xs| && xs[k].JArr?
    ensures SelectFromParsed(Some(JArr(xs)), reg) == []
  {
    assert !Hashable(xs[k]);
  }
}
