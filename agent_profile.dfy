/** The agent profile record: a value with bounded text fields, a status that
    is lower-cased when the record is built, and a copy-on-write `AddSkill`. */
module AgentProfile {
  import opened Outcomes
  import opened Text

  /** One agent's metadata. `description` is absent (`None`) by default. */
  datatype Profile = Profile(
    identifier: string,
    displayName: string,
    skills: seq<string>,
    status: string,
    description: Option<string>)

  /** The status a profile gets when none is given. */
  const DefaultStatus: string := "idle"

  /** The field length bounds the record's validation enforces:
      identifier 3..50, display name 3..100, description at most 250. */
  predicate FieldsInBounds(identifier: string, displayName: string, description: Option<string>)
  {
    && 3 <= |identifier| <= 50
    && 3 <= |displayName| <= 100
    && (description.Some? ==> |description.value| <= 250)
  }

  /** A profile whose fields satisfy the bounds. Every profile built by
      `Create` is one, and copies made by `AddSkill` or a status update stay one. */
  predicate Bounded(p: Profile)
  {
    FieldsInBounds(p.identifier, p.displayName, p.description)
  }

  /** Building a profile. Validation fails (`None`) when a bound is broken.
      A status that is given goes through the lower-casing validator; the
      default status is not validated, and is already lower-case. */
  function Create(
    identifier: string,
    displayName: string,
    skills: seq<string>,
    status: Option<string>,
    description: Option<string>): (r: Option<Profile>)
    ensures r.Some? <==> FieldsInBounds(identifier, displayName, description)
    ensures r.Some? ==> Bounded(r.value) && IsLowerCase(r.value.status)
    ensures r.Some? ==>
      && r.value.identifier == identifier
      && r.value.displayName == displayName
      && r.value.skills == skills
      && r.value.description == description
    ensures r.Some? && status.None? ==> r.value.status == DefaultStatus
    ensures r.Some? && status.Some? ==>
      |r.value.status| == |status.value| && Lower(r.value.status) == Lower(status.value)
  {
    if !FieldsInBounds(identifier, displayName, description) then None
    else
      var normalized := if status.Some? then Lower(status.value) else DefaultStatus;
      Some(Profile(identifier, displayName, skills, normalized, description))
  }

  /** Some existing skill equals `skill` up to case. */
  predicate HasSkill(skills: seq<string>, skill: string)
  {
    exists i :: 0 <= i < |skills| && Lower(skills[i]) == Lower(skill)
  }

  /** No two skills are equal up to case. */
  predicate DistinctUpToCase(skills: seq<string>)
  {
    forall i, j :: 0 <= i < j < |skills| ==> Lower(skills[i]) != Lower(skills[j])
  }

  /** The lower-cased skills, as the set the duplicate test builds. */
  function LoweredSkills(skills: seq<string>): set<string>
  {
    set s | s in skills :: Lower(s)
  }

  /** `add_skill`: the profile itself when the skill is already there up to
      case, otherwise a copy with the skill appended and nothing else changed. */
  function AddSkill(p: Profile, skill: string): (r: Profile)
    ensures HasSkill(p.skills, skill) ==> r == p
    ensures !HasSkill(p.skills, skill) ==>
      r.skills == p.skills + [skill] && r == p.(skills := r.skills)
    ensures HasSkill(r.skills, skill)
    ensures |p.skills| <= |r.skills| <= |p.skills| + 1
  {
    if Lower(skill) in LoweredSkills(p.skills) then p
    else
      var r := p.(skills := p.skills + [skill]);
      assert r.skills[|p.skills|] == skill;
      r
  }

  /** Adding the same skill twice is adding it once. */
  lemma AddSkillIdempotent(p: Profile, skill: string)
    ensures AddSkill(AddSkill(p, skill), skill) == AddSkill(p, skill)
  {
  }

  /** `AddSkill` keeps skills distinct up to case, when they were. */
  lemma AddSkillKeepsDistinct(p: Profile, skill: string)
    requires DistinctUpToCase(p.skills)
    ensures DistinctUpToCase(AddSkill(p, skill).skills)
  {
  }

  /** `AddSkill` changes neither the bounded fields nor the status. */
  lemma AddSkillKeepsFields(p: Profile, skill: string)
    ensures var r := AddSkill(p, skill);
      r.identifier == p.identifier && r.displayName == p.displayName
      && r.status == p.status && r.description == p.description
      && (Bounded(p) ==> Bounded(r))
  {
  }

  /** A built profile's status is left alone by lower-casing it again. */
  lemma CreatedStatusIsNormal(
    identifier: string, displayName: string, skills: seq<string>,
    status: Option<string>, description: Option<string>)
    requires FieldsInBounds(identifier, displayName, description)
    ensures var r := Create(identifier, displayName, skills, status, description);
      r.Some? && Lower(r.value.status) == r.value.status
  {
  }

  /** Building a profile does not deduplicate skills: only `AddSkill` does. */
  lemma CreateKeepsDuplicateSkills()
    ensures var r := Create("agent-1", "Agent One", ["Go", "go"], None, None);
      r.Some? && !DistinctUpToCase(r.value.skills)
  {
    var r := Create("agent-1", "Agent One", ["Go", "go"], None, None);
    assert Lower(r.value.skills[0]) == Lower(r.value.skills[1]) == "go";
  }

  /** Adding "Python" and then "python" to a profile without skills leaves
      "Python" as its only skill. */
  lemma SkillDedupExample(p: Profile)
    requires p.skills == []
    ensures AddSkill(AddSkill(p, "Python"), "python").skills == ["Python"]
  {
  }
}
