/** The orchestrator's dictionary from agent identifier to active task
    description, and what assignment and completion do to it, as functions on
    map values. The class `Orchestrator.AgentOrchestrator` follows these. */
module TaskState {
  import opened Outcomes
  import opened Text
  import RegistryState
  import MapValues

  /** The active tasks, keyed by agent identifier. */
  type Tasks = map<string, string>

  /** No stored task description is blank. */
  predicate NonBlankTasks(tasks: Tasks)
  {
    forall id :: id in tasks ==> !IsBlank(tasks[id])
  }

  /** `assign_task`: a blank description is `InvalidTask` before the registry
      is consulted; an agent the registry does not know is `NotFound`;
      otherwise the description becomes the agent's task, replacing any
      task it already had. */
  function Assign(tasks: Tasks, agents: RegistryState.Agents, agentId: string, description: string): (r: Result<Tasks>)
    ensures IsBlank(description) ==> r == Err(InvalidTask)
    ensures !IsBlank(description) && agentId !in agents ==> r == Err(NotFound)
    ensures r.Ok? <==> !IsBlank(description) && agentId in agents
    ensures r.Ok? ==>
      && r.value.Keys == tasks.Keys + {agentId}
      && r.value[agentId] == description
      && forall id :: id in tasks && id != agentId ==> r.value[id] == tasks[id]
  {
    if Strip(description) == [] then Err(InvalidTask)
    else match RegistryState.Get(agents, agentId)
      case Err(_) => Err(NotFound)
      case Ok(_) => Ok(tasks[agentId := description])
  }

  /** `complete_task`: pops the agent's task and returns it with the rest of
      the dictionary, or `InvalidTask` when there is none. The registry plays
      no part. */
  function Complete(tasks: Tasks, agentId: string): (r: Result<(string, Tasks)>)
    ensures r.Ok? <==> agentId in tasks
    ensures r.Err? ==> r.error == InvalidTask
    ensures r.Ok? ==>
      && r.value.0 == tasks[agentId]
      && r.value.1.Keys == tasks.Keys - {agentId}
      && forall id :: id in r.value.1 ==> r.value.1[id] == tasks[id]
  {
    if agentId in tasks then Ok((tasks[agentId], tasks - {agentId}))
    else Err(InvalidTask)
  }

  /** `active_assignments`: the task descriptions, as the bag of values. */
  ghost function ActiveAssignments(tasks: Tasks): (r: multiset<string>)
    ensures |r| == |tasks|
    ensures forall d :: d in r ==> exists id :: id in tasks && tasks[id] == d
  {
    MapValues.Values(tasks)
  }

  /** Assignment stores only non-blank descriptions. */
  lemma AssignKeepsNonBlank(tasks: Tasks, agents: RegistryState.Agents, agentId: string, description: string)
    requires NonBlankTasks(tasks)
    ensures Assign(tasks, agents, agentId, description).Ok? ==>
      NonBlankTasks(Assign(tasks, agents, agentId, description).value)
  {
  }

  /** Completion only removes, so what is left is non-blank too. */
  lemma CompleteKeepsNonBlank(tasks: Tasks, agentId: string)
    requires NonBlankTasks(tasks)
    ensures Complete(tasks, agentId).Ok? ==> NonBlankTasks(Complete(tasks, agentId).value.1)
  {
  }

  /** Completing right after a successful assignment returns the assigned
      description and leaves the other agents' tasks as they were. */
  lemma AssignThenComplete(tasks: Tasks, agents: RegistryState.Agents, agentId: string, description: string)
    requires Assign(tasks, agents, agentId, description).Ok?
    ensures Complete(Assign(tasks, agents, agentId, description).value, agentId)
      == Ok((description, tasks - {agentId}))
  {
    var withTask := Assign(tasks, agents, agentId, description).value;
    assert withTask - {agentId} == tasks - {agentId};
  }

  /** A description is active exactly when some agent holds it, and there is
      one active description per agent holding a task. */
  lemma ActiveAssignmentsContents(tasks: Tasks, description: string)
    ensures description in ActiveAssignments(tasks) <==>
      exists id :: id in tasks && tasks[id] == description
    ensures |ActiveAssignments(tasks)| == |tasks|
  {
    MapValues.ValuesMember(tasks, description);
  }

  /** Assignment puts the new description among the active ones in place of
      the agent's previous task, if it had one. */
  lemma AssignActiveAssignments(tasks: Tasks, agents: RegistryState.Agents, agentId: string, description: string)
    requires Assign(tasks, agents, agentId, description).Ok?
    ensures ActiveAssignments(Assign(tasks, agents, agentId, description).value)
      == ActiveAssignments(tasks - {agentId}) + multiset{description}
  {
    MapValues.ValuesStore(tasks, agentId, description);
  }

  /** Completion takes exactly one occurrence of the returned description out
      of the active ones. */
  lemma CompleteActiveAssignments(tasks: Tasks, agentId: string)
    requires Complete(tasks, agentId).Ok?
    ensures var (done, rest) := Complete(tasks, agentId).value;
      ActiveAssignments(rest) == ActiveAssignments(tasks) - multiset{done}
  {
    MapValues.ValuesRemove(tasks, agentId);
  }

  /** The task lifecycle from no active tasks: assign, then complete, returns
      the description and leaves no active assignment. */
  lemma Lifecycle(agents: RegistryState.Agents, agentId: string, description: string)
    requires !IsBlank(description) && agentId in agents
    ensures var withTask := Assign(map[], agents, agentId, description);
      && withTask.Ok?
      && description in ActiveAssignments(withTask.value)
      && Complete(withTask.value, agentId).Ok?
      && Complete(withTask.value, agentId).value.0 == description
      && ActiveAssignments(Complete(withTask.value, agentId).value.1) == multiset{}
  {
  }
}
