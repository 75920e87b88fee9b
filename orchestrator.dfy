/** The task orchestrator: a non-owning reference to a registry and a
    dictionary of active tasks that `assign_task` and `complete_task` change
    in place. Each method is proved to follow the matching function of
    `TaskState`; neither method changes the registry. */
module Orchestrator {
  import opened Outcomes
  import opened Text
  import opened AgentProfile
  import Registry
  import TaskState

  class AgentOrchestrator {
    /** The registry consulted for agent existence; the orchestrator never
        changes it. */
    const registry: Registry.AgentRegistry
    /** The active tasks (`_active_tasks`). */
    var tasks: map<string, string>

    ghost predicate Valid()
      reads this
    {
      TaskState.NonBlankTasks(tasks)
    }

    /** An orchestrator over `registry` with no active tasks. */
    constructor(registry: Registry.AgentRegistry)
      ensures Valid()
      ensures this.registry == registry && tasks == map[]
    {
      this.registry := registry;
      tasks := map[];
    }

    /** `assign_task`: rejects a blank description, then resolves the agent
        through the registry's `get` (re-raising its `NotFound`), then stores
        or overwrites the agent's task. */
    method AssignTask(agentId: string, description: string) returns (r: Result<()>)
      requires Valid()
      modifies this
      ensures Valid()
      ensures unchanged(registry)
      ensures var s := TaskState.Assign(old(tasks), registry.agents, agentId, description);
        if s.Ok? then r == Ok(()) && tasks == s.value
        else r == Err(s.error) && tasks == old(tasks)
    {
      if Strip(description) == [] {
        return Err(InvalidTask);
      }
      var found := registry.Get(agentId);
      if found.Err? {
        return Err(NotFound);
      }
      tasks := tasks[agentId := description];
      r := Ok(());
    }

    /** `complete_task`: pops and returns the agent's task, or `InvalidTask`
        when it has none. The registry is not consulted. */
    method CompleteTask(agentId: string) returns (r: Result<string>)
      requires Valid()
      modifies this
      ensures Valid()
      ensures unchanged(registry)
      ensures var s := TaskState.Complete(old(tasks), agentId);
        if s.Ok? then r == Ok(s.value.0) && tasks == s.value.1
        else r == Err(s.error) && tasks == old(tasks)
    {
      if agentId !in tasks {
        return Err(InvalidTask);
      }
      r := Ok(tasks[agentId]);
      tasks := tasks - {agentId};
    }

    /** `active_assignments`: the descriptions of the active tasks, one per
        agent holding a task. */
    ghost function ActiveAssignments(): (r: multiset<string>)
      reads this
      ensures |r| == |tasks|
      ensures forall d :: d in r <==> exists id :: id in tasks && tasks[id] == d
    {
      var r := TaskState.ActiveAssignments(tasks);
      assert |r| == |tasks| by {
        TaskState.ActiveAssignmentsContents(tasks, "");
      }
      assert forall d :: d in r <==> exists id :: id in tasks && tasks[id] == d by {
        forall d ensures d in r <==> exists id :: id in tasks && tasks[id] == d {
          TaskState.ActiveAssignmentsContents(tasks, d);
        }
      }
      r
    }
  }

  /** The end-to-end flow: register an agent, assign it a task, see the task
      among the active ones, complete it, and see no active task left. The
      orchestrator leaves the registry as it was. */
  method EndToEnd() returns (completed: Result<string>, ghost active: multiset<string>, ghost stored: map<string, Profile>)
    ensures completed == Ok("Answer life questions")
    ensures active == multiset{}
    ensures stored.Keys == {"agent-42"} && stored["agent-42"].displayName == "Agent 42"
  {
    var registry := new Registry.AgentRegistry(100);
    var agent := Create("agent-42", "Agent 42", [], None, None);
    var registered := registry.Register(agent.value);
    assert registered == Ok(());

    var orchestrator := new AgentOrchestrator(registry);
    var task := "Answer life questions";
    assert !IsSpace(task[0]);
    var assignment := orchestrator.AssignTask("agent-42", task);
    assert assignment == Ok(());
    assert task in orchestrator.ActiveAssignments();

    completed := orchestrator.CompleteTask("agent-42");
    active := orchestrator.ActiveAssignments();
    stored := registry.agents;
  }

  /** Removing an agent from the registry leaves its active task in place,
      and the task can still be completed. */
  method DeregisterKeepsTask() returns (removed: Option<Profile>, completed: Result<string>)
    ensures removed.Some? && removed.value.identifier == "agent-1"
    ensures completed == Ok("Process dataset")
  {
    var registry := new Registry.AgentRegistry(10);
    var agent := Create("agent-1", "Agent One", [], None, None);
    var _ := registry.Register(agent.value);
    var orchestrator := new AgentOrchestrator(registry);
    var task := "Process dataset";
    assert !IsSpace(task[0]);
    var _ := orchestrator.AssignTask("agent-1", task);

    removed := registry.Deregister("agent-1");
    assert orchestrator.tasks == map["agent-1" := task];
    completed := orchestrator.CompleteTask("agent-1");
  }
}
