# Agent registry and task orchestrator, modelled in Dafny

This project models the core of the `agentic_py` package:

- the **agent profile** record (`AgentProfile`): bounded text fields, a status lower-cased when the record is built, and the copy-on-write `add_skill`;
- the **agent registry** (`AgentRegistry`): a dictionary from identifier to profile with a capacity ceiling, unique identifiers, lookup, listing, status update and removal;
- the **task orchestrator** (`AgentOrchestrator`): a non-owning reference to a registry and a dictionary from agent identifier to its one active task, with assignment and completion.

Layout:

| file | module | contents |
|---|---|---|
| `outcomes.dfy` | `Outcomes` | the error kinds (`AlreadyRegistered`, `NotFound`, `InvalidTask`), `Result`, `Option` |
| `text.dfy` | `Text` | Python's `str.strip()` and `str.lower()` |
| `map_values.dfy` | `MapValues` | `dict.values()` as a multiset, with its lemmas |
| `agent_profile.dfy` | `AgentProfile` | the profile datatype, `Create`, `AddSkill` and their lemmas |
| `registry_state.dfy` | `RegistryState` | each registry operation as a function on the dictionary, and the lemmas about them |
| `registry.dfy` | `Registry` | the class `AgentRegistry`, whose methods change its `agents` map in place and are proved to follow `RegistryState` |
| `task_state.dfy` | `TaskState` | assignment and completion as functions on the task dictionary, and the lemmas about them |
| `orchestrator.dfy` | `Orchestrator` | the class `AgentOrchestrator`, proved to follow `TaskState`, and two end-to-end scenarios |

An operation that raises in Python returns `Err(kind)` here. A failing operation leaves the state unchanged. Each class method's `ensures` ties its result and its new state to the matching pure function of the old state. The lemmas about those pure functions state the properties: check order, frame ("nothing else changes"), round trips with `get`, idempotence, and preserved invariants.

Three behaviours of the code that its names and docstrings do not suggest; the model follows the code:

- A full registry reports `AlreadyRegistered`, the same kind as a duplicate identifier. The package has no separate capacity error.
- `update_status` stores the status exactly as given. The copy is made without re-running the lower-casing validator, so an upper-case status stays upper-case in the registry. Only `Create` lower-cases.
- The default status `"idle"` is not passed through the validator, because defaults are not validated. It is already lower-case, so nothing observable changes.

## Model

| member | source | states |
|---|---|---|
| Text.TrimStart | src/agentic_py/services/orchestrator.py:23 | the result is a suffix of the input, everything dropped is whitespace, and the result does not start with whitespace |
| Text.TrimEnd | src/agentic_py/services/orchestrator.py:23 | the result is a prefix of the input, everything dropped is whitespace, and the result does not end with whitespace |
| Text.Strip | src/agentic_py/services/orchestrator.py:23 | `strip()` yields a slice of the input with only whitespace cut off at either end; it is empty exactly when the input is blank, and otherwise starts and ends with a non-whitespace character |
| Text.Lower | src/agentic_py/models/agent_profile.py:29-33 | lower-casing keeps the length and maps each character to its lower-case form |
| Text.LowerIdempotent | src/agentic_py/models/agent_profile.py:29-33 | a lower-cased status is lower-case, and lower-casing it again changes nothing |
| Text.LowerOfLowerCase | src/agentic_py/models/agent_profile.py:29-33 | a string with no upper-case letter is its own lower-casing |
| MapValues.Values | src/agentic_py/core/agent_registry.py:43-45 | `dict.values()` as a bag: one occurrence per key, and every value in it is stored under some key |
| AgentProfile.Create | src/agentic_py/models/agent_profile.py:10-33 | building succeeds exactly when identifier is 3-50 long, display name 3-100 and description absent or at most 250; the fields are kept; a given status is stored lower-cased, and a missing one becomes "idle" |
| AgentProfile.CreatedStatusIsNormal | src/agentic_py/models/agent_profile.py:19-33 | a built profile's status is unchanged by lower-casing it again |
| AgentProfile.CreateKeepsDuplicateSkills | src/agentic_py/models/agent_profile.py:15-18 | building a profile does not deduplicate skills: ["Go", "go"] is accepted as given |
| AgentProfile.AddSkill | src/agentic_py/models/agent_profile.py:35-40 | a skill already present up to case returns the profile unchanged; otherwise the copy has the skill appended and every other field identical; afterwards the skill is present, and the list grew by at most one |
| AgentProfile.AddSkillIdempotent | src/agentic_py/models/agent_profile.py:37-40 | adding the same skill twice equals adding it once |
| AgentProfile.AddSkillKeepsDistinct | src/agentic_py/models/agent_profile.py:37-40 | skills that are pairwise distinct up to case stay so |
| AgentProfile.AddSkillKeepsFields | src/agentic_py/models/agent_profile.py:39-40 | identifier, display name, status and description are unchanged, so the field bounds keep holding |
| AgentProfile.SkillDedupExample | src/agentic_py/models/agent_profile.py:37-40 | adding "Python" then "python" to a profile without skills leaves exactly ["Python"] |
| RegistryState.Register | src/agentic_py/core/agent_registry.py:19-32 | a full registry fails with AlreadyRegistered, whether or not the identifier is taken (capacity first); a taken identifier fails with AlreadyRegistered; otherwise exactly the key profile.identifier is added, mapped to the profile, the size grows by one and all other entries are unchanged |
| RegistryState.Get | src/agentic_py/core/agent_registry.py:34-41 | the stored profile when the identifier is present, NotFound exactly when it is absent |
| RegistryState.UpdateStatus | src/agentic_py/core/agent_registry.py:47-52 | NotFound exactly when the identifier is absent; otherwise the keys are unchanged, that one entry becomes the old profile with the status replaced verbatim, and every other entry is unchanged |
| RegistryState.Deregister | src/agentic_py/core/agent_registry.py:54-56 | returns the stored profile exactly when the identifier was present, and None otherwise; the key is gone afterwards, other entries are unchanged, and an absent identifier leaves the dictionary as it was |
| RegistryState.List | src/agentic_py/core/agent_registry.py:43-45 | the bag of stored profiles, one occurrence per key, each one stored under some identifier |
| RegistryState.RegisterKeepsValid | src/agentic_py/core/agent_registry.py:19-32 | a successful register keeps size at most capacity and every profile under its own identifier, and keeps the field bounds when the new profile meets them |
| RegistryState.UpdateStatusKeepsValid | src/agentic_py/core/agent_registry.py:47-52 | a status update keeps the capacity ceiling, the keying by identifier and the field bounds |
| RegistryState.DeregisterKeepsValid | src/agentic_py/core/agent_registry.py:54-56 | removal keeps the capacity ceiling, the keying by identifier and the field bounds |
| RegistryState.RegisterThenGet | src/agentic_py/core/agent_registry.py:32-37 | get right after a successful register returns the registered profile |
| RegistryState.RegisterTwiceFails | tests/unit/test_agent_registry.py:20-30 | registering a second profile with an identifier already registered fails with AlreadyRegistered and the first profile stays |
| RegistryState.UpdateStatusThenGet | src/agentic_py/core/agent_registry.py:47-52 | get after update_status sees the old profile with exactly the given status, and repeating the same update changes nothing |
| RegistryState.DeregisterThenGet | tests/unit/test_agent_registry.py:33-47 | get after deregister fails with NotFound, and a second deregister returns None and changes nothing |
| RegistryState.ListOncePerAgent | src/agentic_py/core/agent_registry.py:43-45 | with every profile under its own identifier, each stored profile occurs exactly once among the listed values, and there are as many as stored entries |
| RegistryState.ListContents | src/agentic_py/core/agent_registry.py:43-45 | a profile is listed exactly when it is stored under its own identifier |
| RegistryState.RegisterAllFits | src/agentic_py/core/agent_registry.py:21-32 | registering new, pairwise distinct identifiers that fit under the capacity all succeed and the size grows by their number |
| RegistryState.CapacityCeiling | src/agentic_py/core/agent_registry.py:21-25 | after capacity registrations of distinct identifiers into an empty registry, the next register fails with AlreadyRegistered whatever its identifier |
| Registry.AgentRegistry.constructor | src/agentic_py/core/agent_registry.py:13-17 | a new registry is empty, has the given capacity, and satisfies the invariant |
| Registry.AgentRegistry.Register | src/agentic_py/core/agent_registry.py:19-32 | the result and the new dictionary are those of RegistryState.Register on the old one, a failure leaves the dictionary unchanged, and the invariant is kept |
| Registry.AgentRegistry.Get | src/agentic_py/core/agent_registry.py:34-41 | returns what RegistryState.Get gives for the current dictionary, changing nothing |
| Registry.AgentRegistry.List | src/agentic_py/core/agent_registry.py:43-45 | the listed profiles are exactly the stored ones, one occurrence per stored entry |
| Registry.AgentRegistry.UpdateStatus | src/agentic_py/core/agent_registry.py:47-52 | follows RegistryState.UpdateStatus and returns the updated profile; NotFound leaves the dictionary unchanged |
| Registry.AgentRegistry.Deregister | src/agentic_py/core/agent_registry.py:54-56 | the returned profile and the new dictionary are those of RegistryState.Deregister on the old one |
| TaskState.Assign | src/agentic_py/services/orchestrator.py:21-29 | a blank description fails with InvalidTask whatever the registry holds; otherwise an agent absent from the registry fails with NotFound; success happens exactly when neither holds, and then sets the agent's task to the description, overwriting any earlier one, with all other tasks unchanged |
| TaskState.Complete | src/agentic_py/services/orchestrator.py:31-39 | succeeds exactly when the agent has a task, returning that task and the dictionary without that key and nothing else changed; otherwise InvalidTask; the registry is not an input |
| TaskState.ActiveAssignments | src/agentic_py/services/orchestrator.py:41-43 | the bag of active task descriptions, one occurrence per agent holding a task, each one held by some agent |
| TaskState.AssignKeepsNonBlank | src/agentic_py/services/orchestrator.py:23-29 | if no stored task is blank, none is after a successful assign |
| TaskState.CompleteKeepsNonBlank | src/agentic_py/services/orchestrator.py:31-35 | if no stored task is blank, none is after a successful complete |
| TaskState.AssignThenComplete | src/agentic_py/services/orchestrator.py:21-39 | complete right after a successful assign returns the assigned description and leaves the other agents' tasks as before |
| TaskState.ActiveAssignmentsContents | src/agentic_py/services/orchestrator.py:41-43 | a description is active exactly when some agent holds it, with one entry per agent holding a task |
| TaskState.AssignActiveAssignments | src/agentic_py/services/orchestrator.py:21-29 | a successful assign replaces the agent's previous task, if any, by the new description among the active ones |
| TaskState.CompleteActiveAssignments | src/agentic_py/services/orchestrator.py:31-39 | a successful complete removes exactly one occurrence of the returned description from the active ones |
| TaskState.Lifecycle | tests/integration/test_workflow.py:9-19 | from no tasks, assigning a non-blank task to a registered agent makes it active, and completing returns it and leaves no active task |
| Orchestrator.AgentOrchestrator.constructor | src/agentic_py/services/orchestrator.py:14-19 | a new orchestrator holds the given registry and no tasks |
| Orchestrator.AgentOrchestrator.AssignTask | src/agentic_py/services/orchestrator.py:21-29 | the result and the new task dictionary are those of TaskState.Assign on the old one and the registry's current dictionary; a failure leaves the tasks unchanged; the registry is unchanged; no task becomes blank |
| Orchestrator.AgentOrchestrator.CompleteTask | src/agentic_py/services/orchestrator.py:31-39 | the result and the new task dictionary are those of TaskState.Complete on the old one; the registry is unchanged; no task becomes blank |
| Orchestrator.AgentOrchestrator.ActiveAssignments | src/agentic_py/services/orchestrator.py:41-43 | the active descriptions are exactly those some agent holds, one per agent holding a task |
| Orchestrator.EndToEnd | tests/integration/test_workflow.py:9-19 | register "agent-42", assign "Answer life questions", see it active, complete it: the result is that description, no task is left active, and the registry still holds exactly agent-42 |
| Orchestrator.DeregisterKeepsTask | src/agentic_py/services/orchestrator.py:31-39 | deregistering an agent returns its profile and leaves its task in place, and completing that task still returns it |

## Left out

- Configuration loading (`config.py`): the capacity is a constructor parameter in 1..1000. In the source it is one cached, process-wide value (`get_config` is memoised), shared by all registries and read on every `register`; only mutating the cached object or clearing the cache changes it. The model fixes it per registry instead.
- Logging (`utils/logging.py` and the `logger.info` calls): side effects only, with no effect on state.
- Error message texts, including the message `_get_agent` adds when it re-raises `NotFound`. Only the error kind is kept.
- The exception class hierarchy (`exceptions.py`): represented by the three error kinds.
- Pydantic's validation error: a failed `Create` returns `None`, because that error is not one of the core's kinds.
- Text.Lower: only ASCII letters are lower-cased. Python's `str.lower()` also maps non-ASCII letters and can change the length (for example U+0130).
- Iteration order of `dict.values()`, and the fact that it is a live view: `List` and `ActiveAssignments` give the values as a multiset taken at the time of the call.
- Object identity and aliasing: profiles are values here. `add_skill` returning `self` rather than an equal copy is not observable. In the source the registry stores and returns the profile objects themselves, so a caller that mutates a returned profile (for example its `skills` list) changes the stored entry; the model does not capture that aliasing.
- Orchestrator.AgentOrchestrator: `registry` is a `const` field. In the source it is an ordinary dataclass field that a caller could rebind; nothing in the core rebinds it.
- Concurrency: the source is single-threaded and has no locking.
