/** The in-memory agent registry: a dictionary from identifier to profile that
    `register`, `update_status` and `deregister` change in place. Each method
    is proved to follow the matching function of `RegistryState`. */
module Registry {
  import opened Outcomes
  import opened AgentProfile
  import RegistryState

  class AgentRegistry {
    /** The stored profiles (`_agents`). */
    var agents: map<string, Profile>
    /** The configured ceiling on the number of stored profiles. */
    const capacity: nat

    ghost predicate Valid()
      reads this
    {
      RegistryState.Valid(agents, capacity)
    }

    /** An empty registry whose ceiling is the configured capacity. */
    constructor(capacity: nat)
      requires 1 <= capacity <= 1000
      ensures Valid()
      ensures agents == map[] && this.capacity == capacity
    {
      agents := map[];
      this.capacity := capacity;
    }

    /** `register`: stores `profile` unless the registry is full or the
        identifier is taken; both failures leave the dictionary unchanged. */
    method Register(profile: Profile) returns (r: Result<()>)
      requires Valid()
      modifies this
      ensures Valid()
      ensures var s := RegistryState.Register(old(agents), capacity, profile);
        if s.Ok? then r == Ok(()) && agents == s.value
        else r == Err(s.error) && agents == old(agents)
    {
      if |agents| >= capacity {
        return Err(AlreadyRegistered);
      }
      if profile.identifier in agents {
        return Err(AlreadyRegistered);
      }
      agents := agents[profile.identifier := profile];
      r := Ok(());
    }

    /** `get`: a pure read. */
    method Get(identifier: string) returns (r: Result<Profile>)
      ensures r == RegistryState.Get(agents, identifier)
    {
      if identifier in agents {
        r := Ok(agents[identifier]);
      } else {
        r := Err(NotFound);
      }
    }

    /** `list`: the stored profiles, one occurrence each. */
    ghost function List(): (r: multiset<Profile>)
      reads this
      requires Valid()
      ensures |r| == |agents|
      ensures forall p :: p in r <==> p.identifier in agents && agents[p.identifier] == p
    {
      var r := RegistryState.List(agents);
      assert |r| == |agents| by {
        if agents != map[] {
          var id :| id in agents;
          RegistryState.ListOncePerAgent(agents, id);
        }
      }
      assert forall p :: p in r <==> p.identifier in agents && agents[p.identifier] == p by {
        forall p ensures p in r <==> p.identifier in agents && agents[p.identifier] == p {
          RegistryState.ListContents(agents, p);
        }
      }
      r
    }

    /** `update_status`: replaces the stored profile by a copy with the given
        status and returns that copy; `NotFound` leaves the dictionary as it was. */
    method UpdateStatus(identifier: string, status: string) returns (r: Result<Profile>)
      requires Valid()
      modifies this
      ensures Valid()
      ensures var s := RegistryState.UpdateStatus(old(agents), identifier, status);
        if s.Ok? then r == Ok(s.value[identifier]) && agents == s.value
        else r == Err(s.error) && agents == old(agents)
    {
      var found := Get(identifier);
      if found.Err? {
        return Err(found.error);
      }
      var updated := found.value.(status := status);
      agents := agents[identifier := updated];
      r := Ok(updated);
    }

    /** `deregister`: removes and returns the profile, or returns `None`. */
    method Deregister(identifier: string) returns (r: Option<Profile>)
      requires Valid()
      modifies this
      ensures Valid()
      ensures (r, agents) == RegistryState.Deregister(old(agents), identifier)
    {
      if identifier in agents {
        r := Some(agents[identifier]);
        agents := agents - {identifier};
      } else {
        r := None;
      }
    }
  }
}
