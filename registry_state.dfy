/** The registry's dictionary from identifier to profile, and what each
    registry operation does to it, as functions on map values. The class
    `Registry.AgentRegistry` is proved to follow these functions. */
module RegistryState {
  import opened Outcomes
  import opened AgentProfile
  import MapValues

  /** The stored profiles, keyed by identifier. */
  type Agents = map<string, Profile>

  /** Every profile is stored under its own identifier. */
  predicate KeyedByIdentifier(agents: Agents)
  {
    forall id :: id in agents ==> agents[id].identifier == id
  }

  /** What the registry keeps true: the capacity ceiling holds and every
      profile sits under its own identifier. */
  predicate Valid(agents: Agents, capacity: nat)
  {
    && |agents| <= capacity
    && KeyedByIdentifier(agents)
  }

  /** Every stored profile satisfies the field bounds. */
  predicate AllBounded(agents: Agents)
  {
    forall id :: id in agents ==> Bounded(agents[id])
  }

  /** `register`: the capacity test comes first, then the duplicate test, and
      both report `AlreadyRegistered`; otherwise the profile is stored under
      its identifier. The result holds the new dictionary. */
  function Register(agents: Agents, capacity: nat, profile: Profile): (r: Result<Agents>)
    ensures |agents| >= capacity ==> r == Err(AlreadyRegistered)
    ensures profile.identifier in agents ==> r == Err(AlreadyRegistered)
    ensures r.Ok? <==> |agents| < capacity && profile.identifier !in agents
    ensures r.Ok? ==>
      && r.value.Keys == agents.Keys + {profile.identifier}
      && |r.value| == |agents| + 1
      && r.value[profile.identifier] == profile
      && forall id :: id in agents ==> r.value[id] == agents[id]
  {
    if |agents| >= capacity then Err(AlreadyRegistered)
    else if profile.identifier in agents then Err(AlreadyRegistered)
    else Ok(agents[profile.identifier := profile])
  }

  /** `get`: the stored profile, or `NotFound`. */
  function Get(agents: Agents, identifier: string): (r: Result<Profile>)
    ensures r.Ok? <==> identifier in agents
    ensures r.Ok? ==> r.value == agents[identifier]
    ensures r.Err? ==> r.error == NotFound
  {
    if identifier in agents then Ok(agents[identifier]) else Err(NotFound)
  }

  /** `update_status`: `NotFound` from the lookup, or the dictionary in which
      that one profile is replaced by a copy carrying `status` exactly as
      given (the copy does not go through the lower-casing validator). The
      updated profile is the new dictionary's entry for `identifier`. */
  function UpdateStatus(agents: Agents, identifier: string, status: string): (r: Result<Agents>)
    ensures r.Ok? <==> identifier in agents
    ensures r.Err? ==> r.error == NotFound
    ensures r.Ok? ==>
      && r.value.Keys == agents.Keys
      && r.value[identifier] == agents[identifier].(status := status)
      && forall id :: id in agents && id != identifier ==> r.value[id] == agents[id]
  {
    match Get(agents, identifier)
    case Err(e) => Err(e)
    case Ok(p) => Ok(agents[identifier := p.(status := status)])
  }

  /** `deregister`: `pop(identifier, None)`, the removed profile if there was
      one, and the dictionary without that key. Absence is not an error. */
  function Deregister(agents: Agents, identifier: string): (r: (Option<Profile>, Agents))
    ensures r.0.Some? <==> identifier in agents
    ensures r.0.Some? ==> r.0.value == agents[identifier]
    ensures r.1.Keys == agents.Keys - {identifier}
    ensures forall id :: id in r.1 ==> r.1[id] == agents[id]
    ensures identifier !in agents ==> r.1 == agents
  {
    if identifier in agents then (Some(agents[identifier]), agents - {identifier})
    else (None, agents)
  }

  /** `list`: the stored profiles, as the bag of dictionary values. */
  ghost function List(agents: Agents): (r: multiset<Profile>)
    ensures |r| == |agents|
    ensures forall p :: p in r ==> exists id :: id in agents && agents[id] == p
  {
    MapValues.Values(agents)
  }

  /** A successful registration keeps the registry's invariant, and keeps
      all profiles in bounds when the new one is. */
  lemma RegisterKeepsValid(agents: Agents, capacity: nat, profile: Profile)
    requires Valid(agents, capacity)
    ensures var r := Register(agents, capacity, profile);
      r.Ok? ==> Valid(r.value, capacity) && (AllBounded(agents) && Bounded(profile) ==> AllBounded(r.value))
  {
  }

  /** A status update keeps the registry's invariant and the field bounds. */
  lemma UpdateStatusKeepsValid(agents: Agents, capacity: nat, identifier: string, status: string)
    requires Valid(agents, capacity)
    ensures var r := UpdateStatus(agents, identifier, status);
      r.Ok? ==> Valid(r.value, capacity) && (AllBounded(agents) ==> AllBounded(r.value))
  {
  }

  /** Removal keeps the registry's invariant and the field bounds. */
  lemma DeregisterKeepsValid(agents: Agents, capacity: nat, identifier: string)
    requires Valid(agents, capacity)
    ensures var r := Deregister(agents, identifier).1;
      Valid(r, capacity) && (AllBounded(agents) ==> AllBounded(r))
  {
  }

  /** Looking up a profile right after registering it yields that profile. */
  lemma RegisterThenGet(agents: Agents, capacity: nat, profile: Profile)
    requires Register(agents, capacity, profile).Ok?
    ensures Get(Register(agents, capacity, profile).value, profile.identifier) == Ok(profile)
  {
  }

  /** Registering a second profile with the same identifier fails and the
      registry keeps the first one. */
  lemma RegisterTwiceFails(agents: Agents, capacity: nat, first: Profile, second: Profile)
    requires Register(agents, capacity, first).Ok?
    requires second.identifier == first.identifier
    ensures var after := Register(agents, capacity, first).value;
      Register(after, capacity, second) == Err(AlreadyRegistered)
      && Get(after, first.identifier) == Ok(first)
  {
  }

  /** The lookup after a status update sees the status exactly as given, and
      a second identical update changes nothing. */
  lemma UpdateStatusThenGet(agents: Agents, identifier: string, status: string)
    requires identifier in agents
    ensures var after := UpdateStatus(agents, identifier, status);
      && after.Ok?
      && Get(after.value, identifier) == Ok(agents[identifier].(status := status))
      && UpdateStatus(after.value, identifier, status) == after
  {
    var after := UpdateStatus(agents, identifier, status).value;
    assert after[identifier := after[identifier].(status := status)] == after;
  }

  /** After removal the lookup fails, and removing again is a no-op that
      reports absence. */
  lemma DeregisterThenGet(agents: Agents, identifier: string)
    ensures var after := Deregister(agents, identifier).1;
      && Get(after, identifier) == Err(NotFound)
      && Deregister(after, identifier) == (None, after)
  {
  }

  /** When every profile sits under its own identifier, each stored profile
      occurs exactly once in `List`, which therefore has one entry per key. */
  lemma {:induction false} ListOncePerAgent(agents: Agents, identifier: string)
    requires KeyedByIdentifier(agents)
    requires identifier in agents
    ensures List(agents)[agents[identifier]] == 1
    ensures |List(agents)| == |agents|
  {
    var p := agents[identifier];
    var rest := agents - {identifier};
    MapValues.ValuesRemove(agents, identifier);
    MapValues.ValuesMember(rest, p);
  }

  /** A stored profile occurs in `List`, and everything `List` holds is stored
      under its own identifier. */
  lemma {:induction false} ListContents(agents: Agents, p: Profile)
    requires KeyedByIdentifier(agents)
    ensures p in List(agents) <==> p.identifier in agents && agents[p.identifier] == p
  {
    MapValues.ValuesMember(agents, p);
    if p in List(agents) {
      var j :| j in agents && agents[j] == p;
    }
  }

  /** Successive `register` calls, stopping at the first failure. */
  function RegisterAll(agents: Agents, capacity: nat, profiles: seq<Profile>): (r: Result<Agents>)
    decreases |profiles|
  {
    if profiles == [] then Ok(agents)
    else match Register(agents, capacity, profiles[0])
      case Err(e) => Err(e)
      case Ok(next) => RegisterAll(next, capacity, profiles[1..])
  }

  /** No two profiles share an identifier. */
  predicate DistinctIdentifiers(profiles: seq<Profile>)
  {
    forall i, j :: 0 <= i < j < |profiles| ==> profiles[i].identifier != profiles[j].identifier
  }

  /** New, distinct identifiers that fit under the ceiling are all stored. */
  lemma {:induction false} RegisterAllFits(agents: Agents, capacity: nat, profiles: seq<Profile>)
    requires |agents| + |profiles| <= capacity
    requires DistinctIdentifiers(profiles)
    requires forall i :: 0 <= i < |profiles| ==> profiles[i].identifier !in agents
    ensures RegisterAll(agents, capacity, profiles).Ok?
    ensures |RegisterAll(agents, capacity, profiles).value| == |agents| + |profiles|
    decreases |profiles|
  {
    if profiles != [] {
      var next := Register(agents, capacity, profiles[0]).value;
      var tail := profiles[1..];
      forall i | 0 <= i < |tail|
        ensures tail[i].identifier !in next
      {
        assert tail[i] == profiles[i + 1];
      }
      RegisterAllFits(next, capacity, tail);
    }
  }

  /** The capacity ceiling: after `capacity` successful registrations into an
      empty registry, the next one fails with `AlreadyRegistered` whatever its
      identifier. */
  lemma CapacityCeiling(capacity: nat, profiles: seq<Profile>, next: Profile)
    requires |profiles| == capacity
    requires DistinctIdentifiers(profiles)
    ensures RegisterAll(map[], capacity, profiles).Ok?
    ensures Register(RegisterAll(map[], capacity, profiles).value, capacity, next) == Err(AlreadyRegistered)
  {
    RegisterAllFits(map[], capacity, profiles);
  }
}
