/** What the player cache's operations do to its two-way store, as pure
    functions: the change-reporting update and `modify`, the read-through
    resolvers and the remote profile service gate. */
module PlayerCacheSpec {
  import opened Wrappers
  import opened Uuids
  import opened BiMaps
  import opened PlayerGameProfiles

  /** Exceptions that escape a cache operation: the `IllegalArgumentException`
      of `BiMap.put` when the name already belongs to another UUID, and the
      failure of the remote query a resolver's future was chained to. */
  datatype CacheError = NameTaken | LookupFailed

  /** A profile as the remote profile service returns it. */
  datatype RemoteProfile = RemoteProfile(uuid: Uuid, username: string)

  /** How the remote query's future completes: with a profile, with null, or
      exceptionally. */
  datatype RemoteAnswer = Found(profile: RemoteProfile) | NotFound | QueryFailed

  /** The remote profile service as one resolution sees it: whether the server
      holds a session token, and how the query would complete. */
  datatype RemoteService = RemoteService(hasSessionToken: bool, answer: RemoteAnswer)

  /** `getProfileLookup()`: the service can be asked only when a session token
      is held; the result is then the answer it gives. */
  function GetProfileLookup(service: RemoteService): (lookup: Option<RemoteAnswer>)
    ensures lookup.Some? <==> service.hasSessionToken
    ensures lookup.Some? ==> lookup.value == service.answer
  {
    if !service.hasSessionToken then None else Some(service.answer)
  }

  /** The outcome of one cache operation: its result or exception, the store
      afterwards, and whether it called `syncSave`. */
  datatype Effect<+T> = Effect(result: Result<T, CacheError>, store: BiMap, saved: bool)

  /** What the function handed to `modify` produced: an exception, or whether
      it reports a change together with the store it left. */
  type Mutation = Result<(bool, BiMap), CacheError>

  /** A function handed to `modify` keeps a consistent store consistent. */
  ghost predicate KeepsValid(f: BiMap -> Mutation)
  {
    forall b: BiMap | b.Valid() && f(b).Success? :: f(b).value.1.Valid()
  }

  /** `modify`: apply the mutation and save exactly when it reports a change;
      an exception propagates without a save. `modify` does not roll back: a
      `Mutation` that fails carries no store, so a function that throws is
      taken to throw before it changes anything. That holds for the put in
      `updatePlayerProfile`, since `HashBiMap.put` checks for a taken name
      before it touches either table. */
  function ModifyEffect(b: BiMap, mutation: Mutation): (e: Effect<bool>)
    ensures e.saved <==> e.result == Success(true)
    ensures mutation.Failure? ==> e.result == Failure(mutation.error) && e.store == b
    ensures mutation.Success? ==> e.result == Success(mutation.value.0) && e.store == mutation.value.1
  {
    match mutation
    case Failure(err) => Effect(Failure(err), b, false)
    case Success((changed, after)) => Effect(Success(changed), after, changed)
  }

  /** The predicate `updatePlayerProfile` hands to `modify`: put the pair and
      report a change when the previous name was absent or different. */
  function PutReportingChange(b: BiMap, u: Uuid, n: string): (r: Mutation)
    ensures r.Failure? <==> b.Put(u, n).Failure?
    ensures r.Failure? ==> r.error == NameTaken
    ensures r.Success? ==> r.value.0 == (b.Get(u) != Some(n)) && r.value.1.forward == b.forward[u := n]
  {
    match b.Put(u, n)
    case Failure(_) => Failure(NameTaken)
    case Success((prev, after)) => Success((prev != Some(n), after))
  }

  /** `updatePlayerProfile(u, n)`. */
  function UpdateEffect(b: BiMap, u: Uuid, n: string): (e: Effect<bool>)
    ensures e.saved <==> e.result == Success(true)
    ensures e.result.Failure? ==> e.result.error == NameTaken && e.store == b
    ensures e.result.Success? ==>
      e.result.value == (b.Get(u) != Some(n)) && e.store.forward == b.forward[u := n]
  {
    ModifyEffect(b, PutReportingChange(b, u, n))
  }

  /** A name is taken when another UUID holds it. */
  predicate NameTakenByOther(b: BiMap, u: Uuid, n: string)
    requires b.Valid()
  {
    b.InverseGet(n).Some? && b.InverseGet(n) != Some(u)
  }

  /** What `updatePlayerProfile` promises on a consistent store. It fails, with
      nothing changed or saved, exactly when another UUID holds the name.
      Otherwise `u` is bound to `n`, nothing else in the store changes, the
      old name of `u` leaves the inverse view, and the result and the save
      both say whether the name of `u` was absent or different before. */
  lemma UpdateSpec(b: BiMap, u: Uuid, n: string)
    requires b.Valid()
    ensures var e := UpdateEffect(b, u, n);
      && (e.result.Failure? <==> NameTakenByOther(b, u, n))
      && (e.result.Failure? ==> e.result.error == NameTaken && e.store == b && !e.saved)
      && (e.result.Success? ==>
            && e.result.value == (b.Get(u) != Some(n))
            && e.saved == e.result.value
            && e.store.Valid()
            && e.store.forward == b.forward[u := n]
            && e.store.Get(u) == Some(n)
            && e.store.InverseGet(n) == Some(u)
            && (b.Get(u).Some? && b.Get(u).value != n ==> e.store.InverseGet(b.Get(u).value).None?))
  {
    PutSpec(b, u, n);
  }

  /** Rewriting the name a UUID already has reports no change and saves nothing. */
  lemma UpdateSameNameIsNoop(b: BiMap, u: Uuid, n: string)
    requires b.Get(u) == Some(n)
    ensures UpdateEffect(b, u, n) == Effect(Success(false), b, false)
  {
  }

  /** Writing a remote answer into the store and answering with it: the
      continuation both resolvers attach to the remote query. A null answer
      gives the fallback profile and writes nothing; a query that fails skips
      the continuation, so its failure is the resolution's. */
  function CompleteEffect(b: BiMap, answer: RemoteAnswer, fallback: Profile): (e: Effect<Profile>)
    ensures answer.NotFound? ==> e == Effect(Success(fallback), b, false)
    ensures answer.QueryFailed? ==> e == Effect(Failure(LookupFailed), b, false)
    ensures answer.Found? ==>
      var p := answer.profile;
      var update := UpdateEffect(b, p.uuid, p.username);
      && e.store == update.store && e.saved == update.saved
      && (e.result.Success? <==> update.result.Success?)
      && (e.result.Success? ==> e.result.value == PlayerGameProfile(Some(p.uuid), Some(p.username)))
      && (e.result.Failure? ==> e.result.error == NameTaken)
  {
    match answer
    case NotFound => Effect(Success(fallback), b, false)
    case QueryFailed => Effect(Failure(LookupFailed), b, false)
    case Found(p) =>
      var update := UpdateEffect(b, p.uuid, p.username);
      var result: Result<Profile, CacheError> :=
        if update.result.Success? then Success(PlayerGameProfile(Some(p.uuid), Some(p.username)))
        else Failure(update.result.error);
      Effect(result, update.store, update.saved)
  }

  /** The complete profile built from a remote answer that carries one. */
  function RemoteCompleted(answer: RemoteAnswer): PlayerGameProfile
  {
    if answer.Found? then PlayerGameProfile(Some(answer.profile.uuid), Some(answer.profile.username))
    else PlayerGameProfile(None, None)
  }

  /** `getProfileForId(id)`: the cached name on a hit; on a miss, the remote
      answer when a session token is held, otherwise the id alone. */
  function ResolveByIdEffect(b: BiMap, id: Uuid, service: RemoteService): (e: Effect<Profile>)
    ensures e.store != b || e.saved ==> id !in b.forward && service.hasSessionToken && service.answer.Found?
    ensures e.result.Failure? ==> id !in b.forward && service.hasSessionToken && !service.answer.NotFound?
    ensures e.result.Success? ==>
      e.result.value.uuid == Some(id) || e.result.value == RemoteCompleted(service.answer)
  {
    var cached := b.Get(id);
    if cached.None? && GetProfileLookup(service).Some? then
      CompleteEffect(b, service.answer, PlayerGameProfile(Some(id), None))
    else
      Effect(Success(PlayerGameProfile(Some(id), cached)), b, false)
  }

  /** `getProfileForUsername(name)`: the cached UUID on a hit; on a miss, the
      remote answer when a session token is held, otherwise the name alone. */
  function ResolveByUsernameEffect(b: BiMap, name: string, service: RemoteService): (e: Effect<Profile>)
    requires b.Valid()
    ensures e.store != b || e.saved ==> name !in b.forward.Values && service.hasSessionToken && service.answer.Found?
    ensures e.result.Failure? ==> name !in b.forward.Values && service.hasSessionToken && !service.answer.NotFound?
    ensures e.result.Success? ==>
      e.result.value.username == Some(name) || e.result.value == RemoteCompleted(service.answer)
  {
    var cached := b.InverseGet(name);
    if cached.None? && GetProfileLookup(service).Some? then
      CompleteEffect(b, service.answer, PlayerGameProfile(None, Some(name)))
    else
      Effect(Success(PlayerGameProfile(cached, Some(name))), b, false)
  }

  /** A local hit answers with the cached name, whatever the remote service
      would say (so it is not consulted), and changes and saves nothing. */
  lemma ResolveByIdLocalHit(b: BiMap, id: Uuid, service: RemoteService)
    requires id in b.forward
    ensures ResolveByIdEffect(b, id, service)
         == Effect(Success(PlayerGameProfile(Some(id), Some(b.forward[id]))), b, false)
  {
  }

  /** A miss without a session token, or with a null remote answer, gives the
      incomplete profile holding only the id and leaves the store alone. */
  lemma ResolveByIdMiss(b: BiMap, id: Uuid, service: RemoteService)
    requires id !in b.forward
    requires !service.hasSessionToken || service.answer.NotFound?
    ensures ResolveByIdEffect(b, id, service) == Effect(Success(PlayerGameProfile(Some(id), None)), b, false)
    ensures !ResolveByIdEffect(b, id, service).result.value.IsComplete()
  {
  }

  /** A miss answered by the remote service writes the remote pair through
      `updatePlayerProfile` and answers with the remote's UUID and username,
      not the query; it fails only when another UUID holds that username. */
  lemma ResolveByIdRemoteHit(b: BiMap, id: Uuid, service: RemoteService)
    requires b.Valid() && id !in b.forward
    requires service.hasSessionToken && service.answer.Found?
    ensures var e := ResolveByIdEffect(b, id, service);
      var p := service.answer.profile;
      var update := UpdateEffect(b, p.uuid, p.username);
      && e.store == update.store && e.saved == update.saved
      && (e.result.Failure? <==> NameTakenByOther(b, p.uuid, p.username))
      && (e.result.Success? ==>
            e.result.value == PlayerGameProfile(Some(p.uuid), Some(p.username))
            && e.result.value.IsComplete()
            && e.store.forward == b.forward[p.uuid := p.username])
  {
    var p := service.answer.profile;
    UpdateSpec(b, p.uuid, p.username);
  }

  /** A miss whose remote query fails makes the resolution fail, with the
      store unchanged and nothing saved: the continuation does not run, so no
      incomplete profile is returned. */
  lemma ResolveLookupFailed(b: BiMap, id: Uuid, name: string, service: RemoteService)
    requires b.Valid() && service == RemoteService(true, QueryFailed)
    requires id !in b.forward && name !in b.backward
    ensures ResolveByIdEffect(b, id, service) == Effect(Failure(LookupFailed), b, false)
    ensures ResolveByUsernameEffect(b, name, service) == Effect(Failure(LookupFailed), b, false)
  {
    BackwardKeysAreNames(b, name);
  }

  /** A local hit by name answers with the cached UUID and changes nothing. */
  lemma ResolveByUsernameLocalHit(b: BiMap, name: string, service: RemoteService)
    requires b.Valid() && name in b.backward
    ensures ResolveByUsernameEffect(b, name, service)
         == Effect(Success(PlayerGameProfile(Some(b.backward[name]), Some(name))), b, false)
  {
  }

  /** A miss by name without a token, or with a null answer, gives the
      incomplete profile holding only the name and leaves the store alone. */
  lemma ResolveByUsernameMiss(b: BiMap, name: string, service: RemoteService)
    requires b.Valid() && name !in b.backward
    requires !service.hasSessionToken || service.answer.NotFound?
    ensures ResolveByUsernameEffect(b, name, service) == Effect(Success(PlayerGameProfile(None, Some(name))), b, false)
    ensures !ResolveByUsernameEffect(b, name, service).result.value.IsComplete()
  {
    BackwardKeysAreNames(b, name);
  }

  /** A miss by name answered by the remote service stores and returns the
      remote's canonical pair, even when its username differs from the query. */
  lemma ResolveByUsernameRemoteHit(b: BiMap, name: string, service: RemoteService)
    requires b.Valid() && name !in b.backward
    requires service.hasSessionToken && service.answer.Found?
    ensures var e := ResolveByUsernameEffect(b, name, service);
      var p := service.answer.profile;
      var update := UpdateEffect(b, p.uuid, p.username);
      && e.store == update.store && e.saved == update.saved
      && (e.result.Failure? <==> NameTakenByOther(b, p.uuid, p.username))
      && (e.result.Success? ==>
            e.result.value == PlayerGameProfile(Some(p.uuid), Some(p.username))
            && e.store.forward == b.forward[p.uuid := p.username])
  {
    BackwardKeysAreNames(b, name);
    var p := service.answer.profile;
    UpdateSpec(b, p.uuid, p.username);
  }

  /** Every resolution keeps the store one-to-one. */
  lemma ResolvePreservesValid(b: BiMap, id: Uuid, name: string, service: RemoteService)
    requires b.Valid()
    ensures ResolveByIdEffect(b, id, service).store.Valid()
    ensures ResolveByUsernameEffect(b, name, service).store.Valid()
  {
    if service.answer.Found? {
      UpdateSpec(b, service.answer.profile.uuid, service.answer.profile.username);
    }
  }

  /** Starting from an empty store, resolving `u` by id with the remote
      service answering (u, name) gives the complete profile and one save;
      resolving `name` right after is then a local hit, whatever the service. */
  lemma ResolveByIdThenByUsername(u: Uuid, name: string, later: RemoteService)
    ensures var first := ResolveByIdEffect(Empty(), u, RemoteService(true, Found(RemoteProfile(u, name))));
      && first.result == Success(PlayerGameProfile(Some(u), Some(name)))
      && first.saved
      && first.store.Valid()
      && ResolveByUsernameEffect(first.store, name, later)
         == Effect(Success(PlayerGameProfile(Some(u), Some(name))), first.store, false)
  {
    var service := RemoteService(true, Found(RemoteProfile(u, name)));
    ResolveByIdRemoteHit(Empty(), u, service);
    var first := ResolveByIdEffect(Empty(), u, service);
    UpdateSpec(Empty(), u, name);
    assert first.store.forward == map[u := name];
    ResolveByUsernameLocalHit(first.store, name, later);
  }

  /** A name still cached for another UUID blocks its new owner: when `u1`
      holds `name` and the remote service answers `name` for `u2`, resolving
      `u2` fails (the put is refused) instead of evicting the stale entry,
      and stays failing for as long as the stale entry is cached. */
  lemma StaleNameBlocksResolution(u1: Uuid, u2: Uuid, name: string, service: RemoteService)
    requires u1 != u2
    requires service == RemoteService(true, Found(RemoteProfile(u2, name)))
    ensures var cached := UpdateEffect(Empty(), u1, name).store;
      && cached.forward == map[u1 := name]
      && ResolveByIdEffect(cached, u2, service) == Effect(Failure(NameTaken), cached, false)
  {
    UpdateSpec(Empty(), u1, name);
    var cached := UpdateEffect(Empty(), u1, name).store;
    UpdateSpec(cached, u2, name);
  }
}
