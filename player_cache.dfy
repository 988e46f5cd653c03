/** `PlayerCache`: the plugin's two-way store of player UUIDs and usernames,
    with its read-through resolvers and its load and save of
    `playercache.json`. Locking is not modelled: every method runs alone. */
module PlayerCaches {
  import opened Wrappers
  import opened Uuids
  import opened BiMaps
  import opened JsonTree
  import opened PlayerGameProfiles
  import opened PlayerCacheSpec
  import opened PlayerCacheFormat

  class PlayerCache {
    /** The `cache` field: UUID to username, one to one. */
    var cache: BiMap
    /** How many times `syncSave` has run. */
    ghost var saves: nat

    ghost predicate Valid()
      reads this
    {
      cache.Valid()
    }

    /** A new cache starts empty, with nothing saved yet. */
    constructor ()
      ensures Valid() && cache == Empty() && saves == 0
    {
      cache := Empty();
      saves := 0;
    }

    /** `syncSave` of the disk-file base class, recorded only as an event. */
    method SyncSave()
      modifies this`saves
      ensures saves == old(saves) + 1
    {
      saves := saves + 1;
    }

    /** `readUsernameForId(id)`: the cached name of `id`, if any. */
    method ReadUsernameForId(id: Uuid) returns (name: Option<string>)
      requires Valid()
      ensures name.Some? <==> id in cache.forward
      ensures name.Some? ==> cache.forward[id] == name.value
    {
      name := cache.Get(id);
    }

    /** `readIdForUsername(name)`: the UUID holding `name`, if any, through the
        inverse view. */
    method ReadIdForUsername(name: string) returns (id: Option<Uuid>)
      requires Valid()
      ensures id.Some? <==> name in cache.forward.Values
      ensures id.Some? ==> id.value in cache.forward && cache.forward[id.value] == name
    {
      id := cache.InverseGet(name);
    }

    /** `modify(function)`: run `mutate` on the store, then save exactly
        when it reports a change; an exception from it propagates unsaved. */
    method Modify(mutate: BiMap -> Mutation) returns (modified: Result<bool, CacheError>)
      requires Valid() && KeepsValid(mutate)
      modifies this
      ensures Valid()
      ensures var e := ModifyEffect(old(cache), mutate(old(cache)));
        modified == e.result && cache == e.store && saves == old(saves) + (if e.saved then 1 else 0)
    {
      var outcome := mutate(cache);
      match outcome {
        case Failure(err) =>
          modified := Failure(err);
        case Success((changed, after)) =>
          cache := after;
          if changed {
            SyncSave();
          }
          modified := Success(changed);
      }
    }

    /** `updatePlayerProfile(uuid, username)`: put the pair through `modify`,
        reporting (and saving) a change when the old name was absent or
        different. */
    method UpdatePlayerProfile(uuid: Uuid, username: string) returns (r: Result<bool, CacheError>)
      requires Valid()
      modifies this
      ensures Valid()
      ensures var e := UpdateEffect(old(cache), uuid, username);
        r == e.result && cache == e.store && saves == old(saves) + (if e.saved then 1 else 0)
    {
      var put := (b: BiMap) => PutReportingChange(b, uuid, username);
      forall b: BiMap | b.Valid() && put(b).Success?
        ensures put(b).value.1.Valid()
      {
        PutSpec(b, uuid, username);
      }
      r := Modify(put);
    }

    /** `getProfileForId(id)`, with the remote query's completion run directly. */
    method GetProfileForId(id: Uuid, service: RemoteService) returns (r: Result<Profile, CacheError>)
      requires Valid()
      modifies this
      ensures Valid()
      ensures var e := ResolveByIdEffect(old(cache), id, service);
        r == e.result && cache == e.store && saves == old(saves) + (if e.saved then 1 else 0)
    {
      var cachedUsername := ReadUsernameForId(id);
      if cachedUsername.None? {
        var lookup := GetProfileLookup(service);
        if lookup.Some? {
          match lookup.value {
            case Found(profile) =>
              var updated := UpdatePlayerProfile(profile.uuid, profile.username);
              if updated.Failure? {
                r := Failure(updated.error);
              } else {
                r := Success(PlayerGameProfile(Some(profile.uuid), Some(profile.username)));
              }
            case NotFound =>
              r := Success(PlayerGameProfile(Some(id), None));
            case QueryFailed =>
              r := Failure(LookupFailed);
          }
          return;
        }
      }
      r := Success(PlayerGameProfile(Some(id), cachedUsername));
    }

    /** `getProfileForUsername(name)`, with the remote query's completion run directly. */
    method GetProfileForUsername(name: string, service: RemoteService) returns (r: Result<Profile, CacheError>)
      requires Valid()
      modifies this
      ensures Valid()
      ensures var e := ResolveByUsernameEffect(old(cache), name, service);
        r == e.result && cache == e.store && saves == old(saves) + (if e.saved then 1 else 0)
    {
      var cachedId := ReadIdForUsername(name);
      if cachedId.None? {
        var lookup := GetProfileLookup(service);
        if lookup.Some? {
          match lookup.value {
            case Found(profile) =>
              var updated := UpdatePlayerProfile(profile.uuid, profile.username);
              if updated.Failure? {
                r := Failure(updated.error);
              } else {
                r := Success(PlayerGameProfile(Some(profile.uuid), Some(profile.username)));
              }
            case NotFound =>
              r := Success(PlayerGameProfile(None, Some(name)));
            case QueryFailed =>
              r := Failure(LookupFailed);
          }
          return;
        }
      }
      r := Success(PlayerGameProfile(cachedId, Some(name)));
    }

    /** `read`: clear the store, check the version, then put the entries one by
        one, skipping each that fails. */
    method Read(doc: Json) returns (r: Result<ReadStatus, ReadError>)
      modifies this
      ensures Valid()
      ensures (r, cache) == ReadDocument(doc)
      ensures saves == old(saves)
    {
      cache := Empty();
      if !doc.JObj? {
        r := Failure(NotAnObject);
        return;
      }
      var version := FormatVersion(doc.members);
      if version.Failure? {
        r := Failure(version.error);
        return;
      }
      if version.value > VERSION {
        r := Success(VersionTooNew(version.value));
        return;
      }
      if !("values" in doc.members && doc.members["values"].JArr?) {
        r := Failure(ValuesUnreadable);
        return;
      }
      var values := doc.members["values"].items;
      var i := 0;
      while i < |values|
        invariant 0 <= i <= |values|
        invariant cache == LoadEntries(Empty(), values[..i])
        invariant saves == old(saves)
      {
        var entry := DecodeEntry(values[i]);
        if entry.Some? {
          var put := cache.Put(entry.value.0, entry.value.1);
          if put.Success? {
            cache := put.value.1;
          }
        }
        LoadEntriesSnoc(Empty(), values[..i], values[i]);
        assert values[..i + 1] == values[..i] + [values[i]];
        i := i + 1;
      }
      assert values[..|values|] == values;
      LoadEntriesValid(Empty(), values);
      r := Success(Loaded);
    }

    /** `write`: version 0 and one {uuid, name} object per store entry, in the
        store's iteration order (returned as `order`); reading it back gives
        the store. */
    method Write() returns (doc: Json, ghost order: seq<Uuid>)
      requires Valid()
      ensures Enumerates(order, cache.forward.Keys)
      ensures doc == WrittenDocument(EncodeEntries(cache.forward, order))
      ensures ReadDocument(doc) == (Success(Loaded), cache)
    {
      var list: seq<Json> := [];
      var remaining := cache.forward.Keys;
      order := [];
      while remaining != {}
        invariant Visiting(cache.forward, order, remaining)
        invariant list == EncodeEntries(cache.forward, order)
        decreases |remaining|
      {
        var uuid :| uuid in remaining;
        VisitNext(cache.forward, order, remaining, uuid);
        list := list + [EncodeEntry(uuid, cache.forward[uuid])];
        order := order + [uuid];
        remaining := remaining - {uuid};
      }
      VisitDone(cache.forward, order);
      doc := WrittenDocument(list);
      assert ReadDocument(doc) == (Success(Loaded), cache) by {
        WriteThenRead(cache, order);
      }
    }

    /** `create`: version 0 with no entries, which reads back as an empty store. */
    method Create() returns (doc: Json)
      ensures doc == WrittenDocument([])
      ensures ReadDocument(doc) == (Success(Loaded), Empty())
    {
      doc := WrittenDocument([]);
      CreateThenRead();
    }
  }
}
