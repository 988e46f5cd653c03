/** `PlayerGameProfile`: an immutable pair of an optional UUID and an optional
    username, at least one of which is present. */
module PlayerGameProfiles {
  import opened Wrappers
  import opened Uuids
  import JavaLang

  /** The exceptions the profile's methods throw. */
  datatype ProfileError =
    | IllegalArgument              // `Preconditions.checkArgument` in the constructor
    | NullPointer(message: string) // `Objects.requireNonNull` in the unwrap accessors

  datatype PlayerGameProfile = PlayerGameProfile(uuid: Option<Uuid>, username: Option<string>)
  {
    /** The constructor's precondition. */
    predicate HasIdOrName() { uuid.Some? || username.Some? }

    /** `MoreObjects.toStringHelper` output, absent fields printed as "null". */
    function ToString(): (s: string)
      ensures "PlayerGameProfile{uuid=" <= s && s[|s| - 1] == '}'
      ensures uuid.Some? ==> |s| > 59 && s[23..59] == Uuids.ToString(uuid.value)
      ensures uuid.None? ==> |s| > 27 && s[23..27] == "null"
    {
      var head := "PlayerGameProfile{uuid=";
      var id := if uuid.Some? then Uuids.ToString(uuid.value) else "null";
      var tail := ", username=" + (if username.Some? then username.value else "null") + "}";
      assert |head| == 23;
      var s := head + id + tail;
      assert s[..23] == head && s[23..23 + |id|] == id;
      s
    }

    /** `unwrapId()`: the UUID, or a null-reference error naming the profile. */
    function UnwrapId(): (r: Result<Uuid, ProfileError>)
      ensures r.Success? <==> uuid.Some?
      ensures r.Success? ==> r.value == uuid.value
      ensures r.Failure? ==> r.error == NullPointer("No UUID provided for " + ToString())
    {
      if uuid.Some? then Success(uuid.value) else Failure(NullPointer("No UUID provided for " + ToString()))
    }

    /** `unwrapUsername()`: the username, or a null-reference error naming the profile. */
    function UnwrapUsername(): (r: Result<string, ProfileError>)
      ensures r.Success? <==> username.Some?
      ensures r.Success? ==> r.value == username.value
      ensures r.Failure? ==> r.error == NullPointer("No username provided for " + ToString())
    {
      if username.Some? then Success(username.value)
      else Failure(NullPointer("No username provided for " + ToString()))
    }

    /** `id()`: `Optional.ofNullable(uuid)`. */
    function Id(): (r: Option<Uuid>)
      ensures r.None? <==> UnwrapId().Failure?
      ensures r.Some? ==> UnwrapId() == Success(r.value)
    {
      uuid
    }

    /** `username()`: `Optional.ofNullable(username)`. */
    function Username(): (r: Option<string>)
      ensures r.None? <==> UnwrapUsername().Failure?
      ensures r.Some? ==> UnwrapUsername() == Success(r.value)
    {
      username
    }

    /** `isComplete()`: both fields present, so both unwraps succeed. */
    function IsComplete(): (r: bool)
      ensures r <==> UnwrapId().Success? && UnwrapUsername().Success?
    {
      uuid.Some? && username.Some?
    }

    /** `equals`: field-wise `Objects.equals` on uuid and username. */
    function Equals(that: PlayerGameProfile): (r: bool)
      ensures r <==> this == that
    {
      uuid == that.uuid && username == that.username
    }

    /** `hashCode`: `Objects.hash(uuid, username)`, i.e. 31 * (31 + h(uuid)) + h(username)
        in `int` arithmetic, a null hashing to 0. */
    function HashCode(): (h: int)
      ensures JavaLang.IsInt32(h)
    {
      var hu := if uuid.Some? then Uuids.HashCode(uuid.value) else 0;
      var hn := if username.Some? then JavaLang.StringHash(username.value) else 0;
      JavaLang.ToInt32(31 * (31 + hu) + hn)
    }
  }

  /** A profile that satisfies the constructor's precondition. */
  type Profile = p: PlayerGameProfile | p.HasIdOrName() witness PlayerGameProfile(None, Some(""))

  /** `new PlayerGameProfile(uuid, username)`: an argument error when both are absent. */
  function NewProfile(uuid: Option<Uuid>, username: Option<string>): (r: Result<Profile, ProfileError>)
    ensures r.Failure? <==> uuid.None? && username.None?
    ensures r.Failure? ==> r.error == IllegalArgument
    ensures r.Success? ==> r.value.Id() == uuid && r.value.Username() == username
  {
    var p := PlayerGameProfile(uuid, username);
    if p.HasIdOrName() then Success(p) else Failure(IllegalArgument)
  }

  /** Every constructed profile can give at least one of its fields. */
  lemma SomeUnwrapSucceeds(p: Profile)
    ensures p.UnwrapId().Success? || p.UnwrapUsername().Success?
  {
  }

  /** Profiles that are `equals` have the same `hashCode`. */
  lemma EqualProfilesHashEqually(p: PlayerGameProfile, q: PlayerGameProfile)
    requires p.Equals(q)
    ensures p.HashCode() == q.HashCode()
  {
  }
}
