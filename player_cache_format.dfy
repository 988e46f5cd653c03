/** The on-disk form of the player cache (`playercache.json`): a format
    version and a list of {uuid, name} objects. `ReadDocument` is what `read`
    makes of a document; `WrittenDocument` and `EncodeEntries` are what `write`
    and `create` produce. */
module PlayerCacheFormat {
  import opened Wrappers
  import opened Uuids
  import opened BiMaps
  import opened JsonTree
  import JavaLang

  /** The only format version this code writes and accepts. */
  const VERSION: int := 0

  /** How `read` can end abruptly. The first two are runtime exceptions thrown
      outside its try block; the last is its `IOException`. */
  datatype ReadError =
    | NotAnObject        // the document root is not a JSON object
    | BadFormatVersion   // format_version is not a primitive, or not an int
    | ValuesUnreadable   // values is missing or not an array

  /** How `read` can return normally. */
  datatype ReadStatus = Loaded | VersionTooNew(version: int)

  /** One element of `values`: its uuid, parsed from the canonical text, and its
      name. `None` is an exception the per-entry try block catches: not an
      object, a missing or non-primitive field, or a malformed UUID. */
  function DecodeEntry(e: Json): (r: Option<(Uuid, string)>)
    ensures !e.JObj? ==> r.None?
    ensures r.Some? ==>
      && PrimitiveMember(e.members, "uuid").Some?
      && PrimitiveMember(e.members, "name").Some?
      && Uuids.FromString(PrimitiveAsString(e.members["uuid"])) == Some(r.value.0)
      && r.value.1 == PrimitiveAsString(e.members["name"])
  {
    if !e.JObj? then None
    else match (PrimitiveMember(e.members, "uuid"), PrimitiveMember(e.members, "name"))
      case (Some(pu), Some(pn)) =>
        (match Uuids.FromString(PrimitiveAsString(pu))
         case Some(u) => Some((u, PrimitiveAsString(pn)))
         case None => None)
      case _ => None
  }

  /** The converse of `DecodeEntry`'s contract: every object with primitive
      uuid and name members whose uuid text `UUID.fromString` accepts decodes,
      whatever other members it has and whatever case its hex digits use. */
  lemma WellFormedEntryDecodes(e: Json)
    requires e.JObj?
    requires PrimitiveMember(e.members, "uuid").Some? && PrimitiveMember(e.members, "name").Some?
    requires Uuids.FromString(PrimitiveAsString(e.members["uuid"])).Some?
    ensures DecodeEntry(e) == Some((Uuids.FromString(PrimitiveAsString(e.members["uuid"])).value,
                                    PrimitiveAsString(e.members["name"])))
  {
  }

  /** One turn of `read`'s loop: a malformed entry, or one whose name another
      UUID holds (`put` throws), leaves the store as it was. */
  function LoadEntry(b: BiMap, e: Json): (r: BiMap)
    ensures DecodeEntry(e).None? ==> r == b
    ensures r == b || r.forward == b.forward[DecodeEntry(e).value.0 := DecodeEntry(e).value.1]
    ensures b.forward.Keys <= r.forward.Keys
  {
    match DecodeEntry(e)
    case None => b
    case Some((u, n)) =>
      (match b.Put(u, n)
       case Success((_, after)) => after
       case Failure(_) => b)
  }

  /** `read`'s loop over `values`, from the first entry to the last. */
  function LoadEntries(b: BiMap, es: seq<Json>): (r: BiMap)
    ensures b.forward.Keys <= r.forward.Keys
  {
    if es == [] then b else LoadEntry(LoadEntries(b, es[..|es| - 1]), es[|es| - 1])
  }

  /** The header check of `read`: an absent format_version counts as 0;
      otherwise it must be a primitive readable as an `int`. */
  function FormatVersion(members: map<string, Json>): (r: Result<int, ReadError>)
    ensures "format_version" !in members ==> r == Success(0)
    ensures r.Failure? ==> r.error == BadFormatVersion
    ensures r.Success? ==> JavaLang.IsInt32(r.value)
    ensures "format_version" in members && members["format_version"].JNum? ==>
      r == Success(JavaLang.ToInt32(members["format_version"].n))
    ensures "format_version" in members && !members["format_version"].IsPrimitive() ==> r.Failure?
  {
    if "format_version" !in members then Success(0)
    else match PrimitiveMember(members, "format_version")
      case None => Failure(BadFormatVersion)
      case Some(p) =>
        (match PrimitiveAsInt(p)
         case Some(v) => Success(v)
         case None => Failure(BadFormatVersion))
  }

  /** `read`: the store is cleared first and stays empty unless the document is
      an object of a version up to `VERSION` whose values are an array; the
      entries are then loaded one by one into the empty store. */
  function ReadDocument(doc: Json): (r: (Result<ReadStatus, ReadError>, BiMap))
    ensures r.1.Valid()
    ensures r.0 != Success(Loaded) ==> r.1 == Empty()
    ensures r.0 == Failure(NotAnObject) <==> !doc.JObj?
    ensures r.0 == Failure(BadFormatVersion) <==> doc.JObj? && FormatVersion(doc.members).Failure?
    ensures r.0.Success? && r.0.value.VersionTooNew? ==>
      doc.JObj? && FormatVersion(doc.members) == Success(r.0.value.version) && r.0.value.version > VERSION
    ensures r.0 == Success(Loaded) <==>
      && doc.JObj?
      && FormatVersion(doc.members).Success? && FormatVersion(doc.members).value <= VERSION
      && "values" in doc.members && doc.members["values"].JArr?
    ensures r.0 == Success(Loaded) ==> r.1 == LoadEntries(Empty(), doc.members["values"].items)
    ensures doc.JObj? && FormatVersion(doc.members).Success? && FormatVersion(doc.members).value > VERSION ==>
      r == (Success(VersionTooNew(FormatVersion(doc.members).value)), Empty())
    ensures r.0 == Failure(ValuesUnreadable) <==>
      && doc.JObj?
      && FormatVersion(doc.members).Success? && FormatVersion(doc.members).value <= VERSION
      && !("values" in doc.members && doc.members["values"].JArr?)
  {
    if !doc.JObj? then (Failure(NotAnObject), Empty())
    else match FormatVersion(doc.members)
      case Failure(err) => (Failure(err), Empty())
      case Success(version) =>
        if version > VERSION then (Success(VersionTooNew(version)), Empty())
        else if "values" in doc.members && doc.members["values"].JArr? then
          LoadEntriesValid(Empty(), doc.members["values"].items);
          (Success(Loaded), LoadEntries(Empty(), doc.members["values"].items))
        else (Failure(ValuesUnreadable), Empty())
  }

  /** The object `write` adds for one store entry. */
  function EncodeEntry(u: Uuid, n: string): Json
  {
    JObj(map["uuid" := JStr(Uuids.ToString(u)), "name" := JStr(n)])
  }

  /** The entry `write` emits decodes to the pair it came from. */
  lemma DecodeEncodedEntry(u: Uuid, n: string)
    ensures DecodeEntry(EncodeEntry(u, n)) == Some((u, n))
  {
    var members := map["uuid" := JStr(Uuids.ToString(u)), "name" := JStr(n)];
    assert "uuid" != "name";
    assert members["uuid"] == JStr(Uuids.ToString(u)) && members["name"] == JStr(n);
    Uuids.ToStringRoundTrip(u);
  }

  /** The entries of `m` in the order `order` visits its keys. */
  function EncodeEntries(m: map<Uuid, string>, order: seq<Uuid>): (es: seq<Json>)
    requires forall i | 0 <= i < |order| :: order[i] in m
    ensures |es| == |order|
  {
    if order == [] then []
    else EncodeEntries(m, order[..|order| - 1]) + [EncodeEntry(order[|order| - 1], m[order[|order| - 1]])]
  }

  /** The `i`-th object written is the entry of the `i`-th key visited. */
  lemma {:induction false} EncodeEntriesAt(m: map<Uuid, string>, order: seq<Uuid>, i: nat)
    requires forall j | 0 <= j < |order| :: order[j] in m
    requires i < |order|
    ensures EncodeEntries(m, order)[i] == EncodeEntry(order[i], m[order[i]])
  {
    if i < |order| - 1 {
      EncodeEntriesAt(m, order[..|order| - 1], i);
    }
  }

  /** The document `write` and `create` produce around a list of entries. */
  function WrittenDocument(values: seq<Json>): (doc: Json)
    ensures doc.JObj? && FormatVersion(doc.members) == Success(VERSION)
    ensures "values" in doc.members && doc.members["values"] == JArr(values)
  {
    var members := map["format_version" := JNum(VERSION), "values" := JArr(values)];
    assert "format_version" != "values";
    assert members["format_version"] == JNum(VERSION);
    JObj(members)
  }

  predicate Distinct(order: seq<Uuid>)
  {
    forall i, j | 0 <= i < j < |order| :: order[i] != order[j]
  }

  /** `order` lists every key of `keys` exactly once (the map's iteration order). */
  ghost predicate Enumerates(order: seq<Uuid>, keys: set<Uuid>)
  {
    && Distinct(order)
    && (forall i | 0 <= i < |order| :: order[i] in keys)
    && (forall k | k in keys :: k in order)
  }

  /** Part way through iterating `m`: `order` lists the keys visited so far,
      each once, and `remaining` the keys still to visit. */
  ghost predicate Visiting(m: map<Uuid, string>, order: seq<Uuid>, remaining: set<Uuid>)
  {
    && remaining <= m.Keys
    && Distinct(order)
    && (forall i | 0 <= i < |order| :: order[i] in m && order[i] !in remaining)
    && (forall k | k in m :: k in remaining || k in order)
  }

  lemma VisitNext(m: map<Uuid, string>, order: seq<Uuid>, remaining: set<Uuid>, u: Uuid)
    requires Visiting(m, order, remaining) && u in remaining
    ensures Visiting(m, order + [u], remaining - {u})
    ensures EncodeEntries(m, order + [u]) == EncodeEntries(m, order) + [EncodeEntry(u, m[u])]
  {
    EncodeEntriesPush(m, order, u);
  }

  lemma VisitDone(m: map<Uuid, string>, order: seq<Uuid>)
    requires Visiting(m, order, {})
    ensures Enumerates(order, m.Keys)
  {
  }

  lemma {:induction false} LoadEntriesValid(b: BiMap, es: seq<Json>)
    requires b.Valid()
    ensures LoadEntries(b, es).Valid()
  {
    if es != [] {
      var prefix := LoadEntries(b, es[..|es| - 1]);
      LoadEntriesValid(b, es[..|es| - 1]);
      match DecodeEntry(es[|es| - 1])
      case None =>
      case Some((u, n)) => PutSpec(prefix, u, n);
    }
  }

  /** Each entry adds at most one UUID to the store. */
  lemma {:induction false} LoadEntriesGrowth(b: BiMap, es: seq<Json>)
    ensures |LoadEntries(b, es).forward| <= |b.forward| + |es|
  {
    if es != [] {
      LoadEntriesGrowth(b, es[..|es| - 1]);
    }
  }

  /** Loading two lists in a row is loading their concatenation. */
  lemma {:induction false} LoadEntriesAppend(b: BiMap, xs: seq<Json>, ys: seq<Json>)
    ensures LoadEntries(b, xs + ys) == LoadEntries(LoadEntries(b, xs), ys)
  {
    if ys == [] {
      assert xs + ys == xs;
    } else {
      assert (xs + ys)[..|xs + ys| - 1] == xs + ys[..|ys| - 1];
      LoadEntriesAppend(b, xs, ys[..|ys| - 1]);
    }
  }

  /** A malformed entry is skipped on its own: the other entries load as if it
      were not there. */
  lemma MalformedEntryIsSkipped(b: BiMap, pre: seq<Json>, e: Json, post: seq<Json>)
    requires DecodeEntry(e).None?
    ensures LoadEntries(b, pre + [e] + post) == LoadEntries(b, pre + post)
  {
    LoadEntriesAppend(b, pre + [e], post);
    LoadEntriesAppend(b, pre, [e]);
    LoadEntriesAppend(b, pre, post);
  }

  /** An entry whose name an earlier entry already gave to another UUID is
      skipped on its own, like a malformed one. */
  lemma ConflictingEntryIsSkipped(b: BiMap, pre: seq<Json>, e: Json, post: seq<Json>)
    requires DecodeEntry(e).Some?
    requires var (u, n) := DecodeEntry(e).value;
      n in LoadEntries(b, pre).backward && LoadEntries(b, pre).backward[n] != u
    ensures LoadEntries(b, pre + [e] + post) == LoadEntries(b, pre + post)
  {
    LoadEntriesAppend(b, pre + [e], post);
    LoadEntriesAppend(b, pre, [e]);
    LoadEntriesAppend(b, pre, post);
  }

  /** A well-formed entry whose name is free (or already its own) is loaded:
      its UUID is bound to its name and every other binding stays. */
  lemma WellFormedEntryIsLoaded(b: BiMap, pre: seq<Json>, e: Json)
    requires b.Valid() && DecodeEntry(e).Some?
    requires var (u, n) := DecodeEntry(e).value;
      n !in LoadEntries(b, pre).backward || LoadEntries(b, pre).backward[n] == u
    ensures var (u, n) := DecodeEntry(e).value;
      LoadEntries(b, pre + [e]).forward == LoadEntries(b, pre).forward[u := n]
  {
    var (u, n) := DecodeEntry(e).value;
    LoadEntriesAppend(b, pre, [e]);
    LoadEntriesValid(b, pre);
    PutSpec(LoadEntries(b, pre), u, n);
  }

  /** The part of `m` whose keys appear in `ks`. */
  function Restrict(m: map<Uuid, string>, ks: seq<Uuid>): map<Uuid, string>
  {
    map k | k in m && k in ks :: m[k]
  }

  /** One turn of the load of a written document: the next entry is new and its
      name is free, so it is put. */
  lemma LoadNextEncoded(b: BiMap, r: BiMap, u: Uuid)
    requires b.Valid() && r.Valid() && u in b.forward && u !in r.forward
    requires forall v | v in r.forward :: v in b.forward && r.forward[v] == b.forward[v]
    ensures LoadEntry(r, EncodeEntry(u, b.forward[u])).Valid()
    ensures LoadEntry(r, EncodeEntry(u, b.forward[u])).forward == r.forward[u := b.forward[u]]
  {
    var n := b.forward[u];
    DecodeEncodedEntry(u, n);
    ValidIsInjective(b);
    assert n !in r.backward by {
      forall v | v in r.forward ensures r.forward[v] != n {
        assert b.forward[v] == r.forward[v];
      }
    }
    PutSpec(r, u, n);
  }

  lemma LoadEntriesSnoc(b: BiMap, xs: seq<Json>, x: Json)
    ensures LoadEntries(b, xs + [x]) == LoadEntry(LoadEntries(b, xs), x)
  {
    assert (xs + [x])[..|xs + [x]| - 1] == xs;
  }

  lemma EncodeEntriesPush(m: map<Uuid, string>, order: seq<Uuid>, u: Uuid)
    requires forall j | 0 <= j < |order| :: order[j] in m
    requires u in m
    ensures EncodeEntries(m, order + [u]) == EncodeEntries(m, order) + [EncodeEntry(u, m[u])]
  {
    assert (order + [u])[..|order|] == order;
  }

  lemma EncodeEntriesSnoc(m: map<Uuid, string>, order: seq<Uuid>, i: nat)
    requires 0 < i <= |order|
    requires forall j | 0 <= j < |order| :: order[j] in m
    ensures EncodeEntries(m, order[..i]) == EncodeEntries(m, order[..i - 1]) + [EncodeEntry(order[i - 1], m[order[i - 1]])]
  {
    assert order[..i][..i - 1] == order[..i - 1];
  }

  lemma RestrictSnoc(m: map<Uuid, string>, order: seq<Uuid>, i: nat)
    requires 0 < i <= |order| && order[i - 1] in m
    ensures Restrict(m, order[..i]) == Restrict(m, order[..i - 1])[order[i - 1] := m[order[i - 1]]]
  {
    assert order[..i] == order[..i - 1] + [order[i - 1]];
  }

  lemma {:induction false} LoadEncodedPrefix(b: BiMap, order: seq<Uuid>, i: nat)
    requires b.Valid() && Distinct(order) && i <= |order|
    requires forall j | 0 <= j < |order| :: order[j] in b.forward
    ensures LoadEntries(Empty(), EncodeEntries(b.forward, order[..i])).Valid()
    ensures LoadEntries(Empty(), EncodeEntries(b.forward, order[..i])).forward == Restrict(b.forward, order[..i])
  {
    var m := b.forward;
    if i == 0 {
      assert order[..0] == [];
      assert Restrict(m, order[..0]) == map[];
    } else {
      LoadEncodedPrefix(b, order, i - 1);
      LoadEncodedStep(b, order, i);
    }
  }

  /** One step of `LoadEncodedPrefix`: from the prefix of length `i - 1` to `i`. */
  lemma LoadEncodedStep(b: BiMap, order: seq<Uuid>, i: nat)
    requires b.Valid() && Distinct(order) && 0 < i <= |order|
    requires forall j | 0 <= j < |order| :: order[j] in b.forward
    requires LoadEntries(Empty(), EncodeEntries(b.forward, order[..i - 1])).Valid()
    requires LoadEntries(Empty(), EncodeEntries(b.forward, order[..i - 1])).forward == Restrict(b.forward, order[..i - 1])
    ensures LoadEntries(Empty(), EncodeEntries(b.forward, order[..i])).Valid()
    ensures LoadEntries(Empty(), EncodeEntries(b.forward, order[..i])).forward == Restrict(b.forward, order[..i])
  {
    var m := b.forward;
    var u := order[i - 1];
    var prev := EncodeEntries(m, order[..i - 1]);
    var r := LoadEntries(Empty(), prev);
    assert u !in r.forward by {
      forall j | 0 <= j < i - 1 ensures order[j] != u {}
    }
    LoadNextEncoded(b, r, u);
    EncodeEntriesSnoc(m, order, i);
    LoadEntriesSnoc(Empty(), prev, EncodeEntry(u, m[u]));
    RestrictSnoc(m, order, i);
  }

  lemma RestrictToAllKeys(m: map<Uuid, string>, ks: seq<Uuid>)
    requires forall k | k in m :: k in ks
    ensures Restrict(m, ks) == m
  {
  }

  /** A written document passes the header checks, so reading it loads its
      entries into the empty store. */
  lemma ReadWrittenDocument(values: seq<Json>)
    ensures ReadDocument(WrittenDocument(values)) == (Success(Loaded), LoadEntries(Empty(), values))
  {
    var doc := WrittenDocument(values);
    assert doc.JObj? && FormatVersion(doc.members) == Success(VERSION);
  }

  /** Reading what `write` produced for a consistent store gives that store
      back, whatever order the map was iterated in. */
  lemma WriteThenRead(b: BiMap, order: seq<Uuid>)
    requires b.Valid() && Enumerates(order, b.forward.Keys)
    ensures ReadDocument(WrittenDocument(EncodeEntries(b.forward, order))) == (Success(Loaded), b)
  {
    var values := EncodeEntries(b.forward, order);
    ReadWrittenDocument(values);
    LoadEncodedPrefix(b, order, |order|);
    assert order[..|order|] == order;
    var r := LoadEntries(Empty(), values);
    RestrictToAllKeys(b.forward, order);
    ValidDeterminedByForward(r, b);
  }

  /** Reading what `create` produced gives an empty store. */
  lemma CreateThenRead()
    ensures ReadDocument(WrittenDocument([])) == (Success(Loaded), Empty())
  {
    ReadWrittenDocument([]);
  }

  /** A document of a newer version loads nothing and does not throw; a
      version that wraps around to 0 or below when narrowed to `int` is
      accepted like version 0. */
  lemma VersionGate(members: map<string, Json>, n: int)
    requires "format_version" in members && members["format_version"] == JNum(n)
    ensures JavaLang.ToInt32(n) > VERSION ==>
      ReadDocument(JObj(members)) == (Success(VersionTooNew(JavaLang.ToInt32(n))), Empty())
    ensures JavaLang.ToInt32(n) <= VERSION ==>
      !(ReadDocument(JObj(members)).0.Success? && ReadDocument(JObj(members)).0.value.VersionTooNew?)
  {
  }

  /** `getAsInt` also reads a version written as a string: the decimal text of
      any `int` above 0 is a newer version, loads nothing and does not throw. */
  lemma StringVersionGate(members: map<string, Json>, v: int)
    requires JavaLang.IsInt32(v)
    requires "format_version" in members && members["format_version"] == JStr(JavaLang.IntToDecimal(v))
    ensures FormatVersion(members) == Success(v)
    ensures v > VERSION ==> ReadDocument(JObj(members)) == (Success(VersionTooNew(v)), Empty())
  {
    JavaLang.ParseIntToDecimal(v);
  }
}
