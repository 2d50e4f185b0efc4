/**
 * Seed normalisation: the distinct platform and topic names of the raw influencer records,
 * the gender string to enum conversion, the projection of falsy fields to null, and the
 * choice of join rows. The database is a class holding the influencer rows by id and the
 * two join tables as sets of (influencerId, targetId) pairs.
 */
module SeedUtils {
  import opened Wrappers
  import opened Text
  import opened Seqs

  /** A raw record from the catalog JSON; fields the seed does not read are not modelled. */
  datatype SeedRecord = SeedRecord(
    id: string,
    name: string,
    email: Option<string>,
    location: Option<string>,
    age: Option<int>,
    gender: Option<string>,
    followers: Option<int>,
    engagementRate: Option<int>,
    avgLikes: Option<int>,
    avgComments: Option<int>,
    platform: Option<seq<string>>,
    topics: Option<seq<string>>)

  // ---------------------------------------------------------------- distinct names

  /** The platform list of each record, a record without one giving the empty list. */
  function PlatformLists(records: seq<SeedRecord>): seq<seq<string>> {
    seq(|records|, i requires 0 <= i < |records| => records[i].platform.GetOr([]))
  }

  function TopicLists(records: seq<SeedRecord>): seq<seq<string>> {
    seq(|records|, i requires 0 <= i < |records| => records[i].topics.GetOr([]))
  }

  /** `extractUniquePlatforms`: a Set filled from every record's platform list, read back in insertion order. */
  method ExtractUniquePlatforms(records: seq<SeedRecord>) returns (names: seq<string>)
    ensures names == Dedupe(Flatten(PlatformLists(records)))
    ensures Distinct(names)
    ensures forall p :: p in names <==>
      exists i :: 0 <= i < |records| && records[i].platform.Some? && p in records[i].platform.value
  {
    var lists := PlatformLists(records);
    assert forall i :: 0 <= i < |records| ==> lists[i] == records[i].platform.GetOr([]);
    names := CollectDistinct(lists);
    DedupeFlatten(lists);
  }

  /** `extractUniqueTopics`, the same over the topic lists. */
  method ExtractUniqueTopics(records: seq<SeedRecord>) returns (names: seq<string>)
    ensures names == Dedupe(Flatten(TopicLists(records)))
    ensures Distinct(names)
    ensures forall t :: t in names <==>
      exists i :: 0 <= i < |records| && records[i].topics.Some? && t in records[i].topics.value
  {
    var lists := TopicLists(records);
    assert forall i :: 0 <= i < |records| ==> lists[i] == records[i].topics.GetOr([]);
    names := CollectDistinct(lists);
    DedupeFlatten(lists);
  }

  // ---------------------------------------------------------------- gender

  datatype Gender = MALE | FEMALE | NON_BINARY

  /** The spelling `convertGenderToEnum` accepts for each value, after lowercasing. */
  function GenderSpelling(g: Gender): string {
    match g
    case MALE => "male"
    case FEMALE => "female"
    case NON_BINARY => "non-binary"
  }

  /** `convertGenderToEnum`; None stands for both null and undefined. */
  function ConvertGenderToEnum(gender: Option<string>): (r: Option<Gender>)
    ensures gender.None? || gender == Some("") ==> r.None?
  {
    if gender.None? || gender.value == "" then None
    else
      var normalized := Lower(gender.value);
      if normalized == "male" then Some(MALE)
      else if normalized == "female" then Some(FEMALE)
      else if normalized == "non-binary" then Some(NON_BINARY)
      else None
  }

  /** A string converts to a value exactly when it lowercases to that value's spelling. */
  lemma ConvertGenderExact(s: string, g: Gender)
    ensures ConvertGenderToEnum(Some(s)) == Some(g) <==> Lower(s) == GenderSpelling(g)
  {
    if Lower(s) == GenderSpelling(g) {
      assert s != "" by { assert |Lower(s)| == |s|; }
    }
  }

  /** Case is ignored: "Male" converts to MALE. */
  lemma ConvertCapitalised()
    ensures ConvertGenderToEnum(Some("Male")) == Some(MALE)
  {
    LowerIs("Male", "male");
  }

  /** The underscore spelling of the enum name is not accepted: "non_binary" converts to null. */
  lemma ConvertUnderscore()
    ensures ConvertGenderToEnum(Some("non_binary")) == None
  {
    UnderscoreLower();
    UnderscoreUnmatched();
  }

  lemma UnderscoreLower()
    ensures Lower("non_binary") == "non_binary"
  {
    LowerIs("non_binary", "non_binary");
  }

  lemma UnderscoreUnmatched()
    ensures "non_binary" != "male" && "non_binary" != "female" && "non_binary" != "non-binary"
  {
    assert "non_binary"[3] != "non-binary"[3];
  }

  // ---------------------------------------------------------------- row payloads

  /**
   * `value || null` for a string: a missing or empty value is stored as null.
   * UpdateData and CreateData build the row from it, and UpsertInfluencerWithRelations is
   * proved against those.
   */
  function StrOrNull(o: Option<string>): (r: Option<string>)
    ensures r.None? <==> o.None? || o.value == ""
    ensures r.Some? ==> r == o
  {
    if o.Some? && o.value != "" then o else None
  }

  /**
   * `value || null` for a number: a missing value or 0 is stored as null.
   * UpdateData and CreateData build the row from it, and UpsertInfluencerWithRelations is
   * proved against those.
   */
  function NumOrNull(o: Option<int>): (r: Option<int>)
    ensures r.None? <==> o.None? || o.value == 0
    ensures r.Some? ==> r == o
  {
    if o.Some? && o.value != 0 then o else None
  }

  /** The columns of an influencer row other than its id. */
  datatype InfluencerFields = InfluencerFields(
    name: string,
    email: Option<string>,
    location: Option<string>,
    age: Option<int>,
    gender: Option<Gender>,
    followers: Option<int>,
    engagementRate: Option<int>,
    avgLikes: Option<int>,
    avgComments: Option<int>)

  /** The `create` payload: the id and every column. */
  datatype CreatePayload = CreatePayload(
    id: string,
    name: string,
    email: Option<string>,
    location: Option<string>,
    age: Option<int>,
    gender: Option<Gender>,
    followers: Option<int>,
    engagementRate: Option<int>,
    avgLikes: Option<int>,
    avgComments: Option<int>)

  /** The `update` payload of the influencer upsert. */
  function UpdateData(r: SeedRecord): InfluencerFields {
    InfluencerFields(r.name, StrOrNull(r.email), StrOrNull(r.location), NumOrNull(r.age),
                     ConvertGenderToEnum(r.gender), NumOrNull(r.followers), NumOrNull(r.engagementRate),
                     NumOrNull(r.avgLikes), NumOrNull(r.avgComments))
  }

  /** The `create` payload of the influencer upsert. */
  function CreateData(r: SeedRecord): CreatePayload {
    CreatePayload(r.id, r.name, StrOrNull(r.email), StrOrNull(r.location), NumOrNull(r.age),
                  ConvertGenderToEnum(r.gender), NumOrNull(r.followers), NumOrNull(r.engagementRate),
                  NumOrNull(r.avgLikes), NumOrNull(r.avgComments))
  }

  /** The columns a `create` writes. */
  function Columns(c: CreatePayload): InfluencerFields {
    InfluencerFields(c.name, c.email, c.location, c.age, c.gender, c.followers, c.engagementRate,
                     c.avgLikes, c.avgComments)
  }

  /** Creating and updating write the same columns, so the row does not depend on whether it existed. */
  lemma CreateMatchesUpdate(r: SeedRecord)
    ensures CreateData(r).id == r.id
    ensures Columns(CreateData(r)) == UpdateData(r)
  {
  }

  // ---------------------------------------------------------------- join rows

  /** `map.get(name)` is truthy: the name is mapped, and to a non-empty id. */
  predicate Resolves(idMap: map<string, string>, name: string) {
    name in idMap && idMap[name] != ""
  }

  /**
   * The join rows created for `names`: one per name that resolves, pairing the influencer
   * with the mapped id. LinksAppend and the loops of ConnectPlatforms and ConnectTopics
   * are proved against this definition.
   */
  function Links(influencerId: string, names: seq<string>, idMap: map<string, string>): (links: set<(string, string)>)
    ensures forall l :: l in links <==>
      l.0 == influencerId && exists i :: 0 <= i < |names| && Resolves(idMap, names[i]) && l.1 == idMap[names[i]]
  {
    set i | 0 <= i < |names| && Resolves(idMap, names[i]) :: (influencerId, idMap[names[i]])
  }

  lemma LinksAppend(influencerId: string, names: seq<string>, name: string, idMap: map<string, string>)
    ensures Links(influencerId, names + [name], idMap) ==
      Links(influencerId, names, idMap) + (if Resolves(idMap, name) then {(influencerId, idMap[name])} else {})
  {
    var a, b := Links(influencerId, names + [name], idMap), Links(influencerId, names, idMap);
    var extra: set<(string, string)> := if Resolves(idMap, name) then {(influencerId, idMap[name])} else {};
    forall l ensures l in a <==> l in b + extra {
      if l in a {
        var i :| 0 <= i < |names| + 1 && Resolves(idMap, (names + [name])[i]) && l.1 == idMap[(names + [name])[i]];
        if i < |names| { assert (names + [name])[i] == names[i]; }
      }
      if l in b {
        var i :| 0 <= i < |names| && Resolves(idMap, names[i]) && l.1 == idMap[names[i]];
        assert (names + [name])[i] == names[i];
      }
      if l in extra {
        assert (names + [name])[|names|] == name;
      }
    }
  }

  /** The seeded tables. */
  class SeedStore {
    var influencers: map<string, InfluencerFields>
    var platformLinks: set<(string, string)>
    var topicLinks: set<(string, string)>

    constructor ()
      ensures influencers == map[] && platformLinks == {} && topicLinks == {}
    {
      influencers := map[];
      platformLinks := {};
      topicLinks := {};
    }

    /**
     * `prisma.influencerPlatform.upsert` for each name of the list: an unmapped name is
     * skipped, an existing pair is left as it is (the update is empty), a new pair is added.
     */
    method ConnectPlatforms(influencerId: string, names: seq<string>, idMap: map<string, string>)
      modifies this
      ensures platformLinks == old(platformLinks) + Links(influencerId, names, idMap)
      ensures influencers == old(influencers) && topicLinks == old(topicLinks)
    {
      var i := 0;
      while i < |names|
        invariant 0 <= i <= |names|
        invariant platformLinks == old(platformLinks) + Links(influencerId, names[..i], idMap)
        invariant influencers == old(influencers) && topicLinks == old(topicLinks)
      {
        LinksAppend(influencerId, names[..i], names[i], idMap);
        assert names[..i + 1] == names[..i] + [names[i]];
        if names[i] in idMap && idMap[names[i]] != "" {
          platformLinks := platformLinks + {(influencerId, idMap[names[i]])};
        }
        i := i + 1;
      }
      assert names[..i] == names;
    }

    /** `prisma.influencerTopic.upsert` for each name of the list, in the same way. */
    method ConnectTopics(influencerId: string, names: seq<string>, idMap: map<string, string>)
      modifies this
      ensures topicLinks == old(topicLinks) + Links(influencerId, names, idMap)
      ensures influencers == old(influencers) && platformLinks == old(platformLinks)
    {
      var i := 0;
      while i < |names|
        invariant 0 <= i <= |names|
        invariant topicLinks == old(topicLinks) + Links(influencerId, names[..i], idMap)
        invariant influencers == old(influencers) && platformLinks == old(platformLinks)
      {
        LinksAppend(influencerId, names[..i], names[i], idMap);
        assert names[..i + 1] == names[..i] + [names[i]];
        if names[i] in idMap && idMap[names[i]] != "" {
          topicLinks := topicLinks + {(influencerId, idMap[names[i]])};
        }
        i := i + 1;
      }
      assert names[..i] == names;
    }

    /**
     * `upsertInfluencerWithRelations`: the row is updated when its id exists and created
     * otherwise, then the record's platforms and topics are linked.
     */
    method UpsertInfluencerWithRelations(r: SeedRecord, platformMap: map<string, string>,
                                         topicMap: map<string, string>) returns (row: InfluencerFields)
      modifies this
      ensures row == UpdateData(r)
      ensures influencers == old(influencers)[r.id := UpdateData(r)]
      ensures platformLinks == old(platformLinks) + Links(r.id, r.platform.GetOr([]), platformMap)
      ensures topicLinks == old(topicLinks) + Links(r.id, r.topics.GetOr([]), topicMap)
    {
      if r.id in influencers {
        row := UpdateData(r);
      } else {
        var created := CreateData(r);
        row := Columns(created);
        CreateMatchesUpdate(r);
      }
      influencers := influencers[r.id := row];
      if r.platform.Some? {
        ConnectPlatforms(r.id, r.platform.value, platformMap);
      }
      if r.topics.Some? {
        ConnectTopics(r.id, r.topics.value, topicMap);
      }
    }

    /**
     * Running `upsertInfluencerWithRelations` twice on the same record, as a second run of
     * the seed script does: the second call returns the same row and leaves every table as
     * the first call left it.
     */
    method UpsertTwice(r: SeedRecord, platformMap: map<string, string>,
                       topicMap: map<string, string>) returns (first: InfluencerFields, second: InfluencerFields)
      modifies this
      ensures first == second == UpdateData(r)
      ensures influencers == old(influencers)[r.id := UpdateData(r)]
      ensures platformLinks == old(platformLinks) + Links(r.id, r.platform.GetOr([]), platformMap)
      ensures topicLinks == old(topicLinks) + Links(r.id, r.topics.GetOr([]), topicMap)
    {
      first := UpsertInfluencerWithRelations(r, platformMap, topicMap);
      second := UpsertInfluencerWithRelations(r, platformMap, topicMap);
      ReseedChangesNothing(old(influencers), old(platformLinks), r, r.platform.GetOr([]), platformMap);
      ReseedChangesNothing(old(influencers), old(topicLinks), r, r.topics.GetOr([]), topicMap);
    }
  }

  /** Seeding the same record again changes no table. */
  lemma ReseedChangesNothing(influencers: map<string, InfluencerFields>, links: set<(string, string)>,
                             r: SeedRecord, names: seq<string>, idMap: map<string, string>)
    ensures var once := influencers[r.id := UpdateData(r)];
      once[r.id := UpdateData(r)] == once
    ensures var once := links + Links(r.id, names, idMap);
      once + Links(r.id, names, idMap) == once
  {
  }
}
