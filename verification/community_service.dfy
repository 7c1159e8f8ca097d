/** internal/service/community_service.go: creating, updating and joining
    communities on top of the community table. */
module CommunityService {
  import opened Wrappers
  import opened Text
  import opened CommunityRepository

  datatype CreateCommunityRequest = CreateCommunityRequest(
    name: string, description: string, logoPicture: string, coverPicture: string)

  datatype UpdateCommunityRequest = UpdateCommunityRequest(
    name: string, slug: string, description: string, logoPicture: string, coverPicture: string)

  /** The record CreateCommunity inserts: the request's fields, the slug derived
      from the name, every other field zero. */
  function NewCommunity(data: CreateCommunityRequest): (c: Community)
    ensures c.name == data.name && c.slug == Slug(data.name)
    ensures c.description == data.description && c.logoPicture == data.logoPicture && c.coverPicture == data.coverPicture
    ensures c.id == 0 && c.rules == "" && c.membersCount == 0 && c.postsCount == 0
  {
    Community(0, data.name, Slug(data.name), data.description, "", 0, 0, data.logoPicture, data.coverPicture)
  }

  /** The record UpdateCommunity writes: the slug is the request's, verbatim. */
  function UpdateRecord(data: UpdateCommunityRequest): (c: Community)
    ensures c.name == data.name && c.slug == data.slug
    ensures c.description == data.description && c.logoPicture == data.logoPicture && c.coverPicture == data.coverPicture
    ensures c.id == 0 && c.rules == "" && c.membersCount == 0 && c.postsCount == 0
  {
    Community(0, data.name, data.slug, data.description, "", 0, 0, data.logoPicture, data.coverPicture)
  }

  /** The slug a created community gets is the same length as its name, has
      no space and no upper-case letter, and deriving it again changes nothing. */
  lemma CreatedSlug(data: CreateCommunityRequest)
    ensures |NewCommunity(data).slug| == |data.name|
    ensures forall i :: 0 <= i < |data.name| ==>
              NewCommunity(data).slug[i] != ' ' && !IsUpper(NewCommunity(data).slug[i])
    ensures Slug(NewCommunity(data).slug) == NewCommunity(data).slug
  {
    SlugShape(data.name);
    SlugIdempotent(data.name);
  }

  /** An update does not derive the slug from the name: the stored slug is
      the request's whenever it is non-empty (an empty one keeps the stored
      slug), whatever the name; so a request whose slug disagrees with the
      rule stores a slug that is not the name's. */
  lemma UpdateSlugNotDerived(cur: Community, data: UpdateCommunityRequest)
    ensures Merge(cur, UpdateRecord(data)).slug == if data.slug == "" then cur.slug else data.slug
    ensures data.slug != "" && data.slug != Slug(data.name) ==> Merge(cur, UpdateRecord(data)).slug != Slug(data.name)
  {
  }

  /** CreateCommunity: a taken name (or a failed name count) fails before
      anything is written; otherwise the new record is inserted. */
  method CreateCommunity(table: CommunityTable, data: CreateCommunityRequest, countFails: bool, createErr: Option<Error>)
    returns (r: Result<Community>)
    requires table.Valid()
    modifies table
    ensures table.Valid() && table.members == old(table.members)
    ensures !old(table.NameAvailable(data.name, countFails)) ==>
              r == Err(New("community with the same name already exists")) &&
              table.communities == old(table.communities) && table.nextId == old(table.nextId)
    ensures old(table.NameAvailable(data.name, countFails)) && createErr.Some? ==>
              r == Err(New("error creating community")) &&
              table.communities == old(table.communities) && table.nextId == old(table.nextId)
    ensures old(table.NameAvailable(data.name, countFails)) && createErr.None? ==>
              r == Ok(NewCommunity(data).(id := old(table.nextId))) &&
              old(table.nextId) !in old(table.communities) &&
              table.communities == old(table.communities)[r.value.id := r.value]
  {
    if !table.NameAvailable(data.name, countFails) {
      return Err(New("community with the same name already exists"));
    }
    var created, err := table.Create(NewCommunity(data), createErr);
    if err.Fail? {
      return Err(New("error creating community"));
    }
    r := Ok(created);
  }

  /** UpdateCommunity: writes the update record over row id (non-zero fields
      only) and returns that record, not the stored row. */
  method UpdateCommunity(table: CommunityTable, id: int, data: UpdateCommunityRequest, updateErr: Option<Error>)
    returns (r: Result<Community>)
    requires table.Valid()
    modifies table
    ensures table.Valid() && table.members == old(table.members) && table.nextId == old(table.nextId)
    ensures updateErr.Some? ==> r == Err(New("error updating community")) && table.communities == old(table.communities)
    ensures updateErr.None? ==> r == Ok(UpdateRecord(data)) && r.value.slug == data.slug
    ensures updateErr.None? && id in old(table.communities) ==>
              table.communities == old(table.communities)[id := Merge(old(table.communities)[id], UpdateRecord(data))]
    ensures id !in old(table.communities) ==> table.communities == old(table.communities)
  {
    var updated := UpdateRecord(data);
    var err := table.Update(id, updated, updateErr);
    if err.Fail? {
      return Err(New("error updating community"));
    }
    r := Ok(updated);
  }

  /** JoinCommunity: look the community up, refuse an existing member, add
      the membership, then write the community back with one more member.
      Each failure has its own message and stops the steps after it; the
      steps before it are not undone. */
  method JoinCommunity(table: CommunityTable, id: int, userId: int,
                       lookupErr: Option<Error>, membershipErr: Option<Error>,
                       addErr: Option<Error>, updateErr: Option<Error>)
    returns (err: Outcome)
    requires table.Valid()
    modifies table
    ensures table.Valid() && table.nextId == old(table.nextId)
    // the lookup fails: nothing else is asked or written
    ensures lookupErr.Some? || id !in old(table.communities) ==>
              err == Fail(New("error retrieving community")) &&
              table.members == old(table.members) && table.communities == old(table.communities)
    // the membership check fails or finds the member: nothing is written
    ensures lookupErr.None? && id in old(table.communities) ==>
              var m := old(table.CheckMembership(id, userId, membershipErr));
              && (m.Err? ==>
                    err == Fail(New("error checking membership")) &&
                    table.members == old(table.members) && table.communities == old(table.communities))
              && (m.Ok? && m.value.Some? ==>
                    err == Fail(New("user already a member of the community")) &&
                    table.members == old(table.members) && table.communities == old(table.communities))
    // a new member: one membership row, then the count
    ensures lookupErr.None? && id in old(table.communities) &&
            old(table.CheckMembership(id, userId, membershipErr)) == Ok(None) ==>
              && (addErr.Some? ==>
                    err == Fail(New("error adding community member")) &&
                    table.members == old(table.members) && table.communities == old(table.communities))
              && (addErr.None? ==> table.members == old(table.members) + [CommunityMember(userId, id)])
              && (addErr.None? && updateErr.Some? ==>
                    err == Fail(New("error updating community member count")) &&
                    table.communities == old(table.communities))
              && (addErr.None? && updateErr.None? ==>
                    err == Pass &&
                    table.communities == old(table.communities)[id :=
                      old(table.communities)[id].(membersCount := old(table.communities)[id].membersCount + 1)])
  {
    var community := table.GetByID(id, lookupErr);
    if community.Err? {
      return Fail(New("error retrieving community"));
    }
    var existing := table.CheckMembership(id, userId, membershipErr);
    if existing.Err? {
      return Fail(New("error checking membership"));
    }
    if existing.value.Some? {
      return Fail(New("user already a member of the community"));
    }
    var added := table.AddMember(CommunityMember(userId, id), addErr);
    if added.Fail? {
      return Fail(New("error adding community member"));
    }
    var counted := community.value.(membersCount := community.value.membersCount + 1);
    MergeMembersCount(community.value, counted.membersCount);
    var written := table.Update(id, counted, updateErr);
    if written.Fail? {
      return Fail(New("error updating community member count"));
    }
    err := Pass;
  }
}
