/** internal/repository/community_repository.go: the community table, its
    members, the name check, the counter updates and the construction of the
    community-post query. The table stands in for the database; each database
    call takes `dbErr`, the error the driver reports for it, if any. */
module CommunityRepository {
  import opened Wrappers
  import Orm

  datatype Community = Community(
    id: int,
    name: string,
    slug: string,
    description: string,
    rules: string,
    membersCount: int,
    postsCount: int,
    logoPicture: string,
    coverPicture: string)

  datatype CommunityMember = CommunityMember(userId: int, communityId: int)

  /** The row an `Updates(upd)` leaves behind: every non-zero field of upd
      replaces the stored one. */
  function Merge(cur: Community, upd: Community): (r: Community)
    ensures r.id == cur.id
    ensures upd.(id := 0) == Community(0, "", "", "", "", 0, 0, "", "") ==> r == cur
    ensures upd.name != "" && upd.slug != "" && upd.description != "" && upd.rules != "" &&
            upd.membersCount != 0 && upd.postsCount != 0 && upd.logoPicture != "" && upd.coverPicture != "" ==>
              r == upd.(id := cur.id)
  {
    Community(
      cur.id,
      Orm.WriteStr(upd.name, cur.name),
      Orm.WriteStr(upd.slug, cur.slug),
      Orm.WriteStr(upd.description, cur.description),
      Orm.WriteStr(upd.rules, cur.rules),
      Orm.WriteInt(upd.membersCount, cur.membersCount),
      Orm.WriteInt(upd.postsCount, cur.postsCount),
      Orm.WriteStr(upd.logoPicture, cur.logoPicture),
      Orm.WriteStr(upd.coverPicture, cur.coverPicture))
  }

  /** Applying the same update twice stores what applying it once does. */
  lemma MergeTwice(cur: Community, upd: Community)
    ensures Merge(Merge(cur, upd), upd) == Merge(cur, upd)
  {
  }

  /** Writing back a stored row with one counter changed to a non-zero value
      changes that counter and nothing else. */
  lemma MergeMembersCount(c: Community, n: int)
    requires n != 0
    ensures Merge(c, c.(membersCount := n)) == c.(membersCount := n)
  {
  }

  class CommunityTable {
    var communities: map<int, Community>
    var members: seq<CommunityMember>
    var nextId: int

    /** Rows are keyed by their id, ids come from an increasing counter, and
        the counters never go below zero. */
    ghost predicate Valid()
      reads this
    {
      forall id :: id in communities ==>
        communities[id].id == id && id < nextId &&
        communities[id].membersCount >= 0 && communities[id].postsCount >= 0
    }

    constructor ()
      ensures Valid() && communities == map[] && members == [] && nextId == 1
    {
      communities, members, nextId := map[], [], 1;
    }

    /** CheckCommunityNameAvailability: the name is free when counting the
        communities with that name gives 0; a failed count reports it taken. */
    function NameAvailable(name: string, countFails: bool): (free: bool)
      reads this
      ensures free <==> !countFails && forall id :: id in communities ==> communities[id].name != name
    {
      var named := set id | id in communities && communities[id].name == name;
      assert (exists id :: id in communities && communities[id].name == name) ==> |named| != 0 by {
        if exists id :: id in communities && communities[id].name == name {
          var id :| id in communities && communities[id].name == name;
          assert id in named;
        }
      }
      !countFails && |named| == 0
    }

    /** GetCommunityDetailByID: First by primary key. */
    function GetByID(id: int, dbErr: Option<Error>): (r: Result<Community>)
      reads this
      ensures r.Ok? <==> dbErr.None? && id in communities
      ensures r.Ok? ==> r.value == communities[id]
      ensures r.Err? ==> r.error.Wrap? && r.error.context == "failed to get community detail"
      ensures r.Err? && dbErr.None? ==> r.error.cause == RecordNotFound
    {
      if dbErr.Some? then Err(Wrap("failed to get community detail", dbErr.value))
      else if id !in communities then Err(Wrap("failed to get community detail", RecordNotFound))
      else Ok(communities[id])
    }

    /** CheckMembership: a missing row (gorm's ErrRecordNotFound, compared
        unwrapped) is no member and no error; any other error is wrapped. */
    function CheckMembership(communityId: int, userId: int, dbErr: Option<Error>): (r: Result<Option<CommunityMember>>)
      reads this
      ensures r.Err? <==> dbErr.Some? && dbErr.value != RecordNotFound
      ensures r.Err? ==> r.error == Wrap("failed to check membership", dbErr.value)
      ensures r.Ok? ==> (r.value.Some? <==> dbErr.None? && CommunityMember(userId, communityId) in members)
      ensures r.Ok? && r.value.Some? ==> r.value.value == CommunityMember(userId, communityId)
    {
      if dbErr == Some(RecordNotFound) then Ok(None)
      else if dbErr.Some? then Err(Wrap("failed to check membership", dbErr.value))
      else if CommunityMember(userId, communityId) in members then Ok(Some(CommunityMember(userId, communityId)))
      else Ok(None)
    }

    /** CreateCommunity: inserts the row under a fresh id. */
    method Create(c: Community, dbErr: Option<Error>) returns (created: Community, err: Outcome)
      requires Valid() && c.membersCount >= 0 && c.postsCount >= 0
      modifies this
      ensures Valid() && members == old(members)
      ensures dbErr.Some? ==> err == Fail(Wrap("failed to create community", dbErr.value)) &&
                              communities == old(communities) && nextId == old(nextId)
      ensures dbErr.None? ==> err == Pass && created == c.(id := old(nextId)) &&
                              old(nextId) !in old(communities) &&
                              communities == old(communities)[created.id := created] && nextId == old(nextId) + 1
    {
      created := c;
      if dbErr.Some? {
        return created, Fail(Wrap("failed to create community", dbErr.value));
      }
      created := c.(id := nextId);
      communities := communities[nextId := created];
      nextId := nextId + 1;
      err := Pass;
    }

    /** UpdateCommunity: writes the non-zero fields of c into row id; an id
        with no row is zero rows updated, not an error. */
    method Update(id: int, c: Community, dbErr: Option<Error>) returns (err: Outcome)
      requires Valid() && c.membersCount >= 0 && c.postsCount >= 0
      modifies this
      ensures Valid() && members == old(members) && nextId == old(nextId)
      ensures dbErr.Some? ==> err == Fail(Wrap("failed to update community", dbErr.value)) &&
                              communities == old(communities)
      ensures dbErr.None? ==> err == Pass &&
                              communities == if id in old(communities) then old(communities)[id := Merge(old(communities)[id], c)]
                                             else old(communities)
    {
      if dbErr.Some? {
        return Fail(Wrap("failed to update community", dbErr.value));
      }
      if id in communities {
        communities := communities[id := Merge(communities[id], c)];
      }
      err := Pass;
    }

    /** AddCommunityMember: inserts one membership row. */
    method AddMember(m: CommunityMember, dbErr: Option<Error>) returns (err: Outcome)
      requires Valid()
      modifies this
      ensures Valid() && communities == old(communities) && nextId == old(nextId)
      ensures dbErr.Some? ==> err == Fail(Wrap("failed to add community member", dbErr.value)) && members == old(members)
      ensures dbErr.None? ==> err == Pass && members == old(members) + [m]
    {
      if dbErr.Some? {
        return Fail(Wrap("failed to add community member", dbErr.value));
      }
      members := members + [m];
      err := Pass;
    }

    /** UpdateCommunityPostsCount: posts_count + 1 on row id only. */
    method IncrementPostsCount(id: int, dbErr: Option<Error>) returns (err: Outcome)
      requires Valid()
      modifies this
      ensures Valid() && members == old(members) && nextId == old(nextId)
      ensures dbErr.Some? ==> err == Fail(Wrap("failed to update community posts count", dbErr.value)) &&
                              communities == old(communities)
      ensures dbErr.None? ==> err == Pass &&
                              communities == if id in old(communities)
                                             then old(communities)[id := old(communities)[id].(postsCount := old(communities)[id].postsCount + 1)]
                                             else old(communities)
    {
      if dbErr.Some? {
        return Fail(Wrap("failed to update community posts count", dbErr.value));
      }
      if id in communities {
        communities := communities[id := communities[id].(postsCount := communities[id].postsCount + 1)];
      }
      err := Pass;
    }

    /** UpdateCommunityMembersCount: members_count + 1 on row id only. */
    method IncrementMembersCount(id: int, dbErr: Option<Error>) returns (err: Outcome)
      requires Valid()
      modifies this
      ensures Valid() && members == old(members) && nextId == old(nextId)
      ensures dbErr.Some? ==> err == Fail(Wrap("failed to update community members count", dbErr.value)) &&
                              communities == old(communities)
      ensures dbErr.None? ==> err == Pass &&
                              communities == if id in old(communities)
                                             then old(communities)[id := old(communities)[id].(membersCount := old(communities)[id].membersCount + 1)]
                                             else old(communities)
    {
      if dbErr.Some? {
        return Fail(Wrap("failed to update community members count", dbErr.value));
      }
      if id in communities {
        communities := communities[id := communities[id].(membersCount := communities[id].membersCount + 1)];
      }
      err := Pass;
    }
  }

  // ---------------------------------------------------------------------
  // The community-post query

  /** A filter value: the map's values are interface{}; only strings matter
      to the sort options. */
  datatype Value = Str(s: string) | Int(i: int) | Other

  /** One `Where(clause, arg)` added to the query. */
  datatype Condition = Where(clause: string, arg: Value)

  datatype Query = Query(conditions: seq<Condition>, order: string)

  /** `filters[key].(string)` with the comma-ok form: a missing key or a
      non-string value is None. */
  function StringFilter(filters: map<string, Value>, key: string): (r: Option<string>)
    ensures r.Some? <==> key in filters && filters[key].Str?
    ensures r.Some? ==> r.value == filters[key].s
  {
    if key in filters && filters[key].Str? then Some(filters[key].s) else None
  }

  /** The filter keys that become equality conditions. */
  function ConditionKeys(filters: map<string, Value>): set<string>
  {
    set k | k in filters && k != "sort" && k != "sort_by"
  }

  /** The order clause: sort_by with the given direction, or ascending when
      no string direction is given; "created_at desc" when there is no string
      sort_by, whatever sort says. */
  function OrderClause(filters: map<string, Value>): (r: string)
    ensures StringFilter(filters, "sort_by").None? ==> r == "created_at desc"
    ensures StringFilter(filters, "sort_by").Some? ==>
              r == StringFilter(filters, "sort_by").value + " " +
                   (if StringFilter(filters, "sort").Some? then StringFilter(filters, "sort").value else "asc")
  {
    var sortBy := StringFilter(filters, "sort_by");
    var sortOrder := StringFilter(filters, "sort");
    if sortBy.Some? && sortOrder.Some? then sortBy.value + " " + sortOrder.value
    else if sortBy.Some? then sortBy.value + " asc"
    else "created_at desc"
  }

  /** A non-string sort or sort_by value orders exactly as if it were absent. */
  lemma NonStringSortIsAbsent(filters: map<string, Value>, key: string)
    requires key in filters && !filters[key].Str?
    ensures OrderClause(filters) == OrderClause(filters - {key})
  {
    assert StringFilter(filters, "sort") == StringFilter(filters - {key}, "sort");
    assert StringFilter(filters, "sort_by") == StringFilter(filters - {key}, "sort_by");
  }

  /** The order depends on the two sort keys only. */
  lemma OrderIgnoresConditionKeys(filters: map<string, Value>, key: string, v: Value)
    requires key != "sort" && key != "sort_by"
    ensures OrderClause(filters[key := v]) == OrderClause(filters)
  {
    assert StringFilter(filters[key := v], "sort") == StringFilter(filters, "sort");
    assert StringFilter(filters[key := v], "sort_by") == StringFilter(filters, "sort_by");
  }

  /** The query of GetCommunityPosts: first the community condition, then one
      equality condition per non-sort filter key, in the order the map
      iteration visits them (returned as `visited`; Go leaves that order
      unspecified), then the order clause. Executing the query is the ORM's
      work and is not modelled. */
  method BuildPostsQuery(communityId: int, filters: map<string, Value>) returns (q: Query, ghost visited: seq<string>)
    ensures |q.conditions| == 1 + |visited|
    ensures q.conditions[0] == Where("community_id = ?", Int(communityId))
    ensures forall i :: 0 <= i < |visited| ==>
              visited[i] in ConditionKeys(filters) &&
              q.conditions[i + 1] == Where(visited[i] + " = ?", filters[visited[i]])
    ensures forall i, j :: 0 <= i < j < |visited| ==> visited[i] != visited[j]
    ensures forall k :: k in ConditionKeys(filters) ==> k in visited
    ensures q.order == OrderClause(filters)
  {
    var conditions := [Where("community_id = ?", Int(communityId))];
    var remaining := filters.Keys;
    visited := [];
    while remaining != {}
      invariant remaining <= filters.Keys
      invariant |conditions| == 1 + |visited|
      invariant conditions[0] == Where("community_id = ?", Int(communityId))
      invariant forall i :: 0 <= i < |visited| ==>
                  visited[i] in ConditionKeys(filters) && visited[i] !in remaining &&
                  conditions[i + 1] == Where(visited[i] + " = ?", filters[visited[i]])
      invariant forall i, j :: 0 <= i < j < |visited| ==> visited[i] != visited[j]
      invariant forall k :: k in ConditionKeys(filters) && k !in remaining ==> k in visited
      decreases remaining
    {
      var key :| key in remaining;
      if key != "sort" && key != "sort_by" {
        conditions := conditions + [Where(key + " = ?", filters[key])];
        visited := visited + [key];
      }
      remaining := remaining - {key};
    }
    q := Query(conditions, OrderClause(filters));
  }
}
