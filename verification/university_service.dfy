/** internal/service/university_service.go: adding and updating universities
    and recording a review together with the university's running rating.
    The university and review tables stand in for the database. */
module UniversityService {
  import opened Wrappers
  import opened Text
  import Orm

  // ---------------------------------------------------------------------
  // Go integer division

  function Abs(x: int): nat
  {
    if x < 0 then -x else x
  }

  /** Go's `/` on int: the quotient truncated toward zero (Dafny's own `/`
      is Euclidean and differs for a negative dividend). */
  function GoDiv(a: int, b: int): (q: int)
    requires b != 0
    ensures a >= 0 && b > 0 ==> q == a / b
    ensures a < 0 && b > 0 ==> q == -((-a) / b)
  {
    var m := Abs(a) / Abs(b);
    if (a < 0) == (b < 0) then m else -m
  }

  /** x < y scales to x*n < y*n for a positive n. */
  lemma MulStrict(x: int, y: int, n: int)
    requires n > 0 && x < y
    ensures x * n < y * n
  {
    var d := y - x;
    assert d >= 1;
    assert d * n >= n by {
      assert (d - 1) * n >= 0;
    }
    assert y * n == x * n + d * n;
  }

  /** A division by a positive divisor has one quotient: the q with
      q*n <= a < q*n + n. */
  lemma DivUnique(a: int, n: int, q: int)
    requires n > 0 && q * n <= a < q * n + n
    ensures a / n == q
  {
    var d := a / n;
    assert d * n <= a < d * n + n;
    if d < q {
      MulStrict(d, q, n);
      MulStrict(d, d + 1, n);
      if d + 1 < q {
        MulStrict(d + 1, q, n);
      }
    } else if q < d {
      MulStrict(q, d, n);
      if q + 1 < d {
        MulStrict(q + 1, d, n);
      }
    }
  }

  /** Truncation toward zero: for a positive divisor the quotient times the
      divisor is at most a's distance from zero, and less than one divisor
      away from a. */
  lemma GoDivTruncates(a: int, n: int)
    requires n > 0
    ensures a >= 0 ==> GoDiv(a, n) * n <= a < GoDiv(a, n) * n + n
    ensures a < 0 ==> GoDiv(a, n) * n - n < a <= GoDiv(a, n) * n
  {
    if a < 0 {
      var m := (-a) / n;
      assert m * n <= -a < m * n + n;
      assert GoDiv(a, n) * n == -(m * n);
    }
  }

  /** Truncation toward zero never leaves [lo, hi] for a quotient by a
      positive divisor whose exact value lies in it. */
  lemma GoDivBetween(a: int, n: int, lo: int, hi: int)
    requires n > 0 && lo * n <= a <= hi * n
    ensures lo <= GoDiv(a, n) <= hi
  {
    var q := GoDiv(a, n);
    GoDivTruncates(a, n);
    if q < lo {
      if q + 1 < lo {
        MulStrict(q + 1, lo, n);
      }
    }
    if hi < q {
      if hi < q - 1 {
        MulStrict(hi, q - 1, n);
      }
      MulStrict(hi, q, n);
    }
  }

  // ---------------------------------------------------------------------
  // The rating update

  /** The rating as the source computes it: the old rating is multiplied by
      the total AFTER the increment. */
  function RatingAsWritten(rating: int, total: int, stars: int): (r: int)
    requires total >= 0
    ensures total == 0 ==> r == rating + stars
  {
    GoDiv(rating * (total + 1) + stars, total + 1)
  }

  /** The running average the rating stands for: the old sum (rating times
      the old total) plus the new stars, over the new total. */
  function NewRating(rating: int, total: int, stars: int): (r: int)
    requires total >= 0
    ensures total == 0 ==> r == stars
  {
    GoDiv(rating * total + stars, total + 1)
  }

  /** With non-negative inputs the formula as written is the old rating plus
      the truncated stars/total: a review can never lower the rating. */
  lemma AsWrittenNeverDrops(rating: int, total: int, stars: int)
    requires rating >= 0 && total >= 0 && stars >= 0
    ensures RatingAsWritten(rating, total, stars) == rating + stars / (total + 1)
    ensures RatingAsWritten(rating, total, stars) >= rating
  {
    var n := total + 1;
    var q := stars / n;
    assert q * n <= stars < q * n + n;
    assert rating * n + stars >= 0;
    assert (rating + q) * n == rating * n + q * n;
    DivUnique(rating * n + stars, n, rating + q);
  }

  /** A one-star review of a five-star university with one earlier review:
      the formula as written raises the rating to 5 (5*2+1 = 11, 11/2), while
      the average of 5 and 1 is 3. A five-star review raises 5 to 7. */
  lemma AsWrittenInflates()
    ensures RatingAsWritten(5, 1, 1) == 5 && NewRating(5, 1, 1) == 3
    ensures RatingAsWritten(5, 1, 5) == 7 && NewRating(5, 1, 5) == 5
  {
  }

  /** x <= y scales to x*n <= y*n for a non-negative n. */
  lemma MulMono(x: int, y: int, n: int)
    requires n >= 0 && x <= y
    ensures x * n <= y * n
  {
    assert y * n - x * n == (y - x) * n;
  }

  lemma MulSucc(x: int, t: int)
    ensures x * (t + 1) == x * t + x
  {
  }

  /** The corrected rating lies between the old rating and the new stars,
      whatever their signs. */
  lemma NewRatingBetween(rating: int, total: int, stars: int)
    requires total >= 0
    ensures var lo := if rating <= stars then rating else stars;
            var hi := if rating <= stars then stars else rating;
            lo <= NewRating(rating, total, stars) <= hi
  {
    var lo := if rating <= stars then rating else stars;
    var hi := if rating <= stars then stars else rating;
    MulMono(lo, rating, total);
    MulMono(rating, hi, total);
    MulSucc(lo, total);
    MulSucc(hi, total);
    GoDivBetween(rating * total + stars, total + 1, lo, hi);
  }

  // ---------------------------------------------------------------------
  // Records and requests

  /** The university row (internal/model/university.go is not part of this
      model; the fields are those the service reads and writes). The three
      pointer fields are Options. */
  datatype University = University(
    id: int,
    name: string,
    slug: string,
    summary: string,
    locationId: int,
    website: string,
    address: string,
    totalMajors: Option<int>,
    minTuition: int,
    maxTuition: int,
    logo: string,
    kind: string,
    accreditation: string,
    rating: Option<int>,
    totalReviews: Option<int>)

  /** The request of AddUniversity and UpdateUniversity (both carry the same
      fields). */
  datatype UniversityRequest = UniversityRequest(
    name: string,
    summary: string,
    locationId: int,
    website: string,
    address: string,
    minTuition: int,
    maxTuition: int,
    totalMajors: int,
    logo: string,
    kind: string,
    accreditation: string)

  datatype Review = Review(userId: int, universityId: int, text: string, stars: int)

  /** The record AddUniversity inserts: the request's fields, the slug from
      the name, no rating and no review count yet. */
  function NewUniversity(req: UniversityRequest): (u: University)
    ensures u.name == req.name && u.slug == Slug(req.name) && u.summary == req.summary
    ensures u.locationId == req.locationId && u.website == req.website && u.address == req.address
    ensures u.totalMajors == Some(req.totalMajors) && u.minTuition == req.minTuition && u.maxTuition == req.maxTuition
    ensures u.logo == req.logo && u.kind == req.kind && u.accreditation == req.accreditation
    ensures u.rating.None? && u.totalReviews.None?
  {
    University(0, req.name, Slug(req.name), req.summary, req.locationId, req.website, req.address,
               Some(req.totalMajors), req.minTuition, req.maxTuition, req.logo, req.kind, req.accreditation,
               None, None)
  }

  /** The fetched row with every listed field replaced by the request's and
      the slug derived from the new name; id, rating and review count stay. */
  function Overwrite(u: University, req: UniversityRequest): (r: University)
    ensures r.id == u.id && r.rating == u.rating && r.totalReviews == u.totalReviews
    ensures r.name == req.name && r.slug == Slug(req.name) && r.summary == req.summary
    ensures r.locationId == req.locationId && r.website == req.website && r.address == req.address
    ensures r.totalMajors == Some(req.totalMajors) && r.minTuition == req.minTuition && r.maxTuition == req.maxTuition
    ensures r.logo == req.logo && r.kind == req.kind && r.accreditation == req.accreditation
  {
    University(u.id, req.name, Slug(req.name), req.summary, req.locationId, req.website, req.address,
               Some(req.totalMajors), req.minTuition, req.maxTuition, req.logo, req.kind, req.accreditation,
               u.rating, u.totalReviews)
  }

  /** Nothing of the old row survives an overwrite except id, rating and
      review count, and overwriting twice is overwriting once. */
  lemma OverwriteForgetsOld(u: University, v: University, req: UniversityRequest)
    requires u.id == v.id && u.rating == v.rating && u.totalReviews == v.totalReviews
    ensures Overwrite(u, req) == Overwrite(v, req)
    ensures Overwrite(Overwrite(u, req), req) == Overwrite(u, req)
    ensures Overwrite(u, req) == NewUniversity(req).(id := u.id, rating := u.rating, totalReviews := u.totalReviews)
  {
  }

  /** The row an `Updates(upd)` leaves: non-zero fields and non-nil pointers
      of upd replace the stored ones. */
  function Merge(cur: University, upd: University): (r: University)
    ensures r.id == cur.id
    ensures upd.(id := 0) == University(0, "", "", "", 0, "", "", None, 0, 0, "", "", "", None, None) ==> r == cur
    ensures upd.name != "" && upd.slug != "" && upd.summary != "" && upd.locationId != 0 &&
            upd.website != "" && upd.address != "" && upd.totalMajors.Some? &&
            upd.minTuition != 0 && upd.maxTuition != 0 && upd.logo != "" && upd.kind != "" &&
            upd.accreditation != "" && upd.rating.Some? && upd.totalReviews.Some? ==>
              r == upd.(id := cur.id)
  {
    University(
      cur.id,
      Orm.WriteStr(upd.name, cur.name), Orm.WriteStr(upd.slug, cur.slug),
      Orm.WriteStr(upd.summary, cur.summary), Orm.WriteInt(upd.locationId, cur.locationId),
      Orm.WriteStr(upd.website, cur.website), Orm.WriteStr(upd.address, cur.address),
      Orm.WritePtr(upd.totalMajors, cur.totalMajors),
      Orm.WriteInt(upd.minTuition, cur.minTuition), Orm.WriteInt(upd.maxTuition, cur.maxTuition),
      Orm.WriteStr(upd.logo, cur.logo), Orm.WriteStr(upd.kind, cur.kind),
      Orm.WriteStr(upd.accreditation, cur.accreditation),
      Orm.WritePtr(upd.rating, cur.rating), Orm.WritePtr(upd.totalReviews, cur.totalReviews))
  }

  /** Applying the same update twice stores what applying it once does. */
  lemma MergeTwice(cur: University, upd: University)
    ensures Merge(Merge(cur, upd), upd) == Merge(cur, upd)
  {
  }

  /** What an update stores: a request field left empty ("" or 0) does not
      clear the stored column, a non-empty one replaces it; the slug follows
      the name (an empty name leaves the stored slug); the total of majors is
      a pointer and is always written, zero included; id, rating and review
      count stay. */
  lemma StoredAfterUpdate(u: University, req: UniversityRequest)
    ensures var m := Merge(u, Overwrite(u, req));
            && m.id == u.id
            && m.name == (if req.name == "" then u.name else req.name)
            && m.slug == (if req.name == "" then u.slug else Slug(req.name))
            && m.summary == (if req.summary == "" then u.summary else req.summary)
            && m.locationId == (if req.locationId == 0 then u.locationId else req.locationId)
            && m.website == (if req.website == "" then u.website else req.website)
            && m.address == (if req.address == "" then u.address else req.address)
            && m.totalMajors == Some(req.totalMajors)
            && m.minTuition == (if req.minTuition == 0 then u.minTuition else req.minTuition)
            && m.maxTuition == (if req.maxTuition == 0 then u.maxTuition else req.maxTuition)
            && m.logo == (if req.logo == "" then u.logo else req.logo)
            && m.kind == (if req.kind == "" then u.kind else req.kind)
            && m.accreditation == (if req.accreditation == "" then u.accreditation else req.accreditation)
            && m.rating == u.rating && m.totalReviews == u.totalReviews
  {
    SlugShape(req.name);
  }

  // ---------------------------------------------------------------------
  // Tables

  predicate NonNegative(p: Option<int>)
  {
    p.None? || p.value >= 0
  }

  class UniversityTable {
    var rows: map<int, University>
    var nextId: int

    /** Rows are keyed by their id and no review count is negative. */
    ghost predicate Valid()
      reads this
    {
      forall id :: id in rows ==> rows[id].id == id && id < nextId && NonNegative(rows[id].totalReviews)
    }

    constructor ()
      ensures Valid() && rows == map[] && nextId == 1
    {
      rows, nextId := map[], 1;
    }

    /** GetUniversityByID: First by primary key. */
    function GetByID(id: int, dbErr: Option<Error>): (r: Result<University>)
      reads this
      ensures r.Ok? <==> dbErr.None? && id in rows
      ensures r.Ok? ==> r.value == rows[id]
    {
      if dbErr.Some? then Err(Wrap("failed to get university by id", dbErr.value))
      else if id !in rows then Err(Wrap("failed to get university by id", RecordNotFound))
      else Ok(rows[id])
    }

    method Create(u: University, dbErr: Option<Error>) returns (created: University, err: Outcome)
      requires Valid() && NonNegative(u.totalReviews)
      modifies this
      ensures Valid()
      ensures dbErr.Some? ==> err.Fail? && rows == old(rows) && nextId == old(nextId)
      ensures dbErr.None? ==> err == Pass && created == u.(id := old(nextId)) && old(nextId) !in old(rows) &&
                              rows == old(rows)[created.id := created] && nextId == old(nextId) + 1
    {
      created := u;
      if dbErr.Some? {
        return created, Fail(Wrap("failed to create university", dbErr.value));
      }
      created := u.(id := nextId);
      rows := rows[nextId := created];
      nextId := nextId + 1;
      err := Pass;
    }

    method Update(id: int, u: University, dbErr: Option<Error>) returns (err: Outcome)
      requires Valid() && NonNegative(u.totalReviews)
      modifies this
      ensures Valid() && nextId == old(nextId)
      ensures dbErr.Some? ==> err.Fail? && rows == old(rows)
      ensures dbErr.None? ==> err == Pass &&
                              rows == if id in old(rows) then old(rows)[id := Merge(old(rows)[id], u)] else old(rows)
    {
      if dbErr.Some? {
        return Fail(Wrap("failed to update university", dbErr.value));
      }
      if id in rows {
        rows := rows[id := Merge(rows[id], u)];
      }
      err := Pass;
    }
  }

  class ReviewTable {
    var reviews: seq<Review>

    constructor ()
      ensures reviews == []
    {
      reviews := [];
    }

    /** SetReview: inserts the review. */
    method SetReview(rv: Review, dbErr: Option<Error>) returns (err: Outcome)
      modifies this
      ensures dbErr.Some? ==> err.Fail? && reviews == old(reviews)
      ensures dbErr.None? ==> err == Pass && reviews == old(reviews) + [rv]
    {
      if dbErr.Some? {
        return Fail(Wrap("failed to set review", dbErr.value));
      }
      reviews := reviews + [rv];
      err := Pass;
    }
  }

  // ---------------------------------------------------------------------
  // The service

  /** AddUniversity: inserts the new record; the returned record carries
      the id it was stored under. */
  method AddUniversity(table: UniversityTable, req: UniversityRequest, createErr: Option<Error>)
    returns (r: Result<University>)
    requires table.Valid()
    modifies table
    ensures table.Valid()
    ensures createErr.Some? ==> r == Err(New("failed to create university")) && table.rows == old(table.rows)
    ensures createErr.None? ==> r == Ok(NewUniversity(req).(id := old(table.nextId))) &&
                                r.value.slug == Slug(req.name) &&
                                table.rows == old(table.rows)[r.value.id := r.value]
  {
    var created, err := table.Create(NewUniversity(req), createErr);
    if err.Fail? {
      return Err(New("failed to create university"));
    }
    r := Ok(created);
  }

  /** UpdateUniversity: a failed lookup writes nothing; otherwise the fetched
      row is overwritten from the request and written back. */
  method UpdateUniversity(table: UniversityTable, id: int, req: UniversityRequest,
                          lookupErr: Option<Error>, updateErr: Option<Error>)
    returns (r: Result<University>)
    requires table.Valid()
    modifies table
    ensures table.Valid() && table.nextId == old(table.nextId)
    ensures lookupErr.Some? || id !in old(table.rows) ==>
              r == Err(New("university not found")) && table.rows == old(table.rows)
    ensures lookupErr.None? && id in old(table.rows) && updateErr.Some? ==>
              r == Err(New("failed to update university")) && table.rows == old(table.rows)
    ensures lookupErr.None? && id in old(table.rows) && updateErr.None? ==>
              r == Ok(Overwrite(old(table.rows)[id], req)) && r.value.slug == Slug(req.name) &&
              table.rows == old(table.rows)[id := Merge(old(table.rows)[id], r.value)]
  {
    var existing := table.GetByID(id, lookupErr);
    if existing.Err? {
      return Err(New("university not found"));
    }
    var updated := Overwrite(existing.value, req);
    var err := table.Update(id, updated, updateErr);
    if err.Fail? {
      return Err(New("failed to update university"));
    }
    r := Ok(updated);
  }

  /** The stored rating and review count, a nil one read as 0. */
  function RatingOf(u: University): int
  {
    if u.rating.Some? then u.rating.value else 0
  }

  function ReviewsOf(u: University): int
  {
    if u.totalReviews.Some? then u.totalReviews.value else 0
  }

  /** The university after a review of `stars`, as AddReview computes it:
      one more review, and the rating by the formula as written (the old
      rating times the incremented count, plus the stars, over that count). */
  function Reviewed(u: University, stars: int): (r: University)
    requires NonNegative(u.totalReviews)
    ensures r.totalReviews == Some(ReviewsOf(u) + 1)
    ensures r.rating == Some(RatingAsWritten(RatingOf(u), ReviewsOf(u), stars))
    ensures r == u.(rating := r.rating, totalReviews := r.totalReviews)
  {
    var total := ReviewsOf(u);
    u.(rating := Some(RatingAsWritten(RatingOf(u), total, stars)), totalReviews := Some(total + 1))
  }

  /** A university never reviewed (both counters nil) takes the first
      review's stars as its rating. */
  lemma FirstReviewSetsRating(u: University, stars: int)
    requires u.rating.None? && u.totalReviews.None?
    ensures Reviewed(u, stars).rating == Some(stars) && Reviewed(u, stars).totalReviews == Some(1)
  {
  }

  /** With a non-negative stored rating and non-negative stars, the rating
      AddReview stores is the old one plus stars/(count+1), truncated: a
      review never lowers it. */
  lemma ReviewedNeverDrops(u: University, stars: int)
    requires NonNegative(u.totalReviews) && NonNegative(u.rating) && stars >= 0
    ensures Reviewed(u, stars).rating.value == RatingOf(u) + stars / (ReviewsOf(u) + 1)
    ensures Reviewed(u, stars).rating.value >= RatingOf(u)
  {
    AsWrittenNeverDrops(RatingOf(u), ReviewsOf(u), stars);
  }

  /** What AddReview stores is not the average: a university rated 5 after
      one review keeps 5 after a one-star review, where the average of the
      two is 3 (AsWrittenInflates). */
  lemma ReviewedIsNotTheAverage(u: University)
    requires u.rating == Some(5) && u.totalReviews == Some(1)
    ensures Reviewed(u, 1).rating == Some(5) && Reviewed(u, 1).totalReviews == Some(2)
  {
    assert RatingOf(u) == 5 && ReviewsOf(u) == 1;
    assert RatingAsWritten(5, 1, 1) == 5 by {
      AsWrittenInflates();
    }
  }

  /** AddReview: the review is stored first; a failed lookup afterwards
      reports "university not found" and leaves the review stored; otherwise
      the university is written back as Reviewed gives it: one more review
      and the rating by the formula as written. */
  method AddReview(universities: UniversityTable, reviews: ReviewTable, req: Review,
                   reviewErr: Option<Error>, lookupErr: Option<Error>, updateErr: Option<Error>)
    returns (r: Result<Review>)
    requires universities.Valid()
    modifies universities, reviews
    ensures universities.Valid() && universities.nextId == old(universities.nextId)
    ensures reviewErr.Some? ==>
              r == Err(New("failed to create review")) &&
              reviews.reviews == old(reviews.reviews) && universities.rows == old(universities.rows)
    ensures reviewErr.None? ==> reviews.reviews == old(reviews.reviews) + [req]
    ensures reviewErr.None? && (lookupErr.Some? || req.universityId !in old(universities.rows)) ==>
              r == Err(New("university not found")) && universities.rows == old(universities.rows)
    ensures reviewErr.None? && lookupErr.None? && req.universityId in old(universities.rows) ==>
              var u := old(universities.rows)[req.universityId];
              && (updateErr.Some? ==>
                    r == Err(New("failed to update university rating")) && universities.rows == old(universities.rows))
              && (updateErr.None? ==>
                    r == Ok(req) &&
                    universities.rows == old(universities.rows)[req.universityId := Reviewed(u, req.stars)])
  {
    var saved := reviews.SetReview(req, reviewErr);
    if saved.Fail? {
      return Err(New("failed to create review"));
    }
    var university := universities.GetByID(req.universityId, lookupErr);
    if university.Err? {
      return Err(New("university not found"));
    }
    var u := university.value;
    var reviewed := Reviewed(u, req.stars);
    assert Merge(u, reviewed) == reviewed;
    var err := universities.Update(req.universityId, reviewed, updateErr);
    if err.Fail? {
      return Err(New("failed to update university rating"));
    }
    r := Ok(req);
  }
}
