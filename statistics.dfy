/**
 * GET /api/instructor/statistics: the caller's course counts. This route
 * reads the bearer token on its own (the header must start with the
 * prefix), and checks the role on the stored user rather than in the token.
 */
module Statistics {
  import opened Wrappers
  import opened Query
  import opened Http
  import opened Auth
  import opened Users
  import opened Models
  import InstructorCourses

  datatype Stats = Stats(
    totalCourses: int,
    publishedCourses: int,
    draftCourses: int,
    totalStudents: int,
    totalEnrollments: int)

  const InvalidToken := Error(401, "Invalid token")

  /** The error name the token library gives a malformed or badly signed token. */
  const MalformedTokenError: string := "JsonWebTokenError"

  /** Courses of `owner` whose status is draft. */
  function DraftBy(owner: Id): Course -> bool {
    (c: Course) => c.instructorId == owner && c.status == Draft
  }

  /** Every course of an owner is either published or draft, never both. */
  lemma OwnedSplitsIntoPublishedAndDraft(courses: seq<Course>, owner: Id)
    ensures |Filter(courses, OwnedBy(owner))|
            == |Filter(courses, PublishedBy(owner))| + |Filter(courses, DraftBy(owner))|
  {
    FilterCountSplit(courses, OwnedBy(owner), PublishedBy(owner), DraftBy(owner));
  }

  /** The counts for `owner`; the student and enrollment counts are fixed at 0. */
  function CountsFor(courses: seq<Course>, owner: Id): (s: Stats)
    ensures s.totalCourses == |Filter(courses, OwnedBy(owner))|
    ensures s.publishedCourses == |Filter(courses, PublishedBy(owner))|
    ensures s.draftCourses == |Filter(courses, DraftBy(owner))|
    ensures 0 <= s.publishedCourses <= s.totalCourses <= |courses|
    ensures s.totalStudents == 0 && s.totalEnrollments == 0
  {
    var total := |Filter(courses, OwnedBy(owner))|;
    var published := |Filter(courses, PublishedBy(owner))|;
    OwnedSplitsIntoPublishedAndDraft(courses, owner);
    Stats(total, published, total - published, 0, 0)
  }

  /**
   * The route: a header that does not start with the prefix gives 401; a
   * token the verifier rejects gives 401 "Invalid token" when the error is
   * `JsonWebTokenError` and 500 otherwise; a caller that is not a stored
   * user with the instructor role gives 401; otherwise 200 with the counts.
   */
  function Get(header: Option<string>, verify: Verifier, users: seq<User>, courses: seq<Course>): (r: Response<Stats>)
    ensures r == Fail(Unauthorized) <==>
              PrefixedToken(header).None?
              || (verify(PrefixedToken(header).value).Decoded?
                  && var u := FindByKey(users, UserId, verify(PrefixedToken(header).value).claims.userId);
                     u.None? || u.value.role != Instructor)
    ensures r == Fail(InvalidToken) <==>
              PrefixedToken(header).Some? && verify(PrefixedToken(header).value) == Thrown(MalformedTokenError)
    ensures r == Fail(InternalError) <==>
              PrefixedToken(header).Some? && verify(PrefixedToken(header).value).Thrown?
              && verify(PrefixedToken(header).value).errorName != MalformedTokenError
    ensures r.Ok? <==>
              && PrefixedToken(header).Some? && verify(PrefixedToken(header).value).Decoded?
              && var id := verify(PrefixedToken(header).value).claims.userId;
                 FindByKey(users, UserId, id).Some? && FindByKey(users, UserId, id).value.role == Instructor
    ensures r.Ok? ==>
              && PrefixedToken(header).Some? && verify(PrefixedToken(header).value).Decoded?
              && var id := verify(PrefixedToken(header).value).claims.userId;
                 && FindByKey(users, UserId, id).Some? && FindByKey(users, UserId, id).value.role == Instructor
                 && r.status == 200
                 && r.body.totalCourses == |Filter(courses, OwnedBy(id))|
                 && r.body.publishedCourses == |Filter(courses, PublishedBy(id))|
                 && r.body.draftCourses == |Filter(courses, DraftBy(id))|
                 && r.body == CountsFor(courses, id)
    ensures r.Status() in {200, 401, 500}
  {
    match PrefixedToken(header)
    case None => Fail(Unauthorized)
    case Some(token) =>
      match verify(token)
      case Thrown(name) =>
        if name == MalformedTokenError then Fail(InvalidToken) else Fail(InternalError)
      case Decoded(claims) =>
        var instructor := FindByKey(users, UserId, claims.userId);
        if instructor.None? || instructor.value.role != Instructor then Fail(Unauthorized)
        else Ok(200, CountsFor(courses, claims.userId))
  }

  /** The role inside the token plays no part: only the stored user's role decides. */
  lemma TokenRoleIgnored(header: Option<string>, verify: Verifier, verify': Verifier, users: seq<User>, courses: seq<Course>)
    requires PrefixedToken(header).Some?
    requires verify(PrefixedToken(header).value).Decoded? && verify'(PrefixedToken(header).value).Decoded?
    requires verify(PrefixedToken(header).value).claims.userId == verify'(PrefixedToken(header).value).claims.userId
    ensures Get(header, verify, users, courses) == Get(header, verify', users, courses)
  {
  }

  /** The total is the number of courses the instructor's own course list shows. */
  lemma TotalIsOwnListLength(courses: seq<Course>, owner: Id)
    ensures CountsFor(courses, owner).totalCourses == |InstructorCourses.OwnCoursesNewestFirst(courses, owner)|
  {
    var l := InstructorCourses.OwnCoursesNewestFirst(courses, owner);
    assert |multiset(l)| == |l|;
    assert |multiset(Filter(courses, OwnedBy(owner)))| == |Filter(courses, OwnedBy(owner))|;
  }
}
