/**
 * GET and POST /api/instructor/courses: behind the instructor gate, the
 * caller's own courses newest first, and creation of one course in a
 * category the caller owns.
 */
module InstructorCourses {
  import opened Wrappers
  import opened Text
  import opened Query
  import opened Http
  import opened Auth
  import opened Models

  datatype CourseBody = CourseBody(
    title: Option<string>,
    description: Option<string>,
    categoryId: Option<string>,
    price: Option<real>,
    thumbnail: Option<string>,
    status: Option<string>)

  const FieldsRequired := Error(400, "Title, description, and category are required")
  const CategoryNotFound := Error(404, "Category not found")

  /** `Course.find({ instructorId: owner }).sort({ createdAt: -1 })`. */
  function OwnCoursesNewestFirst(courses: seq<Course>, owner: Id): (r: seq<Course>)
    ensures forall c :: c in r <==> c in courses && c.instructorId == owner
    ensures multiset(r) == multiset(Filter(courses, OwnedBy(owner)))
    ensures NonIncreasing(r, CreatedAt)
  {
    var mine := Filter(courses, OwnedBy(owner));
    SortSameMembers(mine, CreatedAt);
    SortByKeyDesc(mine, CreatedAt)
  }

  function OwnedCategory(id: Id, owner: Id): Category -> bool {
    (c: Category) => c.id == id && c.instructorId == owner
  }

  /** `Category.findOne({ _id: id, instructorId: owner })`. */
  function FindOwnedCategory(categories: seq<Category>, id: Id, owner: Id): (r: Option<Category>)
    ensures r.Some? ==> r.value in categories && r.value.id == id && r.value.instructorId == owner
    ensures r.None? <==> forall c :: c in categories ==> !(c.id == id && c.instructorId == owner)
  {
    FindFirst(categories, OwnedCategory(id, owner))
  }

  /** `price || 0`: an absent or zero price is 0. */
  function PriceOrZero(price: Option<real>): (p: real)
    ensures price.Some? && price.value != 0.0 ==> p == price.value
    ensures price.None? || price.value == 0.0 ==> p == 0.0
  {
    if price.Some? && price.value != 0.0 then price.value else 0.0
  }

  /** `status || 'draft'`: an absent or empty status is "draft". */
  function StatusOrDraft(status: Option<string>): (s: Option<string>)
    ensures s.Some?
    ensures Truthy(status) ==> s == status
    ensures !Truthy(status) ==> s == Some(CourseStatusName(Draft))
  {
    if Truthy(status) then status else Some("draft")
  }

  /** The document the route builds for the caller `owner` before saving it. */
  function BuildCourse(body: CourseBody, owner: Id, id: Id, now: int): (r: Result<Course, ValidationError>)
    ensures r.Success? <==>
              && body.title.Some? && Trim(body.title.value) != ""
              && body.description.Some? && Trim(body.description.value) != ""
              && body.categoryId.Some?
              && (Truthy(body.status) ==> ParseCourseStatus(body.status.value).Some?)
    ensures r.Success? ==>
              var c := r.value;
              && ValidCourse(c) && c.id == id && c.instructorId == owner
              && c.title == Trim(body.title.value) && c.description == Trim(body.description.value)
              && c.categoryId == body.categoryId.value && c.thumbnail == body.thumbnail
              && c.price == PriceOrZero(body.price)
              && c.status == (if Truthy(body.status) then ParseCourseStatus(body.status.value).value else Draft)
              && c.modules == [] && c.finalExam.None? && c.createdAt == now && c.updatedAt == now
  {
    NewCourse(id, body.title, body.description, body.categoryId, Some(owner),
              Some(PriceOrZero(body.price)), body.thumbnail, StatusOrDraft(body.status), now)
  }

  /** A built course belongs to the caller, starts with no modules, and takes the defaults for price and status. */
  lemma BuiltCourseDefaults(body: CourseBody, owner: Id, id: Id, now: int)
    requires BuildCourse(body, owner, id, now).Success?
    ensures var c := BuildCourse(body, owner, id, now).value;
            && c.instructorId == owner && c.modules == [] && c.finalExam.None?
            && (body.price.None? ==> c.price == 0.0)
            && (!Truthy(body.status) ==> c.status == Draft)
            && ValidCourse(c)
  {
  }

  /** A given status outside the enum makes the build fail, so the route answers 500. */
  lemma UnknownStatusRefused(body: CourseBody, owner: Id, id: Id, now: int)
    requires Truthy(body.status) && ParseCourseStatus(body.status.value).None?
    ensures BuildCourse(body, owner, id, now).Failure?
  {
  }

  ghost predicate WellFormed(courses: seq<Course>) {
    && (forall i, j :: 0 <= i < j < |courses| ==> courses[i].id != courses[j].id)
    && (forall c :: c in courses ==> ValidCourse(c))
  }

  /** Appending a valid course under a fresh id keeps the collection well formed. */
  lemma AppendKeepsWellFormed(courses: seq<Course>, c: Course)
    requires WellFormed(courses) && ValidCourse(c) && FindByKey(courses, CourseId, c.id).None?
    ensures WellFormed(courses + [c])
  {
    var s := courses + [c];
    forall i, j | 0 <= i < j < |s| ensures s[i].id != s[j].id {
      if j == |courses| {
        assert s[i] in courses;
      }
    }
  }

  function CourseId(c: Course): Id {
    c.id
  }

  class CourseStore {
    var courses: seq<Course>

    ghost predicate Valid()
      reads this
    {
      WellFormed(courses)
    }

    constructor ()
      ensures Valid() && courses == []
    {
      courses := [];
    }

    /** GET: the caller's courses, newest first. */
    method List(header: Option<string>, verify: Verifier) returns (r: Response<seq<Course>>)
      ensures r.Status() == 401 <==> ReplacedToken(header).None?
      ensures r.Status() == 403 <==> InstructorGate(header, verify) == Failure(Forbidden)
      ensures InstructorGate(header, verify).Failure? ==> r == Fail(InstructorGate(header, verify).error)
      ensures r.Ok? <==> InstructorGate(header, verify).Success?
      ensures r.Ok? ==>
                var owner := InstructorGate(header, verify).value.userId;
                && r.status == 200
                && (forall c :: c in r.body <==> c in courses && c.instructorId == owner)
                && multiset(r.body) == multiset(Filter(courses, OwnedBy(owner)))
                && NonIncreasing(r.body, CreatedAt)
    {
      var gate := InstructorGate(header, verify);
      if gate.Failure? {
        return Fail(gate.error);
      }
      r := Ok(200, OwnCoursesNewestFirst(courses, gate.value.userId));
    }

    /**
     * POST: missing title, description or category gives 400; a category
     * that is absent or not the caller's gives 404; otherwise the course is
     * built with the caller as instructor and saved. A build that fails
     * validation, or a save whose id is taken, ends in the catch (500).
     * `categories` is the category collection.
     */
    method Create(header: Option<string>, verify: Verifier, body: CourseBody, categories: seq<Category>, id: Id, now: int)
      returns (r: Response<Course>)
      requires Valid()
      modifies this
      ensures Valid()
      ensures r.Status() == 401 <==> ReplacedToken(header).None?
      ensures r.Status() == 403 <==> InstructorGate(header, verify) == Failure(Forbidden)
      ensures InstructorGate(header, verify).Failure? ==> r == Fail(InstructorGate(header, verify).error)
      ensures r == Fail(FieldsRequired) <==>
                InstructorGate(header, verify).Success?
                && !(Truthy(body.title) && Truthy(body.description) && Truthy(body.categoryId))
      ensures r == Fail(CategoryNotFound) <==>
                InstructorGate(header, verify).Success?
                && Truthy(body.title) && Truthy(body.description) && Truthy(body.categoryId)
                && FindOwnedCategory(categories, body.categoryId.value, InstructorGate(header, verify).value.userId).None?
      ensures r.Ok? <==>
                InstructorGate(header, verify).Success?
                && Truthy(body.title) && Truthy(body.description) && Truthy(body.categoryId)
                && FindOwnedCategory(categories, body.categoryId.value, InstructorGate(header, verify).value.userId).Some?
                && BuildCourse(body, InstructorGate(header, verify).value.userId, id, now).Success?
                && FindByKey(old(courses), CourseId, id).None?
      ensures InstructorGate(header, verify).Success?
              && Truthy(body.title) && Truthy(body.description) && Truthy(body.categoryId)
              && FindOwnedCategory(categories, body.categoryId.value, InstructorGate(header, verify).value.userId).Some?
              && (BuildCourse(body, InstructorGate(header, verify).value.userId, id, now).Failure?
                  || FindByKey(old(courses), CourseId, id).Some?)
              ==> r == Fail(InternalError)
      ensures r.Ok? ==>
                && r.status == 201
                && r.body == BuildCourse(body, InstructorGate(header, verify).value.userId, id, now).value
                && courses == old(courses) + [r.body]
                && r.body.instructorId == InstructorGate(header, verify).value.userId
                && (exists c :: c in categories && c.id == r.body.categoryId && c.instructorId == r.body.instructorId)
      ensures !r.Ok? ==> courses == old(courses)
      ensures r.Status() in {201, 400, 401, 403, 404, 500}
    {
      var gate := InstructorGate(header, verify);
      if gate.Failure? {
        return Fail(gate.error);
      }
      var owner := gate.value.userId;
      if !(Truthy(body.title) && Truthy(body.description) && Truthy(body.categoryId)) {
        return Fail(FieldsRequired);
      }
      var category := FindOwnedCategory(categories, body.categoryId.value, owner);
      if category.None? {
        return Fail(CategoryNotFound);
      }
      var doc := BuildCourse(body, owner, id, now);
      if doc.Failure? {
        return Fail(InternalError);
      }
      if FindByKey(courses, CourseId, id).Some? {
        return Fail(InternalError);
      }
      BuiltCourseDefaults(body, owner, id, now);
      assert category.value in categories && category.value.id == doc.value.categoryId;
      AppendKeepsWellFormed(courses, doc.value);
      courses := courses + [doc.value];
      r := Ok(201, doc.value);
    }
  }
}
