/**
 * GET and POST /api/instructor/categories: behind the instructor gate, the
 * caller's own categories newest first, and creation of one category owned
 * by the caller.
 */
module InstructorCategories {
  import opened Wrappers
  import opened Text
  import opened Query
  import opened Http
  import opened Auth
  import opened Models

  datatype CategoryBody = CategoryBody(name: Option<string>, description: Option<string>)

  const NameRequired := Error(400, "Category name is required")
  const NameExists := Error(400, "Category name already exists")

  function OwnerIs(owner: Id): Category -> bool {
    (c: Category) => c.instructorId == owner
  }

  /** `Category.find({ instructorId: owner }).sort({ createdAt: -1 })`. */
  function OwnCategoriesNewestFirst(categories: seq<Category>, owner: Id): (r: seq<Category>)
    ensures forall c :: c in r <==> c in categories && c.instructorId == owner
    ensures multiset(r) == multiset(Filter(categories, OwnerIs(owner)))
    ensures NonIncreasing(r, CategoryCreatedAt)
  {
    var mine := Filter(categories, OwnerIs(owner));
    SortSameMembers(mine, CategoryCreatedAt);
    SortByKeyDesc(mine, CategoryCreatedAt)
  }

  /** The category documents of one collection, with distinct ids and each valid under the schema. */
  ghost predicate WellFormed(categories: seq<Category>) {
    && (forall i, j :: 0 <= i < j < |categories| ==> categories[i].id != categories[j].id)
    && (forall c :: c in categories ==> ValidCategory(c))
  }

  /** Appending a valid category under a fresh id keeps the collection well formed. */
  lemma AppendKeepsWellFormed(categories: seq<Category>, c: Category)
    requires WellFormed(categories) && ValidCategory(c) && FindByKey(categories, CategoryId, c.id).None?
    ensures WellFormed(categories + [c])
  {
    var s := categories + [c];
    forall i, j | 0 <= i < j < |s| ensures s[i].id != s[j].id {
      if j == |categories| {
        assert s[i] in categories;
        assert CategoryId(s[i]) != c.id;
      }
    }
  }

  function CategoryId(c: Category): Id {
    c.id
  }

  class CategoryStore {
    var categories: seq<Category>

    ghost predicate Valid()
      reads this
    {
      WellFormed(categories)
    }

    constructor ()
      ensures Valid() && categories == []
    {
      categories := [];
    }

    /** GET: the caller's categories, newest first. */
    method List(header: Option<string>, verify: Verifier) returns (r: Response<seq<Category>>)
      ensures r.Status() == 401 <==> ReplacedToken(header).None?
      ensures r.Status() == 403 <==> InstructorGate(header, verify) == Failure(Forbidden)
      ensures InstructorGate(header, verify).Failure? ==> r == Fail(InstructorGate(header, verify).error)
      ensures r.Ok? <==> InstructorGate(header, verify).Success?
      ensures r.Ok? ==>
                var owner := InstructorGate(header, verify).value.userId;
                && r.status == 200
                && (forall c :: c in r.body <==> c in categories && c.instructorId == owner)
                && multiset(r.body) == multiset(Filter(categories, OwnerIs(owner)))
                && NonIncreasing(r.body, CategoryCreatedAt)
    {
      var gate := InstructorGate(header, verify);
      if gate.Failure? {
        return Fail(gate.error);
      }
      r := Ok(200, OwnCategoriesNewestFirst(categories, gate.value.userId));
    }

    /**
     * POST: `!name` gives 400; otherwise the document is built with the
     * caller as owner and saved. A blank name fails validation (500); a
     * duplicate key (here: the new id is taken) gives 400.
     */
    method Create(header: Option<string>, verify: Verifier, body: CategoryBody, id: Id, now: int)
      returns (r: Response<Category>)
      requires Valid()
      modifies this
      ensures Valid()
      ensures r.Status() == 401 <==> ReplacedToken(header).None?
      ensures r.Status() == 403 <==> InstructorGate(header, verify) == Failure(Forbidden)
      ensures InstructorGate(header, verify).Failure? ==> r == Fail(InstructorGate(header, verify).error)
      ensures r == Fail(NameRequired) <==> InstructorGate(header, verify).Success? && !Truthy(body.name)
      ensures InstructorGate(header, verify).Success? && Truthy(body.name) && Trim(body.name.value) == ""
              ==> r == Fail(InternalError)
      ensures r == Fail(NameExists) <==>
                InstructorGate(header, verify).Success? && Truthy(body.name) && Trim(body.name.value) != ""
                && FindByKey(old(categories), CategoryId, id).Some?
      ensures r.Ok? <==>
                InstructorGate(header, verify).Success? && Truthy(body.name) && Trim(body.name.value) != ""
                && FindByKey(old(categories), CategoryId, id).None?
      ensures r.Ok? ==>
                && r.status == 201
                && categories == old(categories) + [r.body]
                && r.body.id == id && r.body.name == Trim(body.name.value)
                && r.body.instructorId == InstructorGate(header, verify).value.userId
                && r.body.description == OptionalText(body.description)
                && r.body.createdAt == now && r.body.updatedAt == now
                && r.body == NewCategory(id, body.name, body.description, Some(InstructorGate(header, verify).value.userId), now).value
      ensures !r.Ok? ==> categories == old(categories)
      ensures r.Status() in {201, 400, 401, 403, 500}
    {
      var gate := InstructorGate(header, verify);
      if gate.Failure? {
        return Fail(gate.error);
      }
      if !Truthy(body.name) {
        return Fail(NameRequired);
      }
      var doc := NewCategory(id, body.name, body.description, Some(gate.value.userId), now);
      if doc.Failure? {
        return Fail(InternalError);
      }
      if FindByKey(categories, CategoryId, id).Some? {
        return Fail(NameExists);
      }
      AppendKeepsWellFormed(categories, doc.value);
      categories := categories + [doc.value];
      r := Ok(201, doc.value);
    }
  }

  lemma MathIsTrimmed()
    ensures Truthy(Some("Math")) && Trim("Math") == "Math"
  {
    assert !IsSpace('M') && !IsSpace('h');
    assert TrimStart("Math") == "Math" && TrimEnd("Math") == "Math";
  }

  /** Two categories with the same name and owner are both created: names are not unique. */
  method SameNameTwice(header: Option<string>, verify: Verifier) returns (first: nat, second: nat, stored: nat)
    requires InstructorGate(header, verify).Success?
    ensures first == 201 && second == 201 && stored == 2
  {
    var store := new CategoryStore();
    var body := CategoryBody(Some("Math"), None);
    MathIsTrimmed();
    var a := store.Create(header, verify, body, "a", 1);
    assert a.Ok? && store.categories == [a.body] && a.body.id == "a";
    assert FindByKey(store.categories, CategoryId, "b").None?;
    var b := store.Create(header, verify, body, "b", 2);
    assert b.Ok? && store.categories == [a.body, b.body];
    first, second, stored := a.Status(), b.Status(), |store.categories|;
  }
}
