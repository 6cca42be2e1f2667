/**
 * GET /api/courses, the public catalogue: published courses, optionally of
 * one category, newest first, one page of them, and the number of matching
 * courses regardless of the page.
 */
module PublicCourses {
  import opened Wrappers
  import opened Text
  import opened Query
  import opened Models

  const DefaultLimit: nat := 12
  const DefaultSkip: nat := 0

  /** The query parameters. An absent or empty number parameter is None; a limit of 0 means no limit. */
  datatype ListQuery = ListQuery(limit: Option<nat>, skip: Option<nat>, categoryId: Option<string>)

  /** The response body `{ courses, total, limit, skip }`. */
  datatype Listing = Listing(courses: seq<Course>, total: nat, limit: nat, skip: nat)

  /** The query the route builds: `{ status: 'published' }`, plus the category when a non-empty one is given. */
  function Matches(categoryId: Option<string>): (p: Course -> bool)
    ensures !Truthy(categoryId) ==> forall c :: p(c) <==> c.status == Published
    ensures Truthy(categoryId) ==> forall c :: p(c) <==> c.status == Published && c.categoryId == categoryId.value
  {
    (c: Course) => c.status == Published && (Truthy(categoryId) ==> c.categoryId == categoryId.value)
  }

  function List(all: seq<Course>, q: ListQuery): (r: Listing)
    ensures r.limit == q.limit.GetOr(DefaultLimit) && r.skip == q.skip.GetOr(DefaultSkip)
    ensures forall c :: c in r.courses ==> c in all && c.status == Published
    ensures Truthy(q.categoryId) ==> forall c :: c in r.courses ==> c.categoryId == q.categoryId.value
    ensures NonIncreasing(r.courses, CreatedAt)
    ensures r.total == |Filter(all, Matches(q.categoryId))|
    ensures |r.courses| <= r.total && (r.limit > 0 ==> |r.courses| <= r.limit)
    ensures |r.courses| == if r.skip >= r.total then 0
                           else if r.limit == 0 || r.skip + r.limit > r.total then r.total - r.skip
                           else r.limit
    ensures var sorted := SortByKeyDesc(Filter(all, Matches(q.categoryId)), CreatedAt);
            && (r.courses != [] ==> r.skip + |r.courses| <= |sorted|)
            && forall i :: 0 <= i < |r.courses| ==> r.courses[i] == sorted[r.skip + i]
  {
    var limit := q.limit.GetOr(DefaultLimit);
    var skip := q.skip.GetOr(DefaultSkip);
    var matching := Filter(all, Matches(q.categoryId));
    var sorted := SortByKeyDesc(matching, CreatedAt);
    SortSameMembers(matching, CreatedAt);
    WindowNonIncreasing(sorted, skip, limit, CreatedAt);
    WindowMembers(sorted, skip, limit);
    Listing(Window(sorted, skip, limit), |matching|, limit, skip)
  }

  /** The total depends only on the category: paging through the catalogue never changes it. */
  lemma TotalIgnoresPaging(all: seq<Course>, q: ListQuery, limit: Option<nat>, skip: Option<nat>)
    ensures List(all, ListQuery(limit, skip, q.categoryId)).total == List(all, q).total
  {
  }

  /** A published course of the requested category that is newest of all matches is on the first page. */
  lemma NewestMatchOnFirstPage(all: seq<Course>, categoryId: Option<string>, c: Course)
    requires c in all && Matches(categoryId)(c)
    requires forall d :: d in all && Matches(categoryId)(d) ==> CreatedAt(d) < CreatedAt(c) || d == c
    ensures c in List(all, ListQuery(None, None, categoryId)).courses
  {
    var matching := Filter(all, Matches(categoryId));
    var sorted := SortByKeyDesc(matching, CreatedAt);
    SortSameMembers(matching, CreatedAt);
    assert c in sorted;
    var k :| 0 <= k < |sorted| && sorted[k] == c;
    if k > 0 {
      assert sorted[0] in matching;
      assert CreatedAt(sorted[0]) >= CreatedAt(sorted[k]);
    }
    assert List(all, ListQuery(None, None, categoryId)).courses[0] == sorted[0];
  }

  /** Naming a category only narrows the query: its total never exceeds that of all published courses. */
  lemma CategoryNarrowsTotal(all: seq<Course>, q: ListQuery)
    ensures List(all, q).total <= List(all, ListQuery(q.limit, q.skip, None)).total
  {
    FilterCountMonotone(all, Matches(None), Matches(q.categoryId));
  }
}
