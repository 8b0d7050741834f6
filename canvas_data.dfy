/**
 * The records the scripts read from the learning-management API, as values.
 * A field is `None` when the JSON key is missing or null; `.get(key, default)`
 * then yields the default (a null that `.get` would pass through is not
 * distinguished from a missing key, except for the date fields, whose
 * absence the scripts test for).
 */
module CanvasData {
  import opened Wrappers

  /** An entry of `/api/v1/planner/items`: the entry's own fields and those of its `plannable`. */
  datatype PlannerRecord = PlannerRecord(
    title: Option<string>,
    plannableDate: Option<string>,
    points: Option<int>,
    contextName: Option<string>,
    htmlUrl: Option<string>,
    description: Option<string>)

  /** An entry of `/api/v1/courses/{id}/assignments`. */
  datatype AssignmentRecord = AssignmentRecord(
    name: Option<string>,
    dueAt: Option<string>,
    points: Option<int>,
    htmlUrl: Option<string>,
    description: Option<string>)

  /**
   * An entry of `/api/v1/courses`, together with the response that a request
   * for its assignments would get (the request is made only for the courses a
   * script does not skip).
   */
  datatype CourseRecord = CourseRecord(
    id: Option<int>,
    workflowState: Option<string>,
    name: Option<string>,
    endAt: Option<string>,
    assignments: Fetch<seq<AssignmentRecord>>)

  /** `d.get(key, default)` for a string field. */
  function GetOr(o: Option<string>, default: string): string {
    match o
    case Some(v) => v
    case None => default
  }

  /** `d.get(key, 0)` for a number field. */
  function PointsOr0(o: Option<int>): int {
    match o
    case Some(v) => v
    case None => 0
  }

  /** Python truthiness of an optional string: present and non-empty. */
  predicate Truthy(o: Option<string>) {
    o.Some? && o.value != ""
  }
}
