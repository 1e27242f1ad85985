/** The schedule handlers (controllers/schedule_controller.go): the filter
    map ListSchedules builds from the query, and the id checks and error
    mapping of GetSchedule, UpdateSchedule and DeleteSchedule. Request bodies
    arrive already decoded; a body that does not decode is not part of this
    model. */
module ScheduleController {
  import opened Common
  import opened TextNormalize
  import opened DocStore
  import opened ScheduleRepository

  /** The filters ListSchedules passes on: a classroom id only when it is a
      valid hex id, the academic year when not empty, semester and week when
      not zero (or not a number), and is_active, when given at all, as whether
      it reads exactly "true". */
  function ListFilters(q: Query): (f: map<string, Value>)
    ensures forall k :: k in f ==> f[k] != Null
  {
    var f0: map<string, Value> := map[];
    var classroom := QueryOr(q, "classroom_id", "");
    var f1 := if classroom != "" && FromHex(classroom).Some? then f0["classroom_id" := Oid(FromHex(classroom).value)] else f0;
    var year := QueryOr(q, "academic_year", "");
    var f2 := if year != "" then f1["academic_year" := Str(year)] else f1;
    var semester := QueryInt(q, "semester", 0);
    var f3 := if semester != 0 then f2["semester" := Int(semester)] else f2;
    var week := QueryInt(q, "week", 0);
    var f4 := if week != 0 then f3["week" := Int(week)] else f3;
    var active := QueryOr(q, "is_active", "");
    if active != "" then f4["is_active" := Bool(active == "true")] else f4
  }

  /** The filter map filled one entry at a time, as the handler fills it. */
  method BuildFilters(q: Query) returns (f: map<string, Value>)
    ensures f == ListFilters(q)
  {
    f := map[];
    var classroom := QueryOr(q, "classroom_id", "");
    if classroom != "" {
      var id := FromHex(classroom);
      if id.Some? {
        f := f["classroom_id" := Oid(id.value)];
      }
    }
    var year := QueryOr(q, "academic_year", "");
    if year != "" {
      f := f["academic_year" := Str(year)];
    }
    var semester := QueryInt(q, "semester", 0);
    if semester != 0 {
      f := f["semester" := Int(semester)];
    }
    var week := QueryInt(q, "week", 0);
    if week != 0 {
      f := f["week" := Int(week)];
    }
    var active := QueryOr(q, "is_active", "");
    if active != "" {
      f := f["is_active" := Bool(active == "true")];
    }
  }

  /** A classroom id that is not 24 hex digits is dropped without an error. */
  lemma ListFiltersClassroom(q: Query)
    ensures "classroom_id" in ListFilters(q) <==> "classroom_id" in q && IsHexId(q["classroom_id"])
    ensures "classroom_id" in ListFilters(q) ==> ListFilters(q)["classroom_id"] == Oid(FromHex(q["classroom_id"]).value)
  {
  }

  /** The year is kept when not empty, semester and week when they read as a
      non-zero integer. */
  lemma ListFiltersPeriod(q: Query)
    ensures "academic_year" in ListFilters(q) <==> QueryOr(q, "academic_year", "") != ""
    ensures "semester" in ListFilters(q) <==> QueryInt(q, "semester", 0) != 0
    ensures "week" in ListFilters(q) <==> QueryInt(q, "week", 0) != 0
    ensures "academic_year" in ListFilters(q) ==> ListFilters(q)["academic_year"] == Str(q["academic_year"])
    ensures "semester" in ListFilters(q) ==> ListFilters(q)["semester"] == Int(QueryInt(q, "semester", 0))
    ensures "week" in ListFilters(q) ==> ListFilters(q)["week"] == Int(QueryInt(q, "week", 0))
  {
  }

  /** Any non-empty is_active becomes a filter, on true only for exactly "true". */
  lemma ListFiltersActive(q: Query)
    ensures "is_active" in ListFilters(q) <==> QueryOr(q, "is_active", "") != ""
    ensures "is_active" in ListFilters(q) ==> ListFilters(q)["is_active"] == Bool(q["is_active"] == "true")
  {
  }

  /** The filter keys come from the query only: nothing else is filtered on. */
  lemma ListFiltersKeys(q: Query)
    ensures ListFilters(q).Keys <= {"classroom_id", "academic_year", "semester", "week", "is_active"}
  {
  }

  /** Schedules carry no is_active field, so a list asked for any is_active
      value finds no schedule that Create stored. */
  lemma ActiveQueryFindsNothing(u: Unicode, q: Query, s: Schedule)
    requires QueryOr(q, "is_active", "") != ""
    ensures !Matches(u, NonNull(ListFilters(q)), Encode(s))
  {
    ListFiltersActive(q);
    var f := NonNull(ListFilters(q));
    assert "is_active" in f;
    assert !Holds(u, f["is_active"], Get(Encode(s), "is_active"));
  }

  /** ListSchedules: page 1, limit 10, created_at descending by default; any
      error of the list, a negative skip included, is 500. */
  method ListSchedules(repo: Repository, u: Unicode, q: Query, fails: bool) returns (r: Reply<PageData<Doc>>)
    ensures var page, limit := QueryInt(q, "page", 1), QueryInt(q, "limit", 10);
      var res := Paged(u, repo.docs, NonNull(ListFilters(q)),
                       ScheduleSort(QueryOr(q, "sort_field", "created_at"), QueryOr(q, "sort_order", "desc")), page, limit);
      && (r.code == StatusInternalServerError <==> fails || res.Failure?)
      && (r.code == StatusInternalServerError ==> r == Fail(StatusInternalServerError, "Failed to list schedules"))
      && (r.code != StatusInternalServerError ==> r == Ok("List of schedules", PageData(res.value.0, res.value.1, page, limit)))
  {
    var page := QueryInt(q, "page", 1);
    var limit := QueryInt(q, "limit", 10);
    var sortField := QueryOr(q, "sort_field", "created_at");
    var sortOrder := QueryOr(q, "sort_order", "desc");
    var filters := BuildFilters(q);
    var res := repo.List(u, page, limit, sortField, sortOrder, filters, fails);
    if res.Failure? {
      return Fail(StatusInternalServerError, "Failed to list schedules");
    }
    r := Ok("List of schedules", PageData(res.value.0, res.value.1, page, limit));
  }

  /** GetSchedule: 400 for a missing or invalid id; every lookup error, a
      store error included, is 404. */
  function GetSchedule(repo: Repository, q: Query, fails: bool): (r: Reply<Doc>)
    reads repo
    ensures r.code == StatusBadRequest <==> !("id" in q && IsHexId(q["id"]))
    ensures r.code == StatusBadRequest ==> r.message == if QueryOr(q, "id", "") == "" then "ID is required" else "Invalid schedule ID"
    ensures r.code == StatusNotFound <==> "id" in q && IsHexId(q["id"]) && (fails || !HasId(repo.docs, FromHex(q["id"]).value))
    ensures r.code == StatusOK ==> r.data.Some? && r.data.value in repo.docs && Get(r.data.value, "_id") == Oid(FromHex(q["id"]).value)
    ensures r.code in {StatusBadRequest, StatusNotFound, StatusOK}
  {
    match QueryId(q, "ID is required", "Invalid schedule ID")
    case Failure(e) => Fail(StatusBadRequest, e)
    case Success(id) =>
      match repo.GetByID(id, fails)
      case Failure(_) => Fail(StatusNotFound, "Schedule not found")
      case Success(d) => Ok("Schedule found", d)
  }

  /** UpdateSchedule: 400 for a zero id before the store is touched; any
      update error, "no data to update" included, is 500. */
  method UpdateSchedule(repo: Repository, data: Schedule, now: int, writeFails: bool) returns (r: Reply<()>)
    modifies repo
    ensures r.code == StatusBadRequest <==> IsZero(data.id)
    ensures r.code == StatusBadRequest ==> r.message == "ID is required in request body"
    ensures r.code == StatusInternalServerError <==> !IsZero(data.id) && (Supplied(data) == map[] || writeFails)
    ensures r.code != StatusOK ==> repo.docs == old(repo.docs)
    ensures r.code == StatusOK ==> repo.docs == SetById(old(repo.docs), data.id, Supplied(data)["updated_at" := Date(now)])
    ensures r.code in {StatusBadRequest, StatusInternalServerError, StatusOK}
  {
    if IsZero(data.id) {
      return Fail(StatusBadRequest, "ID is required in request body");
    }
    var err := repo.Update(data.id, data, now, writeFails);
    if err.Some? {
      return Fail(StatusInternalServerError, "Failed to update schedule");
    }
    r := Reply(StatusOK, "success", "Schedule updated successfully", None);
  }

  /** DeleteSchedule: 400 for a missing or invalid id; a missing document is
      reported like a store error, as 500. */
  method DeleteSchedule(repo: Repository, q: Query, fails: bool) returns (r: Reply<()>)
    modifies repo
    ensures r.code == StatusBadRequest <==> !("id" in q && IsHexId(q["id"]))
    ensures r.code == StatusInternalServerError <==> "id" in q && IsHexId(q["id"]) && (fails || !HasId(old(repo.docs), FromHex(q["id"]).value))
    ensures r.code != StatusOK ==> repo.docs == old(repo.docs)
    ensures r.code == StatusOK ==> repo.docs == DeleteById(old(repo.docs), FromHex(q["id"]).value).0
    ensures r.code in {StatusBadRequest, StatusInternalServerError, StatusOK}
  {
    match QueryId(q, "ID is required", "Invalid schedule ID")
    case Failure(e) =>
      r := Fail(StatusBadRequest, e);
    case Success(id) =>
      var err := repo.Delete(id, fails);
      if err.Some? {
        r := Fail(StatusInternalServerError, "Failed to delete schedule");
      } else {
        r := Reply(StatusOK, "success", "Schedule deleted successfully", None);
      }
  }
}
