/** The subject handlers (controllers/subject_controller.go): the name check
    of CreateSubject, the id checks and error mapping of UpdateSubject,
    GetSubjectByID and DeleteSubject, and how ListSubjects reads is_active.
    Request bodies arrive already decoded; a body that does not decode is not
    part of this model. */
module SubjectController {
  import opened Common
  import opened TextNormalize
  import opened DocStore
  import opened SubjectRepository

  /** is_active for ListSubjects: exactly "true" or "false"; anything else
      applies no filter. */
  function TriState(s: string): (b: Option<bool>)
    ensures b == Some(true) <==> s == "true"
    ensures b == Some(false) <==> s == "false"
  {
    if s == "true" then Some(true) else if s == "false" then Some(false) else None
  }

  /** Every value the list accepts reads the same under strconv.ParseBool,
      and the value a client formats from a truth value is accepted. */
  lemma TriStateAgreesWithParseBool(s: string, b: bool)
    ensures TriState(s).Some? ==> ParseBool(s) == TriState(s)
    ensures TriState(FormatBool(b)) == Some(b)
  {
  }

  /** "1" reads as true for the teacher list but applies no filter to the
      subject list. */
  lemma TriStateNarrowerThanParseBool()
    ensures ParseBool("1") == Some(true) && TriState("1") == None
  {
    assert "1" != "true" && "1" != "false";
  }

  /** CreateSubject: 400 for an empty name before the store is touched; a
      failed insert is 500; otherwise the stored subject is returned. */
  method CreateSubject(repo: Repository, input: Subject, now: int, freshId: ObjectId, norm: string -> string, insertFails: bool)
    returns (r: Reply<Subject>)
    modifies repo
    ensures r.code == StatusBadRequest <==> input.name == ""
    ensures r.code == StatusBadRequest ==> r.message == "Name is required"
    ensures r.code == StatusInternalServerError <==> input.name != "" && (insertFails || HasId(old(repo.docs), freshId))
    ensures r.code == StatusInternalServerError ==> r.message == "Failed to create subject"
    ensures r.code != StatusOK ==> repo.docs == old(repo.docs)
    ensures r.code == StatusOK ==>
      var created := input.(id := freshId, createdAt := now, updatedAt := now, nameNormalized := norm(input.name));
      r == Ok("Subject created successfully", created) && repo.docs == old(repo.docs) + [Encode(created)]
    ensures r.code in {StatusBadRequest, StatusInternalServerError, StatusOK}
  {
    if input.name == "" {
      return Fail(StatusBadRequest, "Name is required");
    }
    var err, created := repo.Create(input, now, freshId, norm, insertFails);
    if err.Some? {
      return Fail(StatusInternalServerError, "Failed to create subject");
    }
    r := Ok("Subject created successfully", created);
  }

  /** UpdateSubject: 400 for a zero id before the store is touched; since the
      repository never skips the write, only a store error is 500. */
  method UpdateSubject(repo: Repository, input: Subject, now: int, norm: string -> string, writeFails: bool) returns (r: Reply<()>)
    modifies repo
    ensures r.code == StatusBadRequest <==> IsZero(input.id)
    ensures r.code == StatusBadRequest ==> r.message == "ID is required"
    ensures r.code == StatusInternalServerError <==> !IsZero(input.id) && writeFails
    ensures r.code != StatusOK ==> repo.docs == old(repo.docs)
    ensures r.code == StatusOK ==> repo.docs == SetById(old(repo.docs), input.id, UpdateDoc(input, now, norm))
    ensures r.code in {StatusBadRequest, StatusInternalServerError, StatusOK}
  {
    if IsZero(input.id) {
      return Fail(StatusBadRequest, "ID is required");
    }
    UpdateNeverSkipped(input, now, norm);
    var err := repo.Update(input.id, input, now, norm, writeFails);
    if err.Some? {
      return Fail(StatusInternalServerError, "Failed to update subject");
    }
    r := Reply(StatusOK, "success", "Subject updated successfully", None);
  }

  /** GetSubjectByID: 400 for a missing or invalid id; every lookup error, a
      store error included, is 404. */
  function GetSubjectByID(repo: Repository, q: Query, fails: bool): (r: Reply<Doc>)
    reads repo
    ensures r.code == StatusBadRequest <==> !("id" in q && IsHexId(q["id"]))
    ensures r.code == StatusBadRequest ==> r.message == if QueryOr(q, "id", "") == "" then "ID is required" else "Invalid ID format"
    ensures r.code == StatusNotFound <==> "id" in q && IsHexId(q["id"]) && (fails || !HasId(repo.docs, FromHex(q["id"]).value))
    ensures r.code == StatusOK ==> r.data.Some? && r.data.value in repo.docs && Get(r.data.value, "_id") == Oid(FromHex(q["id"]).value)
    ensures r.code in {StatusBadRequest, StatusNotFound, StatusOK}
  {
    match QueryId(q, "ID is required", "Invalid ID format")
    case Failure(e) => Fail(StatusBadRequest, e)
    case Success(id) =>
      match repo.GetByID(id, fails)
      case Failure(_) => Fail(StatusNotFound, "Subject not found")
      case Success(d) => Ok("Subject fetched successfully", d)
  }

  /** ListSubjects: page 1, limit 10, created_at descending by default; any
      list error is 500; the reply carries the items and the total only. */
  method ListSubjects(repo: Repository, u: Unicode, norm: string -> string, q: Query, fails: bool) returns (r: Reply<ListData<Doc>>)
    ensures var res := Paged(u, repo.docs,
                             KeywordFilter(norm, QueryOr(q, "keyword", ""), TriState(QueryOr(q, "is_active", ""))),
                             ListSort(QueryOr(q, "sort_field", ""), QueryOr(q, "sort_order", "desc")),
                             QueryInt(q, "page", 1), QueryInt(q, "limit", 10));
      && (r.code == StatusInternalServerError <==> fails || res.Failure?)
      && (r.code == StatusInternalServerError ==> r == Fail(StatusInternalServerError, "Failed to list subjects"))
      && (r.code != StatusInternalServerError ==> r == Ok("Subjects listed successfully", ListData(res.value.0, res.value.1)))
  {
    var page := QueryInt(q, "page", 1);
    var limit := QueryInt(q, "limit", 10);
    var sortField := QueryOr(q, "sort_field", "");
    var sortOrder := QueryOr(q, "sort_order", "desc");
    var keyword := QueryOr(q, "keyword", "");
    var isActive := TriState(QueryOr(q, "is_active", ""));
    var res := repo.List(u, norm, page, limit, sortField, sortOrder, keyword, isActive, fails);
    if res.Failure? {
      return Fail(StatusInternalServerError, "Failed to list subjects");
    }
    r := Ok("Subjects listed successfully", ListData(res.value.0, res.value.1));
  }

  /** DeleteSubject: 400 for a missing or invalid id; only a store error is
      500, so deleting an id that is not stored succeeds and changes nothing. */
  method DeleteSubject(repo: Repository, q: Query, fails: bool) returns (r: Reply<()>)
    modifies repo
    ensures r.code == StatusBadRequest <==> !("id" in q && IsHexId(q["id"]))
    ensures r.code == StatusBadRequest ==> r.message == if QueryOr(q, "id", "") == "" then "ID is required" else "Invalid subject ID"
    ensures r.code == StatusInternalServerError <==> "id" in q && IsHexId(q["id"]) && fails
    ensures r.code != StatusOK ==> repo.docs == old(repo.docs)
    ensures r.code == StatusOK ==> repo.docs == DeleteById(old(repo.docs), FromHex(q["id"]).value).0
    ensures r.code == StatusOK && !HasId(old(repo.docs), FromHex(q["id"]).value) ==> repo.docs == old(repo.docs)
    ensures r.code in {StatusBadRequest, StatusInternalServerError, StatusOK}
  {
    match QueryId(q, "ID is required", "Invalid subject ID")
    case Failure(e) =>
      r := Fail(StatusBadRequest, e);
    case Success(id) =>
      var err := repo.Delete(id, fails);
      if err.Some? {
        r := Fail(StatusInternalServerError, "Failed to delete subject");
      } else {
        r := Reply(StatusOK, "success", "Subject deleted successfully", None);
      }
  }
}
