/** The schedules collection (repositories/schedule_repository.go): creation
    with a fresh id, a partial update that writes only the supplied fields,
    deletion that reports a missing document, lookups and a list query whose
    filter is exactly the non-null entries it is given. */
module ScheduleRepository {
  import opened Common
  import opened TextNormalize
  import opened DocStore

  /** A week's timetable of one classroom. The days are stored as the store
      holds them; their inner structure plays no part here. None is a nil list. */
  datatype Schedule = Schedule(
    id: ObjectId,
    classroomId: ObjectId,
    academicYear: string,
    semester: int,
    week: int,
    days: Option<seq<Value>>,
    createdAt: int,
    updatedAt: int)

  const ErrNoData := "no data to update"

  /** The document a schedule is stored as: every field, a nil day list as
      null; only a zero id is left out. */
  function Encode(s: Schedule): (d: Doc)
    ensures "_id" in d <==> !IsZero(s.id)
    ensures Get(d, "classroom_id") == Oid(s.classroomId) && Get(d, "academic_year") == Str(s.academicYear)
    ensures Get(d, "semester") == Int(s.semester) && Get(d, "week") == Int(s.week)
    ensures Get(d, "created_at") == Date(s.createdAt) && Get(d, "updated_at") == Date(s.updatedAt)
    ensures "is_active" !in d
  {
    var d := map[
      "classroom_id" := Oid(s.classroomId),
      "academic_year" := Str(s.academicYear),
      "semester" := Int(s.semester),
      "week" := Int(s.week),
      "days" := if s.days.Some? then Arr(s.days.value) else Null,
      "created_at" := Date(s.createdAt),
      "updated_at" := Date(s.updatedAt)];
    if IsZero(s.id) then d else d["_id" := Oid(s.id)]
  }

  /** The fields an update supplies: a non-nil classroom id, a non-empty
      academic year, a non-zero semester or week, a non-nil day list. */
  function Supplied(data: Schedule): Doc {
    var u0: Doc := map[];
    var u1 := if !IsZero(data.classroomId) then u0["classroom_id" := Oid(data.classroomId)] else u0;
    var u2 := if data.academicYear != "" then u1["academic_year" := Str(data.academicYear)] else u1;
    var u3 := if data.semester != 0 then u2["semester" := Int(data.semester)] else u2;
    var u4 := if data.week != 0 then u3["week" := Int(data.week)] else u3;
    if data.days.Some? then u4["days" := Arr(data.days.value)] else u4
  }

  /** Which fields an update supplies: exactly those not at their zero value. */
  lemma SuppliedKeys(data: Schedule)
    ensures "classroom_id" in Supplied(data) <==> !IsZero(data.classroomId)
    ensures "academic_year" in Supplied(data) <==> data.academicYear != ""
    ensures "semester" in Supplied(data) <==> data.semester != 0
    ensures "week" in Supplied(data) <==> data.week != 0
    ensures "days" in Supplied(data) <==> data.days.Some?
  {
  }

  /** A supplied field is written as Create would store it, and no other field is written. */
  lemma SuppliedValue(data: Schedule, f: string)
    requires f in Supplied(data)
    ensures f == "classroom_id" || f == "academic_year" || f == "semester" || f == "week" || f == "days"
    ensures Supplied(data)[f] == Encode(data)[f]
  {
    SuppliedKeys(data);
    var e := Encode(data);
    assert e["classroom_id"] == Oid(data.classroomId) && e["academic_year"] == Str(data.academicYear);
    assert e["semester"] == Int(data.semester) && e["week"] == Int(data.week);
  }

  /** The update document built field by field, as Update builds it. */
  method BuildSupplied(data: Schedule) returns (u: Doc)
    ensures u == Supplied(data)
  {
    u := map[];
    if !IsZero(data.classroomId) {
      u := u["classroom_id" := Oid(data.classroomId)];
    }
    if data.academicYear != "" {
      u := u["academic_year" := Str(data.academicYear)];
    }
    if data.semester != 0 {
      u := u["semester" := Int(data.semester)];
    }
    if data.week != 0 {
      u := u["week" := Int(data.week)];
    }
    if data.days.Some? {
      u := u["days" := Arr(data.days.value)];
    }
  }

  /** An update that supplies nothing is exactly one with all five fields at
      their zero values. */
  lemma NothingSupplied(data: Schedule)
    ensures Supplied(data) == map[] <==>
      IsZero(data.classroomId) && data.academicYear == "" && data.semester == 0 && data.week == 0 && data.days.None?
  {
    SuppliedKeys(data);
    if !IsZero(data.classroomId) {
      assert "classroom_id" in Supplied(data);
    }
  }

  /** The filter of the list query: one equality per non-null entry. */
  function NonNull(filters: map<string, Value>): (f: Filter)
    ensures forall k :: k in f <==> k in filters && filters[k] != Null
    ensures forall k :: k in f ==> f[k] == Eq(filters[k])
  {
    map k | k in filters && filters[k] != Null :: Eq(filters[k])
  }

  /** The filter copied entry by entry, in the order the map yields them. */
  method CopyFilters(filters: map<string, Value>) returns (f: Filter)
    ensures f == NonNull(filters)
  {
    f := map[];
    var rest := filters;
    while rest != map[]
      invariant forall k :: k in rest ==> k in filters && rest[k] == filters[k]
      invariant forall k :: k in f <==> k in filters && k !in rest && filters[k] != Null
      invariant forall k :: k in f ==> f[k] == Eq(filters[k])
      decreases rest.Keys
    {
      var k :| k in rest;
      if rest[k] != Null {
        f := f[k := Eq(rest[k])];
      }
      rest := rest - {k};
    }
    assert f.Keys == NonNull(filters).Keys;
  }

  /** The sort of the list query: created_at when no field is named; ascending
      exactly when the order is "asc", also for the default field. */
  function ScheduleSort(field: string, order: string): (s: Sort)
    ensures s.field == (if field == "" then "created_at" else field)
    ensures s.ascending <==> order == "asc"
  {
    Sort(if field == "" then "created_at" else field, order == "asc")
  }

  /** The four-field match of FindByClassroomWeek. */
  function WeekFilter(classroomId: ObjectId, academicYear: string, semester: int, week: int): Filter {
    map[
      "classroom_id" := Eq(Oid(classroomId)),
      "academic_year" := Eq(Str(academicYear)),
      "semester" := Eq(Int(semester)),
      "week" := Eq(Int(week))]
  }

  class Repository {
    var docs: seq<Doc>

    constructor ()
      ensures docs == []
    {
      docs := [];
    }

    /** Create: a fresh id and one instant for both timestamps; the stored
        document is the encoded schedule. A failed insert (also a taken id)
        changes nothing. */
    method Create(schedule: Schedule, now: int, freshId: ObjectId, insertFails: bool) returns (err: Option<string>, created: Schedule)
      modifies this
      ensures created == schedule.(id := freshId, createdAt := now, updatedAt := now)
      ensures err.Some? <==> insertFails || HasId(old(docs), freshId)
      ensures err.Some? ==> docs == old(docs)
      ensures err.None? ==> docs == old(docs) + [Encode(created)]
    {
      created := schedule.(id := freshId);
      created := created.(createdAt := now, updatedAt := now);
      if insertFails || HasId(docs, freshId) {
        return Some("E11000 duplicate key error"), created;
      }
      docs := docs + [Encode(created)];
      err := None;
    }

    /** Update: "$set" of the supplied fields and updated_at; with nothing
        supplied, an error and no write. A missing id is not an error. */
    method Update(id: ObjectId, data: Schedule, now: int, writeFails: bool) returns (err: Option<string>)
      modifies this
      ensures err == Some(ErrNoData) <==> Supplied(data) == map[]
      ensures err.Some? <==> Supplied(data) == map[] || writeFails
      ensures err.Some? ==> docs == old(docs)
      ensures err.None? ==> docs == SetById(old(docs), id, Supplied(data)["updated_at" := Date(now)])
    {
      var update := BuildSupplied(data);
      if |update| == 0 {
        return Some(ErrNoData);
      }
      update := update["updated_at" := Date(now)];
      if writeFails {
        return Some(ErrUnavailable);
      }
      docs := SetById(docs, id, update);
      err := None;
    }

    /** Delete: removes the document; a missing id is reported as "no documents". */
    method Delete(id: ObjectId, fails: bool) returns (err: Option<string>)
      modifies this
      ensures err.None? <==> !fails && HasId(old(docs), id)
      ensures !fails && !HasId(old(docs), id) ==> err == Some(ErrNoDocuments)
      ensures err.Some? ==> docs == old(docs)
      ensures err.None? ==> docs == DeleteById(old(docs), id).0
    {
      if fails {
        return Some(ErrUnavailable);
      }
      var (rest, found) := DeleteById(docs, id);
      if !found {
        return Some(ErrNoDocuments);
      }
      docs := rest;
      err := None;
    }

    /** GetByID: the stored document, or "no documents". */
    function GetByID(id: ObjectId, fails: bool): (r: Result<Doc>)
      reads this
      ensures r.Failure? <==> fails || !HasId(docs, id)
      ensures r.Success? ==> r.value in docs && Get(r.value, "_id") == Oid(id)
    {
      if fails then Failure(ErrUnavailable)
      else match FindById(docs, id)
        case None => Failure(ErrNoDocuments)
        case Some(d) => Success(d)
    }

    /** FindByClassroomWeek: the stored schedules with exactly these four
        values, in natural order. */
    function FindByClassroomWeek(u: Unicode, classroomId: ObjectId, academicYear: string, semester: int, week: int, fails: bool): (r: Result<seq<Doc>>)
      reads this
      ensures r.Failure? <==> fails
      ensures r.Success? ==> forall i :: 0 <= i < |r.value| ==> r.value[i] in docs && Matches(u, WeekFilter(classroomId, academicYear, semester, week), r.value[i])
      ensures r.Success? ==> forall i :: 0 <= i < |docs| && Matches(u, WeekFilter(classroomId, academicYear, semester, week), docs[i]) ==> docs[i] in r.value
      ensures r.Success? ==> r.value == Find(u, docs, WeekFilter(classroomId, academicYear, semester, week), None, 0, 0)
    {
      var m := Matching(u, docs, WeekFilter(classroomId, academicYear, semester, week));
      assert m[0..] == m;
      if fails then Failure(ErrUnavailable) else Success(m)
    }

    /** List: the non-null filters, the sort and the paging; the total counts
        every match. */
    method List(u: Unicode, page: int, limit: int, sortField: string, sortOrder: string, filters: map<string, Value>, fails: bool) returns (r: Result<(seq<Doc>, nat)>)
      ensures fails ==> r.Failure?
      ensures !fails ==> r == Paged(u, docs, NonNull(filters), ScheduleSort(sortField, sortOrder), page, limit)
    {
      var filter := CopyFilters(filters);
      var sort := ScheduleSort(sortField, sortOrder);
      if fails {
        return Failure(ErrUnavailable);
      }
      r := Paged(u, docs, filter, sort, page, limit);
    }
  }

  /** Fields an update does not supply keep their stored values; supplied
      fields and updated_at take the new ones; other documents are untouched. */
  lemma UpdateEffect(docs: seq<Doc>, id: ObjectId, data: Schedule, now: int, i: int, f: string)
    requires 0 <= i < |docs|
    ensures var after := SetById(docs, id, Supplied(data)["updated_at" := Date(now)]);
      && (Get(docs[i], "_id") != Oid(id) ==> after[i] == docs[i])
      && (Get(docs[i], "_id") == Oid(id) ==>
            && Get(after[i], "updated_at") == Date(now)
            && (f in Supplied(data) ==> Get(after[i], f) == Encode(data)[f])
            && (f !in Supplied(data) && f != "updated_at" ==> Get(after[i], f) == Get(docs[i], f)))
  {
    var update := Supplied(data)["updated_at" := Date(now)];
    if f in Supplied(data) {
      SuppliedValue(data, f);
    }
    SetByIdEffect(docs, id, update, i, f);
    SetByIdEffect(docs, id, update, i, "updated_at");
  }

  /** The is_active filter the controller can add matches no schedule stored
      by Create, since a schedule has no such field. */
  lemma ActiveFilterMatchesNoCreated(u: Unicode, s: Schedule, b: bool)
    ensures !Matches(u, map["is_active" := Eq(Bool(b))], Encode(s))
  {
    assert Get(Encode(s), "is_active") == Null;
  }
}
