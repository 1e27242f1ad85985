/** The classrooms collection (repositories/classroom_repository.go):
    creation with a fresh id and a normalised name, an update that writes the
    supplied fields and always is_active and updated_at, and a list query
    with a keyword and an is_active filter, a sort and paging. The name
    normaliser is a parameter: its definition is not part of this model. */
module ClassroomRepository {
  import opened Common
  import opened TextNormalize
  import opened DocStore

  datatype Classroom = Classroom(
    id: ObjectId,
    name: string,
    grade: int,
    description: string,
    schoolYear: string,
    nameNormalized: string,
    createdAt: int,
    updatedAt: int,
    isActive: bool)

  /** The document a classroom is stored as: name and is_active always; the
      omitempty fields only when not empty or zero. */
  function Encode(c: Classroom): Doc {
    var d0: Doc := if IsZero(c.id) then map[] else map["_id" := Oid(c.id)];
    var d1 := if c.grade == 0 then d0 else d0["grade" := Int(c.grade)];
    var d2 := if c.description == "" then d1 else d1["description" := Str(c.description)];
    var d3 := if c.schoolYear == "" then d2 else d2["school_year" := Str(c.schoolYear)];
    var d4 := if c.nameNormalized == "" then d3 else d3["name_normalized" := Str(c.nameNormalized)];
    var d5 := if c.createdAt == ZeroTime then d4 else d4["created_at" := Date(c.createdAt)];
    var d6 := if c.updatedAt == ZeroTime then d5 else d5["updated_at" := Date(c.updatedAt)];
    d6["name" := Str(c.name)]["is_active" := Bool(c.isActive)]
  }

  /** The stored form keeps the name and is_active whatever their values, and
      the school year only when one is given. */
  lemma EncodeFields(c: Classroom)
    ensures Get(Encode(c), "name") == Str(c.name) && Get(Encode(c), "is_active") == Bool(c.isActive)
    ensures "school_year" in Encode(c) <==> c.schoolYear != ""
    ensures c.schoolYear != "" ==> Encode(c)["school_year"] == Str(c.schoolYear)
  {
  }

  /** The normal form is stored when not empty. */
  lemma EncodeNormalized(c: Classroom)
    ensures Get(Encode(c), "name_normalized") == if c.nameNormalized == "" then Null else Str(c.nameNormalized)
  {
  }

  /** The "$set" document of an update: name with its normal form when a name
      is given, the description when not empty, the grade when not zero, and
      always is_active and updated_at. */
  function UpdateDoc(data: Classroom, now: int, norm: string -> string): (u: Doc)
    ensures "is_active" in u && u["is_active"] == Bool(data.isActive)
    ensures "updated_at" in u && u["updated_at"] == Date(now)
  {
    var u1: Doc := if data.name != "" then map["name" := Str(data.name), "name_normalized" := Str(norm(data.name))] else map[];
    var u2 := if data.description != "" then u1["description" := Str(data.description)] else u1;
    var u3 := if data.grade != 0 then u2["grade" := Int(data.grade)] else u2;
    u3["is_active" := Bool(data.isActive)]["updated_at" := Date(now)]
  }

  /** Which fields an update writes besides is_active and updated_at. */
  lemma UpdateDocSupplied(data: Classroom, now: int, norm: string -> string)
    ensures var u := UpdateDoc(data, now, norm);
      && ("name" in u <==> data.name != "")
      && ("name_normalized" in u <==> data.name != "")
      && (data.name != "" ==> u["name"] == Str(data.name) && u["name_normalized"] == Str(norm(data.name)))
      && ("description" in u <==> data.description != "")
      && ("grade" in u <==> data.grade != 0)
  {
  }

  /** An update writes nothing else: never _id, created_at or school_year. */
  lemma UpdateDocFields(data: Classroom, now: int, norm: string -> string)
    ensures UpdateDoc(data, now, norm).Keys <= {"name", "name_normalized", "description", "grade", "is_active", "updated_at"}
  {
  }

  /** The "$set" document built one field at a time, as Update builds it. */
  method BuildUpdate(data: Classroom, now: int, norm: string -> string) returns (u: Doc)
    ensures u == UpdateDoc(data, now, norm)
  {
    u := map[];
    if data.name != "" {
      u := u["name" := Str(data.name)];
      u := u["name_normalized" := Str(norm(data.name))];
    }
    if data.description != "" {
      u := u["description" := Str(data.description)];
    }
    if data.grade != 0 {
      u := u["grade" := Int(data.grade)];
    }
    u := u["is_active" := Bool(data.isActive)];
    u := u["updated_at" := Date(now)];
  }

  class Repository {
    var docs: seq<Doc>

    constructor ()
      ensures docs == []
    {
      docs := [];
    }

    /** Create: a fresh id, one instant for both timestamps and the
        normalised name; a failed insert (also a taken id) changes nothing. */
    method Create(classroom: Classroom, now: int, freshId: ObjectId, norm: string -> string, insertFails: bool) returns (err: Option<string>, created: Classroom)
      modifies this
      ensures created == classroom.(id := freshId, createdAt := now, updatedAt := now, nameNormalized := norm(classroom.name))
      ensures err.Some? <==> insertFails || HasId(old(docs), freshId)
      ensures err.Some? ==> docs == old(docs)
      ensures err.None? ==> docs == old(docs) + [Encode(created)]
    {
      created := classroom.(id := freshId);
      created := created.(createdAt := now, updatedAt := now);
      created := created.(nameNormalized := norm(created.name));
      if insertFails || HasId(docs, freshId) {
        return Some("E11000 duplicate key error"), created;
      }
      docs := docs + [Encode(created)];
      err := None;
    }

    /** Update: always a write, of the supplied fields, is_active and
        updated_at; a missing id is not an error. */
    method Update(id: ObjectId, data: Classroom, now: int, norm: string -> string, writeFails: bool) returns (err: Option<string>)
      modifies this
      ensures err.Some? <==> writeFails
      ensures err.Some? ==> docs == old(docs)
      ensures err.None? ==> docs == SetById(old(docs), id, UpdateDoc(data, now, norm))
    {
      var update := BuildUpdate(data, now, norm);
      if writeFails {
        return Some(ErrUnavailable);
      }
      docs := SetById(docs, id, update);
      err := None;
    }

    /** List: the keyword and is_active filter, the sort (created_at
        descending by default) and the paging; the total counts every match. */
    method List(u: Unicode, norm: string -> string, page: int, limit: int, sortField: string, sortOrder: string,
                keyword: string, isActive: Option<bool>, fails: bool) returns (r: Result<(seq<Doc>, nat)>)
      ensures fails ==> r.Failure?
      ensures !fails ==> r == Paged(u, docs, KeywordFilter(norm, keyword, isActive), ListSort(sortField, sortOrder), page, limit)
    {
      var filter := BuildKeywordFilter(norm, keyword, isActive);
      var sort := ListSort(sortField, sortOrder);
      if fails {
        return Failure(ErrUnavailable);
      }
      r := Paged(u, docs, filter, sort, page, limit);
    }
  }

  /** An update keeps the stored school year and every field it does not
      write, and always sets is_active: a body without it deactivates the
      classroom. */
  lemma UpdateEffect(docs: seq<Doc>, id: ObjectId, data: Classroom, now: int, norm: string -> string, i: int, f: string)
    requires 0 <= i < |docs| && Get(docs[i], "_id") == Oid(id)
    ensures var after := SetById(docs, id, UpdateDoc(data, now, norm))[i];
      && Get(after, "is_active") == Bool(data.isActive)
      && Get(after, "updated_at") == Date(now)
      && Get(after, "school_year") == Get(docs[i], "school_year")
      && (f !in UpdateDoc(data, now, norm) ==> Get(after, f) == Get(docs[i], f))
  {
    var update := UpdateDoc(data, now, norm);
    UpdateDocFields(data, now, norm);
    SetByIdEffect(docs, id, update, i, f);
    SetByIdEffect(docs, id, update, i, "is_active");
    SetByIdEffect(docs, id, update, i, "updated_at");
    SetByIdEffect(docs, id, update, i, "school_year");
  }

  /** The list cannot select by school year: two classrooms that differ only
      in it are both listed or both left out. */
  lemma ListIgnoresSchoolYear(u: Unicode, norm: string -> string, keyword: string, isActive: Option<bool>, c: Classroom, year: string)
    ensures Matches(u, KeywordFilter(norm, keyword, isActive), Encode(c.(schoolYear := year))) <==>
            Matches(u, KeywordFilter(norm, keyword, isActive), Encode(c))
  {
    var c' := c.(schoolYear := year);
    EncodeFields(c);
    EncodeFields(c');
    EncodeNormalized(c);
    EncodeNormalized(c');
    KeywordFilterMatches(u, norm, keyword, isActive, Encode(c));
    KeywordFilterMatches(u, norm, keyword, isActive, Encode(c'));
  }
}
