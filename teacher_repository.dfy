/** The teachers collection (repositories/teacher_repository.go): creation
    with a fresh id and a normalised name, an update that writes the supplied
    fields and always is_active and updated_at, and a list query with keyword,
    is_active and subject filters, a sort and paging. The name normaliser is
    a parameter: its definition is not part of this model. */
module TeacherRepository {
  import opened Common
  import opened TextNormalize
  import opened DocStore

  datatype Teacher = Teacher(
    id: ObjectId,
    name: string,
    nameNormalized: string,
    email: string,
    phone: string,
    dateOfBirth: Option<int>,
    address: string,
    subjectIds: Option<seq<ObjectId>>,
    avatarUrl: string,
    createdAt: int,
    updatedAt: int,
    isActive: bool)

  /** The document a teacher is stored as: name, name_normalized, subject_ids
      (null when nil) and is_active always; the omitempty fields only when
      not empty, zero or nil. */
  function Encode(t: Teacher): Doc {
    var d0: Doc := if IsZero(t.id) then map[] else map["_id" := Oid(t.id)];
    var d1 := if t.email == "" then d0 else d0["email" := Str(t.email)];
    var d2 := if t.phone == "" then d1 else d1["phone" := Str(t.phone)];
    var d3 := if t.dateOfBirth.None? then d2 else d2["date_of_birth" := Date(t.dateOfBirth.value)];
    var d4 := if t.address == "" then d3 else d3["address" := Str(t.address)];
    var d5 := if t.avatarUrl == "" then d4 else d4["avatar_url" := Str(t.avatarUrl)];
    var d6 := if t.createdAt == ZeroTime then d5 else d5["created_at" := Date(t.createdAt)];
    var d7 := if t.updatedAt == ZeroTime then d6 else d6["updated_at" := Date(t.updatedAt)];
    d7["name" := Str(t.name)]["name_normalized" := Str(t.nameNormalized)]
      ["subject_ids" := if t.subjectIds.Some? then OidArr(t.subjectIds.value) else Null]
      ["is_active" := Bool(t.isActive)]
  }

  /** The stored form keeps the name, its normal form, the subject list and
      is_active whatever their values. */
  lemma EncodeFields(t: Teacher)
    ensures var d := Encode(t);
      && Get(d, "name") == Str(t.name) && Get(d, "name_normalized") == Str(t.nameNormalized)
      && Get(d, "is_active") == Bool(t.isActive)
      && Get(d, "subject_ids") == (if t.subjectIds.Some? then OidArr(t.subjectIds.value) else Null)
  {
  }

  /** The omitempty fields: an empty e-mail and a zero creation time are left out. */
  lemma EncodeOmitsEmpty(t: Teacher)
    ensures "email" in Encode(t) <==> t.email != ""
    ensures "created_at" in Encode(t) <==> t.createdAt != ZeroTime
  {
  }

  /** The "$set" document of an update: name with its normal form when a name
      is given, the other text fields when not empty, the date of birth and
      the subject list when not nil, and always is_active and updated_at. */
  function UpdateDoc(data: Teacher, now: int, norm: string -> string): (u: Doc)
    ensures "is_active" in u && u["is_active"] == Bool(data.isActive)
    ensures "updated_at" in u && u["updated_at"] == Date(now)
  {
    var u1: Doc := if data.name != "" then map["name" := Str(data.name), "name_normalized" := Str(norm(data.name))] else map[];
    var u2 := if data.email != "" then u1["email" := Str(data.email)] else u1;
    var u3 := if data.phone != "" then u2["phone" := Str(data.phone)] else u2;
    var u4 := if data.address != "" then u3["address" := Str(data.address)] else u3;
    var u5 := if data.avatarUrl != "" then u4["avatar_url" := Str(data.avatarUrl)] else u4;
    var u6 := if data.dateOfBirth.Some? then u5["date_of_birth" := Date(data.dateOfBirth.value)] else u5;
    var u7 := if data.subjectIds.Some? then u6["subject_ids" := OidArr(data.subjectIds.value)] else u6;
    u7["is_active" := Bool(data.isActive)]["updated_at" := Date(now)]
  }

  /** The name and its normal form are written together, and only when a name is given. */
  lemma UpdateDocName(data: Teacher, now: int, norm: string -> string)
    ensures var u := UpdateDoc(data, now, norm);
      && ("name" in u <==> data.name != "")
      && ("name_normalized" in u <==> data.name != "")
      && (data.name != "" ==> u["name"] == Str(data.name) && u["name_normalized"] == Str(norm(data.name)))
  {
  }

  /** The other text fields are written when not empty, the date of birth and
      the subject list when not nil. */
  lemma UpdateDocOptional(data: Teacher, now: int, norm: string -> string)
    ensures var u := UpdateDoc(data, now, norm);
      && ("email" in u <==> data.email != "")
      && ("phone" in u <==> data.phone != "")
      && ("address" in u <==> data.address != "")
      && ("avatar_url" in u <==> data.avatarUrl != "")
      && ("date_of_birth" in u <==> data.dateOfBirth.Some?)
      && ("subject_ids" in u <==> data.subjectIds.Some?)
  {
  }

  /** An update writes no field outside the updatable ones: never _id or created_at. */
  lemma UpdateDocFields(data: Teacher, now: int, norm: string -> string)
    ensures UpdateDoc(data, now, norm).Keys <= {"name", "name_normalized", "email", "phone", "address", "avatar_url", "date_of_birth", "subject_ids", "is_active", "updated_at"}
  {
  }

  /** The "$set" document built one field at a time, as Update builds it. */
  method BuildUpdate(data: Teacher, now: int, norm: string -> string) returns (u: Doc)
    ensures u == UpdateDoc(data, now, norm)
  {
    u := map[];
    if data.name != "" {
      u := u["name" := Str(data.name)];
      u := u["name_normalized" := Str(norm(data.name))];
    }
    if data.email != "" {
      u := u["email" := Str(data.email)];
    }
    if data.phone != "" {
      u := u["phone" := Str(data.phone)];
    }
    if data.address != "" {
      u := u["address" := Str(data.address)];
    }
    if data.avatarUrl != "" {
      u := u["avatar_url" := Str(data.avatarUrl)];
    }
    if data.dateOfBirth.Some? {
      u := u["date_of_birth" := Date(data.dateOfBirth.value)];
    }
    if data.subjectIds.Some? {
      u := u["subject_ids" := OidArr(data.subjectIds.value)];
    }
    u := u["is_active" := Bool(data.isActive)];
    u := u["updated_at" := Date(now)];
  }

  /** The list filter: the keyword and is_active conditions, and membership of
      subject_ids in the given list when it is not empty. */
  function ListFilter(norm: string -> string, keyword: string, isActive: Option<bool>, subjectIds: seq<ObjectId>): (f: Filter)
    ensures "subject_ids" in f <==> |subjectIds| > 0
    ensures |subjectIds| > 0 ==> f["subject_ids"] == In(OidArr(subjectIds).elems)
    ensures forall k :: k != "subject_ids" ==> (k in f <==> k in KeywordFilter(norm, keyword, isActive))
    ensures forall k :: k != "subject_ids" && k in f ==> f[k] == KeywordFilter(norm, keyword, isActive)[k]
  {
    var f := KeywordFilter(norm, keyword, isActive);
    if |subjectIds| > 0 then f["subject_ids" := In(OidArr(subjectIds).elems)] else f
  }

  /** A stored teacher passes the subject condition exactly when one of its
      subjects is among the requested ones. */
  lemma SubjectFilterMatches(u: Unicode, subjectIds: seq<ObjectId>, t: Teacher)
    requires t.subjectIds.Some?
    ensures Holds(u, In(OidArr(subjectIds).elems), Get(Encode(t), "subject_ids")) <==>
      exists i, j :: 0 <= i < |subjectIds| && 0 <= j < |t.subjectIds.value| && t.subjectIds.value[j] == subjectIds[i]
  {
    EncodeFields(t);
    InIdsMatches(u, subjectIds, t.subjectIds.value);
  }

  class Repository {
    var docs: seq<Doc>

    constructor ()
      ensures docs == []
    {
      docs := [];
    }

    /** Create: a fresh id, one instant for both timestamps and the
        normalised name; a failed insert (also a taken id) changes nothing. */
    method Create(teacher: Teacher, now: int, freshId: ObjectId, norm: string -> string, insertFails: bool) returns (err: Option<string>, created: Teacher)
      modifies this
      ensures created == teacher.(id := freshId, createdAt := now, updatedAt := now, nameNormalized := norm(teacher.name))
      ensures err.Some? <==> insertFails || HasId(old(docs), freshId)
      ensures err.Some? ==> docs == old(docs)
      ensures err.None? ==> docs == old(docs) + [Encode(created)]
    {
      created := teacher.(id := freshId);
      created := created.(createdAt := now, updatedAt := now);
      created := created.(nameNormalized := norm(created.name));
      if insertFails || HasId(docs, freshId) {
        return Some("E11000 duplicate key error"), created;
      }
      docs := docs + [Encode(created)];
      err := None;
    }

    /** Update: always a write, of the supplied fields, is_active and
        updated_at; a missing id is not an error. */
    method Update(id: ObjectId, data: Teacher, now: int, norm: string -> string, writeFails: bool) returns (err: Option<string>)
      modifies this
      ensures err.Some? <==> writeFails
      ensures err.Some? ==> docs == old(docs)
      ensures err.None? ==> docs == SetById(old(docs), id, UpdateDoc(data, now, norm))
    {
      var update := BuildUpdate(data, now, norm);
      if writeFails {
        return Some(ErrUnavailable);
      }
      docs := SetById(docs, id, update);
      err := None;
    }

    /** GetByID: the stored document, or "no documents". */
    function GetByID(id: ObjectId, fails: bool): (r: Result<Doc>)
      reads this
      ensures r.Failure? <==> fails || !HasId(docs, id)
      ensures r.Success? ==> r.value in docs && Get(r.value, "_id") == Oid(id)
    {
      if fails then Failure(ErrUnavailable)
      else match FindById(docs, id)
        case None => Failure(ErrNoDocuments)
        case Some(d) => Success(d)
    }

    /** List: the filter, the sort (created_at descending by default) and the
        paging; the total counts every match. */
    method List(u: Unicode, norm: string -> string, page: int, limit: int, sortField: string, sortOrder: string,
                keyword: string, isActive: Option<bool>, subjectIds: seq<ObjectId>, fails: bool) returns (r: Result<(seq<Doc>, nat)>)
      ensures fails ==> r.Failure?
      ensures !fails ==> r == Paged(u, docs, ListFilter(norm, keyword, isActive, subjectIds), ListSort(sortField, sortOrder), page, limit)
    {
      var filter := BuildKeywordFilter(norm, keyword, isActive);
      if |subjectIds| > 0 {
        filter := filter["subject_ids" := In(OidArr(subjectIds).elems)];
      }
      var sort := ListSort(sortField, sortOrder);
      if fails {
        return Failure(ErrUnavailable);
      }
      r := Paged(u, docs, filter, sort, page, limit);
    }
  }

  /** An update always sets is_active, so a body that leaves it out
      deactivates the teacher; fields it does not supply keep their values. */
  lemma UpdateEffect(docs: seq<Doc>, id: ObjectId, data: Teacher, now: int, norm: string -> string, i: int, f: string)
    requires 0 <= i < |docs| && Get(docs[i], "_id") == Oid(id)
    ensures var after := SetById(docs, id, UpdateDoc(data, now, norm))[i];
      && Get(after, "is_active") == Bool(data.isActive)
      && Get(after, "updated_at") == Date(now)
      && (f !in UpdateDoc(data, now, norm) ==> Get(after, f) == Get(docs[i], f))
      && (data.name != "" ==> Get(after, "name_normalized") == Str(norm(data.name)))
  {
    var update := UpdateDoc(data, now, norm);
    SetByIdEffect(docs, id, update, i, f);
    SetByIdEffect(docs, id, update, i, "is_active");
    SetByIdEffect(docs, id, update, i, "updated_at");
    SetByIdEffect(docs, id, update, i, "name_normalized");
  }
}
