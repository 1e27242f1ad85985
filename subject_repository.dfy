/** The subjects collection (repositories/subject_repository.go): creation
    with a fresh id and a normalised name, an update that writes the supplied
    fields and always updated_at and is_active, a lookup, a list query with a
    keyword and an is_active filter, and deletion that does not report a
    missing document. The name normaliser is a parameter: its definition is
    not part of this model. */
module SubjectRepository {
  import opened Common
  import opened TextNormalize
  import opened DocStore

  datatype Subject = Subject(
    id: ObjectId,
    name: string,
    code: string,
    nameNormalized: string,
    description: string,
    createdAt: int,
    updatedAt: int,
    isActive: bool)

  /** The document a subject is stored as: name and is_active always; the
      omitempty fields only when not empty or zero. */
  function Encode(s: Subject): Doc {
    var d0: Doc := if IsZero(s.id) then map[] else map["_id" := Oid(s.id)];
    var d1 := if s.code == "" then d0 else d0["code" := Str(s.code)];
    var d2 := if s.nameNormalized == "" then d1 else d1["name_normalized" := Str(s.nameNormalized)];
    var d3 := if s.description == "" then d2 else d2["description" := Str(s.description)];
    var d4 := if s.createdAt == ZeroTime then d3 else d3["created_at" := Date(s.createdAt)];
    var d5 := if s.updatedAt == ZeroTime then d4 else d4["updated_at" := Date(s.updatedAt)];
    d5["name" := Str(s.name)]["is_active" := Bool(s.isActive)]
  }

  /** The stored form keeps the name and is_active whatever their values, and
      leaves out an empty code. */
  lemma EncodeFields(s: Subject)
    ensures Get(Encode(s), "name") == Str(s.name) && Get(Encode(s), "is_active") == Bool(s.isActive)
    ensures "code" in Encode(s) <==> s.code != ""
  {
  }

  /** The "$set" document of an update: name with its normal form when a name
      is given, code and description when not empty, and always updated_at
      and is_active. */
  function UpdateDoc(data: Subject, now: int, norm: string -> string): (u: Doc)
    ensures "updated_at" in u && u["updated_at"] == Date(now)
    ensures "is_active" in u && u["is_active"] == Bool(data.isActive)
  {
    var u1: Doc := if data.name != "" then map["name" := Str(data.name), "name_normalized" := Str(norm(data.name))] else map[];
    var u2 := if data.code != "" then u1["code" := Str(data.code)] else u1;
    var u3 := if data.description != "" then u2["description" := Str(data.description)] else u2;
    u3["updated_at" := Date(now)]["is_active" := Bool(data.isActive)]
  }

  /** Which fields an update writes besides updated_at and is_active. */
  lemma UpdateDocSupplied(data: Subject, now: int, norm: string -> string)
    ensures var u := UpdateDoc(data, now, norm);
      && ("name" in u <==> data.name != "")
      && ("name_normalized" in u <==> data.name != "")
      && (data.name != "" ==> u["name"] == Str(data.name) && u["name_normalized"] == Str(norm(data.name)))
      && ("code" in u <==> data.code != "")
      && ("description" in u <==> data.description != "")
  {
  }

  /** An update writes nothing else: never _id or created_at. */
  lemma UpdateDocFields(data: Subject, now: int, norm: string -> string)
    ensures UpdateDoc(data, now, norm).Keys <= {"name", "name_normalized", "code", "description", "updated_at", "is_active"}
  {
  }

  /** The "$set" document built one field at a time, as Update builds it. */
  method BuildUpdate(data: Subject, now: int, norm: string -> string) returns (u: Doc)
    ensures u == UpdateDoc(data, now, norm)
  {
    u := map[];
    if data.name != "" {
      u := u["name" := Str(data.name)];
      u := u["name_normalized" := Str(norm(data.name))];
    }
    if data.code != "" {
      u := u["code" := Str(data.code)];
    }
    if data.description != "" {
      u := u["description" := Str(data.description)];
    }
    u := u["updated_at" := Date(now)];
    u := u["is_active" := Bool(data.isActive)];
  }

  /** Update's skip test: the document holds updated_at and nothing else. */
  predicate OnlyUpdatedAt(u: Doc) {
    |u| == 1 && "updated_at" in u
  }

  /** The skip test never passes: is_active is always there beside
      updated_at, so every update is written. */
  lemma UpdateNeverSkipped(data: Subject, now: int, norm: string -> string)
    ensures !OnlyUpdatedAt(UpdateDoc(data, now, norm))
  {
    var u := UpdateDoc(data, now, norm);
    assert "is_active" in u.Keys - {"updated_at"};
  }

  class Repository {
    var docs: seq<Doc>

    constructor ()
      ensures docs == []
    {
      docs := [];
    }

    /** Create: a fresh id, one instant for both timestamps and the
        normalised name; a failed insert (also a taken id) changes nothing. */
    method Create(subject: Subject, now: int, freshId: ObjectId, norm: string -> string, insertFails: bool) returns (err: Option<string>, created: Subject)
      modifies this
      ensures created == subject.(id := freshId, createdAt := now, updatedAt := now, nameNormalized := norm(subject.name))
      ensures err.Some? <==> insertFails || HasId(old(docs), freshId)
      ensures err.Some? ==> docs == old(docs)
      ensures err.None? ==> docs == old(docs) + [Encode(created)]
    {
      created := subject.(id := freshId);
      created := created.(createdAt := now, updatedAt := now);
      created := created.(nameNormalized := norm(created.name));
      if insertFails || HasId(docs, freshId) {
        return Some("E11000 duplicate key error"), created;
      }
      docs := docs + [Encode(created)];
      err := None;
    }

    /** Update as written: skipped without error when the document holds only
        updated_at, otherwise "$set"; a missing id is not an error. */
    method Update(id: ObjectId, data: Subject, now: int, norm: string -> string, writeFails: bool) returns (err: Option<string>)
      modifies this
      ensures var update := UpdateDoc(data, now, norm);
        && (err.Some? <==> !OnlyUpdatedAt(update) && writeFails)
        && (err.Some? ==> docs == old(docs))
        && (err.None? ==> docs == if OnlyUpdatedAt(update) then old(docs) else SetById(old(docs), id, update))
    {
      var update := BuildUpdate(data, now, norm);
      if |update| == 1 && "updated_at" in update {
        return None;
      }
      if writeFails {
        return Some(ErrUnavailable);
      }
      docs := SetById(docs, id, update);
      err := None;
    }

    /** Delete: removes the document with the id; only a store error is
        reported, so a missing id succeeds and changes nothing. */
    method Delete(id: ObjectId, fails: bool) returns (err: Option<string>)
      modifies this
      ensures err.Some? <==> fails
      ensures err.Some? ==> docs == old(docs)
      ensures err.None? ==> docs == DeleteById(old(docs), id).0
      ensures err.None? && !HasId(old(docs), id) ==> docs == old(docs)
    {
      if fails {
        return Some(ErrUnavailable);
      }
      if !HasId(docs, id) {
        DeleteByIdMissing(docs, id);
      }
      docs := DeleteById(docs, id).0;
      err := None;
    }

    /** GetByID: the stored document, or "no documents". */
    function GetByID(id: ObjectId, fails: bool): (r: Result<Doc>)
      reads this
      ensures r.Failure? <==> fails || !HasId(docs, id)
      ensures r.Success? ==> r.value in docs && Get(r.value, "_id") == Oid(id)
    {
      if fails then Failure(ErrUnavailable)
      else match FindById(docs, id)
        case None => Failure(ErrNoDocuments)
        case Some(d) => Success(d)
    }

    /** List: the keyword and is_active filter, the sort (created_at
        descending by default) and the paging; the total counts every match. */
    method List(u: Unicode, norm: string -> string, page: int, limit: int, sortField: string, sortOrder: string,
                keyword: string, isActive: Option<bool>, fails: bool) returns (r: Result<(seq<Doc>, nat)>)
      ensures fails ==> r.Failure?
      ensures !fails ==> r == Paged(u, docs, KeywordFilter(norm, keyword, isActive), ListSort(sortField, sortOrder), page, limit)
    {
      var filter := BuildKeywordFilter(norm, keyword, isActive);
      var sort := ListSort(sortField, sortOrder);
      if fails {
        return Failure(ErrUnavailable);
      }
      r := Paged(u, docs, filter, sort, page, limit);
    }
  }

  /** With the skip never taken, an update fails only on a store error and
      otherwise sets updated_at and is_active on the target, keeping every
      field it does not write. */
  lemma UpdateEffect(docs: seq<Doc>, id: ObjectId, data: Subject, now: int, norm: string -> string, i: int, f: string)
    requires 0 <= i < |docs| && Get(docs[i], "_id") == Oid(id)
    ensures var after := SetById(docs, id, UpdateDoc(data, now, norm))[i];
      && Get(after, "is_active") == Bool(data.isActive)
      && Get(after, "updated_at") == Date(now)
      && (f !in UpdateDoc(data, now, norm) ==> Get(after, f) == Get(docs[i], f))
  {
    var update := UpdateDoc(data, now, norm);
    SetByIdEffect(docs, id, update, i, f);
    SetByIdEffect(docs, id, update, i, "is_active");
    SetByIdEffect(docs, id, update, i, "updated_at");
  }
}
