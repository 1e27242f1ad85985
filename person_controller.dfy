/** The person handlers (controllers/person.go): the sparse-body merge of
    UpdatePerson, and the id checks and status mapping of UpdatePerson,
    DeletePerson, GetFamilyInfo and GetPersonByID. */
module PersonController {
  import opened Common
  import opened Chrono
  import opened PersonRepository

  /** A decoded JSON value as a body map holds it: a string, an array, null,
      or anything else (numbers, booleans, objects). */
  datatype Json = JNull | JStr(s: string) | JArr(elems: seq<Json>) | JOther

  type Body = map<string, Json>

  /** The body's value under key when it is a string. */
  function StrAt(body: Body, key: string): (r: Option<string>)
    ensures r.Some? <==> key in body && body[key].JStr?
    ensures r.Some? ==> body[key] == JStr(r.value)
  {
    if key in body && body[key].JStr? then Some(body[key].s) else None
  }

  /** The elements of a JSON array that are strings holding a valid hex id,
      decoded, in order. */
  function ValidIds(elems: seq<Json>): (r: seq<ObjectId>)
    ensures |r| <= |elems|
  {
    if elems == [] then []
    else
      var init := ValidIds(elems[..|elems| - 1]);
      var last := elems[|elems| - 1];
      if last.JStr? && FromHex(last.s).Some? then init + [FromHex(last.s).value] else init
  }

  /** Every kept id comes from an element of the array that spells it. */
  lemma {:induction false} ValidIdsSound(elems: seq<Json>)
    ensures forall i :: 0 <= i < |ValidIds(elems)| ==>
      exists j :: 0 <= j < |elems| && elems[j].JStr? && FromHex(elems[j].s) == Some(ValidIds(elems)[i])
  {
    if elems != [] {
      var init := elems[..|elems| - 1];
      ValidIdsSound(init);
      forall i | 0 <= i < |ValidIds(elems)|
        ensures exists j :: 0 <= j < |elems| && elems[j].JStr? && FromHex(elems[j].s) == Some(ValidIds(elems)[i])
      {
        if i < |ValidIds(init)| {
          assert ValidIds(elems)[i] == ValidIds(init)[i];
          var j :| 0 <= j < |init| && init[j].JStr? && FromHex(init[j].s) == Some(ValidIds(init)[i]);
          assert elems[j] == init[j];
        } else {
          var j := |elems| - 1;
          assert elems[j].JStr? && FromHex(elems[j].s) == Some(ValidIds(elems)[i]);
        }
      }
    } else {
      assert ValidIds(elems) == [];
    }
  }

  /** An array of the hex forms of some ids reads back as exactly those ids. */
  lemma {:induction false} ValidIdsOfHexes(ids: seq<ObjectId>)
    ensures ValidIds(seq(|ids|, i requires 0 <= i < |ids| => JStr(ToHex(ids[i])))) == ids
  {
    var elems := seq(|ids|, i requires 0 <= i < |ids| => JStr(ToHex(ids[i])));
    if ids != [] {
      var init := ids[..|ids| - 1];
      ValidIdsOfHexes(init);
      assert elems[..|elems| - 1] == seq(|init|, i requires 0 <= i < |init| => JStr(ToHex(init[i])));
      FromHexToHex(ids[|ids| - 1]);
      assert ids == init + [ids[|ids| - 1]];
    }
  }

  /** The loop that collects the valid ids of a JSON array. */
  method CollectIds(elems: seq<Json>) returns (ids: seq<ObjectId>)
    ensures ids == ValidIds(elems)
  {
    ids := [];
    var i := 0;
    while i < |elems|
      invariant 0 <= i <= |elems|
      invariant ids == ValidIds(elems[..i])
    {
      assert elems[..i + 1][..i] == elems[..i];
      var e := elems[i];
      if e.JStr? {
        var id := FromHex(e.s);
        if id.Some? {
          ids := ids + [id.value];
        }
      }
      i := i + 1;
    }
    assert elems[..|elems|] == elems;
  }

  /** The id the update body names: a non-empty string holding a valid hex id. */
  function BodyId(body: Body): (r: Result<ObjectId>)
    ensures r.Success? <==> StrAt(body, "id").Some? && IsHexId(StrAt(body, "id").value)
    ensures r.Success? ==> FromHex(body["id"].s) == Some(r.value)
    ensures r.Failure? && (StrAt(body, "id").None? || body["id"].s == "") ==> r.error == "Missing or invalid 'id' field"
    ensures r.Failure? && StrAt(body, "id").Some? && body["id"].s != "" ==> r.error == "Invalid ID format"
  {
    match StrAt(body, "id")
    case None => Failure("Missing or invalid 'id' field")
    case Some(s) =>
      if s == "" then Failure("Missing or invalid 'id' field")
      else match FromHex(s)
        case None => Failure("Invalid ID format")
        case Some(id) => Success(id)
  }

  /** A string field: overwritten when the key holds a string. */
  method MergeString(current: string, body: Body, key: string) returns (v: string)
    ensures v == if StrAt(body, key).Some? then StrAt(body, key).value else current
  {
    v := current;
    if key in body && body[key].JStr? {
      v := body[key].s;
    }
  }

  /** A date field: overwritten when the key holds a string that parses as
      an RFC 3339 date-time; an unparsable string is ignored. */
  method MergeDate(current: Option<int>, body: Body, key: string) returns (v: Option<int>)
    ensures StrAt(body, key).Some? && ParseDateTime(StrAt(body, key).value).Some? ==> v == ParseDateTime(StrAt(body, key).value)
    ensures StrAt(body, key).None? || ParseDateTime(StrAt(body, key).value).None? ==> v == current
  {
    v := current;
    if key in body && body[key].JStr? {
      var t := ParseDateTime(body[key].s);
      if t.Some? {
        v := t;
      }
    }
  }

  /** A parent field: overwritten only by a valid hex id, so it can be
      changed but never cleared. */
  method MergeParent(current: Option<ObjectId>, body: Body, key: string) returns (v: Option<ObjectId>)
    ensures StrAt(body, key).Some? && FromHex(StrAt(body, key).value).Some? ==> v == FromHex(StrAt(body, key).value)
    ensures StrAt(body, key).None? || FromHex(StrAt(body, key).value).None? ==> v == current
    ensures current.Some? ==> v.Some?
  {
    v := current;
    if key in body && body[key].JStr? {
      var id := FromHex(body[key].s);
      if id.Some? {
        v := id;
      }
    }
  }

  /** An id list: replaced wholesale by the valid ids of an array. */
  method MergeIds(current: seq<ObjectId>, body: Body, key: string) returns (v: seq<ObjectId>)
    ensures v == if key in body && body[key].JArr? then ValidIds(body[key].elems) else current
  {
    v := current;
    if key in body && body[key].JArr? {
      v := CollectIds(body[key].elems);
    }
  }

  /** The value of a string field after the merge. */
  function StrOr(body: Body, key: string, current: string): string {
    if StrAt(body, key).Some? then StrAt(body, key).value else current
  }

  /** The value of a date field after the merge. */
  function DateOr(body: Body, key: string, current: Option<int>): Option<int> {
    if StrAt(body, key).Some? && ParseDateTime(StrAt(body, key).value).Some? then ParseDateTime(StrAt(body, key).value) else current
  }

  /** The value of a parent field after the merge. */
  function ParentOr(body: Body, key: string, current: Option<ObjectId>): Option<ObjectId> {
    if StrAt(body, key).Some? && FromHex(StrAt(body, key).value).Some? then FromHex(StrAt(body, key).value) else current
  }

  /** The value of an id list after the merge. */
  function IdsOr(body: Body, key: string, current: seq<ObjectId>): seq<ObjectId> {
    if key in body && body[key].JArr? then ValidIds(body[key].elems) else current
  }

  /** The record UpdatePerson writes, field by field. */
  function Merged(existing: Person, body: Body, now: int): Person {
    Person(existing.id, StrOr(body, "name", existing.name), StrOr(body, "alias", existing.alias),
           existing.nameNormalized, existing.aliasNormalized, StrOr(body, "gender", existing.gender),
           DateOr(body, "dob", existing.birthDate), StrOr(body, "birth_year_can_chi", existing.birthYearCanChi),
           DateOr(body, "dod", existing.deathDate), StrOr(body, "death_year_can_chi", existing.deathYearCanChi),
           StrOr(body, "image_url", existing.imageUrl),
           ParentOr(body, "father_id", existing.fatherId), ParentOr(body, "mother_id", existing.motherId),
           IdsOr(body, "spouse_ids", existing.spouseIds), IdsOr(body, "children_ids", existing.childrenIds),
           existing.createdAt, now)
  }

  /** What the merge does to each field: strings overwrite when the key holds
      a string; dates when the string parses as an RFC 3339 date-time;
      parents when the string is a valid hex id, so a parent is never
      cleared; the two id lists, wholesale, when the key holds an array. The
      id, creation time and normalised names are kept. */
  lemma MergedFields(existing: Person, body: Body, now: int)
    ensures var m := Merged(existing, body, now);
      && m.id == existing.id && m.createdAt == existing.createdAt && m.updatedAt == now
      && m.nameNormalized == existing.nameNormalized && m.aliasNormalized == existing.aliasNormalized
      && m.name == (if StrAt(body, "name").Some? then StrAt(body, "name").value else existing.name)
      && m.alias == (if StrAt(body, "alias").Some? then StrAt(body, "alias").value else existing.alias)
      && m.gender == (if StrAt(body, "gender").Some? then StrAt(body, "gender").value else existing.gender)
      && m.imageUrl == (if StrAt(body, "image_url").Some? then StrAt(body, "image_url").value else existing.imageUrl)
      && m.birthYearCanChi == (if StrAt(body, "birth_year_can_chi").Some? then StrAt(body, "birth_year_can_chi").value else existing.birthYearCanChi)
      && m.deathYearCanChi == (if StrAt(body, "death_year_can_chi").Some? then StrAt(body, "death_year_can_chi").value else existing.deathYearCanChi)
      && (StrAt(body, "dob").Some? && ParseDateTime(StrAt(body, "dob").value).Some? ==> m.birthDate == ParseDateTime(StrAt(body, "dob").value))
      && (StrAt(body, "dob").None? || ParseDateTime(StrAt(body, "dob").value).None? ==> m.birthDate == existing.birthDate)
      && (StrAt(body, "dod").Some? && ParseDateTime(StrAt(body, "dod").value).Some? ==> m.deathDate == ParseDateTime(StrAt(body, "dod").value))
      && (StrAt(body, "dod").None? || ParseDateTime(StrAt(body, "dod").value).None? ==> m.deathDate == existing.deathDate)
      && (StrAt(body, "father_id").Some? && FromHex(StrAt(body, "father_id").value).Some? ==> m.fatherId == FromHex(StrAt(body, "father_id").value))
      && (StrAt(body, "father_id").None? || FromHex(StrAt(body, "father_id").value).None? ==> m.fatherId == existing.fatherId)
      && (StrAt(body, "mother_id").Some? && FromHex(StrAt(body, "mother_id").value).Some? ==> m.motherId == FromHex(StrAt(body, "mother_id").value))
      && (StrAt(body, "mother_id").None? || FromHex(StrAt(body, "mother_id").value).None? ==> m.motherId == existing.motherId)
      && m.childrenIds == (if "children_ids" in body && body["children_ids"].JArr? then ValidIds(body["children_ids"].elems) else existing.childrenIds)
      && m.spouseIds == (if "spouse_ids" in body && body["spouse_ids"].JArr? then ValidIds(body["spouse_ids"].elems) else existing.spouseIds)
      && (existing.fatherId.Some? ==> m.fatherId.Some?)
      && (existing.motherId.Some? ==> m.motherId.Some?)
  {
  }

  /** Sending the same body twice leaves the record as sending it once. */
  lemma MergedIdempotent(existing: Person, body: Body, now: int)
    ensures Merged(Merged(existing, body, now), body, now) == Merged(existing, body, now)
  {
  }

  /** A body that names no field only restamps the record. */
  lemma MergedEmptyBody(existing: Person, now: int)
    ensures Merged(existing, map[], now) == existing.(updatedAt := now)
  {
  }

  /** The merge of UpdatePerson: start from the stored record and overwrite
      each field the body supplies in a usable form. Strings overwrite when
      the key holds a string; dates when the string parses as an RFC 3339
      date-time; parents when the string is a valid hex id; the two id lists,
      wholesale, when the key holds an array. */
  method Merge(existing: Person, body: Body, now: int) returns (updated: Person)
    ensures updated == Merged(existing, body, now)
  {
    var name := MergeString(existing.name, body, "name");
    var alias := MergeString(existing.alias, body, "alias");
    var gender := MergeString(existing.gender, body, "gender");
    var imageUrl := MergeString(existing.imageUrl, body, "image_url");
    var birthDate := MergeDate(existing.birthDate, body, "dob");
    var deathDate := MergeDate(existing.deathDate, body, "dod");
    var birthCanChi := MergeString(existing.birthYearCanChi, body, "birth_year_can_chi");
    var deathCanChi := MergeString(existing.deathYearCanChi, body, "death_year_can_chi");
    var father := MergeParent(existing.fatherId, body, "father_id");
    var mother := MergeParent(existing.motherId, body, "mother_id");
    var children := MergeIds(existing.childrenIds, body, "children_ids");
    var spouses := MergeIds(existing.spouseIds, body, "spouse_ids");
    updated := Person(existing.id, name, alias, existing.nameNormalized, existing.aliasNormalized, gender,
                      birthDate, birthCanChi, deathDate, deathCanChi, imageUrl, father, mother,
                      spouses, children, existing.createdAt, now);
  }

  const ErrIdRequired := "ID query parameter is required"

  /** GetPersonByID: 400 for a missing or invalid id, 500 for a store error,
      404 when no person has the id, otherwise the stored person. */
  function GetPersonByID(repo: Repository, q: Query, fails: bool): (r: Reply<Person>)
    reads repo
    ensures r.code == StatusBadRequest <==> !("id" in q && IsHexId(q["id"]))
    ensures r.code == StatusInternalServerError <==> "id" in q && IsHexId(q["id"]) && fails
    ensures r.code == StatusNotFound <==> "id" in q && IsHexId(q["id"]) && !fails && FromHex(q["id"]).value !in repo.docs
    ensures r.code == StatusOK ==> r.data == Some(repo.docs[FromHex(q["id"]).value])
    ensures r.code in {StatusBadRequest, StatusInternalServerError, StatusNotFound, StatusOK}
  {
    match QueryId(q, ErrIdRequired, "Invalid ID")
    case Failure(e) => Fail(StatusBadRequest, e)
    case Success(id) =>
      match repo.GetByID(id, fails)
      case Failure(e) => Fail(StatusInternalServerError, e)
      case Success(None) => Fail(StatusNotFound, "Person not found")
      case Success(Some(p)) => Ok("Person retrieved", p)
  }

  /** GetFamilyInfo: 400 for a missing or invalid id, 500 when the person's
      own lookup fails, 404 when no person has the id, otherwise the family view. */
  function GetFamilyInfo(repo: Repository, q: Query, f: ReadFaults): (r: Reply<FamilyInfo>)
    reads repo
    requires repo.Valid()
    ensures r.code == StatusBadRequest <==> !("id" in q && IsHexId(q["id"]))
    ensures r.code == StatusInternalServerError <==> "id" in q && IsHexId(q["id"]) && f.person
    ensures r.code == StatusNotFound <==> "id" in q && IsHexId(q["id"]) && !f.person && FromHex(q["id"]).value !in repo.docs
    ensures r.code == StatusOK ==> r.data.Some? && r.data.value.person == repo.docs[FromHex(q["id"]).value]
    ensures r.code in {StatusBadRequest, StatusInternalServerError, StatusNotFound, StatusOK}
  {
    match QueryId(q, ErrIdRequired, "Invalid ID")
    case Failure(e) => Fail(StatusBadRequest, e)
    case Success(id) =>
      match repo.GetFamilyInfo(id, f)
      case Failure(e) => Fail(StatusInternalServerError, e)
      case Success(None) => Fail(StatusNotFound, "Person not found")
      case Success(Some(info)) => Ok("Family information retrieved", info)
  }

  /** DeletePerson: 400 for a missing or invalid id before any store access,
      500 when the delete fails, otherwise 200 echoing the requested id, also
      when no person had it. */
  method DeletePerson(repo: Repository, q: Query, f: DeleteFaults) returns (r: Reply<string>)
    modifies repo
    requires repo.Valid()
    ensures repo.Valid()
    ensures r.code == StatusBadRequest <==> !("id" in q && IsHexId(q["id"]))
    ensures r.code == StatusBadRequest ==> repo.docs == old(repo.docs) && repo.order == old(repo.order)
    ensures r.code == StatusOK ==> r.data == Some(q["id"])
    ensures r.code == StatusOK && FromHex(q["id"]).value !in old(repo.docs) ==> repo.docs == old(repo.docs)
    ensures r.code == StatusOK && FromHex(q["id"]).value in old(repo.docs) ==> repo.docs == Deleted(old(repo.docs), FromHex(q["id"]).value)
    ensures r.code == StatusBadRequest ==> r.message == if QueryOr(q, "id", "") == "" then ErrIdRequired else "Invalid ID format"
    ensures r.code == StatusInternalServerError <==>
      && "id" in q && IsHexId(q["id"])
      && (f.lookupFails || (FromHex(q["id"]).value in old(repo.docs) &&
            (f.commitFails || (f.emptyUpdateRejected && EmptyChildUpdate(old(repo.docs)[FromHex(q["id"]).value])))))
    ensures r.code == StatusInternalServerError ==> r.message == "Failed to delete person"
    ensures r.code == StatusInternalServerError ==> repo.docs == old(repo.docs) && repo.order == old(repo.order)
    ensures r.code in {StatusBadRequest, StatusInternalServerError, StatusOK}
  {
    match QueryId(q, ErrIdRequired, "Invalid ID format")
    case Failure(e) =>
      r := Fail(StatusBadRequest, e);
    case Success(id) =>
      var err := repo.Delete(id, f);
      if err.Some? {
        r := Fail(StatusInternalServerError, "Failed to delete person");
      } else {
        r := Reply(StatusOK, "success", "Person deleted successfully", Some(q["id"]));
      }
  }

  /** UpdatePerson: 400 for a missing, non-string, empty or invalid id before
      any store access; 500 when the lookup fails, 404 when no person has the
      id; otherwise merge the body onto the stored record and write it, 500
      when the write fails; a failed sync write is not reported. The reply carries the merged record, whose
      updatedAt the repository stamps again at write time. */
  method UpdatePerson(repo: Repository, body: Body, mergeNow: int, writeNow: int, readFails: bool, writeFails: bool, syncFails: set<ObjectId>)
    returns (r: Reply<Person>)
    modifies repo
    requires repo.Valid()
    ensures repo.Valid() && repo.order == old(repo.order)
    ensures r.code == StatusBadRequest <==> BodyId(body).Failure?
    ensures r.code == StatusInternalServerError <==> BodyId(body).Success? && (readFails || (BodyId(body).value in old(repo.docs) && writeFails))
    ensures r.code == StatusNotFound <==> BodyId(body).Success? && !readFails && BodyId(body).value !in old(repo.docs)
    ensures r.code != StatusOK ==> repo.docs == old(repo.docs)
    ensures r.code == StatusOK ==> r.data.Some? && var p := r.data.value;
      && p.id == BodyId(body).value && p.updatedAt == writeNow
      && p.createdAt == old(repo.docs)[p.id].createdAt
      && repo.docs == SyncedExcept(Written(old(repo.docs), p), p, syncFails)
    ensures r.code == StatusOK ==> r.data == Some(Merged(old(repo.docs)[BodyId(body).value], body, mergeNow).(updatedAt := writeNow))
    ensures r.code in {StatusBadRequest, StatusInternalServerError, StatusNotFound, StatusOK}
  {
    match BodyId(body)
    case Failure(e) =>
      r := Fail(StatusBadRequest, e);
    case Success(id) =>
      match repo.GetByID(id, readFails)
      case Failure(e) =>
        r := Fail(StatusInternalServerError, e);
      case Success(None) =>
        r := Fail(StatusNotFound, "Person not found");
      case Success(Some(existing)) =>
        assert existing.id == id;
        var merged := Merge(existing, body, mergeNow);
        var err := repo.Update(merged, writeNow, writeFails, syncFails);
        if err.Some? {
          r := Fail(StatusInternalServerError, err.value);
        } else {
          r := Reply(StatusOK, "success", "Person updated successfully", Some(merged.(updatedAt := writeNow)));
        }
  }
}
