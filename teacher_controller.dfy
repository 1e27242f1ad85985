/** The teacher handlers (controllers/teacher_controller.go): how ListTeachers
    reads is_active and the comma-separated subject_ids list, and the id
    checks and error mapping of GetTeacher and UpdateTeacher. Request bodies
    arrive already decoded; a body that does not decode is not part of this
    model. */
module TeacherController {
  import opened Common
  import opened TextNormalize
  import opened DocStore
  import opened TeacherRepository

  /** strings.Split on a one-rune separator: the runs between separators, one
      more than there are separators, empty runs kept. */
  function Split(s: string, sep: char): (parts: seq<string>)
    ensures |parts| >= 1
    ensures forall i :: 0 <= i < |parts| ==> sep !in parts[i]
  {
    if s == [] then [[]]
    else
      var rest := Split(s[1..], sep);
      if s[0] == sep then [[]] + rest
      else [[s[0]] + rest[0]] + rest[1..]
  }

  /** strings.Join: the parts with the separator between each two. */
  function Join(parts: seq<string>, sep: char): string
    requires |parts| >= 1
  {
    if |parts| == 1 then parts[0] else parts[0] + [sep] + Join(parts[1..], sep)
  }

  /** Joining the pieces of a split gives the text back. */
  lemma {:induction false} JoinSplit(s: string, sep: char)
    ensures Join(Split(s, sep), sep) == s
  {
    if s != [] {
      var rest := Split(s[1..], sep);
      JoinSplit(s[1..], sep);
      if s[0] == sep {
        assert ([[]] + rest)[1..] == rest;
      } else if |rest| > 1 {
        var parts := [[s[0]] + rest[0]] + rest[1..];
        assert parts[1..] == rest[1..];
      }
    }
  }

  /** Splitting text that starts with a run free of the separator glues that
      run onto the first piece of the rest. */
  lemma {:induction false} SplitAppend(p: string, t: string, sep: char)
    requires sep !in p
    ensures Split(p + t, sep) == [p + Split(t, sep)[0]] + Split(t, sep)[1..]
  {
    if p != [] {
      SplitAppend(p[1..], t, sep);
      var x := Split(t, sep);
      assert (p + t)[1..] == p[1..] + t;
      assert (p + t)[0] == p[0] != sep;
      var rest := Split(p[1..] + t, sep);
      assert rest == [p[1..] + x[0]] + x[1..];
      assert rest[0] == p[1..] + x[0] && rest[1..] == x[1..];
      assert [p[0]] + (p[1..] + x[0]) == p + x[0];
    } else {
      var x := Split(t, sep);
      assert p + t == t && p + x[0] == x[0];
      assert x == [x[0]] + x[1..];
    }
  }

  /** Splitting the join of separator-free parts gives the parts back. */
  lemma {:induction false} SplitJoin(parts: seq<string>, sep: char)
    requires |parts| >= 1
    requires forall i :: 0 <= i < |parts| ==> sep !in parts[i]
    ensures Split(Join(parts, sep), sep) == parts
  {
    if |parts| == 1 {
      SplitAppend(parts[0], [], sep);
      assert parts[0] + [] == parts[0];
    } else {
      var rest := parts[1..];
      SplitJoin(rest, sep);
      var j := Join(rest, sep);
      assert Join(parts, sep) == parts[0] + ([sep] + j);
      SplitAppend(parts[0], [sep] + j, sep);
      assert ([sep] + j)[1..] == j;
      var y := Split([sep] + j, sep);
      assert y == [[]] + rest;
      assert y[0] == [] && y[1..] == rest;
      assert parts[0] + y[0] == parts[0];
      assert parts == [parts[0]] + rest;
    }
  }

  /** The ids of the pieces that are valid hex ids, in order; the rest are dropped. */
  function ValidIds(pieces: seq<string>): (ids: seq<ObjectId>)
    ensures |ids| <= |pieces|
  {
    if pieces == [] then []
    else
      var last := FromHex(pieces[|pieces| - 1]);
      ValidIds(pieces[..|pieces| - 1]) + (if last.Some? then [last.value] else [])
  }

  /** The subject ids ListTeachers passes on: none for an empty parameter,
      otherwise the valid pieces between commas. */
  function SubjectIdsOf(s: string): seq<ObjectId> {
    if s == "" then [] else ValidIds(Split(s, ','))
  }

  /** The loop over the split pieces, appending each piece that parses. */
  method ParseSubjectIds(s: string) returns (ids: seq<ObjectId>)
    ensures ids == SubjectIdsOf(s)
  {
    ids := [];
    if s != "" {
      var pieces := Split(s, ',');
      var i := 0;
      while i < |pieces|
        invariant 0 <= i <= |pieces|
        invariant ids == ValidIds(pieces[..i])
      {
        assert pieces[..i + 1][..i] == pieces[..i];
        var id := FromHex(pieces[i]);
        if id.Some? {
          ids := ids + [id.value];
        }
        i := i + 1;
      }
      assert pieces[..i] == pieces;
    }
  }

  /** The hex forms of a list of ids. */
  function Hexes(ids: seq<ObjectId>): (hs: seq<string>)
    ensures |hs| == |ids|
    ensures forall i :: 0 <= i < |ids| ==> hs[i] == ToHex(ids[i])
  {
    seq(|ids|, i requires 0 <= i < |ids| => ToHex(ids[i]))
  }

  lemma {:induction false} ValidIdsHexes(ids: seq<ObjectId>)
    ensures ValidIds(Hexes(ids)) == ids
  {
    if ids != [] {
      var init := ids[..|ids| - 1];
      ValidIdsHexes(init);
      assert Hexes(ids)[..|ids| - 1] == Hexes(init);
      FromHexToHex(ids[|ids| - 1]);
    }
  }

  /** A non-empty list of ids written comma-separated, as a client writes
      it, is read back exactly. */
  lemma SubjectIdsRoundTrip(ids: seq<ObjectId>)
    requires |ids| >= 1
    ensures SubjectIdsOf(Join(Hexes(ids), ',')) == ids
  {
    var hs := Hexes(ids);
    forall i | 0 <= i < |hs| ensures ',' !in hs[i] {
      assert AllHex(hs[i]);
    }
    SplitJoin(hs, ',');
    JoinSplit(Join(hs, ','), ',');
    assert |Join(hs, ',')| > 0 by {
      if |hs| > 1 {
        assert Join(hs, ',') == hs[0] + [','] + Join(hs[1..], ',');
      }
    }
    ValidIdsHexes(ids);
  }

  /** A piece after ", " starts with a space, so it is dropped: "a, b" keeps only a. */
  lemma SpacedPieceDropped(a: ObjectId, b: ObjectId)
    ensures SubjectIdsOf(ToHex(a) + ", " + ToHex(b)) == [a]
  {
    var pa, pb := ToHex(a), " " + ToHex(b);
    assert forall k :: 0 <= k < |pa| ==> IsHexDigit(pa[k]);
    assert ',' !in pa;
    assert forall k :: 1 <= k < |pb| ==> pb[k] == ToHex(b)[k - 1];
    assert forall k :: 0 <= k < |pb| ==> pb[k] != ',';
    assert ',' !in pb;
    var text := ToHex(a) + ", " + ToHex(b);
    assert Join([pa, pb], ',') == text;
    SplitJoin([pa, pb], ',');
    assert text != "";
    assert |pb| == 25 && FromHex(pb) == None;
    FromHexToHex(a);
    assert [pa, pb][..1] == [pa];
    assert [pa][..0] == [];
    assert ValidIds([pa]) == [a];
  }

  /** is_active for ListTeachers: strconv.ParseBool of a non-empty value; an
      unparsable value applies no filter. */
  function ActiveOf(q: Query): Option<bool> {
    var s := QueryOr(q, "is_active", "");
    if s != "" then ParseBool(s) else None
  }

  /** A value a client formats from a truth value filters on that value. */
  lemma ActiveOfFormatted(q: Query, b: bool)
    requires "is_active" in q && q["is_active"] == FormatBool(b)
    ensures ActiveOf(q) == Some(b)
  {
    ParseFormatBool(b);
  }

  /** ListTeachers: page 1, limit 10, created_at descending by default; any
      list error is 500. */
  method ListTeachers(repo: Repository, u: Unicode, norm: string -> string, q: Query, fails: bool) returns (r: Reply<PageData<Doc>>)
    ensures var page, limit := QueryInt(q, "page", 1), QueryInt(q, "limit", 10);
      var filter := ListFilter(norm, QueryOr(q, "keyword", ""), ActiveOf(q), SubjectIdsOf(QueryOr(q, "subject_ids", "")));
      var res := Paged(u, repo.docs, filter, ListSort(QueryOr(q, "sort_field", ""), QueryOr(q, "sort_order", "desc")), page, limit);
      && (r.code == StatusInternalServerError <==> fails || res.Failure?)
      && (r.code == StatusInternalServerError ==> r == Fail(StatusInternalServerError, "Failed to list teachers"))
      && (r.code != StatusInternalServerError ==> r == Ok("List of teachers", PageData(res.value.0, res.value.1, page, limit)))
  {
    var page := QueryInt(q, "page", 1);
    var limit := QueryInt(q, "limit", 10);
    var sortField := QueryOr(q, "sort_field", "");
    var sortOrder := QueryOr(q, "sort_order", "desc");
    var keyword := QueryOr(q, "keyword", "");
    var isActive := ActiveOf(q);
    var subjectIds := ParseSubjectIds(QueryOr(q, "subject_ids", ""));
    var res := repo.List(u, norm, page, limit, sortField, sortOrder, keyword, isActive, subjectIds, fails);
    if res.Failure? {
      return Fail(StatusInternalServerError, "Failed to list teachers");
    }
    r := Ok("List of teachers", PageData(res.value.0, res.value.1, page, limit));
  }

  /** GetTeacher: 400 for a missing or invalid id; every lookup error, a
      store error included, is 404. */
  function GetTeacher(repo: Repository, q: Query, fails: bool): (r: Reply<Doc>)
    reads repo
    ensures r.code == StatusBadRequest <==> !("id" in q && IsHexId(q["id"]))
    ensures r.code == StatusBadRequest ==> r.message == if QueryOr(q, "id", "") == "" then "ID is required" else "Invalid teacher ID"
    ensures r.code == StatusNotFound <==> "id" in q && IsHexId(q["id"]) && (fails || !HasId(repo.docs, FromHex(q["id"]).value))
    ensures r.code == StatusOK ==> r.data.Some? && r.data.value in repo.docs && Get(r.data.value, "_id") == Oid(FromHex(q["id"]).value)
    ensures r.code in {StatusBadRequest, StatusNotFound, StatusOK}
  {
    match QueryId(q, "ID is required", "Invalid teacher ID")
    case Failure(e) => Fail(StatusBadRequest, e)
    case Success(id) =>
      match repo.GetByID(id, fails)
      case Failure(_) => Fail(StatusNotFound, "Teacher not found")
      case Success(d) => Ok("Teacher found", d)
  }

  /** UpdateTeacher: 400 for a zero id before the store is touched; a write
      error is 500; otherwise the update is written. */
  method UpdateTeacher(repo: Repository, data: Teacher, now: int, norm: string -> string, writeFails: bool) returns (r: Reply<()>)
    modifies repo
    ensures r.code == StatusBadRequest <==> IsZero(data.id)
    ensures r.code == StatusBadRequest ==> r.message == "ID is required in body"
    ensures r.code == StatusInternalServerError <==> !IsZero(data.id) && writeFails
    ensures r.code != StatusOK ==> repo.docs == old(repo.docs)
    ensures r.code == StatusOK ==> repo.docs == SetById(old(repo.docs), data.id, UpdateDoc(data, now, norm))
    ensures r.code in {StatusBadRequest, StatusInternalServerError, StatusOK}
  {
    if IsZero(data.id) {
      return Fail(StatusBadRequest, "ID is required in body");
    }
    var err := repo.Update(data.id, data, now, norm, writeFails);
    if err.Some? {
      return Fail(StatusInternalServerError, "Failed to update teacher");
    }
    r := Reply(StatusOK, "success", "Teacher updated successfully", None);
  }
}
