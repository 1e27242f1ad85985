/** The slice of the document store's semantics the repositories rely on:
    BSON-like values and documents, equality / "$in" / case-insensitive
    "$regex" filters, sorting by one field in the store's cross-type order
    (an array by its least element ascending, its greatest descending),
    skip/limit windows, "$set" by id and delete by id. A collection is a
    sequence of documents in natural (insertion) order. */
module DocStore {
  import opened Common
  import opened Ordering
  import opened TextNormalize

  /** Seconds from the Unix epoch back to Go's zero time (0001-01-01T00:00:00Z),
      the time value that an omitempty tag leaves out. */
  const ZeroTime := -62135596800

  datatype Value =
    | Null
    | Int(i: int)
    | Str(s: string)
    | Arr(elems: seq<Value>)
    | Oid(id: ObjectId)
    | Bool(b: bool)
    | Date(t: int)

  type Doc = map<string, Value>

  /** A field's value; a missing field reads as null, as in queries and sorts. */
  function Get(d: Doc, field: string): Value {
    if field in d then d[field] else Null
  }

  /** The store's order of types: the empty array, null, numbers, strings,
      arrays, ids, booleans, dates. */
  function Rank(v: Value): int {
    match v
    case Null => 1
    case Int(_) => 2
    case Str(_) => 3
    case Arr(e) => if e == [] then 0 else 5
    case Oid(_) => 7
    case Bool(_) => 8
    case Date(_) => 9
  }

  /** The sort order on values: by type rank first, then within the type.
      Ids compare by their bytes, which is the order of their hex forms. */
  predicate ValueLess(a: Value, b: Value) {
    if Rank(a) != Rank(b) then Rank(a) < Rank(b)
    else match (a, b)
      case (Int(x), Int(y)) => x < y
      case (Str(x), Str(y)) => StrLess(x, y)
      case (Oid(x), Oid(y)) => StrLess(ToHex(x), ToHex(y))
      case (Bool(x), Bool(y)) => !x && y
      case (Date(x), Date(y)) => x < y
      case _ => false
  }

  lemma ValueLessIrreflexive(a: Value)
    ensures !ValueLess(a, a)
  {
    match a
    case Str(x) => StrLessIrreflexive(x);
    case Oid(x) => StrLessIrreflexive(ToHex(x));
    case _ =>
  }

  lemma ValueLessTransitive(a: Value, b: Value, c: Value)
    requires ValueLess(a, b) && ValueLess(b, c)
    ensures ValueLess(a, c)
  {
    if Rank(a) == Rank(b) == Rank(c) {
      match (a, b, c)
      case (Str(x), Str(y), Str(z)) => StrLessTransitive(x, y, z);
      case (Oid(x), Oid(y), Oid(z)) => StrLessTransitive(ToHex(x), ToHex(y), ToHex(z));
      case _ =>
    }
  }

  /** The least element of a non-empty array (the greatest when not
      ascending), as ExtremeIsExtreme states. */
  function Extreme(e: seq<Value>, ascending: bool): (x: Value)
    requires e != []
    ensures x in e
  {
    if |e| == 1 then e[0]
    else
      var m := Extreme(e[..|e| - 1], ascending);
      var last := e[|e| - 1];
      if (if ascending then ValueLess(last, m) else ValueLess(m, last)) then last else m
  }

  /** No element of the array comes strictly before (after, when not
      ascending) the one Extreme picks. */
  lemma {:induction false} ExtremeIsExtreme(e: seq<Value>, ascending: bool)
    requires e != []
    ensures forall i :: 0 <= i < |e| ==> !(if ascending then ValueLess(e[i], Extreme(e, ascending)) else ValueLess(Extreme(e, ascending), e[i]))
  {
    if |e| == 1 {
      ValueLessIrreflexive(e[0]);
    } else {
      var init, last := e[..|e| - 1], e[|e| - 1];
      ExtremeIsExtreme(init, ascending);
      var m := Extreme(init, ascending);
      var better := if ascending then ValueLess(last, m) else ValueLess(m, last);
      ExtremeStep(init, m, last, ascending, better);
      ValueLessIrreflexive(last);
      assert forall i :: 0 <= i < |e| - 1 ==> e[i] == init[i];
    }
  }

  /** The step of Extreme: replacing the extreme of init by a strictly better
      last element keeps every element of init on the right side. */
  lemma ExtremeStep(init: seq<Value>, m: Value, last: Value, ascending: bool, better: bool)
    requires forall i :: 0 <= i < |init| ==> !(if ascending then ValueLess(init[i], m) else ValueLess(m, init[i]))
    requires better == if ascending then ValueLess(last, m) else ValueLess(m, last)
    ensures better ==> forall i :: 0 <= i < |init| ==> !(if ascending then ValueLess(init[i], last) else ValueLess(last, init[i]))
  {
    if better {
      forall i | 0 <= i < |init| ensures !(if ascending then ValueLess(init[i], last) else ValueLess(last, init[i])) {
        if ascending && ValueLess(init[i], last) {
          ValueLessTransitive(init[i], last, m);
        }
        if !ascending && ValueLess(last, init[i]) {
          ValueLessTransitive(m, last, init[i]);
        }
      }
    }
  }

  /** The value a sort compares: an array by its least element when
      ascending and its greatest when descending; the empty array stays
      itself and so sorts before null. */
  function SortKey(v: Value, ascending: bool): (k: Value)
    ensures !v.Arr? || v.elems == [] ==> k == v
    ensures v.Arr? && v.elems != [] ==> k in v.elems
  {
    if v.Arr? && v.elems != [] then Extreme(v.elems, ascending) else v
  }

  /** A sort specification: one field, ascending or descending. */
  datatype Sort = Sort(field: string, ascending: bool)

  /** Whether document a must come before document b under the sort. */
  predicate DocBefore(s: Sort, a: Doc, b: Doc) {
    var ka, kb := SortKey(Get(a, s.field), s.ascending), SortKey(Get(b, s.field), s.ascending);
    if s.ascending then ValueLess(ka, kb) else ValueLess(kb, ka)
  }

  function Before(s: Sort): (Doc, Doc) -> bool {
    (a: Doc, b: Doc) => DocBefore(s, a, b)
  }

  lemma BeforeIsStrictOrder(s: Sort)
    ensures StrictOrder(Before(s))
  {
    forall a: Doc ensures !Before(s)(a, a) {
      ValueLessIrreflexive(SortKey(Get(a, s.field), s.ascending));
    }
    forall a: Doc, b: Doc, c: Doc | Before(s)(a, b) && Before(s)(b, c) ensures Before(s)(a, c) {
      var ka, kb, kc := SortKey(Get(a, s.field), s.ascending), SortKey(Get(b, s.field), s.ascending), SortKey(Get(c, s.field), s.ascending);
      if s.ascending {
        ValueLessTransitive(ka, kb, kc);
      } else {
        ValueLessTransitive(kc, kb, ka);
      }
    }
  }

  /** One condition of a filter: equality, a case-insensitive regular
      expression without metacharacters, or membership in a list. */
  datatype Cond = Eq(value: Value) | Regex(pattern: string) | In(values: seq<Value>)

  type Filter = map<string, Cond>

  /** Equality as queries apply it: the value itself, or an array holding it. */
  predicate EqMatches(x: Value, v: Value) {
    x == v || (x.Arr? && v in x.elems)
  }

  predicate Holds(u: Unicode, c: Cond, x: Value) {
    match c
    case Eq(v) => EqMatches(x, v)
    case Regex(p) => x.Str? && ContainsFold(u, x.s, p)
    case In(vs) => exists i :: 0 <= i < |vs| && EqMatches(x, vs[i])
  }

  /** A document satisfies a filter when every condition holds of its field. */
  predicate Matches(u: Unicode, filter: Filter, d: Doc) {
    forall f :: f in filter ==> Holds(u, filter[f], Get(d, f))
  }

  /** The documents a filter selects, in natural order. */
  function Matching(u: Unicode, docs: seq<Doc>, filter: Filter): seq<Doc> {
    Select(docs, (d: Doc) => Matches(u, filter, d))
  }

  /** The number of documents a filter selects, before any paging. */
  function Count(u: Unicode, docs: seq<Doc>, filter: Filter): nat {
    |Matching(u, docs, filter)|
  }

  /** Every matching document, in the order of the sort. */
  function Ordered(u: Unicode, docs: seq<Doc>, filter: Filter, sort: Sort): (r: seq<Doc>)
    ensures |r| == Count(u, docs, filter)
  {
    SortBy(Matching(u, docs, filter), Before(sort))
  }

  /** A find: filter, then sort (natural order without a sort), then skip and limit (0 for none). */
  function Find(u: Unicode, docs: seq<Doc>, filter: Filter, sort: Option<Sort>, skip: nat, limit: nat): seq<Doc> {
    Window(if sort.Some? then Ordered(u, docs, filter, sort.value) else Matching(u, docs, filter), skip, limit)
  }

  /** A find returns stored documents that satisfy the filter, at most limit
      of them, no more than the count, in the requested order. */
  lemma FindSound(u: Unicode, docs: seq<Doc>, filter: Filter, sort: Option<Sort>, skip: nat, limit: nat)
    ensures var r := Find(u, docs, filter, sort, skip, limit);
      && (limit > 0 ==> |r| <= limit)
      && |r| <= Count(u, docs, filter)
      && (forall i :: 0 <= i < |r| ==> r[i] in docs && Matches(u, filter, r[i]))
      && (sort.Some? ==> Sorted(r, Before(sort.value)))
  {
    var m := Matching(u, docs, filter);
    var ordered := if sort.Some? then Ordered(u, docs, filter, sort.value) else m;
    var r := Window(ordered, skip, limit);
    if sort.Some? {
      OrderedMembers(u, docs, filter, sort.value);
    }
    assert forall i :: 0 <= i < |r| ==> r[i] in ordered;
    if sort.Some? {
      OrderedWindowSorted(u, docs, filter, sort.value, skip, limit);
    }
  }

  /** The sorted listing holds stored documents that satisfy the filter. */
  lemma OrderedMembers(u: Unicode, docs: seq<Doc>, filter: Filter, sort: Sort)
    ensures forall d :: d in Ordered(u, docs, filter, sort) ==> d in docs && Matches(u, filter, d)
  {
    var m := Matching(u, docs, filter);
    forall d | d in Ordered(u, docs, filter, sort) ensures d in docs && Matches(u, filter, d) {
      assert d in multiset(Ordered(u, docs, filter, sort));
      assert d in multiset(m);
      var k :| 0 <= k < |m| && m[k] == d;
    }
  }

  /** A page of the sorted listing is in the sort's order. */
  lemma OrderedWindowSorted(u: Unicode, docs: seq<Doc>, filter: Filter, sort: Sort, skip: nat, limit: nat)
    ensures Sorted(Window(Ordered(u, docs, filter, sort), skip, limit), Before(sort))
  {
    BeforeIsStrictOrder(sort);
    SortBySorted(Matching(u, docs, filter), Before(sort));
    WindowSorted(Ordered(u, docs, filter, sort), skip, limit, Before(sort));
  }

  /** Without skip or limit, every stored document that satisfies the filter is returned. */
  lemma FindComplete(u: Unicode, docs: seq<Doc>, filter: Filter, sort: Option<Sort>, d: Doc)
    requires d in docs && Matches(u, filter, d)
    ensures d in Find(u, docs, filter, sort, 0, 0)
  {
    var m := Matching(u, docs, filter);
    var k :| 0 <= k < |docs| && docs[k] == d;
    assert d in m;
    if sort.Some? {
      assert d in multiset(SortBy(m, Before(sort.value)));
    }
  }

  /** The documents a page skips: (page - 1) * limit. */
  function PageSkip(page: int, limit: int): nat
    requires page >= 1 && limit >= 0
  {
    (page - 1) * limit
  }

  /** A list query's paging: a positive limit skips (page - 1) * limit
      documents, which the store refuses when negative, and returns the next
      limit of the sorted matches; otherwise no paging. The count ignores
      paging. */
  function Paged(u: Unicode, docs: seq<Doc>, filter: Filter, sort: Sort, page: int, limit: int): (r: Result<(seq<Doc>, nat)>)
    ensures r.Failure? <==> limit > 0 && page < 1
    ensures r.Success? ==> r.value.1 == Count(u, docs, filter)
    ensures limit > 0 && page >= 1 ==>
      && r.Success?
      && var skip, all := PageSkip(page, limit), Ordered(u, docs, filter, sort);
         && |r.value.0| == (if skip >= |all| then 0 else if |all| - skip <= limit then |all| - skip else limit)
         && forall i :: 0 <= i < |r.value.0| ==> r.value.0[i] == all[skip + i]
    ensures r.Success? && limit <= 0 ==> r.value.0 == Ordered(u, docs, filter, sort)
  {
    if limit > 0 then
      if page < 1 then Failure("skip must be non-negative")
      else Success((Find(u, docs, filter, Some(sort), PageSkip(page, limit), limit), Count(u, docs, filter)))
    else
      var all := Ordered(u, docs, filter, sort);
      assert all[0..] == all;
      Success((Find(u, docs, filter, Some(sort), 0, 0), Count(u, docs, filter)))
  }

  /** Pages partition the listing: the match at position k of the sorted
      listing is item k % limit of page k / limit + 1. */
  lemma PagedFindsEvery(u: Unicode, docs: seq<Doc>, filter: Filter, sort: Sort, limit: int, k: nat)
    requires limit > 0 && k < Count(u, docs, filter)
    ensures var r := Paged(u, docs, filter, sort, k / limit + 1, limit);
      r.Success? && k % limit < |r.value.0| && r.value.0[k % limit] == Ordered(u, docs, filter, sort)[k]
  {
    PageOf(k, limit);
    var r := Paged(u, docs, filter, sort, k / limit + 1, limit);
    assert |r.value.0| > k % limit;
  }

  /** Position k lies k % limit items into the page k / limit + 1. */
  lemma PageOf(k: nat, limit: int)
    requires limit > 0
    ensures k / limit + 1 >= 1 && PageSkip(k / limit + 1, limit) + k % limit == k && 0 <= k % limit < limit
  {
    assert (k / limit + 1 - 1) * limit == (k / limit) * limit;
  }

  /** The document with the given id, if any. */
  function FindById(docs: seq<Doc>, id: ObjectId): (r: Option<Doc>)
    ensures r.Some? ==> r.value in docs && Get(r.value, "_id") == Oid(id)
    ensures r.None? ==> forall i :: 0 <= i < |docs| ==> Get(docs[i], "_id") != Oid(id)
  {
    if docs == [] then None
    else if Get(docs[0], "_id") == Oid(id) then Some(docs[0])
    else FindById(docs[1..], id)
  }

  /** "$set" of the given fields on the document with the given id; nothing
      happens (and nothing fails) when no document has it. */
  function SetById(docs: seq<Doc>, id: ObjectId, update: Doc): (r: seq<Doc>)
    ensures |r| == |docs|
  {
    seq(|docs|, i requires 0 <= i < |docs| => if Get(docs[i], "_id") == Oid(id) then docs[i] + update else docs[i])
  }

  /** After "$set": the target's listed fields hold the new values, its other
      fields and every other document are unchanged. */
  lemma SetByIdEffect(docs: seq<Doc>, id: ObjectId, update: Doc, i: int, f: string)
    requires 0 <= i < |docs|
    ensures Get(docs[i], "_id") == Oid(id) && f in update ==> Get(SetById(docs, id, update)[i], f) == update[f]
    ensures f !in update ==> Get(SetById(docs, id, update)[i], f) == Get(docs[i], f)
    ensures Get(docs[i], "_id") != Oid(id) ==> SetById(docs, id, update)[i] == docs[i]
  {
  }

  /** Removal of the document with the given id; the flag says whether one was there. */
  function DeleteById(docs: seq<Doc>, id: ObjectId): (r: (seq<Doc>, bool))
    ensures r.1 <==> exists i :: 0 <= i < |docs| && Get(docs[i], "_id") == Oid(id)
    ensures forall i :: 0 <= i < |r.0| ==> Get(r.0[i], "_id") != Oid(id) && r.0[i] in docs
    ensures forall i :: 0 <= i < |docs| && Get(docs[i], "_id") != Oid(id) ==> docs[i] in r.0
  {
    (Select(docs, (d: Doc) => Get(d, "_id") != Oid(id)), exists i :: 0 <= i < |docs| && Get(docs[i], "_id") == Oid(id))
  }

  /** Whether some document carries the id. */
  predicate HasId(docs: seq<Doc>, id: ObjectId) {
    exists i :: 0 <= i < |docs| && Get(docs[i], "_id") == Oid(id)
  }

  /** "$set" on an id nobody carries matches nothing and changes nothing. */
  lemma SetByIdMissing(docs: seq<Doc>, id: ObjectId, update: Doc)
    requires !HasId(docs, id)
    ensures SetById(docs, id, update) == docs
  {
    var r := SetById(docs, id, update);
    forall i | 0 <= i < |docs| ensures r[i] == docs[i] {
      assert Get(docs[i], "_id") != Oid(id);
    }
  }

  /** Deleting an id nobody carries removes nothing. */
  lemma DeleteByIdMissing(docs: seq<Doc>, id: ObjectId)
    requires !HasId(docs, id)
    ensures DeleteById(docs, id) == (docs, false)
  {
    SelectAll(docs, (d: Doc) => Get(d, "_id") != Oid(id));
  }

  // SetById and DeleteById act on every document carrying the id, while
  // UpdateByID/UpdateOne and DeleteOne act on the first one. The two agree
  // while ids are unique, which the next two lemmas state.

  /** The document at i carries the id and no other document does. */
  predicate OnlyAt(docs: seq<Doc>, id: ObjectId, i: int) {
    && 0 <= i < |docs|
    && Get(docs[i], "_id") == Oid(id)
    && forall j :: 0 <= j < |docs| && j != i ==> Get(docs[j], "_id") != Oid(id)
  }

  /** With a single document carrying the id, "$set" changes that one document. */
  lemma SetByIdSingle(docs: seq<Doc>, id: ObjectId, update: Doc, i: int)
    requires OnlyAt(docs, id, i)
    ensures SetById(docs, id, update) == docs[i := docs[i] + update]
  {
    var r := SetById(docs, id, update);
    forall j | 0 <= j < |docs| ensures r[j] == docs[i := docs[i] + update][j] {
      if j != i {
        assert Get(docs[j], "_id") != Oid(id);
      }
    }
  }

  /** With a single document carrying the id, deletion removes exactly that
      one and keeps the rest in order. */
  lemma DeleteByIdSingle(docs: seq<Doc>, id: ObjectId, i: int)
    requires OnlyAt(docs, id, i)
    ensures DeleteById(docs, id) == (docs[..i] + docs[i + 1..], true)
  {
    var keep := (d: Doc) => Get(d, "_id") != Oid(id);
    assert docs == docs[..i] + [docs[i]] + docs[i + 1..];
    SelectAppend(docs[..i] + [docs[i]], docs[i + 1..], keep);
    SelectAppend(docs[..i], [docs[i]], keep);
    assert Select([docs[i]], keep) == [] by {
      assert [docs[i]][..0] == [];
    }
    SelectAll(docs[..i], keep);
    SelectAll(docs[i + 1..], keep);
  }

  /** A list of ids as the store holds it. */
  function OidArr(ids: seq<ObjectId>): (v: Value)
    ensures v.Arr? && |v.elems| == |ids|
    ensures forall i :: 0 <= i < |ids| ==> v.elems[i] == Oid(ids[i])
  {
    Arr(seq(|ids|, i requires 0 <= i < |ids| => Oid(ids[i])))
  }

  /** The sort of the keyword-searchable lists: created_at descending when no
      field is named, whatever the order says; otherwise that field, ascending
      exactly when the order is "asc". */
  function ListSort(field: string, order: string): (s: Sort)
    ensures s.field == (if field == "" then "created_at" else field)
    ensures s.ascending <==> field != "" && order == "asc"
  {
    if field == "" then Sort("created_at", false) else Sort(field, order == "asc")
  }

  /** The filter of the keyword-searchable lists: a case-insensitive match of
      the normalised keyword against name_normalized when a keyword is given,
      and is_active equality when a value is given. */
  function KeywordFilter(norm: string -> string, keyword: string, isActive: Option<bool>): (f: Filter)
    ensures "name_normalized" in f <==> keyword != ""
    ensures keyword != "" ==> f["name_normalized"] == Regex(norm(keyword))
    ensures "is_active" in f <==> isActive.Some?
    ensures isActive.Some? ==> f["is_active"] == Eq(Bool(isActive.value))
    ensures f.Keys <= {"name_normalized", "is_active"}
  {
    var byName: Filter := if keyword != "" then map["name_normalized" := Regex(norm(keyword))] else map[];
    if isActive.Some? then byName["is_active" := Eq(Bool(isActive.value))] else byName
  }

  /** The filter built as the repositories build it, one condition at a time. */
  method BuildKeywordFilter(norm: string -> string, keyword: string, isActive: Option<bool>) returns (f: Filter)
    ensures f == KeywordFilter(norm, keyword, isActive)
  {
    f := map[];
    if keyword != "" {
      f := f["name_normalized" := Regex(norm(keyword))];
    }
    if isActive.Some? {
      f := f["is_active" := Eq(Bool(isActive.value))];
    }
  }

  /** A document passes the keyword filter exactly when its name_normalized
      contains the normalised keyword (ignoring case) and its is_active is
      the requested value, each only when asked for. */
  lemma KeywordFilterMatches(u: Unicode, norm: string -> string, keyword: string, isActive: Option<bool>, d: Doc)
    ensures Matches(u, KeywordFilter(norm, keyword, isActive), d) <==>
      && (keyword != "" ==> Get(d, "name_normalized").Str? && ContainsFold(u, Get(d, "name_normalized").s, norm(keyword)))
      && (isActive.Some? ==> EqMatches(Get(d, "is_active"), Bool(isActive.value)))
  {
    var f := KeywordFilter(norm, keyword, isActive);
    if Matches(u, f, d) {
      if keyword != "" {
        assert Holds(u, f["name_normalized"], Get(d, "name_normalized"));
      }
      if isActive.Some? {
        assert Holds(u, f["is_active"], Get(d, "is_active"));
      }
    }
  }

  /** The keyword filter looks at no field but name_normalized and is_active:
      changing any other field of a document does not change whether it matches. */
  lemma KeywordFilterIgnores(u: Unicode, norm: string -> string, keyword: string, isActive: Option<bool>, d: Doc, f: string, v: Value)
    requires f != "name_normalized" && f != "is_active"
    ensures Matches(u, KeywordFilter(norm, keyword, isActive), d[f := v]) <==> Matches(u, KeywordFilter(norm, keyword, isActive), d)
  {
    KeywordFilterMatches(u, norm, keyword, isActive, d);
    KeywordFilterMatches(u, norm, keyword, isActive, d[f := v]);
    assert Get(d[f := v], "name_normalized") == Get(d, "name_normalized");
    assert Get(d[f := v], "is_active") == Get(d, "is_active");
  }

  /** A "$in" over ids holds of a stored id list exactly when the two lists share an id. */
  lemma InIdsMatches(u: Unicode, want: seq<ObjectId>, have: seq<ObjectId>)
    ensures Holds(u, In(OidArr(want).elems), OidArr(have)) <==>
      exists i, j :: 0 <= i < |want| && 0 <= j < |have| && have[j] == want[i]
  {
    var w, h := OidArr(want), OidArr(have);
    if Holds(u, In(w.elems), h) {
      var i :| 0 <= i < |w.elems| && EqMatches(h, w.elems[i]);
      var j :| 0 <= j < |h.elems| && h.elems[j] == w.elems[i];
      assert have[j] == want[i];
    }
    if exists i, j :: 0 <= i < |want| && 0 <= j < |have| && have[j] == want[i] {
      var i, j :| 0 <= i < |want| && 0 <= j < |have| && have[j] == want[i];
      assert h.elems[j] == w.elems[i];
      assert EqMatches(h, w.elems[i]);
    }
  }
}
