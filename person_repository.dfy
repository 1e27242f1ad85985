/** The family-graph store for persons (repositories/person.go). A person
    names a father, a mother, spouses and children by id; creating or
    updating a person mirrors those edges into the neighbours' documents
    ("sync"), and deleting one removes them again inside one transaction. */
module PersonRepository {
  import opened Common
  import opened Ordering
  import opened TextNormalize

  /** A stored person. Optional and omitempty fields hold their zero value
      ("" / None / []) when absent; instants are Unix seconds. */
  datatype Person = Person(
    id: ObjectId,
    name: string,
    alias: string,
    nameNormalized: string,
    aliasNormalized: string,
    gender: string,
    birthDate: Option<int>,
    birthYearCanChi: string,
    deathDate: Option<int>,
    deathYearCanChi: string,
    imageUrl: string,
    fatherId: Option<ObjectId>,
    motherId: Option<ObjectId>,
    spouseIds: seq<ObjectId>,
    childrenIds: seq<ObjectId>,
    createdAt: int,
    updatedAt: int)

  type Store = map<ObjectId, Person>

  predicate NoDup(s: seq<ObjectId>) {
    forall i, j :: 0 <= i < j < |s| ==> s[i] != s[j]
  }

  /** "$addToSet": append x unless it is already listed. */
  function AddToSet(s: seq<ObjectId>, x: ObjectId): (r: seq<ObjectId>)
    ensures x in r && s <= r
    ensures forall y :: y in r ==> y in s || y == x
    ensures NoDup(s) ==> NoDup(r)
  {
    if x in s then s else s + [x]
  }

  lemma AddToSetIdempotent(s: seq<ObjectId>, x: ObjectId)
    ensures AddToSet(AddToSet(s, x), x) == AddToSet(s, x)
  {
  }

  /** "$pull": drop every occurrence of x, keeping the rest in order. */
  function Pull(s: seq<ObjectId>, x: ObjectId): (r: seq<ObjectId>)
    ensures x !in r
    ensures forall y :: y in r ==> y in s
    ensures forall i :: 0 <= i < |s| && s[i] != x ==> s[i] in r
  {
    Select(s, (y: ObjectId) => y != x)
  }

  // ---- syncRelationships ----

  /** One neighbour k after sync of p, where only the first `children`
      children and the first `spouses` spouses have been visited: a parent of
      p gains p as a child, a child of p gets p as father (gender "male") or
      mother (gender "female"), a spouse of p gains p as a spouse. */
  function Linked(p: Person, k: ObjectId, d: Person, children: nat, spouses: nat): Person
    requires children <= |p.childrenIds| && spouses <= |p.spouseIds|
  {
    var child := k in p.childrenIds[..children];
    d.(childrenIds := if p.fatherId == Some(k) || p.motherId == Some(k) then AddToSet(d.childrenIds, p.id) else d.childrenIds,
       fatherId := if child && p.gender == "male" then Some(p.id) else d.fatherId,
       motherId := if child && p.gender == "female" then Some(p.id) else d.motherId,
       spouseIds := if k in p.spouseIds[..spouses] then AddToSet(d.spouseIds, p.id) else d.spouseIds)
  }

  /** The store part-way through sync of p, where every write addressed to
      an id in failed fails and changes nothing. */
  function SyncedUpTo(docs: Store, p: Person, children: nat, spouses: nat, failed: set<ObjectId>): Store
    requires children <= |p.childrenIds| && spouses <= |p.spouseIds|
  {
    map k | k in docs :: if k in failed then docs[k] else Linked(p, k, docs[k], children, spouses)
  }

  /** The store after sync of p when every write succeeds. Updates addressed
      to ids with no document do nothing. */
  function Synced(docs: Store, p: Person): Store {
    SyncedUpTo(docs, p, |p.childrenIds|, |p.spouseIds|, {})
  }

  /** The store after sync of p when the writes addressed to the ids in
      failed fail. Their errors are discarded, so sync still reports success. */
  function SyncedExcept(docs: Store, p: Person, failed: set<ObjectId>): Store {
    SyncedUpTo(docs, p, |p.childrenIds|, |p.spouseIds|, failed)
  }

  /** A failed neighbour write leaves that neighbour as it was; every other
      neighbour is synced as if nothing failed. */
  lemma SyncedExceptFrame(docs: Store, p: Person, failed: set<ObjectId>, k: ObjectId)
    ensures SyncedExcept(docs, p, failed).Keys == docs.Keys
    ensures k in docs && k in failed ==> SyncedExcept(docs, p, failed)[k] == docs[k]
    ensures k in docs && k !in failed ==> SyncedExcept(docs, p, failed)[k] == Synced(docs, p)[k]
    ensures SyncedExcept(docs, p, {}) == Synced(docs, p)
  {
  }

  /** Sync never adds or removes documents and never touches a document that
      p does not name as father, mother, child or spouse. */
  lemma SyncFrame(docs: Store, p: Person, k: ObjectId)
    ensures Synced(docs, p).Keys == docs.Keys
    ensures k in docs && p.fatherId != Some(k) && p.motherId != Some(k) && k !in p.childrenIds && k !in p.spouseIds
      ==> Synced(docs, p)[k] == docs[k]
  {
    assert p.childrenIds[..|p.childrenIds|] == p.childrenIds;
    assert p.spouseIds[..|p.spouseIds|] == p.spouseIds;
  }

  /** The mirrored edges exist after sync: p is a child of its father and
      mother, a spouse of each spouse, and each child points back at p
      through the field its gender selects; other genders change no child. */
  lemma SyncLinks(docs: Store, p: Person, k: ObjectId)
    requires k in docs
    ensures var d, e := docs[k], Synced(docs, p)[k];
      && (p.fatherId == Some(k) || p.motherId == Some(k) ==> p.id in e.childrenIds)
      && (k in p.spouseIds ==> p.id in e.spouseIds)
      && (k in p.childrenIds && p.gender == "male" ==> e.fatherId == Some(p.id) && e.motherId == d.motherId)
      && (k in p.childrenIds && p.gender == "female" ==> e.motherId == Some(p.id) && e.fatherId == d.fatherId)
      && (p.gender != "male" && p.gender != "female" ==> e.fatherId == d.fatherId && e.motherId == d.motherId)
  {
    assert p.childrenIds[..|p.childrenIds|] == p.childrenIds;
    assert p.spouseIds[..|p.spouseIds|] == p.spouseIds;
  }

  /** Sync only adds: every list keeps its old entries as a prefix and
      gains no duplicate, and no list loses an id. */
  lemma SyncOnlyAdds(docs: Store, p: Person, k: ObjectId)
    requires k in docs
    ensures docs[k].childrenIds <= Synced(docs, p)[k].childrenIds
    ensures docs[k].spouseIds <= Synced(docs, p)[k].spouseIds
    ensures NoDup(docs[k].childrenIds) ==> NoDup(Synced(docs, p)[k].childrenIds)
    ensures NoDup(docs[k].spouseIds) ==> NoDup(Synced(docs, p)[k].spouseIds)
    ensures docs[k].fatherId.Some? ==> Synced(docs, p)[k].fatherId.Some?
    ensures docs[k].motherId.Some? ==> Synced(docs, p)[k].motherId.Some?
  {
  }

  /** Running sync twice leaves the same store as running it once. */
  lemma SyncIdempotent(docs: Store, p: Person)
    ensures Synced(Synced(docs, p), p) == Synced(docs, p)
  {
    var once := Synced(docs, p);
    forall k | k in docs ensures Synced(once, p)[k] == once[k] {
      AddToSetIdempotent(docs[k].childrenIds, p.id);
      AddToSetIdempotent(docs[k].spouseIds, p.id);
    }
  }

  // ---- Delete ----

  /** One document k after the unlink steps of deleting p (whose id is id):
      p leaves the children of its father and mother and the spouses of its
      spouses; its children lose the parent field its gender selects. */
  function Unlinked(p: Person, id: ObjectId, k: ObjectId, d: Person): Person {
    d.(childrenIds := if p.fatherId == Some(k) || p.motherId == Some(k) then Pull(d.childrenIds, id) else d.childrenIds,
       spouseIds := if k in p.spouseIds then Pull(d.spouseIds, id) else d.spouseIds,
       fatherId := if k in p.childrenIds && p.gender == "male" then None else d.fatherId,
       motherId := if k in p.childrenIds && p.gender == "female" then None else d.motherId)
  }

  /** The store after a committed delete of the stored person id. */
  function Deleted(docs: Store, id: ObjectId): Store
    requires id in docs
  {
    map k | k in docs && k != id :: Unlinked(docs[id], id, k, docs[k])
  }

  /** After a committed delete: the document is gone, no parent lists it as a
      child, no spouse lists it as a spouse, and its children no longer
      point at it through the field its gender selects. */
  lemma DeleteRemovesEdges(docs: Store, id: ObjectId, k: ObjectId)
    requires id in docs && k in docs && k != id
    ensures id !in Deleted(docs, id)
    ensures k in Deleted(docs, id)
    ensures var p, e := docs[id], Deleted(docs, id)[k];
      && (p.fatherId == Some(k) || p.motherId == Some(k) ==> id !in e.childrenIds)
      && (k in p.spouseIds ==> id !in e.spouseIds)
      && (k in p.childrenIds && p.gender == "male" ==> e.fatherId.None?)
      && (k in p.childrenIds && p.gender == "female" ==> e.motherId.None?)
  {
  }

  /** A delete changes no document outside those the deleted person names
      as father, mother, spouse or child. */
  lemma DeleteFrame(docs: Store, id: ObjectId, k: ObjectId)
    requires id in docs && k in docs && k != id
    requires docs[id].fatherId != Some(k) && docs[id].motherId != Some(k)
    requires k !in docs[id].spouseIds && k !in docs[id].childrenIds
    ensures Deleted(docs, id)[k] == docs[k]
  {
  }

  // ---- Update's "$set" of the whole record ----

  /** "$set" of a whole person under its omitempty tags: name, gender and
      both timestamps are always written; every other field is written only
      when non-empty, so an empty value keeps what is stored. */
  function SetPerson(stored: Person, p: Person): Person
  {
    p.(id := stored.id,
       alias := if p.alias != "" then p.alias else stored.alias,
       nameNormalized := if p.nameNormalized != "" then p.nameNormalized else stored.nameNormalized,
       aliasNormalized := if p.aliasNormalized != "" then p.aliasNormalized else stored.aliasNormalized,
       birthDate := if p.birthDate.Some? then p.birthDate else stored.birthDate,
       birthYearCanChi := if p.birthYearCanChi != "" then p.birthYearCanChi else stored.birthYearCanChi,
       deathDate := if p.deathDate.Some? then p.deathDate else stored.deathDate,
       deathYearCanChi := if p.deathYearCanChi != "" then p.deathYearCanChi else stored.deathYearCanChi,
       imageUrl := if p.imageUrl != "" then p.imageUrl else stored.imageUrl,
       fatherId := if p.fatherId.Some? then p.fatherId else stored.fatherId,
       motherId := if p.motherId.Some? then p.motherId else stored.motherId,
       spouseIds := if |p.spouseIds| > 0 then p.spouseIds else stored.spouseIds,
       childrenIds := if |p.childrenIds| > 0 then p.childrenIds else stored.childrenIds)
  }

  /** Every field of p that is non-empty; the fields the write carries. */
  predicate AllSupplied(p: Person) {
    && p.alias != "" && p.nameNormalized != "" && p.aliasNormalized != ""
    && p.birthDate.Some? && p.birthYearCanChi != "" && p.deathDate.Some? && p.deathYearCanChi != ""
    && p.imageUrl != "" && p.fatherId.Some? && p.motherId.Some? && |p.spouseIds| > 0 && |p.childrenIds| > 0
  }

  /** A record with nothing empty is written exactly; writing the same record again changes nothing. */
  lemma SetPersonWrites(stored: Person, p: Person)
    ensures AllSupplied(p) && p.id == stored.id ==> SetPerson(stored, p) == p
    ensures SetPerson(SetPerson(stored, p), p) == SetPerson(stored, p)
  {
  }

  /** An empty list or a missing parent in the written record never clears
      the stored one: the write can add links but cannot remove them. */
  lemma SetPersonCannotClear(stored: Person, p: Person)
    ensures |p.childrenIds| == 0 ==> SetPerson(stored, p).childrenIds == stored.childrenIds
    ensures |p.spouseIds| == 0 ==> SetPerson(stored, p).spouseIds == stored.spouseIds
    ensures p.fatherId.None? ==> SetPerson(stored, p).fatherId == stored.fatherId
    ensures p.motherId.None? ==> SetPerson(stored, p).motherId == stored.motherId
  {
  }

  // ---- reads ----

  /** The search match: the keyword, normalised, occurs case-insensitively in
      the stored name or in the stored alias (a field that is absent when empty). */
  predicate NameOrAliasMatches(u: Unicode, keyword: string, p: Person) {
    var k := Normalize(u, keyword);
    ContainsFold(u, p.name, k) || (p.alias != "" && ContainsFold(u, p.alias, k))
  }

  /** Newest first: a person created later comes before one created earlier. */
  predicate NewerFirst(a: Person, b: Person) {
    a.createdAt > b.createdAt
  }

  /** The search's sort as an order on persons. */
  function Newer(): (Person, Person) -> bool {
    (a: Person, b: Person) => NewerFirst(a, b)
  }

  lemma NewerFirstIsStrictOrder()
    ensures StrictOrder(Newer())
  {
  }

  /** The store's limit: 0 means none and a negative limit acts as its magnitude. */
  function LimitOf(limit: int): nat {
    if limit < 0 then -limit else limit
  }

  /** The search filter as a predicate on persons. */
  function Matches(u: Unicode, keyword: string): Person -> bool {
    (x: Person) => NameOrAliasMatches(u, keyword, x)
  }

  /** The persons of all whose name or alias matches the keyword, newest first,
      at most |limit| of them (0: all). As many are returned as match, up to
      the limit, and no matching person left out is newer than one returned. */
  function NewestMatching(u: Unicode, keyword: string, limit: int, all: seq<Person>): (r: seq<Person>)
    ensures limit != 0 ==> |r| == (if |Select(all, Matches(u, keyword))| <= LimitOf(limit) then |Select(all, Matches(u, keyword))| else LimitOf(limit))
    ensures limit == 0 ==> multiset(r) == multiset(Select(all, Matches(u, keyword)))
    ensures multiset(r) <= multiset(Select(all, Matches(u, keyword)))
    ensures forall i :: 0 <= i < |r| ==> r[i] in all && NameOrAliasMatches(u, keyword, r[i])
    ensures forall i, j :: 0 <= i < j < |r| ==> r[i].createdAt >= r[j].createdAt
    ensures forall x :: x in all && NameOrAliasMatches(u, keyword, x) && x !in r ==>
              forall i :: 0 <= i < |r| ==> x.createdAt <= r[i].createdAt
  {
    NewerFirstIsStrictOrder();
    NewestMatchingFacts(u, keyword, limit, all);
    SelectSortWindow(all, Matches(u, keyword), Newer(), LimitOf(limit))
  }

  /** SelectSortWindow's contract read for the search's filter and order. */
  lemma NewestMatchingFacts(u: Unicode, keyword: string, limit: int, all: seq<Person>)
    requires StrictOrder(Newer())
    ensures var r := SelectSortWindow(all, Matches(u, keyword), Newer(), LimitOf(limit));
      && (forall i :: 0 <= i < |r| ==> r[i] in all && NameOrAliasMatches(u, keyword, r[i]))
      && (forall i, j :: 0 <= i < j < |r| ==> r[i].createdAt >= r[j].createdAt)
      && (forall x :: x in all && NameOrAliasMatches(u, keyword, x) && x !in r ==>
            forall i :: 0 <= i < |r| ==> x.createdAt <= r[i].createdAt)
  {
    var r := SelectSortWindow(all, Matches(u, keyword), Newer(), LimitOf(limit));
    forall i | 0 <= i < |r| ensures r[i] in all && NameOrAliasMatches(u, keyword, r[i]) {
      assert Matches(u, keyword)(r[i]);
    }
    forall i, j | 0 <= i < j < |r| ensures r[i].createdAt >= r[j].createdAt {
      assert !Newer()(r[j], r[i]);
    }
    forall x | x in all && NameOrAliasMatches(u, keyword, x) && x !in r
      ensures forall i :: 0 <= i < |r| ==> x.createdAt <= r[i].createdAt
    {
      assert Matches(u, keyword)(x);
      forall i | 0 <= i < |r| ensures x.createdAt <= r[i].createdAt {
        assert !Newer()(x, r[i]);
      }
    }
  }

  /** "$pull" keeps a list free of duplicates. */
  lemma {:induction false} PullNoDup(s: seq<ObjectId>, x: ObjectId)
    requires NoDup(s)
    ensures NoDup(Pull(s, x))
  {
    if s != [] {
      var init := s[..|s| - 1];
      assert NoDup(init);
      PullNoDup(init, x);
      var r := Pull(init, x);
      if s[|s| - 1] != x {
        assert s[|s| - 1] !in init;
        assert Pull(s, x) == r + [s[|s| - 1]];
      } else {
        assert Pull(s, x) == r;
      }
    }
  }

  lemma PullIdempotent(s: seq<ObjectId>, x: ObjectId)
    ensures Pull(Pull(s, x), x) == Pull(s, x)
  {
    SelectIdempotent(s, (y: ObjectId) => y != x);
  }

  /** What one visit of a child does: the field the gender selects now names
      p; for any other gender the update document is empty and nothing changes. */
  function ChildUpdate(p: Person, d: Person): Person {
    if p.gender == "male" then d.(fatherId := Some(p.id))
    else if p.gender == "female" then d.(motherId := Some(p.id))
    else d
  }

  /** The parent updates of sync reach the state in which no child and no
      spouse has been visited yet. */
  lemma ParentsStep(docs0: Store, p: Person, failed: set<ObjectId>)
    ensures ParentWrite(ParentWrite(docs0, p.fatherId, p, failed), p.motherId, p, failed) == SyncedUpTo(docs0, p, 0, 0, failed)
  {
    if p.motherId.Some? && p.motherId.value in docs0 {
      AddToSetIdempotent(docs0[p.motherId.value].childrenIds, p.id);
    }
  }

  /** The write to one parent of p: it gains p as a child, unless it is
      absent or its write fails. */
  function ParentWrite(docs: Store, parent: Option<ObjectId>, p: Person, failed: set<ObjectId>): Store {
    if parent.Some? && parent.value in docs && parent.value !in failed then
      docs[parent.value := docs[parent.value].(childrenIds := AddToSet(docs[parent.value].childrenIds, p.id))]
    else docs
  }

  /** Visiting child i of p extends the visited prefix by one. */
  lemma ChildStep(docs0: Store, p: Person, failed: set<ObjectId>, i: nat)
    requires i < |p.childrenIds|
    ensures var docs, c := SyncedUpTo(docs0, p, i, 0, failed), p.childrenIds[i];
      SyncedUpTo(docs0, p, i + 1, 0, failed) == if c in docs && c !in failed then docs[c := ChildUpdate(p, docs[c])] else docs
  {
    var c := p.childrenIds[i];
    assert p.childrenIds[..i + 1] == p.childrenIds[..i] + [c];
  }

  /** Visiting spouse j of p extends the visited prefix by one. */
  lemma SpouseStep(docs0: Store, p: Person, failed: set<ObjectId>, j: nat)
    requires j < |p.spouseIds|
    ensures var docs, s := SyncedUpTo(docs0, p, |p.childrenIds|, j, failed), p.spouseIds[j];
      SyncedUpTo(docs0, p, |p.childrenIds|, j + 1, failed) == if s in docs && s !in failed then docs[s := docs[s].(spouseIds := AddToSet(docs[s].spouseIds, p.id))] else docs
  {
    var s, c := p.spouseIds[j], |p.childrenIds|;
    var docs, next := SyncedUpTo(docs0, p, c, j, failed), SyncedUpTo(docs0, p, c, j + 1, failed);
    var rhs := if s in docs && s !in failed then docs[s := docs[s].(spouseIds := AddToSet(docs[s].spouseIds, p.id))] else docs;
    forall k | k in docs0 ensures next[k] == rhs[k] {
      if k !in failed {
        LinkedSpouseStep(p, k, docs0[k], j);
      }
    }
    assert next.Keys == rhs.Keys;
  }

  /** One neighbour when spouse j is visited: spouse j gains p as a spouse,
      any other neighbour is unchanged. */
  lemma LinkedSpouseStep(p: Person, k: ObjectId, d: Person, j: nat)
    requires j < |p.spouseIds|
    ensures var c := |p.childrenIds|; var e := Linked(p, k, d, c, j);
      Linked(p, k, d, c, j + 1) == if k == p.spouseIds[j] then e.(spouseIds := AddToSet(e.spouseIds, p.id)) else e
  {
    assert p.spouseIds[..j + 1] == p.spouseIds[..j] + [p.spouseIds[j]];
    AddToSetIdempotent(d.spouseIds, p.id);
  }

  /** Part-way sync keeps the documents and their ids. */
  lemma SyncedUpToKeepsIds(docs0: Store, p: Person, children: nat, spouses: nat, failed: set<ObjectId>)
    requires children <= |p.childrenIds| && spouses <= |p.spouseIds|
    ensures SyncedUpTo(docs0, p, children, spouses, failed).Keys == docs0.Keys
    ensures forall k :: k in docs0 ==> SyncedUpTo(docs0, p, children, spouses, failed)[k].id == docs0[k].id
  {
  }

  /** The natural order lists exactly the stored ids, and each document is stored under its own id. */
  ghost predicate Consistent(docs: Store, order: seq<ObjectId>) {
    && NoDup(order)
    && (forall i :: 0 <= i < |order| ==> order[i] in docs)
    && (forall k :: k in docs ==> k in order)
    && (forall k :: k in docs ==> docs[k].id == k)
  }

  lemma SyncedConsistent(docs: Store, order: seq<ObjectId>, p: Person, failed: set<ObjectId>)
    requires Consistent(docs, order)
    ensures Consistent(SyncedExcept(docs, p, failed), order)
  {
    SyncedUpToKeepsIds(docs, p, |p.childrenIds|, |p.spouseIds|, failed);
  }

  /** syncRelationships: mirror p's edges into its neighbours, one update per
      neighbour (father, mother, each child, each spouse); updates to absent
      ids, refused updates and writes to the ids in failed change nothing,
      and their errors are discarded. */
  method SyncStore(docs0: Store, p: Person, failed: set<ObjectId>) returns (store: Store)
    ensures store == SyncedExcept(docs0, p, failed)
  {
    store := docs0;
    if p.fatherId.Some? && p.fatherId.value in store && p.fatherId.value !in failed {
      var f := p.fatherId.value;
      store := store[f := store[f].(childrenIds := AddToSet(store[f].childrenIds, p.id))];
    }
    assert store == ParentWrite(docs0, p.fatherId, p, failed);
    ghost var afterFather := store;
    if p.motherId.Some? && p.motherId.value in store && p.motherId.value !in failed {
      var m := p.motherId.value;
      store := store[m := store[m].(childrenIds := AddToSet(store[m].childrenIds, p.id))];
    }
    assert store == ParentWrite(afterFather, p.motherId, p, failed);
    ParentsStep(docs0, p, failed);
    var i := 0;
    while i < |p.childrenIds|
      invariant 0 <= i <= |p.childrenIds|
      invariant store == SyncedUpTo(docs0, p, i, 0, failed)
    {
      var c := p.childrenIds[i];
      ChildStep(docs0, p, failed, i);
      if c in store && c !in failed {
        store := store[c := ChildUpdate(p, store[c])];
      }
      i := i + 1;
    }
    var j := 0;
    while j < |p.spouseIds|
      invariant 0 <= j <= |p.spouseIds|
      invariant store == SyncedUpTo(docs0, p, |p.childrenIds|, j, failed)
    {
      var s := p.spouseIds[j];
      SpouseStep(docs0, p, failed, j);
      if s in store && s !in failed {
        store := store[s := store[s].(spouseIds := AddToSet(store[s].spouseIds, p.id))];
      }
      j := j + 1;
    }
  }

  /** The store after Update's "$set" of p onto the document stored under
      p's id; when there is none nothing is written and nothing fails. */
  function Written(docs: Store, p: Person): Store {
    if p.id in docs then docs[p.id := SetPerson(docs[p.id], p)] else docs
  }

  lemma SetPersonKeepsId(stored: Person, p: Person)
    ensures SetPerson(stored, p).id == stored.id
  {
  }

  lemma WrittenConsistent(docs: Store, order: seq<ObjectId>, p: Person)
    requires Consistent(docs, order)
    ensures Consistent(Written(docs, p), order)
  {
    if p.id in docs {
      SetPersonKeepsId(docs[p.id], p);
    }
  }

  /** An update never retracts an edge from another person's document: lists
      only grow and parent fields stay set. Dropping an id from the updated
      person's own lists leaves the mirrored edge in place. */
  lemma UpdateNeverRetracts(docs: Store, p: Person, failed: set<ObjectId>, k: ObjectId)
    requires k in docs && k != p.id
    ensures k in SyncedExcept(Written(docs, p), p, failed)
    ensures docs[k].childrenIds <= SyncedExcept(Written(docs, p), p, failed)[k].childrenIds
    ensures docs[k].spouseIds <= SyncedExcept(Written(docs, p), p, failed)[k].spouseIds
    ensures docs[k].fatherId.Some? ==> SyncedExcept(Written(docs, p), p, failed)[k].fatherId.Some?
    ensures docs[k].motherId.Some? ==> SyncedExcept(Written(docs, p), p, failed)[k].motherId.Some?
  {
    var w := Written(docs, p);
    assert w[k] == docs[k];
    SyncedExceptFrame(w, p, failed, k);
    SyncFrame(w, p, k);
    SyncOnlyAdds(w, p, k);
  }

  /** The error the store gives for an update document with no operator in it. */
  const ErrEmptyUpdate := "update document must have at least one element"

  /** Whether the children step of a delete sends an empty update document:
      the person has children but is neither "male" nor "female". */
  predicate EmptyChildUpdate(p: Person) {
    |p.childrenIds| > 0 && p.gender != "male" && p.gender != "female"
  }

  /** The parent step of a delete: p leaves the children of its father and mother. */
  function UnlinkParents(docs: Store, id: ObjectId, p: Person): Store {
    map k | k in docs :: docs[k].(childrenIds :=
      if p.fatherId == Some(k) || p.motherId == Some(k) then Pull(docs[k].childrenIds, id) else docs[k].childrenIds)
  }

  /** The spouse step of a delete, one "$pull" over every listed spouse: p
      leaves their spouse lists. */
  function UnlinkSpouses(docs: Store, id: ObjectId, p: Person): Store {
    map k | k in docs :: if k in p.spouseIds then docs[k].(spouseIds := Pull(docs[k].spouseIds, id)) else docs[k]
  }

  /** The children step of a delete, one update over every listed child: the
      parent field the gender selects is cleared. */
  function UnlinkChildren(docs: Store, p: Person): Store {
    map k | k in docs :: if k in p.childrenIds then ChildUnlink(p, docs[k]) else docs[k]
  }

  /** What the children step does to one child: clear the parent field the
      gender selects; for any other gender nothing. */
  function ChildUnlink(p: Person, d: Person): Person {
    if p.gender == "male" then d.(fatherId := None)
    else if p.gender == "female" then d.(motherId := None)
    else d
  }

  /** The final step of a delete: the document itself is removed. */
  function Without(docs: Store, id: ObjectId): (r: Store)
    ensures r.Keys == docs.Keys - {id}
  {
    map k | k in docs && k != id :: docs[k]
  }

  /** With no spouse (no child) listed, the spouse (children) step changes nothing. */
  lemma UnlinkNoneListed(docs: Store, id: ObjectId, p: Person)
    ensures |p.spouseIds| == 0 ==> UnlinkSpouses(docs, id, p) == docs
    ensures |p.childrenIds| == 0 ==> UnlinkChildren(docs, p) == docs
  {
  }

  /** The two parent updates of a delete, one after the other, reach the parent step. */
  lemma UnlinkParentsStep(docs0: Store, id: ObjectId, work: Store)
    requires id in docs0
    requires work == (var p := docs0[id];
                      var afterFather := if p.fatherId.Some? && p.fatherId.value in docs0 then
                        docs0[p.fatherId.value := docs0[p.fatherId.value].(childrenIds := Pull(docs0[p.fatherId.value].childrenIds, id))]
                      else docs0;
                      if p.motherId.Some? && p.motherId.value in afterFather then
                        afterFather[p.motherId.value := afterFather[p.motherId.value].(childrenIds := Pull(afterFather[p.motherId.value].childrenIds, id))]
                      else afterFather)
    ensures work == UnlinkParents(docs0, id, docs0[id])
  {
    var p := docs0[id];
    var u := UnlinkParents(docs0, id, p);
    assert work.Keys == u.Keys;
    forall k | k in work ensures work[k] == u[k] {
      if p.fatherId == Some(k) && p.motherId == Some(k) {
        PullIdempotent(docs0[k].childrenIds, id);
      }
    }
  }

  /** The steps of a delete, in the order the transaction runs them, give the committed store. */
  lemma UnlinkSteps(docs0: Store, id: ObjectId)
    requires id in docs0
    ensures var p := docs0[id];
      var unlinked := UnlinkChildren(UnlinkSpouses(UnlinkParents(docs0, id, p), id, p), p);
      Deleted(docs0, id) == Without(unlinked, id)
  {
  }

  /** Delete's transaction body on a working copy of the store: unlink the
      parents, the spouses and the children, then remove the document. An
      empty update document for the children aborts the transaction. */
  method UnlinkAndRemove(docs0: Store, id: ObjectId, rejectEmpty: bool) returns (r: Result<Store>)
    requires id in docs0
    ensures r.Failure? <==> rejectEmpty && EmptyChildUpdate(docs0[id])
    ensures r.Success? ==> r.value == Deleted(docs0, id)
  {
    var p := docs0[id];
    var work := docs0;
    if p.fatherId.Some? && p.fatherId.value in work {
      var f := p.fatherId.value;
      work := work[f := work[f].(childrenIds := Pull(work[f].childrenIds, id))];
    }
    if p.motherId.Some? && p.motherId.value in work {
      var m := p.motherId.value;
      work := work[m := work[m].(childrenIds := Pull(work[m].childrenIds, id))];
    }
    UnlinkParentsStep(docs0, id, work);
    if |p.spouseIds| > 0 {
      work := UnlinkSpouses(work, id, p);
    } else {
      UnlinkNoneListed(work, id, p);
    }
    if |p.childrenIds| > 0 {
      if EmptyChildUpdate(p) && rejectEmpty {
        return Failure(ErrEmptyUpdate);
      }
      work := UnlinkChildren(work, p);
    } else {
      UnlinkNoneListed(work, id, p);
    }
    ghost var unlinked := UnlinkChildren(UnlinkSpouses(UnlinkParents(docs0, id, p), id, p), p);
    assert work == unlinked;
    UnlinkSteps(docs0, id);
    work := Without(work, id);
    r := Success(work);
  }

  /** A committed delete keeps the natural order and the ids consistent once
      the id leaves the order. */
  lemma DeletedConsistent(docs: Store, order: seq<ObjectId>, id: ObjectId)
    requires Consistent(docs, order) && id in docs
    ensures Consistent(Deleted(docs, id), Pull(order, id))
  {
    PullNoDup(order, id);
  }

  /** The family view of one person: the person, its father and mother when
      stored, its spouses and its children. */
  datatype FamilyInfo = FamilyInfo(person: Person, father: Option<Person>, mother: Option<Person>,
                                   spouses: seq<Person>, children: seq<Person>)

  /** Which store reads fail, for a family lookup: the person itself, the
      father, the mother, the spouse query and the children query. */
  datatype ReadFaults = ReadFaults(person: bool, father: bool, mother: bool, spouses: bool, children: bool)

  /** Which steps of a delete fail: the initial lookup (or opening the
      session), the store's refusal of an empty update document, and the
      commit of the transaction. */
  datatype DeleteFaults = DeleteFaults(lookupFails: bool, emptyUpdateRejected: bool, commitFails: bool)

  /** A lookup whose error is discarded: an error reads as "absent". */
  function Quiet<T>(r: Result<Option<T>>): Option<T> {
    if r.Success? then r.value else None
  }

  /** The persons collection: documents by id, and the ids in natural (insertion) order. */
  class Repository {
    var docs: Store
    var order: seq<ObjectId>

    ghost predicate Valid()
      reads this
    {
      Consistent(docs, order)
    }

    constructor ()
      ensures Valid() && docs == map[] && order == []
    {
      docs := map[];
      order := [];
    }

    /** Every stored person, in natural order. */
    function All(): (r: seq<Person>)
      reads this
      requires Valid()
      ensures |r| == |order|
      ensures forall i :: 0 <= i < |r| ==> r[i] == docs[order[i]]
      ensures forall k :: k in docs ==> docs[k] in r
      ensures forall x :: x in r ==> x.id in docs && docs[x.id] == x
    {
      var o, d := order, docs;
      var r := seq(|o|, i requires 0 <= i < |o| && o[i] in d => d[o[i]]);
      assert forall k :: k in docs ==> docs[k] in r by {
        forall k | k in docs ensures docs[k] in r {
          var i :| 0 <= i < |order| && order[i] == k;
          assert r[i] == docs[k];
        }
      }
      r
    }

    /** GetByID: the stored person, None when there is none, or the store's error. */
    function GetByID(id: ObjectId, fails: bool): (r: Result<Option<Person>>)
      reads this
      ensures r.Failure? <==> fails
      ensures r.Success? ==> (r.value.Some? <==> id in docs)
      ensures r.Success? && id in docs ==> r.value.value == docs[id]
    {
      if fails then Failure(ErrUnavailable)
      else if id in docs then Success(Some(docs[id]))
      else Success(None)
    }

    /** GetChildren: the persons whose father or mother is the given id, in natural order. */
    function GetChildren(parentId: ObjectId, fails: bool): (r: Result<seq<Person>>)
      reads this
      requires Valid()
      ensures r.Failure? <==> fails
      ensures r.Success? ==> forall x :: x in r.value <==> x in All() && (x.fatherId == Some(parentId) || x.motherId == Some(parentId))
    {
      if fails then Failure(ErrUnavailable)
      else Success(Select(All(), (x: Person) => x.fatherId == Some(parentId) || x.motherId == Some(parentId)))
    }

    /** GetSpouses: the stored persons whose ids the person lists as spouses;
        an error when the person itself is not stored. */
    function GetSpouses(personId: ObjectId, fails: bool): (r: Result<seq<Person>>)
      reads this
      requires Valid()
      ensures r.Failure? <==> fails || personId !in docs
      ensures r.Success? && docs[personId].spouseIds == [] ==> r.value == []
      ensures r.Success? ==> forall x :: x in r.value <==> x in All() && x.id in docs[personId].spouseIds
    {
      if fails then Failure(ErrUnavailable)
      else if personId !in docs then Failure(ErrNoDocuments)
      else if |docs[personId].spouseIds| == 0 then Success([])
      else
        var spouses := docs[personId].spouseIds;
        Success(Select(All(), (x: Person) => x.id in spouses))
    }

    /** GetFamilyInfo: None for an absent person; otherwise the person with its
        parents, spouses and children, where a failed or empty lookup of any
        relative yields an absent parent or an empty list. */
    function GetFamilyInfo(id: ObjectId, f: ReadFaults): (r: Result<Option<FamilyInfo>>)
      reads this
      requires Valid()
      ensures r.Failure? <==> f.person
      ensures r.Success? ==> (r.value.None? <==> id !in docs)
      ensures r.Success? && r.value.Some? ==> var info := r.value.value;
        && info.person == docs[id]
        && (info.father.Some? <==> docs[id].fatherId.Some? && !f.father && docs[id].fatherId.value in docs)
        && (info.father.Some? ==> info.father.value == docs[docs[id].fatherId.value])
        && (info.mother.Some? <==> docs[id].motherId.Some? && !f.mother && docs[id].motherId.value in docs)
        && (info.mother.Some? ==> info.mother.value == docs[docs[id].motherId.value])
        && (f.spouses ==> info.spouses == [])
        && (!f.spouses ==> forall x :: x in info.spouses <==> x in All() && x.id in docs[id].spouseIds)
        && (f.children ==> info.children == [])
        && (!f.children ==> forall x :: x in info.children <==> x in All() && (x.fatherId == Some(id) || x.motherId == Some(id)))
    {
      match GetByID(id, f.person)
      case Failure(e) => Failure(e)
      case Success(None) => Success(None)
      case Success(Some(p)) =>
        var father := if p.fatherId.Some? then Quiet(GetByID(p.fatherId.value, f.father)) else None;
        var mother := if p.motherId.Some? then Quiet(GetByID(p.motherId.value, f.mother)) else None;
        var spouses := match GetSpouses(id, f.spouses) case Success(s) => s case Failure(_) => [];
        var children := match GetChildren(id, f.children) case Success(c) => c case Failure(_) => [];
        Success(Some(FamilyInfo(p, father, mother, spouses, children)))
    }

    /** SearchByNameOrAlias: the stored persons whose name or alias contains
        the normalised keyword, newest first, at most |limit| of them (0: all). */
    function SearchByNameOrAlias(u: Unicode, keyword: string, limit: int, fails: bool): (r: Result<seq<Person>>)
      reads this
      requires Valid()
      ensures r.Failure? <==> fails
      ensures r.Success? && limit != 0 ==> |r.value| <= LimitOf(limit)
      ensures r.Success? ==> forall i :: 0 <= i < |r.value| ==> r.value[i] in All() && NameOrAliasMatches(u, keyword, r.value[i])
      ensures r.Success? ==> forall i, j :: 0 <= i < j < |r.value| ==> r.value[i].createdAt >= r.value[j].createdAt
      ensures r.Success? && limit != 0 ==>
                |r.value| == (if |Select(All(), Matches(u, keyword))| <= LimitOf(limit) then |Select(All(), Matches(u, keyword))| else LimitOf(limit))
      ensures r.Success? && limit == 0 ==> multiset(r.value) == multiset(Select(All(), Matches(u, keyword)))
      ensures r.Success? ==> multiset(r.value) <= multiset(Select(All(), Matches(u, keyword)))
      ensures r.Success? ==> forall x :: x in All() && NameOrAliasMatches(u, keyword, x) && x !in r.value ==>
                forall i :: 0 <= i < |r.value| ==> x.createdAt <= r.value[i].createdAt
    {
      if fails then Failure(ErrUnavailable)
      else
        var all := All();
        var found := NewestMatching(u, keyword, limit, all);
        Success(found)
    }

    /** syncRelationships on the collection: the documents become the synced
        store, with the writes to the ids in syncFails failing; the natural
        order and the ids stay as they were. */
    method SyncRelationships(p: Person, syncFails: set<ObjectId>)
      modifies this
      requires Valid()
      ensures Valid() && order == old(order)
      ensures docs == SyncedExcept(old(docs), p, syncFails)
    {
      var store := SyncStore(docs, p, syncFails);
      SyncedConsistent(docs, order, p, syncFails);
      docs := store;
    }

    /** Create: stamp both timestamps with now and insert. The store assigns
        freshId when the record carries the zero id; an id already stored is
        a duplicate-key error, as is a failed insert, and then nothing
        changes. After the insert the new edges are synced; a failed sync
        write (to an id in syncFails) is not reported. */
    method Create(person: Person, now: int, freshId: ObjectId, insertFails: bool, syncFails: set<ObjectId>) returns (err: Option<string>, created: Person)
      modifies this
      requires Valid()
      ensures Valid()
      ensures created.createdAt == now && created.updatedAt == now
      ensures created == person.(id := created.id, createdAt := now, updatedAt := now)
      ensures err.None? ==> created.id == if IsZero(person.id) then freshId else person.id
      ensures err.Some? <==> insertFails || (if IsZero(person.id) then freshId else person.id) in old(docs)
      ensures err.Some? ==> docs == old(docs) && order == old(order)
      ensures err.None? ==> docs == SyncedExcept(old(docs)[created.id := created], created, syncFails) && order == old(order) + [created.id]
    {
      created := person.(createdAt := now, updatedAt := now);
      var id := if IsZero(person.id) then freshId else person.id;
      if insertFails {
        return Some(ErrUnavailable), created;
      }
      if id in docs {
        return Some("E11000 duplicate key error"), created;
      }
      created := created.(id := id);
      docs := docs[id := created];
      order := order + [id];
      SyncRelationships(created, syncFails);
      err := None;
    }

    /** Update: stamp updatedAt with now, "$set" the record onto the stored
        document with its id (a missing id writes nothing and is no error),
        then sync the record's edges; a failed sync write (to an id in
        syncFails) is not reported. */
    method Update(person: Person, now: int, writeFails: bool, syncFails: set<ObjectId>) returns (err: Option<string>)
      modifies this
      requires Valid()
      ensures Valid() && order == old(order)
      ensures err.Some? <==> writeFails
      ensures err.Some? ==> docs == old(docs)
      ensures err.None? ==> var p := person.(updatedAt := now);
        docs == SyncedExcept(Written(old(docs), p), p, syncFails)
    {
      var p := person.(updatedAt := now);
      if writeFails {
        return Some(ErrUnavailable);
      }
      WrittenConsistent(docs, order, p);
      docs := Written(docs, p);
      SyncRelationships(p, syncFails);
      err := None;
    }

    /** Delete: an absent id is no error and changes nothing; otherwise the
        unlink steps and the removal run in one transaction and either all
        take effect or none does. */
    method Delete(id: ObjectId, f: DeleteFaults) returns (err: Option<string>)
      modifies this
      requires Valid()
      ensures Valid()
      ensures err.Some? <==> f.lookupFails || (id in old(docs) && (f.commitFails || (f.emptyUpdateRejected && EmptyChildUpdate(old(docs)[id]))))
      ensures err.Some? || id !in old(docs) ==> docs == old(docs) && order == old(order)
      ensures err.None? && id in old(docs) ==> docs == Deleted(old(docs), id) && order == Pull(old(order), id)
    {
      if f.lookupFails {
        return Some(ErrUnavailable);
      }
      if id !in docs {
        return None;
      }
      var r := UnlinkAndRemove(docs, id, f.emptyUpdateRejected);
      if r.Failure? {
        return Some(r.error);
      }
      if f.commitFails {
        return Some(ErrUnavailable);
      }
      DeletedConsistent(docs, order, id);
      docs := r.value;
      order := Pull(order, id);
      err := None;
    }
  }
}
