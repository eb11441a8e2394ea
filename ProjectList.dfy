/**
 * The portfolio record of App.tsx and the pure list transforms its handlers
 * apply to the locally cached project list: prepend on insert, replace by
 * id on update, filter by id on delete, find by id, and the mapping of
 * fetched documents to records on load.
 */
module ProjectList {
  import opened Wrappers

  /** One portfolio entry, as cached in the browser. Timestamps are opaque ISO strings. */
  datatype Project = Project(
    id: string,
    name: string,
    image: string,
    link: string,
    createdAt: string,
    updatedAt: string)

  /** The fields an admin submits to create a record (a Project without id and timestamps). */
  datatype ProjectInput = ProjectInput(name: string, image: string, link: string)

  /** The fields an admin submits to update a record. */
  datatype ProjectPatch = ProjectPatch(id: string, name: string, image: string, link: string)

  /**
   * A document as the record store returns it. A missing timestamp is None;
   * a present one is already converted to its ISO string.
   */
  datatype StoredDoc = StoredDoc(
    id: string,
    name: string,
    image: string,
    link: string,
    createdAt: Option<string>,
    updatedAt: Option<string>)

  function IdSet(ps: seq<Project>): set<string> {
    set p | p in ps :: p.id
  }

  /** No two cached records share an id. */
  predicate IdsUnique(ps: seq<Project>) {
    forall i, j :: 0 <= i < j < |ps| ==> ps[i].id != ps[j].id
  }

  lemma IdSetCons(ps: seq<Project>)
    requires ps != []
    ensures IdSet(ps) == {ps[0].id} + IdSet(ps[1..])
  {
  }

  /** The tail of a unique list is unique and does not hold the head's id. */
  lemma UniqueTail(ps: seq<Project>)
    requires ps != [] && IdsUnique(ps)
    ensures IdsUnique(ps[1..]) && ps[0].id !in IdSet(ps[1..])
  {
  }

  /** The record built locally after a successful insert that was given id `id`. */
  function NewProject(input: ProjectInput, id: string, now: string): (p: Project)
    ensures p.id == id && p.createdAt == now && p.updatedAt == now
    ensures p.name == input.name && p.image == input.image && p.link == input.link
  {
    Project(id, input.name, input.image, input.link, now, now)
  }

  /** Prepending a record whose id is fresh keeps ids unique; old records shift by one. */
  lemma PrependFresh(p: Project, ps: seq<Project>)
    requires IdsUnique(ps) && p.id !in IdSet(ps)
    ensures |[p] + ps| == |ps| + 1
    ensures forall i :: 0 <= i < |ps| ==> ([p] + ps)[i + 1] == ps[i]
    ensures IdsUnique([p] + ps)
    ensures IdSet([p] + ps) == IdSet(ps) + {p.id}
  {
    var r := [p] + ps;
    assert r[1..] == ps;
    IdSetCons(r);
    forall i, j | 0 <= i < j < |r| ensures r[i].id != r[j].id {
      if i == 0 {
        assert r[j] == ps[j - 1];
        assert ps[j - 1] in ps;
      } else {
        assert r[i] == ps[i - 1] && r[j] == ps[j - 1];
      }
    }
  }

  /** `ps.find(p => p.id === id)`: the first record with that id. */
  function FindById(ps: seq<Project>, id: string): (r: Option<Project>)
    ensures r.None? <==> id !in IdSet(ps)
    ensures r.Some? ==> exists i :: 0 <= i < |ps| && ps[i] == r.value && r.value.id == id
                                      && forall j :: 0 <= j < i ==> ps[j].id != id
  {
    if ps == [] then None
    else if ps[0].id == id then Some(ps[0])
    else
      var r := FindById(ps[1..], id);
      assert IdSet(ps) == {ps[0].id} + IdSet(ps[1..]) by {
        assert ps == [ps[0]] + ps[1..];
      }
      if r.Some? then
        ghost var i :| 0 <= i < |ps[1..]| && ps[1..][i] == r.value && r.value.id == id
                       && forall j :: 0 <= j < i ==> ps[1..][j].id != id;
        assert ps[i + 1] == r.value;
        r
      else r
  }

  /** `ps.map(p => p.id === id ? rec : p)` */
  function ReplaceById(ps: seq<Project>, id: string, rec: Project): (r: seq<Project>)
    ensures |r| == |ps|
    ensures forall i :: 0 <= i < |ps| && ps[i].id != id ==> r[i] == ps[i]
    ensures forall i :: 0 <= i < |ps| && ps[i].id == id ==> r[i] == rec
  {
    if ps == [] then []
    else [if ps[0].id == id then rec else ps[0]] + ReplaceById(ps[1..], id, rec)
  }

  /**
   * The record an update puts in the cache: the submitted fields, `created_at`
   * taken from the first cached record with that id (or `now` when there is
   * none or it is empty), and `updated_at` set to `now`.
   */
  function UpdatedProject(patch: ProjectPatch, ps: seq<Project>, now: string): (p: Project)
    ensures p.id == patch.id && p.name == patch.name && p.image == patch.image && p.link == patch.link
    ensures p.updatedAt == now
  {
    var found := FindById(ps, patch.id);
    Project(patch.id, patch.name, patch.image, patch.link,
            if found.Some? && found.value.createdAt != "" then found.value.createdAt else now,
            now)
  }

  /**
   * In a cache with unique ids, updating the record at position `i` puts the
   * submitted fields there and keeps its creation time; every other position
   * is unchanged.
   */
  lemma UpdateAt(ps: seq<Project>, patch: ProjectPatch, now: string, i: nat)
    requires IdsUnique(ps) && i < |ps| && ps[i].id == patch.id
    ensures var r := ReplaceById(ps, patch.id, UpdatedProject(patch, ps, now));
      && |r| == |ps|
      && r[i] == Project(patch.id, patch.name, patch.image, patch.link,
                         if ps[i].createdAt != "" then ps[i].createdAt else now, now)
      && forall j :: 0 <= j < |ps| && j != i ==> r[j] == ps[j]
  {
  }

  /** Replacing under an id that is not cached changes nothing. */
  lemma ReplaceAbsent(ps: seq<Project>, id: string, rec: Project)
    requires id !in IdSet(ps)
    ensures ReplaceById(ps, id, rec) == ps
  {
  }

  /** A replacement carrying the same id keeps every position's id, so ids stay unique. */
  lemma ReplaceKeepsIds(ps: seq<Project>, id: string, rec: Project)
    requires rec.id == id
    ensures forall i :: 0 <= i < |ps| ==> ReplaceById(ps, id, rec)[i].id == ps[i].id
    ensures IdSet(ReplaceById(ps, id, rec)) == IdSet(ps)
    ensures IdsUnique(ps) ==> IdsUnique(ReplaceById(ps, id, rec))
  {
  }

  /** `ps.filter(p => p.id !== id)` */
  function RemoveById(ps: seq<Project>, id: string): (r: seq<Project>)
    ensures |r| <= |ps|
  {
    if ps == [] then []
    else (if ps[0].id == id then [] else [ps[0]]) + RemoveById(ps[1..], id)
  }

  /** Filtering keeps exactly the records with another id. */
  lemma {:induction false} RemoveByIdMembers(ps: seq<Project>, id: string)
    ensures forall p :: p in RemoveById(ps, id) <==> p in ps && p.id != id
  {
    if ps != [] {
      RemoveByIdMembers(ps[1..], id);
      assert ps == [ps[0]] + ps[1..];
    }
  }

  /** Filtering respects concatenation, so relative order is preserved. */
  lemma {:induction false} RemoveByIdAppend(a: seq<Project>, b: seq<Project>, id: string)
    ensures RemoveById(a + b, id) == RemoveById(a, id) + RemoveById(b, id)
  {
    if a == [] {
      assert a + b == b;
    } else {
      var head := if a[0].id == id then [] else [a[0]];
      assert (a + b)[0] == a[0];
      assert (a + b)[1..] == a[1..] + b;
      assert RemoveById(a + b, id) == head + RemoveById(a[1..] + b, id);
      RemoveByIdAppend(a[1..], b, id);
      assert RemoveById(a, id) == head + RemoveById(a[1..], id);
    }
  }

  /** Removing an id that is not cached changes nothing. */
  lemma {:induction false} RemoveAbsent(ps: seq<Project>, id: string)
    requires id !in IdSet(ps)
    ensures RemoveById(ps, id) == ps
  {
    if ps != [] {
      IdSetCons(ps);
      RemoveAbsent(ps[1..], id);
      assert ps == [ps[0]] + ps[1..];
    }
  }

  /** With unique ids, deleting a cached id removes exactly one record and keeps ids unique. */
  lemma {:induction false} RemoveUnique(ps: seq<Project>, id: string)
    requires IdsUnique(ps) && id in IdSet(ps)
    ensures |RemoveById(ps, id)| == |ps| - 1
    ensures IdSet(RemoveById(ps, id)) == IdSet(ps) - {id}
    ensures IdsUnique(RemoveById(ps, id))
  {
    IdSetCons(ps);
    UniqueTail(ps);
    if ps[0].id == id {
      RemoveAbsent(ps[1..], id);
    } else {
      RemoveUnique(ps[1..], id);
      PrependFresh(ps[0], RemoveById(ps[1..], id));
    }
  }

  /** The record built for a fetched document; a missing timestamp falls back to `now`. */
  function FromDoc(d: StoredDoc, now: string): (p: Project)
    ensures p.id == d.id && p.name == d.name && p.image == d.image && p.link == d.link
    ensures p.createdAt == (if d.createdAt.Some? && d.createdAt.value != "" then d.createdAt.value else now)
    ensures p.updatedAt == (if d.updatedAt.Some? && d.updatedAt.value != "" then d.updatedAt.value else now)
  {
    Project(d.id, d.name, d.image, d.link,
            if d.createdAt.Some? && d.createdAt.value != "" then d.createdAt.value else now,
            if d.updatedAt.Some? && d.updatedAt.value != "" then d.updatedAt.value else now)
  }

  /** `snapshot.docs.map(...)`: one record per document, in the store's order. */
  function FromDocs(docs: seq<StoredDoc>, now: string): (r: seq<Project>)
    ensures |r| == |docs|
    ensures forall i :: 0 <= i < |docs| ==> r[i] == FromDoc(docs[i], now)
  {
    if docs == [] then [] else [FromDoc(docs[0], now)] + FromDocs(docs[1..], now)
  }

  /** Documents with distinct ids give a cache with unique ids. */
  lemma FromDocsUnique(docs: seq<StoredDoc>, now: string)
    requires forall i, j :: 0 <= i < j < |docs| ==> docs[i].id != docs[j].id
    ensures IdsUnique(FromDocs(docs, now))
  {
  }
}
