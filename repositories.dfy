/**
 * An in-memory stand-in for a Spring Data JPA repository: a table of
 * entities keyed by a generated id, listed in insertion order.
 */
module Repositories {
  import opened Wrappers

  predicate Distinct(ids: seq<int>) {
    forall i, j :: 0 <= i < j < |ids| ==> ids[i] != ids[j]
  }

  /** The entities stored under `ids`, in that order. */
  function Gather<T>(ids: seq<int>, m: map<int, T>): (r: seq<T>)
    requires forall i :: 0 <= i < |ids| ==> ids[i] in m
    ensures |r| == |ids| && forall i :: 0 <= i < |ids| ==> r[i] == m[ids[i]]
  {
    if ids == [] then [] else [m[ids[0]]] + Gather(ids[1..], m)
  }

  /** Replacing the entity under one listed id replaces it at that id's position, and nowhere else. */
  lemma GatherReplace<T>(ids: seq<int>, m: map<int, T>, i: int, v: T)
    requires forall j :: 0 <= j < |ids| ==> ids[j] in m
    requires Distinct(ids) && 0 <= i < |ids|
    ensures Gather(ids, m[ids[i] := v]) == Gather(ids, m)[i := v]
  {
    var after, before := Gather(ids, m[ids[i] := v]), Gather(ids, m);
    assert forall j :: 0 <= j < |ids| && j != i ==> after[j] == before[j];
  }

  /** Storing a new id at the end lists its entity last, after the others unchanged. */
  lemma GatherAppend<T>(ids: seq<int>, m: map<int, T>, k: int, v: T)
    requires forall j :: 0 <= j < |ids| ==> ids[j] in m
    requires k !in m
    ensures Gather(ids + [k], m[k := v]) == Gather(ids, m) + [v]
  {
    var after, before := Gather(ids + [k], m[k := v]), Gather(ids, m);
    assert forall j :: 0 <= j < |ids| ==> after[j] == before[j];
  }

  /** `ids` without `k`, order kept. */
  function Remove(ids: seq<int>, k: int): (r: seq<int>)
    ensures forall x :: x in r <==> x in ids && x != k
    ensures Distinct(ids) ==> Distinct(r)
  {
    if ids == [] then []
    else if ids[0] == k then Remove(ids[1..], k)
    else
      var rest := Remove(ids[1..], k);
      assert Distinct(ids) ==> ids[0] !in ids[1..] && Distinct(ids[1..]);
      [ids[0]] + rest
  }

  class Repository<T(==,!new)> {
    /** The entity's id field (null before the first save) and a copy with it set. */
    const idOf: T -> Option<int>
    const withId: (T, int) -> T

    /** Stored entities by id, the order they were inserted in, and the next id to hand out. */
    var contents: map<int, T>
    var order: seq<int>
    var nextId: int

    ghost predicate Valid()
      reads this
    {
      && (forall t, k :: idOf(withId(t, k)) == Some(k))
      && (forall k :: k in contents ==> idOf(contents[k]) == Some(k) && k < nextId)
      && (forall i :: 0 <= i < |order| ==> order[i] in contents)
      && (forall k :: k in contents ==> k in order)
      && Distinct(order)
    }

    /** An empty table whose identity column starts at 1. */
    constructor (idOf: T -> Option<int>, withId: (T, int) -> T)
      requires forall t, k :: idOf(withId(t, k)) == Some(k)
      ensures Valid() && this.idOf == idOf && this.withId == withId
      ensures contents == map[] && order == []
    {
      this.idOf, this.withId := idOf, withId;
      contents, order, nextId := map[], [], 1;
    }

    /** `findAll()`: every stored entity once, in insertion order. */
    function FindAll(): (r: seq<T>)
      reads this
      requires Valid()
      ensures |r| == |order| && forall i :: 0 <= i < |r| ==> r[i] == contents[order[i]]
      ensures forall t :: t in r <==> t in contents.Values
    {
      var r := Gather(order, contents);
      forall k | k in contents
        ensures contents[k] in r
      {
        var i :| 0 <= i < |order| && order[i] == k;
        assert r[i] == contents[k];
      }
      r
    }

    /** `findById(id)`. */
    function FindById(id: int): (r: Option<T>)
      reads this
      requires Valid()
      ensures r.Some? <==> id in contents
      ensures r.Some? ==> r.value == contents[id] && idOf(r.value) == Some(id) && r.value in FindAll()
      ensures r.None? ==> forall t :: t in FindAll() ==> idOf(t) != Some(id)
    {
      if id in contents then Some(contents[id])
      else
        assert forall i :: 0 <= i < |order| ==> idOf(FindAll()[i]) == Some(order[i]);
        None
    }

    /**
     * Resolving a nullable id against the table gives `field`: the stored
     * entity when the id is present and known, null otherwise.
     */
    ghost predicate Resolves(id: Option<int>, field: Option<T>)
      reads this
    {
      if id.Some? && id.value in contents then field == Some(contents[id.value]) else field.None?
    }

    /** The row a save of `e` overwrites, if any. */
    ghost predicate Stores(e: T)
      reads this
    {
      idOf(e).Some? && idOf(e).value in contents
    }

    /**
     * `save(e)`: an entity whose id is stored replaces that row in place; any
     * other entity is inserted at the end under the next generated id.
     */
    method Save(e: T) returns (saved: T)
      requires Valid()
      modifies this
      ensures Valid()
      ensures old(Stores(e)) ==>
        && saved == e && contents == old(contents)[idOf(e).value := e]
        && order == old(order) && nextId == old(nextId)
        && forall i :: 0 <= i < |order| && order[i] == idOf(e).value ==> FindAll() == old(FindAll())[i := e]
      ensures !old(Stores(e)) ==>
        && saved == withId(e, old(nextId)) && idOf(saved) == Some(old(nextId))
        && contents == old(contents)[old(nextId) := saved]
        && order == old(order) + [old(nextId)] && nextId == old(nextId) + 1
        && FindAll() == old(FindAll()) + [saved]
    {
      if idOf(e).Some? && idOf(e).value in contents {
        ghost var before := FindAll();
        saved := e;
        contents := contents[idOf(e).value := e];
        forall i | 0 <= i < |order| && order[i] == idOf(e).value
          ensures FindAll() == before[i := e]
        {
          GatherReplace(order, old(contents), i, e);
        }
      } else {
        saved := withId(e, nextId);
        contents := contents[nextId := saved];
        order := order + [nextId];
        nextId := nextId + 1;
        GatherAppend(old(order), old(contents), old(nextId), saved);
      }
    }

    /** `delete(e)`: removes the row holding `e`'s id; an unsaved or unknown entity is ignored. */
    method Delete(e: T)
      requires Valid()
      modifies this
      ensures Valid() && nextId == old(nextId)
      ensures idOf(e).Some? ==>
        contents == old(contents) - {idOf(e).value} && order == Remove(old(order), idOf(e).value)
      ensures idOf(e).None? ==> contents == old(contents) && order == old(order)
    {
      if idOf(e).Some? {
        contents := contents - {idOf(e).value};
        order := Remove(order, idOf(e).value);
        forall i | 0 <= i < |order|
          ensures order[i] in contents
        {
          assert order[i] in order;
        }
      }
    }
  }
}
