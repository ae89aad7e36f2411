/** The law table: its category query and the CRUD service over it. */
module Laws {
  import opened Wrappers
  import opened Model
  import opened Dto
  import opened Repositories
  import LawMapper

  /** The repository query `findByCategory(category)`: the laws filed under exactly that category, in table order. */
  function SelectByCategory(rows: seq<Law>, category: string): (r: seq<Law>)
    ensures forall l :: l in r <==> l in rows && l.category == Some(category)
    ensures |r| <= |rows|
  {
    if rows == [] then []
    else (if rows[0].category == Some(category) then [rows[0]] else []) + SelectByCategory(rows[1..], category)
  }

  /** Each law of that category is listed as many times as it is in the table, and nothing else is. */
  lemma {:induction false} SelectByCategoryCounts(rows: seq<Law>, category: string)
    ensures forall l :: multiset(SelectByCategory(rows, category))[l] ==
              if l.category == Some(category) then multiset(rows)[l] else 0
  {
    if rows != [] {
      SelectByCategoryCounts(rows[1..], category);
      assert rows == [rows[0]] + rows[1..];
    }
  }

  class LawService {
    const repository: Repository<Law>

    ghost predicate Valid()
      reads repository
    {
      repository.Valid() && repository.idOf == LawId && repository.withId == WithLawId
    }

    constructor (repository: Repository<Law>)
      requires repository.Valid()
      requires repository.idOf == LawId && repository.withId == WithLawId
      ensures Valid() && this.repository == repository
    {
      this.repository := repository;
    }

    /** `findById`: the stored law with that id, or nothing. */
    function FindById(id: int): (r: Option<Law>)
      reads repository
      requires Valid()
      ensures r.Some? ==> r.value in FindAll() && r.value.id == Some(id)
      ensures r.None? ==> forall l :: l in FindAll() ==> l.id != Some(id)
    {
      repository.FindById(id)
    }

    /** `findAll`: every stored law. */
    function FindAll(): (r: seq<Law>)
      reads repository
      requires Valid()
      ensures forall l :: l in r <==> l in repository.contents.Values
    {
      repository.FindAll()
    }

    /** `findByCategory`: exactly the stored laws whose category is `category`. */
    function FindByCategory(category: string): (r: seq<Law>)
      reads repository
      requires Valid()
      ensures forall l :: l in r <==>
        l in repository.contents.Values && l.category == Some(category)
    {
      SelectByCategory(repository.FindAll(), category)
    }

    /** `create`: stamps the creation time only when missing, clears the update time, saves. */
    method Create(law: Law, now: Instant) returns (saved: Law)
      requires Valid()
      modifies repository
      ensures Valid()
      ensures saved.createdAt == if law.createdAt.Some? then law.createdAt else Some(now)
      ensures saved.updatedAt.None?
      ensures saved.(id := law.id, createdAt := law.createdAt, updatedAt := law.updatedAt) == law
      ensures saved.id.Some? && repository.contents == old(repository.contents)[saved.id.value := saved]
      ensures law.id.Some? && law.id.value in old(repository.contents) ==>
        saved.id == law.id && repository.order == old(repository.order) && repository.nextId == old(repository.nextId)
      ensures !(law.id.Some? && law.id.value in old(repository.contents)) ==>
        && saved.id == Some(old(repository.nextId)) && repository.FindAll() == old(repository.FindAll()) + [saved]
        && repository.order == old(repository.order) + [old(repository.nextId)]
        && repository.nextId == old(repository.nextId) + 1
    {
      var l := law;
      if l.createdAt.None? {
        l := l.(createdAt := Some(now));
      }
      l := l.(updatedAt := None);
      saved := repository.Save(l);
    }

    /** `createFromDTO`: copies name, description and category into a new law and creates it. */
    method CreateFromDto(dto: LawRequest, now: Instant) returns (saved: Law)
      requires Valid()
      modifies repository
      ensures Valid()
      ensures saved == Law(Some(old(repository.nextId)), dto.name, dto.description, dto.category, Some(now), None)
      ensures repository.FindAll() == old(repository.FindAll()) + [saved]
      ensures repository.nextId == old(repository.nextId) + 1
    {
      saved := Create(LawMapper.ToEntity(dto), now);
    }

    /**
     * `updateFromDTO`: overwrites name, description and category where the
     * request gives one, stamps the update time and saves the same record; an
     * unknown id throws and nothing is saved.
     */
    method UpdateFromDto(id: int, dto: LawRequest, now: Instant) returns (r: Result<Law, Error>)
      requires Valid()
      modifies repository
      ensures Valid()
      ensures r.Err? <==> id !in old(repository.contents)
      ensures r.Err? ==> r.error == EntityNotFound("Law", id) && unchanged(repository)
      ensures r.Ok? ==>
        && var before := old(repository.contents[id]);
        && r.value.id == Some(id)
        && r.value.name == (if dto.name.Some? then dto.name else before.name)
        && r.value.description == (if dto.description.Some? then dto.description else before.description)
        && r.value.category == (if dto.category.Some? then dto.category else before.category)
        && r.value.createdAt == before.createdAt
        && r.value.updatedAt == Some(now)
        && repository.contents == old(repository.contents)[id := r.value]
        && repository.order == old(repository.order) && repository.nextId == old(repository.nextId)
    {
      var found := repository.FindById(id);
      if found.None? {
        return Err(EntityNotFound("Law", id));
      }
      var existing := found.value;
      if dto.name.Some? {
        existing := existing.(name := dto.name);
      }
      if dto.description.Some? {
        existing := existing.(description := dto.description);
      }
      if dto.category.Some? {
        existing := existing.(category := dto.category);
      }
      existing := existing.(updatedAt := Some(now));
      var saved := repository.Save(existing);
      return Ok(saved);
    }

    /** `delete`: removes exactly the law with that id; an unknown id throws and removes nothing. */
    method Delete(id: int) returns (r: Result<(), Error>)
      requires Valid()
      modifies repository
      ensures Valid()
      ensures r.Err? <==> id !in old(repository.contents)
      ensures r.Err? ==> r.error == EntityNotFound("Law", id) && unchanged(repository)
      ensures r.Ok? ==>
        && repository.contents == old(repository.contents) - {id}
        && repository.order == Remove(old(repository.order), id)
        && repository.nextId == old(repository.nextId)
    {
      var found := repository.FindById(id);
      if found.None? {
        return Err(EntityNotFound("Law", id));
      }
      repository.Delete(found.value);
      return Ok(());
    }
  }
}
