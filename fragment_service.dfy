/** The fragment table: its derived queries and the CRUD service over it. */
module Fragments {
  import opened Wrappers
  import opened Model
  import opened Dto
  import opened Repositories
  import FragmentMapper

  /** `findByType(kind)`: the fragments of that kind, in table order. */
  function FindByType(rows: seq<Fragment>, kind: FragmentType): (r: seq<Fragment>)
    ensures forall f :: f in r <==> f in rows && f.kind == Some(kind)
    ensures |r| <= |rows|
  {
    if rows == [] then []
    else (if rows[0].kind == Some(kind) then [rows[0]] else []) + FindByType(rows[1..], kind)
  }

  /**
   * `findByTypeAndRole(kind, role)`: the fragments of that kind whose role is
   * exactly `role`; fragments without a role are not among them.
   */
  function FindByTypeAndRole(rows: seq<Fragment>, kind: FragmentType, role: Role): (r: seq<Fragment>)
    ensures forall f :: f in r <==> f in rows && f.kind == Some(kind) && f.role == Some(role)
    ensures |r| <= |rows|
  {
    if rows == [] then []
    else
      (if rows[0].kind == Some(kind) && rows[0].role == Some(role) then [rows[0]] else [])
      + FindByTypeAndRole(rows[1..], kind, role)
  }

  /**
   * Each fragment of that kind is in the pool as many times as it is in the
   * table, and nothing else is: the query drops rows and never duplicates them.
   */
  lemma {:induction false} FindByTypeCounts(rows: seq<Fragment>, kind: FragmentType)
    ensures forall f :: multiset(FindByType(rows, kind))[f] == if f.kind == Some(kind) then multiset(rows)[f] else 0
  {
    if rows != [] {
      FindByTypeCounts(rows[1..], kind);
      assert rows == [rows[0]] + rows[1..];
    }
  }

  /** The same count for the role-scoped query. */
  lemma {:induction false} FindByTypeAndRoleCounts(rows: seq<Fragment>, kind: FragmentType, role: Role)
    ensures forall f :: multiset(FindByTypeAndRole(rows, kind, role))[f] ==
              if f.kind == Some(kind) && f.role == Some(role) then multiset(rows)[f] else 0
  {
    if rows != [] {
      FindByTypeAndRoleCounts(rows[1..], kind, role);
      assert rows == [rows[0]] + rows[1..];
    }
  }

  /** The role-scoped pool lies inside the pool of its kind, so it is empty whenever that one is. */
  lemma {:induction false} RolePoolWithinKindPool(rows: seq<Fragment>, kind: FragmentType, role: Role)
    ensures |FindByTypeAndRole(rows, kind, role)| <= |FindByType(rows, kind)|
    ensures FindByType(rows, kind) == [] ==> FindByTypeAndRole(rows, kind, role) == []
  {
    if rows != [] {
      RolePoolWithinKindPool(rows[1..], kind, role);
    }
  }

  /**
   * The changes an update request asks for. Type and role arrive already
   * parsed; a field left `None` keeps the stored value.
   */
  datatype FragmentUpdate = FragmentUpdate(
    text: Option<string>,
    kind: Option<FragmentType>,
    role: Option<Role>)

  class FragmentService {
    const repository: Repository<Fragment>

    ghost predicate Valid()
      reads repository
    {
      repository.Valid() && repository.idOf == FragmentId && repository.withId == WithFragmentId
    }

    constructor (repository: Repository<Fragment>)
      requires repository.Valid()
      requires repository.idOf == FragmentId && repository.withId == WithFragmentId
      ensures Valid() && this.repository == repository
    {
      this.repository := repository;
    }

    /** `findById`: the stored fragment with that id, or nothing. */
    function FindById(id: int): (r: Option<Fragment>)
      reads repository
      requires Valid()
      ensures r.Some? ==> r.value in FindAll() && r.value.id == Some(id)
      ensures r.None? ==> forall f :: f in FindAll() ==> f.id != Some(id)
    {
      repository.FindById(id)
    }

    /** `findAll`: every stored fragment. */
    function FindAll(): (r: seq<Fragment>)
      reads repository
      requires Valid()
      ensures forall f :: f in r <==> f in repository.contents.Values
    {
      repository.FindAll()
    }

    /** `create`: stamps the creation time only when it is missing, then saves. */
    method Create(fragment: Fragment, now: Instant) returns (saved: Fragment)
      requires Valid()
      modifies repository
      ensures Valid()
      ensures saved.createdAt == if fragment.createdAt.Some? then fragment.createdAt else Some(now)
      ensures saved.(id := fragment.id, createdAt := fragment.createdAt) == fragment
      ensures saved.id.Some? && repository.contents == old(repository.contents)[saved.id.value := saved]
      ensures fragment.id.Some? && fragment.id.value in old(repository.contents) ==>
        saved.id == fragment.id && repository.order == old(repository.order) && repository.nextId == old(repository.nextId)
      ensures !(fragment.id.Some? && fragment.id.value in old(repository.contents)) ==>
        && saved.id == Some(old(repository.nextId)) && repository.FindAll() == old(repository.FindAll()) + [saved]
        && repository.order == old(repository.order) + [old(repository.nextId)]
        && repository.nextId == old(repository.nextId) + 1
    {
      var f := fragment;
      if f.createdAt.None? {
        f := f.(createdAt := Some(now));
      }
      saved := repository.Save(f);
    }

    /** `createFromDTO`: parses the request, then creates; a bad type or role name throws first. */
    method CreateFromDto(dto: FragmentRequest, now: Instant) returns (r: Result<Fragment, Error>)
      requires Valid()
      modifies repository
      ensures Valid()
      ensures r.Ok? <==> FragmentMapper.ParsableRequest(dto)
      ensures r.Err? ==> FragmentMapper.ToEntity(Some(dto)) == Err(r.error) && unchanged(repository)
      ensures r.Ok? ==>
        && FragmentMapper.ToEntity(Some(dto)) == Ok(Some(r.value.(id := None, createdAt := None)))
        && r.value.createdAt == Some(now)
        && r.value.id == Some(old(repository.nextId))
        && repository.FindAll() == old(repository.FindAll()) + [r.value]
        && repository.nextId == old(repository.nextId) + 1
    {
      var entity := FragmentMapper.ToEntity(Some(dto));
      if entity.Err? {
        return Err(entity.error);
      }
      var saved := Create(entity.value.value, now);
      return Ok(saved);
    }

    /**
     * `updateFromDTO`: overwrites text, type and role where the update gives
     * one, stamps the update time and saves the same record; an unknown id
     * throws and nothing is saved.
     */
    method UpdateFromDto(id: int, update: FragmentUpdate, now: Instant) returns (r: Result<Fragment, Error>)
      requires Valid()
      modifies repository
      ensures Valid()
      ensures r.Err? <==> id !in old(repository.contents)
      ensures r.Err? ==> r.error == EntityNotFound("Fragment", id) && unchanged(repository)
      ensures r.Ok? ==>
        && var before := old(repository.contents[id]);
        && r.value.id == Some(id)
        && r.value.text == (if update.text.Some? then update.text else before.text)
        && r.value.kind == (if update.kind.Some? then update.kind else before.kind)
        && r.value.role == (if update.role.Some? then update.role else before.role)
        && (before.role.Some? ==> r.value.role.Some?)
        && r.value.createdAt == before.createdAt
        && r.value.updatedAt == Some(now)
        && repository.contents == old(repository.contents)[id := r.value]
        && repository.order == old(repository.order) && repository.nextId == old(repository.nextId)
    {
      var found := repository.FindById(id);
      if found.None? {
        return Err(EntityNotFound("Fragment", id));
      }
      var existing := found.value;
      if update.text.Some? {
        existing := existing.(text := update.text);
      }
      if update.kind.Some? {
        existing := existing.(kind := update.kind);
      }
      if update.role.Some? {
        existing := existing.(role := update.role);
      }
      existing := existing.(updatedAt := Some(now));
      var saved := repository.Save(existing);
      return Ok(saved);
    }

    /** `delete`: removes exactly the record with that id; an unknown id throws and removes nothing. */
    method Delete(id: int) returns (r: Result<(), Error>)
      requires Valid()
      modifies repository
      ensures Valid()
      ensures r.Err? <==> id !in old(repository.contents)
      ensures r.Err? ==> r.error == EntityNotFound("Fragment", id) && unchanged(repository)
      ensures r.Ok? ==>
        && repository.contents == old(repository.contents) - {id}
        && repository.order == Remove(old(repository.order), id)
        && repository.nextId == old(repository.nextId)
    {
      var found := repository.FindById(id);
      if found.None? {
        return Err(EntityNotFound("Fragment", id));
      }
      repository.Delete(found.value);
      return Ok(());
    }
  }
}
