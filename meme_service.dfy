/** The CRUD service over the meme table. */
module Memes {
  import opened Wrappers
  import opened Model
  import opened Dto
  import opened Repositories
  import MemeMapper

  class MemeService {
    const repository: Repository<Meme>

    ghost predicate Valid()
      reads repository
    {
      repository.Valid() && repository.idOf == MemeId && repository.withId == WithMemeId
    }

    constructor (repository: Repository<Meme>)
      requires repository.Valid()
      requires repository.idOf == MemeId && repository.withId == WithMemeId
      ensures Valid() && this.repository == repository
    {
      this.repository := repository;
    }

    /** `findById`: the stored meme with that id, or nothing. */
    function FindById(id: int): (r: Option<Meme>)
      reads repository
      requires Valid()
      ensures r.Some? ==> r.value in FindAll() && r.value.id == Some(id)
      ensures r.None? ==> forall m :: m in FindAll() ==> m.id != Some(id)
    {
      repository.FindById(id)
    }

    /** `findAll`: every stored meme. */
    function FindAll(): (r: seq<Meme>)
      reads repository
      requires Valid()
      ensures forall m :: m in r <==> m in repository.contents.Values
    {
      repository.FindAll()
    }

    /** `create`: stamps the creation time only when missing, clears the update time, saves. */
    method Create(meme: Meme, now: Instant) returns (saved: Meme)
      requires Valid()
      modifies repository
      ensures Valid()
      ensures saved.createdAt == if meme.createdAt.Some? then meme.createdAt else Some(now)
      ensures saved.updatedAt.None?
      ensures saved.(id := meme.id, createdAt := meme.createdAt, updatedAt := meme.updatedAt) == meme
      ensures saved.id.Some? && repository.contents == old(repository.contents)[saved.id.value := saved]
      ensures meme.id.Some? && meme.id.value in old(repository.contents) ==>
        saved.id == meme.id && repository.order == old(repository.order) && repository.nextId == old(repository.nextId)
      ensures !(meme.id.Some? && meme.id.value in old(repository.contents)) ==>
        && saved.id == Some(old(repository.nextId)) && repository.FindAll() == old(repository.FindAll()) + [saved]
        && repository.order == old(repository.order) + [old(repository.nextId)]
        && repository.nextId == old(repository.nextId) + 1
    {
      var m := meme;
      if m.createdAt.None? {
        m := m.(createdAt := Some(now));
      }
      m := m.(updatedAt := None);
      saved := repository.Save(m);
    }

    /** `createFromDTO`: copies author and quote into a new meme and creates it. */
    method CreateFromDto(dto: MemeRequest, now: Instant) returns (saved: Meme)
      requires Valid()
      modifies repository
      ensures Valid()
      ensures saved == Meme(Some(old(repository.nextId)), dto.author, dto.quote, Some(now), None)
      ensures repository.FindAll() == old(repository.FindAll()) + [saved]
      ensures repository.nextId == old(repository.nextId) + 1
    {
      saved := Create(MemeMapper.ToEntity(dto), now);
    }

    /**
     * `updateFromDTO`: overwrites author and quote where the request gives one,
     * stamps the update time and saves the same record; an unknown id throws.
     */
    method UpdateFromDto(id: int, dto: MemeRequest, now: Instant) returns (r: Result<Meme, Error>)
      requires Valid()
      modifies repository
      ensures Valid()
      ensures r.Err? <==> id !in old(repository.contents)
      ensures r.Err? ==> r.error == EntityNotFound("Meme", id) && unchanged(repository)
      ensures r.Ok? ==>
        && var before := old(repository.contents[id]);
        && r.value.id == Some(id)
        && r.value.author == (if dto.author.Some? then dto.author else before.author)
        && r.value.quote == (if dto.quote.Some? then dto.quote else before.quote)
        && r.value.createdAt == before.createdAt
        && r.value.updatedAt == Some(now)
        && repository.contents == old(repository.contents)[id := r.value]
        && repository.order == old(repository.order) && repository.nextId == old(repository.nextId)
    {
      var found := repository.FindById(id);
      if found.None? {
        return Err(EntityNotFound("Meme", id));
      }
      var existing := found.value;
      if dto.author.Some? {
        existing := existing.(author := dto.author);
      }
      if dto.quote.Some? {
        existing := existing.(quote := dto.quote);
      }
      existing := existing.(updatedAt := Some(now));
      var saved := repository.Save(existing);
      return Ok(saved);
    }

    /** `delete`: removes exactly the meme with that id; an unknown id throws and removes nothing. */
    method Delete(id: int) returns (r: Result<(), Error>)
      requires Valid()
      modifies repository
      ensures Valid()
      ensures r.Err? <==> id !in old(repository.contents)
      ensures r.Err? ==> r.error == EntityNotFound("Meme", id) && unchanged(repository)
      ensures r.Ok? ==>
        && repository.contents == old(repository.contents) - {id}
        && repository.order == Remove(old(repository.order), id)
        && repository.nextId == old(repository.nextId)
    {
      var found := repository.FindById(id);
      if found.None? {
        return Err(EntityNotFound("Meme", id));
      }
      repository.Delete(found.value);
      return Ok(());
    }
  }
}
