/**
 * The excuse generator: random, meme, law, ultra-shark, role-scoped and daily
 * excuses composed from the fragment table, and excuses built by hand from ids.
 */
module Excuses {
  import opened Wrappers
  import opened Model
  import opened Dto
  import opened Repositories
  import opened JavaRandom
  import opened Fragments
  import ExcuseMapper

  /** Position of a kind in the order the four parts are drawn. */
  function Rank(kind: FragmentType): nat {
    match kind
    case Contexto => 0
    case Causa => 1
    case Consecuencia => 2
    case Recomendacion => 3
  }

  /** A drawn fragment together with the generator state after the draw. */
  datatype Pick = Pick(fragment: Fragment, state: int)

  /**
   * `getRandomFragmentWithSeed(kind, rng)` with `rng` in `state`: one `nextInt`
   * over the size of the kind's pool, or an error when the pool is empty (in
   * which case no number is drawn).
   */
  function DrawFragment(rows: seq<Fragment>, kind: FragmentType, state: int): (r: Result<Pick, Error>)
    requires IsState(state)
    ensures r.Err? <==> FindByType(rows, kind) == []
    ensures r.Err? ==> r.error == NoFragmentsAvailable(kind)
    ensures r.Ok? ==>
      && r.value.fragment in FindByType(rows, kind)
      && r.value.fragment.kind == Some(kind)
      && IsState(r.value.state)
  {
    var pool := FindByType(rows, kind);
    if pool == [] then Err(NoFragmentsAvailable(kind))
    else
      var d := DrawInt(state, |pool|);
      Ok(Pick(pool[d.value], d.state))
  }

  /** The outcome of a draw as a pick: the fragment with the generator state after it, or the error. */
  function AsPick(r: Result<Fragment, Error>, state: int): Result<Pick, Error> {
    if r.Ok? then Ok(Pick(r.value, state)) else Err(r.error)
  }

  /** A value drawn with the generator, or none, with the generator state after the draw. */
  datatype Choice<T> = Choice(item: Option<T>, state: int)

  /**
   * `getRandomMeme` and `getRandomLaw` with the generator in `state`: one
   * `nextInt` over the size of a non-empty list picks the item; an empty
   * list gives null and draws nothing.
   */
  function Choose<T>(pool: seq<T>, state: int): (r: Choice<T>)
    requires IsState(state)
    ensures r.item.None? <==> pool == []
    ensures r.item.None? ==> r.state == state
    ensures r.item.Some? ==> r.item.value in pool
    ensures IsState(r.state)
  {
    if pool == [] then Choice(None, state)
    else
      var d := DrawInt(state, |pool|);
      Choice(Some(pool[d.value]), d.state)
  }

  /** The four fragments of a composed excuse. */
  datatype Parts = Parts(context: Fragment, cause: Fragment, consequence: Fragment, recommendation: Fragment)

  /** Every kind has at least one fragment. */
  predicate NoPoolEmpty(rows: seq<Fragment>) {
    && FindByType(rows, Contexto) != [] && FindByType(rows, Causa) != []
    && FindByType(rows, Consecuencia) != [] && FindByType(rows, Recomendacion) != []
  }

  /** `kind` has no fragments, and every kind drawn before it has some. */
  predicate FirstEmptyKind(rows: seq<Fragment>, kind: FragmentType) {
    && FindByType(rows, kind) == []
    && (Rank(kind) > 0 ==> FindByType(rows, Contexto) != [])
    && (Rank(kind) > 1 ==> FindByType(rows, Causa) != [])
    && (Rank(kind) > 2 ==> FindByType(rows, Consecuencia) != [])
  }

  /**
   * The outcome of the four draws: the parts or the first error, and the
   * generator state after the draws that were made (an empty pool stops
   * the sequence before its own draw).
   */
  datatype Drawn = Drawn(parts: Result<Parts, Error>, state: int)

  /** Each part is a fragment of its own kind. */
  predicate InPools(rows: seq<Fragment>, p: Parts) {
    && p.context in FindByType(rows, Contexto)
    && p.cause in FindByType(rows, Causa)
    && p.consequence in FindByType(rows, Consecuencia)
    && p.recommendation in FindByType(rows, Recomendacion)
  }

  /**
   * The four draws of `generateRandom` and `generateDaily`: context, cause,
   * consequence and recommendation in turn, from one generator that starts
   * in `state`. The first kind whose pool is empty stops the sequence.
   */
  function DrawParts(rows: seq<Fragment>, state: int): (r: Drawn)
    requires IsState(state)
    ensures r.parts.Ok? <==> NoPoolEmpty(rows)
    ensures r.parts.Ok? ==> InPools(rows, r.parts.value)
    ensures r.parts.Err? ==> r.parts.error.NoFragmentsAvailable? && FirstEmptyKind(rows, r.parts.error.kind)
    ensures IsState(r.state)
  {
    var context := DrawFragment(rows, Contexto, state);
    if context.Err? then Drawn(Err(context.error), state)
    else
      var cause := DrawFragment(rows, Causa, context.value.state);
      if cause.Err? then Drawn(Err(cause.error), context.value.state)
      else
        var consequence := DrawFragment(rows, Consecuencia, cause.value.state);
        if consequence.Err? then Drawn(Err(consequence.error), cause.value.state)
        else
          var recommendation := DrawFragment(rows, Recomendacion, consequence.value.state);
          if recommendation.Err? then Drawn(Err(recommendation.error), consequence.value.state)
          else
            var parts := Parts(
              context.value.fragment, cause.value.fragment,
              consequence.value.fragment, recommendation.value.fragment);
            Drawn(Ok(parts), recommendation.value.state)
  }

  /**
   * The four parts of the excuse of the day: a generator seeded with the
   * epoch day draws them in turn.
   */
  function DailyParts(rows: seq<Fragment>, epochDay: int): (r: Result<Parts, Error>)
    ensures r.Ok? <==> NoPoolEmpty(rows)
    ensures r.Ok? ==> InPools(rows, r.value)
    ensures r.Err? ==> r.error.NoFragmentsAvailable? && FirstEmptyKind(rows, r.error.kind)
  {
    DrawParts(rows, InitialState(epochDay)).parts
  }

  /** The two tables hold the same fragments of each kind, in the same order. */
  predicate SamePools(rows1: seq<Fragment>, rows2: seq<Fragment>) {
    && FindByType(rows1, Contexto) == FindByType(rows2, Contexto)
    && FindByType(rows1, Causa) == FindByType(rows2, Causa)
    && FindByType(rows1, Consecuencia) == FindByType(rows2, Consecuencia)
    && FindByType(rows1, Recomendacion) == FindByType(rows2, Recomendacion)
  }

  /**
   * The draw is decided by the pools alone: two tables that hold the same
   * fragments of each kind, in the same order, give the same parts or the
   * same error, and leave the generator in the same state, from the same
   * starting state.
   */
  lemma DrawPartsDependsOnlyOnPools(rows1: seq<Fragment>, rows2: seq<Fragment>, state: int)
    requires IsState(state)
    requires SamePools(rows1, rows2)
    ensures DrawParts(rows1, state) == DrawParts(rows2, state)
  {
    var s0 := state;
    assert DrawFragment(rows1, Contexto, s0) == DrawFragment(rows2, Contexto, s0);
    if FindByType(rows1, Contexto) != [] {
      var s1 := DrawFragment(rows1, Contexto, s0).value.state;
      assert DrawFragment(rows1, Causa, s1) == DrawFragment(rows2, Causa, s1);
      if FindByType(rows1, Causa) != [] {
        var s2 := DrawFragment(rows1, Causa, s1).value.state;
        assert DrawFragment(rows1, Consecuencia, s2) == DrawFragment(rows2, Consecuencia, s2);
        if FindByType(rows1, Consecuencia) != [] {
          var s3 := DrawFragment(rows1, Consecuencia, s2).value.state;
          assert DrawFragment(rows1, Recomendacion, s3) == DrawFragment(rows2, Recomendacion, s3);
        }
      }
    }
  }

  /** So the excuse of the day depends on the pools and the day, and on nothing else in the table. */
  lemma DailyDependsOnlyOnPools(rows1: seq<Fragment>, rows2: seq<Fragment>, epochDay: int)
    requires SamePools(rows1, rows2)
    ensures DailyParts(rows1, epochDay) == DailyParts(rows2, epochDay)
  {
    DrawPartsDependsOnlyOnPools(rows1, rows2, InitialState(epochDay));
  }

  /** A pool of one fragment always yields that fragment. */
  lemma DrawFromSingleton(rows: seq<Fragment>, kind: FragmentType, x: Fragment, state: int)
    requires IsState(state) && FindByType(rows, kind) == [x]
    ensures DrawFragment(rows, kind, state) == Ok(Pick(x, Step31(state).state))
  {
    DrawIntOfOne(state);
  }

  /** With exactly one fragment of each kind there is nothing to choose, whatever the generator's state. */
  lemma DrawPartsOfSingletonPools(rows: seq<Fragment>, state: int, a: Fragment, b: Fragment, c: Fragment, d: Fragment)
    requires IsState(state)
    requires FindByType(rows, Contexto) == [a] && FindByType(rows, Causa) == [b]
    requires FindByType(rows, Consecuencia) == [c] && FindByType(rows, Recomendacion) == [d]
    ensures DrawParts(rows, state).parts == Ok(Parts(a, b, c, d))
  {
    DrawFromSingleton(rows, Contexto, a, state);
    var s1 := Step31(state).state;
    DrawFromSingleton(rows, Causa, b, s1);
    var s2 := Step31(s1).state;
    DrawFromSingleton(rows, Consecuencia, c, s2);
    DrawFromSingleton(rows, Recomendacion, d, Step31(s2).state);
  }

  /** In particular every day's excuse is then made of those four fragments. */
  lemma DailyOfSingletonPools(rows: seq<Fragment>, epochDay: int, a: Fragment, b: Fragment, c: Fragment, d: Fragment)
    requires FindByType(rows, Contexto) == [a] && FindByType(rows, Causa) == [b]
    requires FindByType(rows, Consecuencia) == [c] && FindByType(rows, Recomendacion) == [d]
    ensures DailyParts(rows, epochDay) == Ok(Parts(a, b, c, d))
  {
    DrawPartsOfSingletonPools(rows, InitialState(epochDay), a, b, c, d);
  }

  /**
   * `part` is a fragment of `kind` fit for `role`: one of the role's own
   * fragments of that kind when there are any, else any fragment of the kind.
   */
  predicate DrawnForRole(rows: seq<Fragment>, kind: FragmentType, role: Role, part: Fragment) {
    var rolePool := FindByTypeAndRole(rows, kind, role);
    if rolePool != [] then part in rolePool else part in FindByType(rows, kind)
  }

  /**
   * `getRandomFragmentByRole(kind, role)` with the generator in `state`: one
   * `nextInt` over the role's fragments of that kind when there are any, and
   * otherwise the plain draw over the kind's pool.
   */
  function DrawFragmentForRole(rows: seq<Fragment>, kind: FragmentType, role: Role, state: int): (r: Result<Pick, Error>)
    requires IsState(state)
    ensures r.Err? <==> FindByType(rows, kind) == []
    ensures r.Err? ==> r.error == NoFragmentsAvailable(kind)
    ensures r.Ok? ==>
      && DrawnForRole(rows, kind, role, r.value.fragment)
      && r.value.fragment.kind == Some(kind)
      && IsState(r.value.state)
  {
    var rolePool := FindByTypeAndRole(rows, kind, role);
    RolePoolWithinKindPool(rows, kind, role);
    if rolePool != [] then
      var d := DrawInt(state, |rolePool|);
      Ok(Pick(rolePool[d.value], d.state))
    else DrawFragment(rows, kind, state)
  }

  /** Each part is fit for `role` in the sense of `DrawnForRole`. */
  predicate FitForRole(rows: seq<Fragment>, role: Role, p: Parts) {
    && DrawnForRole(rows, Contexto, role, p.context)
    && DrawnForRole(rows, Causa, role, p.cause)
    && DrawnForRole(rows, Consecuencia, role, p.consequence)
    && DrawnForRole(rows, Recomendacion, role, p.recommendation)
  }

  /**
   * The four draws of `generateByRole`: the same sequence as `DrawParts`, each
   * draw preferring the role's own fragments. A role pool is never the reason
   * for a failure: only an empty kind stops the sequence.
   */
  function DrawPartsForRole(rows: seq<Fragment>, role: Role, state: int): (r: Drawn)
    requires IsState(state)
    ensures r.parts.Ok? <==> NoPoolEmpty(rows)
    ensures r.parts.Ok? ==> FitForRole(rows, role, r.parts.value) && InPools(rows, r.parts.value)
    ensures r.parts.Err? ==> r.parts.error.NoFragmentsAvailable? && FirstEmptyKind(rows, r.parts.error.kind)
    ensures IsState(r.state)
  {
    var context := DrawFragmentForRole(rows, Contexto, role, state);
    if context.Err? then Drawn(Err(context.error), state)
    else
      var cause := DrawFragmentForRole(rows, Causa, role, context.value.state);
      if cause.Err? then Drawn(Err(cause.error), context.value.state)
      else
        var consequence := DrawFragmentForRole(rows, Consecuencia, role, cause.value.state);
        if consequence.Err? then Drawn(Err(consequence.error), cause.value.state)
        else
          var recommendation := DrawFragmentForRole(rows, Recomendacion, role, consequence.value.state);
          if recommendation.Err? then Drawn(Err(recommendation.error), consequence.value.state)
          else
            var parts := Parts(
              context.value.fragment, cause.value.fragment,
              consequence.value.fragment, recommendation.value.fragment);
            Drawn(Ok(parts), recommendation.value.state)
  }

  /**
   * A role with no fragments of its own gets exactly the excuse the plain
   * random mode would draw from the same generator state, and leaves the
   * generator where that mode would.
   */
  lemma DrawPartsForRoleFallsBack(rows: seq<Fragment>, role: Role, state: int)
    requires IsState(state)
    requires FindByTypeAndRole(rows, Contexto, role) == [] && FindByTypeAndRole(rows, Causa, role) == []
    requires FindByTypeAndRole(rows, Consecuencia, role) == [] && FindByTypeAndRole(rows, Recomendacion, role) == []
    ensures DrawPartsForRole(rows, role, state) == DrawParts(rows, state)
  {
    var s0 := state;
    assert DrawFragmentForRole(rows, Contexto, role, s0) == DrawFragment(rows, Contexto, s0);
    if FindByType(rows, Contexto) != [] {
      var s1 := DrawFragment(rows, Contexto, s0).value.state;
      assert DrawFragmentForRole(rows, Causa, role, s1) == DrawFragment(rows, Causa, s1);
      if FindByType(rows, Causa) != [] {
        var s2 := DrawFragment(rows, Causa, s1).value.state;
        assert DrawFragmentForRole(rows, Consecuencia, role, s2) == DrawFragment(rows, Consecuencia, s2);
        if FindByType(rows, Consecuencia) != [] {
          var s3 := DrawFragment(rows, Consecuencia, s2).value.state;
          assert DrawFragmentForRole(rows, Recomendacion, role, s3) == DrawFragment(rows, Recomendacion, s3);
        }
      }
    }
  }

  /** The four parts of `e` are exactly `p`. */
  predicate HasParts(e: Excuse, p: Parts) {
    && e.context == Some(p.context) && e.cause == Some(p.cause)
    && e.consequence == Some(p.consequence) && e.recommendation == Some(p.recommendation)
  }

  /**
   * A generated excuse as composed, before any meme or law: type SIMPLE, the
   * given role, seed and creation time, and no meme, law or update time.
   */
  predicate IsFreshSimple(e: Excuse, role: Option<Role>, seed: int, now: Instant) {
    && e.meme.None? && e.law.None?
    && e.excuseType == Some(Simple) && e.role == role
    && e.seed == Some(seed) && e.createdAt == Some(now) && e.updatedAt.None?
  }


  /**
   * The excuse a generation mode builds from its draw, before saving it: the
   * four parts, type SIMPLE, the given role, seed and creation time, and no
   * id, meme, law or update time. A failed draw is the mode's exception.
   */
  function Composed(draw: Result<Parts, Error>, role: Option<Role>, seed: int, now: Instant): (r: Result<Excuse, Error>)
    ensures r.Ok? <==> draw.Ok?
    ensures r.Err? ==> r.error == draw.error
    ensures r.Ok? ==> HasParts(r.value, draw.value) && IsFreshSimple(r.value, role, seed, now) && r.value.id.None?
  {
    if draw.Err? then Err(draw.error)
    else
      var p := draw.value;
      Ok(BlankExcuse.(
        context := Some(p.context), cause := Some(p.cause),
        consequence := Some(p.consequence), recommendation := Some(p.recommendation),
        excuseType := Some(Simple), role := role, seed := Some(seed), createdAt := Some(now)))
  }

  class ExcuseService {
    const excuseRepository: Repository<Excuse>
    const fragmentRepository: Repository<Fragment>
    const memeRepository: Repository<Meme>
    const lawRepository: Repository<Law>
    /** The service's shared generator, used by every mode except the daily one. */
    const random: Random

    ghost predicate Valid()
      reads excuseRepository, fragmentRepository, memeRepository, lawRepository, random
    {
      && excuseRepository.Valid() && excuseRepository.idOf == ExcuseId && excuseRepository.withId == WithExcuseId
      && fragmentRepository.Valid() && fragmentRepository.idOf == FragmentId
      && fragmentRepository.withId == WithFragmentId
      && memeRepository.Valid() && memeRepository.idOf == MemeId && memeRepository.withId == WithMemeId
      && lawRepository.Valid() && lawRepository.idOf == LawId && lawRepository.withId == WithLawId
      && random.Valid()
      && excuseRepository as object != fragmentRepository as object
      && excuseRepository as object != memeRepository as object
      && excuseRepository as object != lawRepository as object
    }

    /** The service over the four tables; `seed` is whatever seeds the shared `new Random()`. */
    constructor (
      excuseRepository: Repository<Excuse>, fragmentRepository: Repository<Fragment>,
      memeRepository: Repository<Meme>, lawRepository: Repository<Law>, seed: int)
      requires excuseRepository.Valid() && excuseRepository.idOf == ExcuseId && excuseRepository.withId == WithExcuseId
      requires fragmentRepository.Valid() && fragmentRepository.idOf == FragmentId
      requires fragmentRepository.withId == WithFragmentId
      requires memeRepository.Valid() && memeRepository.idOf == MemeId && memeRepository.withId == WithMemeId
      requires lawRepository.Valid() && lawRepository.idOf == LawId && lawRepository.withId == WithLawId
      ensures Valid() && fresh(random) && random.state == InitialState(seed)
      ensures this.excuseRepository == excuseRepository && this.fragmentRepository == fragmentRepository
      ensures this.memeRepository == memeRepository && this.lawRepository == lawRepository
    {
      this.excuseRepository := excuseRepository;
      this.fragmentRepository := fragmentRepository;
      this.memeRepository := memeRepository;
      this.lawRepository := lawRepository;
      this.random := new Random(seed);
    }

    /** The fragment table as `findAll` lists it. */
    ghost function Rows(): seq<Fragment>
      reads fragmentRepository
      requires fragmentRepository.Valid()
    {
      fragmentRepository.FindAll()
    }

    /** `findById`: the stored excuse with that id, or nothing. */
    function FindById(id: int): (r: Option<Excuse>)
      reads excuseRepository, fragmentRepository, memeRepository, lawRepository, random
      requires Valid()
      ensures r.Some? ==> r.value in FindAll() && r.value.id == Some(id)
      ensures r.None? ==> forall e :: e in FindAll() ==> e.id != Some(id)
    {
      excuseRepository.FindById(id)
    }

    /** `findAll`: the whole history of excuses, in creation order. */
    function FindAll(): (r: seq<Excuse>)
      reads excuseRepository, fragmentRepository, memeRepository, lawRepository, random
      requires Valid()
      ensures forall e :: e in r <==> e in excuseRepository.contents.Values
    {
      excuseRepository.FindAll()
    }

    /**
     * `getRandomFragmentWithSeed(kind, rng)`: one `nextInt` of `rng` over the
     * kind's pool picks the fragment; an empty pool throws without drawing.
     */
    method GetRandomFragmentWithSeed(kind: FragmentType, rng: Random) returns (r: Result<Fragment, Error>)
      requires fragmentRepository.Valid() && rng.Valid()
      modifies rng
      ensures rng.Valid()
      ensures AsPick(r, rng.state) == DrawFragment(Rows(), kind, old(rng.state))
      ensures r.Err? ==> rng.state == old(rng.state)
    {
      var fragments := FindByType(fragmentRepository.FindAll(), kind);
      if |fragments| == 0 {
        return Err(NoFragmentsAvailable(kind));
      }
      var i := rng.NextInt(|fragments|);
      return Ok(fragments[i]);
    }

    /** `getRandomFragment(kind)`: the same draw, from the shared generator. */
    method GetRandomFragment(kind: FragmentType) returns (r: Result<Fragment, Error>)
      requires fragmentRepository.Valid() && random.Valid()
      modifies random
      ensures random.Valid()
      ensures AsPick(r, random.state) == DrawFragment(Rows(), kind, old(random.state))
      ensures r.Err? ==> random.state == old(random.state)
    {
      r := GetRandomFragmentWithSeed(kind, random);
    }

    /**
     * `getRandomFragmentByRole(kind, role)`: draws from the fragments of that
     * kind and role when there are any, and otherwise falls back to the whole
     * pool of the kind.
     */
    method GetRandomFragmentByRole(kind: FragmentType, role: Role) returns (r: Result<Fragment, Error>)
      requires fragmentRepository.Valid() && random.Valid()
      modifies random
      ensures random.Valid()
      ensures AsPick(r, random.state) == DrawFragmentForRole(Rows(), kind, role, old(random.state))
      ensures r.Err? ==> random.state == old(random.state)
    {
      var roleFragments := FindByTypeAndRole(fragmentRepository.FindAll(), kind, role);
      if |roleFragments| != 0 {
        var i := random.NextInt(|roleFragments|);
        return Ok(roleFragments[i]);
      }
      r := GetRandomFragment(kind);
    }

    /** `getRandomMeme`: a meme drawn from the shared generator, or null when there are none. */
    method GetRandomMeme() returns (m: Option<Meme>)
      requires memeRepository.Valid() && random.Valid()
      modifies random
      ensures random.Valid()
      ensures Choice(m, random.state) == Choose(memeRepository.FindAll(), old(random.state))
      ensures m.None? <==> memeRepository.FindAll() == []
    {
      var memes := memeRepository.FindAll();
      if |memes| == 0 {
        return None;
      }
      var i := random.NextInt(|memes|);
      return Some(memes[i]);
    }

    /** `getRandomLaw`: a law drawn from the shared generator, or null when there are none. */
    method GetRandomLaw() returns (l: Option<Law>)
      requires lawRepository.Valid() && random.Valid()
      modifies random
      ensures random.Valid()
      ensures Choice(l, random.state) == Choose(lawRepository.FindAll(), old(random.state))
      ensures l.None? <==> lawRepository.FindAll() == []
    {
      var laws := lawRepository.FindAll();
      if |laws| == 0 {
        return None;
      }
      var i := random.NextInt(|laws|);
      return Some(laws[i]);
    }

    /**
     * The four draws that `generateRandom` (from the shared generator) and
     * `generateDaily` (from the day's generator) both make: context, cause,
     * consequence and recommendation in turn from `rng`.
     */
    method DrawFourParts(rng: Random) returns (r: Result<Parts, Error>)
      requires fragmentRepository.Valid() && rng.Valid()
      modifies rng
      ensures rng.Valid()
      ensures Drawn(r, rng.state) == DrawParts(Rows(), old(rng.state))
    {
      var context := GetRandomFragmentWithSeed(Contexto, rng);
      if context.Err? {
        return Err(context.error);
      }
      var cause := GetRandomFragmentWithSeed(Causa, rng);
      if cause.Err? {
        return Err(cause.error);
      }
      var consequence := GetRandomFragmentWithSeed(Consecuencia, rng);
      if consequence.Err? {
        return Err(consequence.error);
      }
      var recommendation := GetRandomFragmentWithSeed(Recomendacion, rng);
      if recommendation.Err? {
        return Err(recommendation.error);
      }
      return Ok(Parts(context.value, cause.value, consequence.value, recommendation.value));
    }

    /**
     * The common tail of the generation modes: the drawn parts become a new
     * excuse, saved under the next id; a failed draw is passed on and nothing
     * is saved.
     */
    method SaveComposed(draw: Result<Parts, Error>, role: Option<Role>, seed: int, now: Instant)
      returns (r: Result<Excuse, Error>)
      requires excuseRepository.Valid() && excuseRepository.idOf == ExcuseId && excuseRepository.withId == WithExcuseId
      modifies excuseRepository
      ensures excuseRepository.Valid()
      ensures var built := Composed(draw, role, seed, now);
        && (r.Ok? <==> built.Ok?)
        && (r.Err? ==> r == built && unchanged(excuseRepository))
        && (r.Ok? ==> r.value == built.value.(id := Some(old(excuseRepository.nextId))))
      ensures r.Ok? ==>
        && excuseRepository.order == old(excuseRepository.order) + [old(excuseRepository.nextId)]
        && excuseRepository.FindAll() == old(excuseRepository.FindAll()) + [r.value]
        && excuseRepository.nextId == old(excuseRepository.nextId) + 1
    {
      r := Composed(draw, role, seed, now);
      if r.Ok? {
        var saved := excuseRepository.Save(r.value);
        r := Ok(saved);
      }
    }

    /**
     * `generateRandom`: the four parts drawn from the shared generator, saved
     * as a new SIMPLE excuse whose seed is the clock reading `nanos`. An empty
     * pool throws and nothing is saved.
     */
    method GenerateRandom(nanos: int, now: Instant) returns (r: Result<Excuse, Error>)
      requires Valid()
      modifies excuseRepository, random
      ensures Valid()
      ensures random.state == DrawParts(Rows(), old(random.state)).state
      ensures var built := Composed(DrawParts(Rows(), old(random.state)).parts, None, nanos, now);
        && (r.Ok? <==> built.Ok?)
        && (r.Err? ==> r == built && unchanged(excuseRepository))
        && (r.Ok? ==> r.value == built.value.(id := Some(old(excuseRepository.nextId))))
      ensures r.Ok? ==>
        && excuseRepository.order == old(excuseRepository.order) + [old(excuseRepository.nextId)]
        && excuseRepository.FindAll() == old(excuseRepository.FindAll()) + [r.value]
        && excuseRepository.nextId == old(excuseRepository.nextId) + 1
    {
      var parts := DrawFourParts(random);
      r := SaveComposed(parts, None, nanos, now);
    }

    /**
     * The second `save` of the meme, law and ultra-shark modes: `e` carries
     * the id of the row just generated, listed last after `history`, and
     * replaces it there; nothing else changes.
     */
    method ResaveLast(e: Excuse, ghost history: seq<Excuse>, ghost last: Excuse) returns (saved: Excuse)
      requires excuseRepository.Valid() && excuseRepository.idOf == ExcuseId
      requires |excuseRepository.order| > 0 && e.id == Some(excuseRepository.order[|excuseRepository.order| - 1])
      requires excuseRepository.FindAll() == history + [last]
      modifies excuseRepository
      ensures excuseRepository.Valid() && saved == e
      ensures excuseRepository.order == old(excuseRepository.order)
      ensures excuseRepository.nextId == old(excuseRepository.nextId)
      ensures excuseRepository.FindAll() == history + [e]
    {
      saved := excuseRepository.Save(e);
      assert (history + [last])[|history| := e] == history + [e];
    }

    /** The meme step of `generateWithMeme` on the excuse just generated and saved, listed last after `history`. */
    method AttachMeme(excuse: Excuse, ghost history: seq<Excuse>) returns (saved: Excuse)
      requires excuseRepository.Valid() && excuseRepository.idOf == ExcuseId
      requires memeRepository.Valid() && random.Valid()
      requires excuseRepository as object != memeRepository as object
      requires |excuseRepository.order| > 0 && excuse.id == Some(excuseRepository.order[|excuseRepository.order| - 1])
      requires excuseRepository.FindAll() == history + [excuse]
      requires excuse.meme.None?
      modifies excuseRepository, random
      ensures excuseRepository.Valid() && random.Valid()
      ensures var chosen := Choose(memeRepository.FindAll(), old(random.state));
        saved == excuse.(meme := chosen.item, excuseType := Some(ConMeme)) && random.state == chosen.state
      ensures saved.meme.Some? <==> memeRepository.FindAll() != []
      ensures saved.meme.Some? ==> saved.meme.value in memeRepository.FindAll()
      ensures excuseRepository.FindAll() == history + [saved]
      ensures excuseRepository.nextId == old(excuseRepository.nextId)
    {
      var decorated := excuse;
      var meme := GetRandomMeme();
      if meme.Some? {
        decorated := decorated.(meme := meme);
      }
      decorated := decorated.(excuseType := Some(ConMeme));
      saved := ResaveLast(decorated, history, excuse);
    }

    /**
     * `generateWithMeme`: a random excuse, saved, then given a meme from the
     * shared generator when the meme table has any, typed CON_MEME and saved
     * again over the same row.
     */
    method GenerateWithMeme(nanos: int, now: Instant) returns (r: Result<Excuse, Error>)
      requires Valid()
      modifies excuseRepository, random
      ensures Valid()
      ensures var drawn := DrawParts(Rows(), old(random.state));
        var built := Composed(drawn.parts, None, nanos, now);
        var chosen := Choose(memeRepository.FindAll(), drawn.state);
        && (r.Ok? <==> built.Ok?)
        && (r.Err? ==> r == built && unchanged(excuseRepository) && random.state == drawn.state)
        && (r.Ok? ==>
              && r.value == built.value.(
                   id := Some(old(excuseRepository.nextId)), meme := chosen.item, excuseType := Some(ConMeme))
              && random.state == chosen.state)
      ensures r.Ok? ==>
        && (r.value.meme.Some? <==> memeRepository.FindAll() != [])
        && (r.value.meme.Some? ==> r.value.meme.value in memeRepository.FindAll())
        && excuseRepository.FindAll() == old(excuseRepository.FindAll()) + [r.value]
        && excuseRepository.nextId == old(excuseRepository.nextId) + 1
    {
      ghost var history := excuseRepository.FindAll();
      r := GenerateRandom(nanos, now);
      if r.Err? {
        return;
      }
      var saved := AttachMeme(r.value, history);
      r := Ok(saved);
    }

    /** The law step of `generateWithLaw` on the excuse just generated and saved, listed last after `history`. */
    method AttachLaw(excuse: Excuse, ghost history: seq<Excuse>) returns (saved: Excuse)
      requires excuseRepository.Valid() && excuseRepository.idOf == ExcuseId
      requires lawRepository.Valid() && random.Valid()
      requires excuseRepository as object != lawRepository as object
      requires |excuseRepository.order| > 0 && excuse.id == Some(excuseRepository.order[|excuseRepository.order| - 1])
      requires excuseRepository.FindAll() == history + [excuse]
      requires excuse.law.None?
      modifies excuseRepository, random
      ensures excuseRepository.Valid() && random.Valid()
      ensures var chosen := Choose(lawRepository.FindAll(), old(random.state));
        saved == excuse.(law := chosen.item, excuseType := Some(ConLey)) && random.state == chosen.state
      ensures saved.law.Some? <==> lawRepository.FindAll() != []
      ensures saved.law.Some? ==> saved.law.value in lawRepository.FindAll()
      ensures excuseRepository.FindAll() == history + [saved]
      ensures excuseRepository.nextId == old(excuseRepository.nextId)
    {
      var decorated := excuse;
      var law := GetRandomLaw();
      if law.Some? {
        decorated := decorated.(law := law);
      }
      decorated := decorated.(excuseType := Some(ConLey));
      saved := ResaveLast(decorated, history, excuse);
    }

    /**
     * `generateWithLaw`: a random excuse, saved, then given a law from the
     * shared generator when the law table has any, typed CON_LEY and saved
     * again over the same row.
     */
    method GenerateWithLaw(nanos: int, now: Instant) returns (r: Result<Excuse, Error>)
      requires Valid()
      modifies excuseRepository, random
      ensures Valid()
      ensures var drawn := DrawParts(Rows(), old(random.state));
        var built := Composed(drawn.parts, None, nanos, now);
        var chosen := Choose(lawRepository.FindAll(), drawn.state);
        && (r.Ok? <==> built.Ok?)
        && (r.Err? ==> r == built && unchanged(excuseRepository) && random.state == drawn.state)
        && (r.Ok? ==>
              && r.value == built.value.(
                   id := Some(old(excuseRepository.nextId)), law := chosen.item, excuseType := Some(ConLey))
              && random.state == chosen.state)
      ensures r.Ok? ==>
        && (r.value.law.Some? <==> lawRepository.FindAll() != [])
        && (r.value.law.Some? ==> r.value.law.value in lawRepository.FindAll())
        && excuseRepository.FindAll() == old(excuseRepository.FindAll()) + [r.value]
        && excuseRepository.nextId == old(excuseRepository.nextId) + 1
    {
      ghost var history := excuseRepository.FindAll();
      r := GenerateRandom(nanos, now);
      if r.Err? {
        return;
      }
      var saved := AttachLaw(r.value, history);
      r := Ok(saved);
    }

    /** The meme and law steps of `generateUltraShark` on the excuse just generated and saved, listed last after `history`. */
    method AttachMemeAndLaw(excuse: Excuse, ghost history: seq<Excuse>) returns (saved: Excuse)
      requires excuseRepository.Valid() && excuseRepository.idOf == ExcuseId
      requires memeRepository.Valid() && lawRepository.Valid() && random.Valid()
      requires excuseRepository as object != memeRepository as object
      requires excuseRepository as object != lawRepository as object
      requires |excuseRepository.order| > 0 && excuse.id == Some(excuseRepository.order[|excuseRepository.order| - 1])
      requires excuseRepository.FindAll() == history + [excuse]
      requires excuse.meme.None? && excuse.law.None?
      modifies excuseRepository, random
      ensures excuseRepository.Valid() && random.Valid()
      ensures var meme := Choose(memeRepository.FindAll(), old(random.state));
        var law := Choose(lawRepository.FindAll(), meme.state);
        saved == excuse.(meme := meme.item, law := law.item, excuseType := Some(UltraShark))
        && random.state == law.state
      ensures saved.meme.Some? <==> memeRepository.FindAll() != []
      ensures saved.meme.Some? ==> saved.meme.value in memeRepository.FindAll()
      ensures saved.law.Some? <==> lawRepository.FindAll() != []
      ensures saved.law.Some? ==> saved.law.value in lawRepository.FindAll()
      ensures excuseRepository.FindAll() == history + [saved]
      ensures excuseRepository.nextId == old(excuseRepository.nextId)
    {
      var decorated := excuse;
      var meme := GetRandomMeme();
      if meme.Some? {
        decorated := decorated.(meme := meme);
      }
      var law := GetRandomLaw();
      if law.Some? {
        decorated := decorated.(law := law);
      }
      decorated := decorated.(excuseType := Some(UltraShark));
      saved := ResaveLast(decorated, history, excuse);
    }

    /**
     * `generateUltraShark`: a random excuse, saved, then given a meme and a
     * law (each when its table has any; the meme is drawn first), typed
     * ULTRA_SHARK and saved again over the same row.
     */
    method GenerateUltraShark(nanos: int, now: Instant) returns (r: Result<Excuse, Error>)
      requires Valid()
      modifies excuseRepository, random
      ensures Valid()
      ensures var drawn := DrawParts(Rows(), old(random.state));
        var built := Composed(drawn.parts, None, nanos, now);
        var meme := Choose(memeRepository.FindAll(), drawn.state);
        var law := Choose(lawRepository.FindAll(), meme.state);
        && (r.Ok? <==> built.Ok?)
        && (r.Err? ==> r == built && unchanged(excuseRepository) && random.state == drawn.state)
        && (r.Ok? ==>
              && r.value == built.value.(
                   id := Some(old(excuseRepository.nextId)), meme := meme.item, law := law.item,
                   excuseType := Some(UltraShark))
              && random.state == law.state)
      ensures r.Ok? ==>
        && (r.value.meme.Some? <==> memeRepository.FindAll() != [])
        && (r.value.meme.Some? ==> r.value.meme.value in memeRepository.FindAll())
        && (r.value.law.Some? <==> lawRepository.FindAll() != [])
        && (r.value.law.Some? ==> r.value.law.value in lawRepository.FindAll())
        && excuseRepository.FindAll() == old(excuseRepository.FindAll()) + [r.value]
        && excuseRepository.nextId == old(excuseRepository.nextId) + 1
    {
      ghost var history := excuseRepository.FindAll();
      r := GenerateRandom(nanos, now);
      if r.Err? {
        return;
      }
      var saved := AttachMemeAndLaw(r.value, history);
      r := Ok(saved);
    }

    /** The four role-scoped draws of `generateByRole`, from the shared generator. */
    method DrawFourPartsForRole(role: Role) returns (r: Result<Parts, Error>)
      requires fragmentRepository.Valid() && random.Valid()
      modifies random
      ensures random.Valid()
      ensures Drawn(r, random.state) == DrawPartsForRole(Rows(), role, old(random.state))
    {
      var context := GetRandomFragmentByRole(Contexto, role);
      if context.Err? {
        return Err(context.error);
      }
      var cause := GetRandomFragmentByRole(Causa, role);
      if cause.Err? {
        return Err(cause.error);
      }
      var consequence := GetRandomFragmentByRole(Consecuencia, role);
      if consequence.Err? {
        return Err(consequence.error);
      }
      var recommendation := GetRandomFragmentByRole(Recomendacion, role);
      if recommendation.Err? {
        return Err(recommendation.error);
      }
      return Ok(Parts(context.value, cause.value, consequence.value, recommendation.value));
    }

    /**
     * `generateByRole(token)`: the token, upper-cased, must name a role, or
     * the call fails before anything is drawn. Otherwise the four parts are
     * drawn preferring that role's fragments and saved as a SIMPLE excuse
     * for the role.
     */
    method GenerateByRole(token: string, nanos: int, now: Instant) returns (r: Result<Excuse, Error>)
      requires Valid()
      modifies excuseRepository, random
      ensures Valid()
      ensures ParseRole(token).Err? ==>
        r == Err(InvalidRole(token)) && unchanged(excuseRepository) && unchanged(random)
      ensures ParseRole(token).Ok? ==>
        var role := ParseRole(token).value;
        var drawn := DrawPartsForRole(Rows(), role, old(random.state));
        var built := Composed(drawn.parts, Some(role), nanos, now);
        && random.state == drawn.state
        && (r.Ok? <==> built.Ok?)
        && (r.Err? ==> r == built && unchanged(excuseRepository))
        && (r.Ok? ==> r.value == built.value.(id := Some(old(excuseRepository.nextId))))
      ensures r.Ok? ==>
        && excuseRepository.FindAll() == old(excuseRepository.FindAll()) + [r.value]
        && excuseRepository.nextId == old(excuseRepository.nextId) + 1
    {
      var role := ParseRole(token);
      if role.Err? {
        return Err(InvalidRole(token));
      }
      var parts := DrawFourPartsForRole(role.value);
      r := SaveComposed(parts, Some(role.value), nanos, now);
    }

    /** The four draws of `generateDaily`, from a generator of its own seeded with the epoch day. */
    method DrawDailyParts(epochDay: int) returns (r: Result<Parts, Error>)
      requires fragmentRepository.Valid()
      ensures r == DailyParts(Rows(), epochDay)
    {
      var dailyRandom := new Random(epochDay);
      r := DrawFourParts(dailyRandom);
    }

    /**
     * `generateDaily`: the day's own generator draws the four parts, and the
     * shared generator is not touched. The excuse is saved as SIMPLE with the
     * epoch day as its seed.
     */
    method GenerateDaily(epochDay: int, now: Instant) returns (r: Result<Excuse, Error>)
      requires Valid()
      modifies excuseRepository
      ensures Valid()
      ensures var built := Composed(DailyParts(Rows(), epochDay), None, epochDay, now);
        && (r.Ok? <==> built.Ok?)
        && (r.Err? ==> r == built && unchanged(excuseRepository))
        && (r.Ok? ==> r.value == built.value.(id := Some(old(excuseRepository.nextId))))
      ensures r.Ok? ==>
        && excuseRepository.FindAll() == old(excuseRepository.FindAll()) + [r.value]
        && excuseRepository.nextId == old(excuseRepository.nextId) + 1
    {
      var parts := DrawDailyParts(epochDay);
      r := SaveComposed(parts, None, epochDay, now);
    }

    /**
     * Two daily excuses asked for on the same day: with the fragment table
     * untouched in between, both succeed or fail alike, and they differ only
     * in their id and creation time.
     */
    method GenerateDailyTwice(epochDay: int, now1: Instant, now2: Instant)
      returns (first: Result<Excuse, Error>, second: Result<Excuse, Error>)
      requires Valid()
      modifies excuseRepository
      ensures Valid()
      ensures first.Ok? <==> second.Ok?
      ensures first.Err? ==> first == second
      ensures first.Ok? ==>
        && first.value.seed == Some(epochDay)
        && first.value.(id := None, createdAt := None) == second.value.(id := None, createdAt := None)
    {
      first := GenerateDaily(epochDay, now1);
      second := GenerateDaily(epochDay, now2);
    }

    /** The fragment lookups of `createFromDTO`: each part whose id is given and found is attached. */
    method ResolveFragments(excuse: Excuse, dto: ExcuseRequest) returns (resolved: Excuse)
      requires fragmentRepository.Valid()
      requires excuse.context.None? && excuse.cause.None? && excuse.consequence.None? && excuse.recommendation.None?
      ensures resolved == excuse.(
        context := resolved.context, cause := resolved.cause,
        consequence := resolved.consequence, recommendation := resolved.recommendation)
      ensures fragmentRepository.Resolves(dto.contextId, resolved.context)
      ensures fragmentRepository.Resolves(dto.causeId, resolved.cause)
      ensures fragmentRepository.Resolves(dto.consequenceId, resolved.consequence)
      ensures fragmentRepository.Resolves(dto.recommendationId, resolved.recommendation)
    {
      resolved := excuse;
      if dto.contextId.Some? {
        var found := fragmentRepository.FindById(dto.contextId.value);
        if found.Some? {
          resolved := resolved.(context := found);
        }
      }
      if dto.causeId.Some? {
        var found := fragmentRepository.FindById(dto.causeId.value);
        if found.Some? {
          resolved := resolved.(cause := found);
        }
      }
      if dto.consequenceId.Some? {
        var found := fragmentRepository.FindById(dto.consequenceId.value);
        if found.Some? {
          resolved := resolved.(consequence := found);
        }
      }
      if dto.recommendationId.Some? {
        var found := fragmentRepository.FindById(dto.recommendationId.value);
        if found.Some? {
          resolved := resolved.(recommendation := found);
        }
      }
    }

    /** The meme and law lookups of `createFromDTO`: each given and found id attaches its row. */
    method ResolveMemeAndLaw(excuse: Excuse, dto: ExcuseRequest) returns (resolved: Excuse)
      requires memeRepository.Valid() && lawRepository.Valid()
      requires excuse.meme.None? && excuse.law.None?
      ensures resolved == excuse.(meme := resolved.meme, law := resolved.law)
      ensures memeRepository.Resolves(dto.memeId, resolved.meme)
      ensures lawRepository.Resolves(dto.lawId, resolved.law)
    {
      resolved := excuse;
      if dto.memeId.Some? {
        var found := memeRepository.FindById(dto.memeId.value);
        if found.Some? {
          resolved := resolved.(meme := found);
        }
      }
      if dto.lawId.Some? {
        var found := lawRepository.FindById(dto.lawId.value);
        if found.Some? {
          resolved := resolved.(law := found);
        }
      }
    }

    /**
     * `createFromDTO(dto)`: the request's type and role are parsed by exact
     * name (a bad name throws and nothing is saved); each part whose id is
     * given and found is attached, any other is left null; the seed is the
     * clock reading `nanos`; the excuse is saved as a new row.
     */
    method CreateFromDto(dto: ExcuseRequest, nanos: int, now: Instant) returns (r: Result<Excuse, Error>)
      requires Valid()
      modifies excuseRepository
      ensures Valid()
      ensures r.Ok? <==> ExcuseMapper.ParsableRequest(dto)
      ensures r.Err? ==> ExcuseMapper.ToEntity(Some(dto)) == Err(r.error) && unchanged(excuseRepository)
      ensures r.Ok? ==>
        && fragmentRepository.Resolves(dto.contextId, r.value.context)
        && fragmentRepository.Resolves(dto.causeId, r.value.cause)
        && fragmentRepository.Resolves(dto.consequenceId, r.value.consequence)
        && fragmentRepository.Resolves(dto.recommendationId, r.value.recommendation)
        && memeRepository.Resolves(dto.memeId, r.value.meme)
        && lawRepository.Resolves(dto.lawId, r.value.law)
      ensures r.Ok? ==>
        && r.value.excuseType == (if dto.typeName.None? then Some(Simple) else ExcuseTypeOf(dto.typeName.value))
        && r.value.role == (if dto.roleName.None? then None else RoleOf(dto.roleName.value))
        && r.value.seed == Some(nanos) && r.value.createdAt == Some(now) && r.value.updatedAt.None?
        && r.value.id == Some(old(excuseRepository.nextId))
        && excuseRepository.FindAll() == old(excuseRepository.FindAll()) + [r.value]
        && excuseRepository.nextId == old(excuseRepository.nextId) + 1
    {
      var entity := ExcuseMapper.ToEntity(Some(dto));
      if entity.Err? {
        return Err(entity.error);
      }
      var excuse := ResolveFragments(entity.value.value, dto);
      excuse := ResolveMemeAndLaw(excuse, dto);
      if excuse.excuseType.None? {
        excuse := excuse.(excuseType := Some(Simple));
      }
      if excuse.seed.None? {
        excuse := excuse.(seed := Some(nanos));
      }
      excuse := excuse.(createdAt := Some(now));
      var saved := excuseRepository.Save(excuse);
      r := Ok(saved);
    }
  }
}
