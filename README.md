# Tech-excuse generator — a Dafny model

This project models the service layer of a Spring Boot application that composes "tech excuses". An excuse is built from four text fragments, one per fragment type, in the order:

1. CONTEXTO
2. CAUSA
3. CONSECUENCIA
4. RECOMENDACION

An excuse may also carry a meme, a law, or both, and a role. The generation modes are:

- **random**: the four parts only;
- **with meme / with law / ultra shark**: a meme, a law, or both attached;
- **by role**: role-scoped fragments, with a fallback to the whole pool of the kind;
- **daily**: reproducible, seeded with the epoch day;
- **manual**: built from ids given in a request.

The fragment, meme and law tables have CRUD services. Mappers turn requests into entities and entities into responses.

## Layout

| file | module | contents |
|---|---|---|
| `wrappers.dfy` | `Wrappers` | `Option` (Java `null`) and `Result` (a thrown exception) |
| `model.dfy` | `Model` | entities, enums, `valueOf`/`name()`, ASCII upper-casing, role-token parsing, exception messages |
| `dto.dfy` | `Dto` | request and response records |
| `java_random.dfy` | `JavaRandom` | see below |
| `repositories.dfy` | `Repositories` | see below |
| `fragment_mapper.dfy` | `FragmentMapper` | fragment conversions |
| `excuse_mapper.dfy` | `ExcuseMapper` | excuse conversions |
| `meme_mapper.dfy` | `MemeMapper` | meme conversions |
| `law_mapper.dfy` | `LawMapper` | law conversions |
| `fragment_service.dfy` | `Fragments` | the repository queries `findByType` and `findByTypeAndRole` as filters, and `FragmentService` |
| `meme_service.dfy` | `Memes` | `MemeService` |
| `law_service.dfy` | `Laws` | the repository query `findByCategory` as a filter, and `LawService` |
| `excuse_service.dfy` | `Excuses` | see below |

- **`JavaRandom`** models `java.util.Random`:
  - the seed scramble of the constructor;
  - the 48-bit linear congruence behind `next(31)`;
  - `nextInt(bound)` with its power-of-two branch and its rejection loop.

  The class `Random` holds the state that the methods update in place.
- **`Repositories`**: a generic class `Repository<T>` stands in for a Spring Data JPA table:
  - a map from id to entity;
  - the insertion order;
  - the next identity value.

  It provides `save` (insert, or replace in place), `findById`, `findAll` and `delete`.
- **`Excuses`**: the generation engine.
  - Pure functions state what each mode draws. The four-part draw is `DrawParts`, its role-scoped form is `DrawPartsForRole`, and the daily draw is `DailyParts`.
  - The class `ExcuseService` holds the four tables and the shared generator. Each `generate*` method is proved to save exactly the excuse its function describes, as the next row of the excuse table.

The generator follows the documented algorithm of `java.util.Random`, so the daily property is a plain equation: same day and same pools give the same excuse.

Clock readings (`LocalDateTime.now()`, `System.nanoTime()`, `LocalDate.now().toEpochDay()`) are parameters of the methods that read them. The seed of the shared `new Random()` is a parameter of the `ExcuseService` constructor.

Where the code and its Javadoc disagree, the model follows the code:

- `generateWithMeme` and `generateWithLaw` announce an `IllegalStateException` when no meme or law is available (`service/ExcuseService.java:100`, `:118`). The code attaches nothing and carries on.
- The model's contracts say exactly that: the meme or law is present if and only if its table is non-empty.

## Model

| member | source | states |
|---|---|---|
| Model.FragmentTypeOf | src/main/java/com/ejerciciocopilot/model/FragmentType.java:6-26 | `valueOf`: a constant is returned only when its name is exactly the string (case-sensitive), and nothing when no constant has that name |
| Model.RoleOf | src/main/java/com/ejerciciocopilot/model/Role.java:7-37 | `Role.valueOf`: exact, case-sensitive match against the six role names, none otherwise |
| Model.ExcuseTypeOf | src/main/java/com/ejerciciocopilot/model/ExcuseType.java:6-26 | `ExcuseType.valueOf`: exact match against the four type names, none otherwise |
| Model.NamesRoundTrip | src/main/java/com/ejerciciocopilot/model/Role.java:7-37 | for all three enums, parsing a constant's `name()` gives back that constant |
| Model.ToUpper | src/main/java/com/ejerciciocopilot/service/ExcuseService.java:169 | `toUpperCase()`: same length, and each character upper-cased (ASCII letters) |
| Model.ParseRole | src/main/java/com/ejerciciocopilot/service/ExcuseService.java:168-173 | a token is accepted iff its upper-cased form is some role's name, which is then the result; otherwise the error is the invalid-role exception quoting the token as given |
| Model.UpperOfLowerRestores | src/main/java/com/ejerciciocopilot/service/ExcuseService.java:169 | a string with no lower-case letters is fixed by upper-casing, also after lower-casing it |
| Model.ParseRoleIgnoresCase | src/main/java/com/ejerciciocopilot/service/ExcuseService.java:168-173 | every role is accepted by its name both as written and in lower case |
| Model.ParseRoleDependsOnlyOnUpperCase | src/main/java/com/ejerciciocopilot/service/ExcuseService.java:168-173 | two tokens that upper-case alike are both accepted or both rejected, and accepted ones give the same role |
| Model.DecimalString | src/main/java/com/ejerciciocopilot/service/FragmentService.java:104 | `Long.toString` of an id: non-empty, all digits for a non-negative number, a minus sign then digits for a negative one |
| Model.DecimalStringRoundTrip | src/main/java/com/ejerciciocopilot/service/FragmentService.java:104 | reading the decimal text of any number back gives that number |
| Model.DecimalStringInjective | src/main/java/com/ejerciciocopilot/service/FragmentService.java:104 | distinct numbers have distinct decimal texts |
| Model.InvalidRoleMessageQuotesToken | src/main/java/com/ejerciciocopilot/service/ExcuseService.java:171-172 | the invalid-role message quotes the token as given: two tokens with the same message are the same token |
| Model.NotFoundMessageNamesId | src/main/java/com/ejerciciocopilot/service/FragmentService.java:103-104 | the not-found message names the id: for one entity, two ids with the same message are the same id |
| Model.Message | src/main/java/com/ejerciciocopilot/service/ExcuseService.java:171-172 | each exception's message names its subject at its head: the missing kind, the rejected token, the entity with its id in decimal; a null enum name gives "Name is null" |
| JavaRandom.InitialState | src/main/java/com/ejerciciocopilot/service/ExcuseService.java:201 | `new Random(seed)`: the scrambled seed is a valid 48-bit state |
| JavaRandom.DrawInt | src/main/java/com/ejerciciocopilot/service/ExcuseService.java:276 | `nextInt(bound)` from a state: a value in `[0, bound)` and a valid next state |
| JavaRandom.DrawIntOfOne | src/main/java/com/ejerciciocopilot/service/ExcuseService.java:276 | `nextInt(1)` is always 0, whatever the state |
| JavaRandom.Random.constructor | src/main/java/com/ejerciciocopilot/service/ExcuseService.java:201 | a generator seeded with `seed` starts in the scrambled state of that seed |
| JavaRandom.Random.NextInt | src/main/java/com/ejerciciocopilot/service/ExcuseService.java:276 | the in-place `nextInt`, loop included, returns a value in `[0, bound)` and leaves exactly the state `DrawInt` describes |
| Repositories.Repository.FindAll | src/main/java/com/ejerciciocopilot/repository/ExcuseRepository.java:16 | `findAll`: one entry per stored row, the i-th being the row under the i-th id in insertion order; an entity is listed iff it is stored |
| Repositories.Repository.FindById | src/main/java/com/ejerciciocopilot/repository/ExcuseRepository.java:16 | `findById`: present iff the id is stored, and then the row under that id, carrying that id and listed by `findAll`; when absent, no listed row carries the id |
| Repositories.Repository.Save | src/main/java/com/ejerciciocopilot/repository/ExcuseRepository.java:16 | `save`: an entity whose id is stored replaces that row at the same position of `findAll`, and nothing else changes; any other entity gets the next id and is listed last |
| Repositories.Repository.Delete | src/main/java/com/ejerciciocopilot/repository/ExcuseRepository.java:16 | `delete`: removes exactly the row of the entity's id, keeping the order of the rest; an entity without id changes nothing |
| Fragments.FindByType | src/main/java/com/ejerciciocopilot/repository/FragmentRepository.java:24 | a fragment is in `findByType(kind)` iff it is in the table and has that kind |
| Fragments.FindByTypeAndRole | src/main/java/com/ejerciciocopilot/repository/FragmentRepository.java:33 | a fragment is in `findByTypeAndRole(kind, role)` iff it is in the table with that kind and exactly that role; role-less fragments are excluded |
| Fragments.FindByTypeCounts | src/main/java/com/ejerciciocopilot/repository/FragmentRepository.java:24 | each fragment of the kind occurs in `findByType` exactly as often as in the table, and no other fragment occurs |
| Fragments.FindByTypeAndRoleCounts | src/main/java/com/ejerciciocopilot/repository/FragmentRepository.java:33 | each fragment of the kind and role occurs in `findByTypeAndRole` exactly as often as in the table, and no other fragment occurs |
| Fragments.RolePoolWithinKindPool | src/main/java/com/ejerciciocopilot/service/ExcuseService.java:288-297 | the role-scoped pool is never larger than the kind's pool, so an empty kind pool means an empty role pool |
| Fragments.FragmentService.FindById | src/main/java/com/ejerciciocopilot/service/FragmentService.java:40-42 | the stored fragment with that id, or none when no stored fragment has it |
| Fragments.FragmentService.FindAll | src/main/java/com/ejerciciocopilot/service/FragmentService.java:49-51 | exactly the stored fragments |
| Fragments.FragmentService.Create | src/main/java/com/ejerciciocopilot/service/FragmentService.java:60-65 | the creation time is set only when missing and kept otherwise; nothing else of the fragment changes but its id; the table gains or replaces exactly that row; a replaced row keeps its place and the next id, a new one is listed last and advances the next id |
| Fragments.FragmentService.CreateFromDto | src/main/java/com/ejerciciocopilot/service/FragmentService.java:74-77 | fails iff the type or role name does not parse (table unchanged); otherwise saves the mapped fragment as the next row with the creation time; on success the next id advances by one, so consecutive calls get consecutive ids |
| Fragments.FragmentService.UpdateFromDto | src/main/java/com/ejerciciocopilot/service/FragmentService.java:88-105 | an unknown id fails with not-found and changes nothing. Otherwise only the given text, type and role overwrite; a stored role is never cleared. The creation time is kept, the update time is set, the same id is rewritten in place, and no other row changes; the order and the next id are kept |
| Fragments.FragmentService.Delete | src/main/java/com/ejerciciocopilot/service/FragmentService.java:113-118 | an unknown id fails with not-found and removes nothing; otherwise exactly that row goes, the others keep their order and the next id is kept |
| Memes.MemeService.FindById | src/main/java/com/ejerciciocopilot/service/MemeService.java:40-42 | the stored meme with that id, or none |
| Memes.MemeService.FindAll | src/main/java/com/ejerciciocopilot/service/MemeService.java:49-51 | exactly the stored memes |
| Memes.MemeService.Create | src/main/java/com/ejerciciocopilot/service/MemeService.java:60-66 | the creation time is set only when missing; the update time is always cleared; author and quote are kept; the table gains or replaces exactly that row; a replaced row keeps its place and the next id, a new one is listed last and advances the next id |
| Memes.MemeService.CreateFromDto | src/main/java/com/ejerciciocopilot/service/MemeService.java:75-78 | the new meme carries the request's author and quote, the next id and the creation time, and is listed last; on success the next id advances by one, so consecutive calls get consecutive ids |
| Memes.MemeService.UpdateFromDto | src/main/java/com/ejerciciocopilot/service/MemeService.java:89-103 | an unknown id fails with not-found and changes nothing; otherwise only the given author and quote overwrite, the update time is set, and only that row changes; the order and the next id are kept |
| Memes.MemeService.Delete | src/main/java/com/ejerciciocopilot/service/MemeService.java:111-116 | an unknown id fails and removes nothing; otherwise exactly that meme goes, the others keep their order and the next id is kept |
| Laws.SelectByCategory | src/main/java/com/ejerciciocopilot/repository/LawRepository.java:22 | a law is selected iff it is in the table and its category equals the given one |
| Laws.SelectByCategoryCounts | src/main/java/com/ejerciciocopilot/repository/LawRepository.java:22 | each law of the category occurs in `findByCategory` exactly as often as in the table, and no other law occurs |
| Laws.LawService.FindById | src/main/java/com/ejerciciocopilot/service/LawService.java:40-42 | the stored law with that id, or none |
| Laws.LawService.FindAll | src/main/java/com/ejerciciocopilot/service/LawService.java:49-51 | exactly the stored laws |
| Laws.LawService.FindByCategory | src/main/java/com/ejerciciocopilot/service/LawService.java:59-61 | exactly the stored laws whose category is the given one |
| Laws.LawService.Create | src/main/java/com/ejerciciocopilot/service/LawService.java:70-76 | the creation time is set only when missing; the update time is cleared; the other fields are kept; the table gains or replaces exactly that row; a replaced row keeps its place and the next id, a new one is listed last and advances the next id |
| Laws.LawService.CreateFromDto | src/main/java/com/ejerciciocopilot/service/LawService.java:85-88 | the new law carries the request's name, description and category, the next id and the creation time, and is listed last; on success the next id advances by one, so consecutive calls get consecutive ids |
| Laws.LawService.UpdateFromDto | src/main/java/com/ejerciciocopilot/service/LawService.java:99-116 | an unknown id fails with not-found and changes nothing; otherwise only the given name, description and category overwrite, the update time is set, and only that row changes; the order and the next id are kept |
| Laws.LawService.Delete | src/main/java/com/ejerciciocopilot/service/LawService.java:124-129 | an unknown id fails and removes nothing; otherwise exactly that law goes, the others keep their order and the next id is kept |
| FragmentMapper.ToEntity | src/main/java/com/ejerciciocopilot/mapper/FragmentMapper.java:12-19 | null maps to null. A request succeeds iff its type is present and a valid name and its role, when present, is a valid name. The text is copied, and id and timestamps are unset. Otherwise the error is the exception of the first failing `valueOf` |
| FragmentMapper.RoleNameOf | src/main/java/com/ejerciciocopilot/mapper/FragmentMapper.java:27 | a role's name, null kept, that parses back to the same role |
| FragmentMapper.ToResponse | src/main/java/com/ejerciciocopilot/mapper/FragmentMapper.java:21-31 | null maps to null; id, text and timestamps are copied; type and role become names that parse back to the same constants, null kept |
| FragmentMapper.RequestRoundTrip | src/main/java/com/ejerciciocopilot/mapper/FragmentMapper.java:12-31 | a valid request, mapped to an entity and back, returns with the same type, text and role, and no id or timestamps |
| FragmentMapper.ResponseRoundTrip | src/main/java/com/ejerciciocopilot/mapper/FragmentMapper.java:12-31 | a typed fragment rendered as a response and read back as a request loses only its id and timestamps |
| ExcuseMapper.ToEntity | src/main/java/com/ejerciciocopilot/mapper/ExcuseMapper.java:13-19 | null maps to null. The type defaults to SIMPLE and is otherwise parsed by exact name. The role is null or parsed by exact name. Nothing else is set. A bad name fails with the exception of the first failing `valueOf`, the type being parsed first |
| ExcuseMapper.TypeNameOf | src/main/java/com/ejerciciocopilot/mapper/ExcuseMapper.java:31 | a type's name, null kept, that parses back to the same type |
| ExcuseMapper.ToResponse | src/main/java/com/ejerciciocopilot/mapper/ExcuseMapper.java:21-37 | null maps to null; id, seed and timestamps are copied; each part goes through its own mapper; type and role become names that parse back, null kept |
| ExcuseMapper.ToSummary | src/main/java/com/ejerciciocopilot/mapper/ExcuseMapper.java:39-47 | null maps to null; otherwise id, type, role and seed equal those of the full response |
| ExcuseMapper.RequestTypeRoundTrip | src/main/java/com/ejerciciocopilot/mapper/ExcuseMapper.java:13-37 | for a valid request, the response's type is the request's type, or "SIMPLE" when absent, and its role is the request's role |
| Excuses.DrawFragment | src/main/java/com/ejerciciocopilot/service/ExcuseService.java:308-315 | fails iff the kind's pool is empty, with the no-fragments error naming the kind; otherwise the pick is in the pool, of that kind, and the generator state stays valid |
| Excuses.DrawParts | src/main/java/com/ejerciciocopilot/service/ExcuseService.java:82-92 | the four draws succeed iff no pool is empty; each part is in its own kind's pool; on failure the error names the first empty kind in draw order. The outcome also carries the generator state after the draws made, which stops before the empty kind's draw |
| Excuses.DailyParts | src/main/java/com/ejerciciocopilot/service/ExcuseService.java:200-207 | the day's draw from `new Random(epochDay)` succeeds iff no pool is empty, each part in its own kind's pool; a failure names the first empty kind |
| Excuses.DrawPartsDependsOnlyOnPools | src/main/java/com/ejerciciocopilot/service/ExcuseService.java:82-92 | tables with the same pools, kind by kind, give the same parts or error and leave the generator in the same state, from the same start |
| Excuses.DailyDependsOnlyOnPools | src/main/java/com/ejerciciocopilot/service/ExcuseService.java:199-213 | the day's excuse depends only on the pools and the day |
| Excuses.DrawFromSingleton | src/main/java/com/ejerciciocopilot/service/ExcuseService.java:308-315 | a one-fragment pool always yields that fragment |
| Excuses.DrawPartsOfSingletonPools | src/main/java/com/ejerciciocopilot/service/ExcuseService.java:82-92 | with one fragment per kind, the draw is those four, from any state |
| Excuses.DailyOfSingletonPools | src/main/java/com/ejerciciocopilot/service/ExcuseService.java:199-213 | with one fragment per kind, every day's excuse is made of those four |
| Excuses.DrawFragmentForRole | src/main/java/com/ejerciciocopilot/service/ExcuseService.java:288-297 | fails iff the kind's whole pool is empty. Otherwise the pick is of that kind: from the role's own fragments when there are any, else from the whole pool of the kind |
| Excuses.DrawPartsForRole | src/main/java/com/ejerciciocopilot/service/ExcuseService.java:175-182 | succeeds iff no kind pool is empty, whatever the role pools. Each part is fit for the role and in its kind's pool. A failure names the first empty kind. The generator state after the draws made is part of the outcome |
| Excuses.DrawPartsForRoleFallsBack | src/main/java/com/ejerciciocopilot/service/ExcuseService.java:288-297 | a role without fragments of its own gets exactly the plain random draw from the same state, and the generator ends where the plain draw leaves it |
| Excuses.Choose | src/main/java/com/ejerciciocopilot/service/ExcuseService.java:324-330 | the item is null iff the list is empty, and then nothing is drawn and the state is kept; otherwise it is a member of the list and the new state is valid |
| Excuses.Composed | src/main/java/com/ejerciciocopilot/service/ExcuseService.java:83-90 | an excuse is built iff the draw succeeded. It holds the four drawn parts, is typed SIMPLE, and carries the role, seed and creation time given. It has no id, meme, law or update time. A failed draw's error passes through |
| Excuses.ExcuseService.constructor | src/main/java/com/ejerciciocopilot/service/ExcuseService.java:43-51 | the service holds the four tables and a fresh generator seeded with the given seed |
| Excuses.ExcuseService.FindById | src/main/java/com/ejerciciocopilot/service/ExcuseService.java:60-62 | a stored excuse with that id, or none when no stored excuse has it |
| Excuses.ExcuseService.FindAll | src/main/java/com/ejerciciocopilot/service/ExcuseService.java:69-71 | exactly the stored excuses |
| Excuses.ExcuseService.GetRandomFragmentWithSeed | src/main/java/com/ejerciciocopilot/service/ExcuseService.java:308-315 | the fragment and the generator's new state are those of `DrawFragment`; an empty pool fails without drawing |
| Excuses.ExcuseService.GetRandomFragment | src/main/java/com/ejerciciocopilot/service/ExcuseService.java:270-277 | the same, with the shared generator |
| Excuses.ExcuseService.GetRandomFragmentByRole | src/main/java/com/ejerciciocopilot/service/ExcuseService.java:288-297 | the fragment and the new state are those of `DrawFragmentForRole`; a failure (empty kind) draws nothing and leaves the shared generator as it was |
| Excuses.ExcuseService.GetRandomMeme | src/main/java/com/ejerciciocopilot/service/ExcuseService.java:324-330 | exactly `Choose` over `findAll` from the shared generator's state: null iff the meme table is empty, with no draw; otherwise the meme at the drawn index, with the generator advanced by that draw |
| Excuses.ExcuseService.GetRandomLaw | src/main/java/com/ejerciciocopilot/service/ExcuseService.java:339-345 | exactly `Choose` over `findAll` from the shared generator's state: null iff the law table is empty, with no draw; otherwise the law at the drawn index, with the generator advanced by that draw |
| Excuses.ExcuseService.DrawFourParts | src/main/java/com/ejerciciocopilot/service/ExcuseService.java:84-87 | the four calls in a row give exactly `DrawParts` from the generator's state, result and new generator state alike, on success and on failure |
| Excuses.ExcuseService.SaveComposed | src/main/java/com/ejerciciocopilot/service/ExcuseService.java:88-91 | a failed draw saves nothing. Otherwise the composed excuse is saved under the next id as the last row of the history; on success the next id advances by one, so consecutive calls get consecutive ids |
| Excuses.ExcuseService.GenerateRandom | src/main/java/com/ejerciciocopilot/service/ExcuseService.java:82-92 | succeeds iff `DrawParts` does. On success the result is that excuse (parts in their pools, SIMPLE, seed = clock reading) with the next id, appended to the history exactly once. On failure the error names the first empty kind and nothing is saved. Either way the shared generator ends in the state `DrawParts` leaves; on success the next id advances by one, so consecutive calls get consecutive ids |
| Excuses.ExcuseService.ResaveLast | src/main/java/com/ejerciciocopilot/service/ExcuseService.java:109 | the second `save` of an excuse already listed last replaces it there, and the rest of the history is unchanged |
| Excuses.ExcuseService.AttachMeme | src/main/java/com/ejerciciocopilot/service/ExcuseService.java:104-109 | the meme is exactly `Choose` over the meme table from the shared generator's state (none iff the table is empty, else one of its rows), the type becomes CON_MEME, nothing else of the excuse changes, the generator ends where that draw leaves it, and the history's last row is replaced; the next id is kept |
| Excuses.ExcuseService.GenerateWithMeme | src/main/java/com/ejerciciocopilot/service/ExcuseService.java:102-110 | fails exactly as `generateRandom` does, saving nothing, with the generator where the failed draws leave it. Otherwise the excuse is the random one with the next id, the type CON_MEME in all cases, and the meme `Choose` picks from the meme table with the generator state after the four parts (none iff the table is empty). It is appended to the history once and the generator ends after the meme draw; on success the next id advances by one, so consecutive calls get consecutive ids |
| Excuses.ExcuseService.AttachLaw | src/main/java/com/ejerciciocopilot/service/ExcuseService.java:122-127 | the law is exactly `Choose` over the law table from the shared generator's state (none iff the table is empty, else one of its rows), the type becomes CON_LEY, nothing else of the excuse changes, and the generator ends where that draw leaves it; the next id is kept |
| Excuses.ExcuseService.GenerateWithLaw | src/main/java/com/ejerciciocopilot/service/ExcuseService.java:120-128 | the same as the meme mode, for laws and CON_LEY: the law is the exact draw after the four parts, and the generator's final state is stated on both paths; on success the next id advances by one, so consecutive calls get consecutive ids |
| Excuses.ExcuseService.AttachMemeAndLaw | src/main/java/com/ejerciciocopilot/service/ExcuseService.java:141-152 | the meme is `Choose` over the memes from the generator's state, then the law is `Choose` over the laws from the state that leaves; the type becomes ULTRA_SHARK, nothing else changes, and the generator ends after the law draw; the next id is kept |
| Excuses.ExcuseService.GenerateUltraShark | src/main/java/com/ejerciciocopilot/service/ExcuseService.java:138-153 | the random excuse with only meme, law and type changed: the meme drawn after the four parts, then the law, each null iff its table is empty, and the type ULTRA_SHARK. It is appended once. The generator's final state is stated on failure (after the failed part draws) and on success (after the law draw); on success the next id advances by one, so consecutive calls get consecutive ids |
| Excuses.ExcuseService.DrawFourPartsForRole | src/main/java/com/ejerciciocopilot/service/ExcuseService.java:179-182 | the four role-scoped calls give exactly `DrawPartsForRole` from the shared generator's state, result and new generator state alike |
| Excuses.ExcuseService.GenerateByRole | src/main/java/com/ejerciciocopilot/service/ExcuseService.java:166-189 | an unknown role fails with the invalid-role error before any draw, and nothing changes. Otherwise the result is the role-scoped draw, typed SIMPLE, for the parsed role, with the next id and appended once; an empty kind fails. After a valid token the shared generator ends in the state `DrawPartsForRole` leaves; on success the next id advances by one, so consecutive calls get consecutive ids |
| Excuses.ExcuseService.DrawDailyParts | src/main/java/com/ejerciciocopilot/service/ExcuseService.java:200-207 | a fresh generator seeded with the epoch day draws exactly `DailyParts` |
| Excuses.ExcuseService.GenerateDaily | src/main/java/com/ejerciciocopilot/service/ExcuseService.java:199-213 | the parts are `DailyParts(table, day)`, the seed is the epoch day and the type SIMPLE. The shared generator is untouched. The excuse is appended with the next id, or an empty kind fails and saves nothing; on success the next id advances by one, so consecutive calls get consecutive ids |
| Excuses.ExcuseService.GenerateDailyTwice | src/test/java/com/ejerciciocopilot/integration/ExcuseIntegrationTest.java:147-156 | two daily excuses on the same day both succeed or both fail. Their seeds are equal, and they differ only in id and creation time |
| Excuses.ExcuseService.ResolveFragments | src/main/java/com/ejerciciocopilot/service/ExcuseService.java:226-241 | each part is the row its id resolves to, or stays null when the id is null or unknown; nothing else changes |
| Excuses.ExcuseService.ResolveMemeAndLaw | src/main/java/com/ejerciciocopilot/service/ExcuseService.java:242-249 | the same for the meme and law ids |
| Excuses.ExcuseService.CreateFromDto | src/main/java/com/ejerciciocopilot/service/ExcuseService.java:222-260 | fails, saving nothing, iff a type or role name does not parse. Otherwise each relation is the row its id resolves to, or null, without error. The type defaults to SIMPLE, the role is parsed by exact name, the seed is the clock reading, the creation time is set, and the excuse is appended under the next id; on success the next id advances by one, so consecutive calls get consecutive ids |

## Left out

- Controllers, `GlobalExceptionHandler` and `DataLoader` are not part of this model. They are HTTP routing, status mapping and JSON file loading.
- Transaction boundaries, JPA lazy loading and identity generation details, Lombok builders, and bean-validation annotations on the request records are not modelled. Entities are plain datatypes with nullable (`Option`) fields.
- An excuse holds copies of its fragments, meme and law. In Java they are `@ManyToOne` references to rows (`model/Excuse.java:32-74`).
  - After a fragment, meme or law is updated, a stored Java excuse shows the new values; the model's excuse keeps the values it was saved with.
  - Deleting a fragment, meme or law that an excuse refers to violates the join column's foreign key in Java; the model's `Delete` removes the row regardless.
- `NOT NULL` columns are not enforced: `model/Fragment.java:32` and `:38`, `model/Meme.java:32` and `:38`, `model/Law.java:32`, `:38` and `:45`. A save with such a field null fails in Java at insert time. In the model it succeeds, so for example `FragmentService.CreateFromDto` with no text returns the saved fragment.
- `findAll`, `findByType`, `findByTypeAndRole` and `findByCategory` have no `ORDER BY` (`repository/FragmentRepository.java:24` and `:33`, `repository/LawRepository.java:22`). The model lists rows in insertion order. The exact draws (`DrawParts`, `DailyParts`, `Choose` over memes and laws) index into that order, so they hold for a database that returns rows in insertion order.
- Concurrent requests share the service's one `Random` in Java. The model runs one call at a time; the equations for draws in a row from one generator state assume that no other request draws in between.
- Clock readings and the seed of the shared `new Random()` are inputs, not the system clock.
- Null arguments are not modelled. This covers a null request in `createFromDTO` and a null role token in `generateByRole`, both of which throw `NullPointerException`. The mappers' null-in, null-out behaviour is modelled.
- `repository.save` of an entity carrying an id that is not stored is treated as an insert under the next generated id. JPA would merge it.
- Repositories.Repository.Save: an entity whose id is stored replaces the whole row, creation time included. JPA merges it, and `createdAt` is `updatable = false` (`model/Fragment.java:52`, `model/Meme.java:44`, `model/Law.java:51`, `model/Excuse.java:100`), so the database keeps the stored creation time.
  - This affects the replace branch of `Fragments.FragmentService.Create`, `Memes.MemeService.Create` and `Laws.LawService.Create`: given a stored id, the model stores the incoming (or defaulted) creation time where Java keeps the old one.
  - The services' own callers of `create` (the `createFromDTO` methods) pass no id, and every other save in the services rewrites the creation time it read, so their contracts are not affected.
- `findByRole` (`FragmentRepository.java:41`) and `findByName` (`LawRepository.java:30`) are never called by the services and are not modelled.
- `MemeMapper` and `LawMapper` are modelled only as field-for-field copies, without contracts.
- Fragments.FragmentService.UpdateFromDto: takes the type and role already parsed.
  - The source passes the request's `String` fields to the enum-typed setters: `FragmentService.java:95` and `:98`, against `FragmentRequestDTO.java:16` and `:22` and `Fragment.java:33` and `:47`.
  - That code does not type-check as written, so no parsing step is modelled there.
- Model.ToUpper: upper-cases ASCII letters only. `String.toUpperCase()` is locale-sensitive and covers all of Unicode.
  - This shapes `ParseRole` and `ParseRoleIgnoresCase`. Java upper-cases U+0131 (dotless i) to `I` and U+017F (long s) to `S`, so it accepts "archıtect" and "devopſ"; the model rejects both.
  - Under a Turkish default locale Java upper-cases `i` to U+0130, so it rejects "architect"; `ParseRoleIgnoresCase` states the locale-free behaviour.
- JavaRandom.DrawInt: the rejection loop of `nextInt` carries a `fuel` bound of 2^48 redraws, the period of the generator.
  - The generator has full period 2^48: the addend 11 is odd and the multiplier minus one is divisible by 4. Within one period it reaches the state whose 31-bit output is 0, which is accepted for every bound up to 2^31.
  - So for every bound an `int` size can take, the loop ends before the fuel runs out. The model does not prove this period argument; the fuel is only reached for bounds above 2^31, which Java cannot pass.
  - The same bound applies to JavaRandom.Random.NextInt.
- Excuses.ExcuseService.DrawFourParts, `DrawFourPartsForRole`, `DrawDailyParts`, `SaveComposed`, `ResaveLast`, `AttachMeme`, `AttachLaw`, `AttachMemeAndLaw`, `ResolveFragments` and `ResolveMemeAndLaw` are not separate methods in the source. Each groups a run of statements that the source writes inline in the method cited for it.
