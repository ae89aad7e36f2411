/** Conversions between excuse requests, excuses, full responses and summaries. */
module ExcuseMapper {
  import opened Wrappers
  import opened Model
  import opened Dto
  import FragmentMapper
  import MemeMapper
  import LawMapper

  /** A request whose type and role, each when given, name a constant exactly. */
  predicate ParsableRequest(dto: ExcuseRequest) {
    && (dto.typeName.Some? ==> ExcuseTypeOf(dto.typeName.value).Some?)
    && (dto.roleName.Some? ==> RoleOf(dto.roleName.value).Some?)
  }

  /**
   * `toEntity`: null stays null. The type defaults to SIMPLE when absent and is
   * otherwise parsed by exact name; the role stays null when absent. No parts,
   * seed, id or timestamps are set. The type is parsed before the role.
   */
  function ToEntity(dto: Option<ExcuseRequest>): (r: Result<Option<Excuse>, Error>)
    ensures dto.None? ==> r == Ok(None)
    ensures dto.Some? ==> (r.Ok? <==> ParsableRequest(dto.value))
    ensures dto.Some? && r.Ok? ==>
      && r.value.Some?
      && var e := r.value.value;
      && e.(excuseType := None, role := None) == BlankExcuse
      && e.excuseType.Some?
      && (dto.value.typeName.None? ==> e.excuseType == Some(Simple))
      && (dto.value.typeName.Some? ==> ExcuseTypeName(e.excuseType.value) == dto.value.typeName.value)
      && (e.role.Some? <==> dto.value.roleName.Some?)
      && (e.role.Some? ==> RoleName(e.role.value) == dto.value.roleName.value)
    ensures dto.Some? && r.Err? ==>
      r.error == (if dto.value.typeName.Some? && ExcuseTypeOf(dto.value.typeName.value).None?
                  then NoEnumConstant("ExcuseType", dto.value.typeName.value)
                  else NoEnumConstant("Role", dto.value.roleName.value))
  {
    match dto
    case None => Ok(None)
    case Some(d) =>
      var excuseType :=
        if d.typeName.None? then Some(Simple) else ExcuseTypeOf(d.typeName.value);
      if excuseType.None? then Err(NoEnumConstant("ExcuseType", d.typeName.value))
      else if d.roleName.None? then Ok(Some(BlankExcuse.(excuseType := excuseType)))
      else match RoleOf(d.roleName.value)
        case None => Err(NoEnumConstant("Role", d.roleName.value))
        case Some(role) => Ok(Some(BlankExcuse.(excuseType := excuseType, role := Some(role))))
  }

  /** `name()` of a nullable excuse type, null preserved. */
  function TypeNameOf(t: Option<ExcuseType>): (r: Option<string>)
    ensures r.None? <==> t.None?
    ensures r.Some? ==> ExcuseTypeOf(r.value) == t
  {
    match t
    case None => None
    case Some(x) => Some(ExcuseTypeName(x))
  }

  /**
   * `toResponse`: null stays null; id, seed and timestamps are copied, each part
   * goes through its own mapper, and type and role become names that parse back.
   */
  function ToResponse(e: Option<Excuse>): (r: Option<ExcuseResponse>)
    ensures r.None? <==> e.None?
    ensures r.Some? ==>
      && var x := e.value;
      && r.value.id == x.id && r.value.seed == x.seed
      && r.value.createdAt == x.createdAt && r.value.updatedAt == x.updatedAt
      && r.value.context == FragmentMapper.ToResponse(x.context)
      && r.value.cause == FragmentMapper.ToResponse(x.cause)
      && r.value.consequence == FragmentMapper.ToResponse(x.consequence)
      && r.value.recommendation == FragmentMapper.ToResponse(x.recommendation)
      && r.value.meme == MemeMapper.ToResponse(x.meme)
      && r.value.law == LawMapper.ToResponse(x.law)
      && (r.value.typeName.None? <==> x.excuseType.None?)
      && (r.value.typeName.Some? ==> ExcuseTypeOf(r.value.typeName.value) == x.excuseType)
      && (r.value.roleName.None? <==> x.role.None?)
      && (r.value.roleName.Some? ==> RoleOf(r.value.roleName.value) == x.role)
  {
    match e
    case None => None
    case Some(x) =>
      Some(ExcuseResponse(
        x.id,
        FragmentMapper.ToResponse(x.context),
        FragmentMapper.ToResponse(x.cause),
        FragmentMapper.ToResponse(x.consequence),
        FragmentMapper.ToResponse(x.recommendation),
        MemeMapper.ToResponse(x.meme),
        LawMapper.ToResponse(x.law),
        TypeNameOf(x.excuseType),
        FragmentMapper.RoleNameOf(x.role),
        x.seed,
        x.createdAt,
        x.updatedAt))
  }

  /** `toSummary`: the id, type, role and seed of the full response, and nothing else. */
  function ToSummary(e: Option<Excuse>): (r: Option<ExcuseSummary>)
    ensures r.None? <==> e.None?
    ensures r.Some? ==>
      var full := ToResponse(e).value;
      r.value == ExcuseSummary(full.id, full.typeName, full.roleName, full.seed)
  {
    match e
    case None => None
    case Some(x) =>
      Some(ExcuseSummary(x.id, TypeNameOf(x.excuseType), FragmentMapper.RoleNameOf(x.role), x.seed))
  }

  /**
   * Round trip of a request through the entity and back out: the type comes
   * back as written, or as "SIMPLE" when it was absent; the role as written.
   */
  lemma RequestTypeRoundTrip(dto: ExcuseRequest)
    requires ParsableRequest(dto)
    ensures ToEntity(Some(dto)).Ok?
    ensures var response := ToResponse(ToEntity(Some(dto)).value).value;
            && response.typeName == Some(if dto.typeName.None? then "SIMPLE" else dto.typeName.value)
            && response.roleName == dto.roleName
  {
    var e := ToEntity(Some(dto)).value.value;
    assert TypeNameOf(e.excuseType) == Some(ExcuseTypeName(e.excuseType.value));
    if dto.roleName.Some? {
      assert FragmentMapper.RoleNameOf(e.role) == Some(RoleName(e.role.value));
    }
  }
}
