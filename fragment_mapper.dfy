/** Conversions between fragment requests, stored fragments and fragment responses. */
module FragmentMapper {
  import opened Wrappers
  import opened Model
  import opened Dto

  /** A request whose type names a constant exactly and whose role, when given, does too. */
  predicate ParsableRequest(dto: FragmentRequest) {
    && dto.typeName.Some? && FragmentTypeOf(dto.typeName.value).Some?
    && (dto.roleName.Some? ==> RoleOf(dto.roleName.value).Some?)
  }

  /**
   * `toEntity`: null stays null; the type is parsed by exact name (a null type
   * name throws), the role is parsed only when present; id and timestamps stay unset.
   */
  function ToEntity(dto: Option<FragmentRequest>): (r: Result<Option<Fragment>, Error>)
    ensures dto.None? ==> r == Ok(None)
    ensures dto.Some? ==> (r.Ok? <==> ParsableRequest(dto.value))
    ensures dto.Some? && r.Ok? ==>
      && r.value.Some?
      && var f := r.value.value;
      && f.id.None? && f.createdAt.None? && f.updatedAt.None?
      && f.text == dto.value.text
      && f.kind.Some? && Some(FragmentTypeName(f.kind.value)) == dto.value.typeName
      && (f.role.Some? <==> dto.value.roleName.Some?)
      && (f.role.Some? ==> RoleName(f.role.value) == dto.value.roleName.value)
    ensures dto.Some? && r.Err? ==>
      r.error == (if dto.value.typeName.None? then NullEnumName("FragmentType")
                  else if FragmentTypeOf(dto.value.typeName.value).None?
                  then NoEnumConstant("FragmentType", dto.value.typeName.value)
                  else NoEnumConstant("Role", dto.value.roleName.value))
  {
    match dto
    case None => Ok(None)
    case Some(d) =>
      if d.typeName.None? then Err(NullEnumName("FragmentType"))
      else match FragmentTypeOf(d.typeName.value)
        case None => Err(NoEnumConstant("FragmentType", d.typeName.value))
        case Some(kind) =>
          if d.roleName.None? then Ok(Some(Fragment(None, Some(kind), d.text, None, None, None)))
          else match RoleOf(d.roleName.value)
            case None => Err(NoEnumConstant("Role", d.roleName.value))
            case Some(role) => Ok(Some(Fragment(None, Some(kind), d.text, Some(role), None, None)))
  }

  /** `name()` of a nullable role, null preserved. */
  function RoleNameOf(role: Option<Role>): (r: Option<string>)
    ensures r.None? <==> role.None?
    ensures r.Some? ==> RoleOf(r.value) == role
  {
    match role
    case None => None
    case Some(x) => Some(RoleName(x))
  }

  /**
   * `toResponse`: null stays null; id, text and timestamps are copied and the
   * type and role are rendered as names that parse back to the same constants.
   */
  function ToResponse(f: Option<Fragment>): (r: Option<FragmentResponse>)
    ensures r.None? <==> f.None?
    ensures r.Some? ==>
      && r.value.id == f.value.id && r.value.text == f.value.text
      && r.value.createdAt == f.value.createdAt && r.value.updatedAt == f.value.updatedAt
      && (r.value.typeName.None? <==> f.value.kind.None?)
      && (r.value.typeName.Some? ==> FragmentTypeOf(r.value.typeName.value) == f.value.kind)
      && (r.value.roleName.None? <==> f.value.role.None?)
      && (r.value.roleName.Some? ==> RoleOf(r.value.roleName.value) == f.value.role)
  {
    match f
    case None => None
    case Some(x) =>
      var typeName := if x.kind.Some? then Some(FragmentTypeName(x.kind.value)) else None;
      Some(FragmentResponse(x.id, typeName, x.text, RoleNameOf(x.role), x.createdAt, x.updatedAt))
  }

  /** A parsable request comes back unchanged through the entity, with no id or timestamps. */
  lemma RequestRoundTrip(dto: FragmentRequest)
    requires ParsableRequest(dto)
    ensures ToEntity(Some(dto)).Ok?
    ensures ToResponse(ToEntity(Some(dto)).value)
         == Some(FragmentResponse(None, dto.typeName, dto.text, dto.roleName, None, None))
  {
    var f := ToEntity(Some(dto)).value.value;
    var r := ToResponse(Some(f)).value;
    assert r.typeName == Some(FragmentTypeName(f.kind.value));
    assert r.roleName == dto.roleName by {
      if dto.roleName.Some? {
        assert r.roleName == Some(RoleName(f.role.value));
      }
    }
  }

  /** A typed fragment, rendered and read back as a request, loses only its id and timestamps. */
  lemma ResponseRoundTrip(f: Fragment)
    requires f.kind.Some?
    ensures var r := ToResponse(Some(f)).value;
            ToEntity(Some(FragmentRequest(r.typeName, r.text, r.roleName)))
              == Ok(Some(f.(id := None, createdAt := None, updatedAt := None)))
  {
  }
}
