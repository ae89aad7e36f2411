/** Field-for-field copies between law requests, laws and law responses. */
module LawMapper {
  import opened Wrappers
  import opened Model
  import opened Dto

  function ToEntity(dto: LawRequest): Law {
    Law(None, dto.name, dto.description, dto.category, None, None)
  }

  function ToResponse(l: Option<Law>): Option<LawResponse> {
    match l
    case None => None
    case Some(x) => Some(LawResponse(x.id, x.name, x.description, x.category, x.createdAt, x.updatedAt))
  }
}
