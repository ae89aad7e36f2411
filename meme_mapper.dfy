/** Field-for-field copies between meme requests, memes and meme responses. */
module MemeMapper {
  import opened Wrappers
  import opened Model
  import opened Dto

  function ToEntity(dto: MemeRequest): Meme {
    Meme(None, dto.author, dto.quote, None, None)
  }

  /** The response carries no update timestamp. */
  function ToResponse(m: Option<Meme>): Option<MemeResponse> {
    match m
    case None => None
    case Some(x) => Some(MemeResponse(x.id, x.author, x.quote, x.createdAt))
  }
}
