/** The request and response records the web layer exchanges; every field is nullable. */
module Dto {
  import opened Wrappers
  import opened Model

  /** ExcuseRequestDTO: ids of the parts to assemble, and the type and role by name. */
  datatype ExcuseRequest = ExcuseRequest(
    contextId: Option<int>,
    causeId: Option<int>,
    consequenceId: Option<int>,
    recommendationId: Option<int>,
    memeId: Option<int>,
    lawId: Option<int>,
    typeName: Option<string>,
    roleName: Option<string>)

  datatype FragmentRequest = FragmentRequest(
    typeName: Option<string>,
    text: Option<string>,
    roleName: Option<string>)

  datatype MemeRequest = MemeRequest(author: Option<string>, quote: Option<string>)

  datatype LawRequest = LawRequest(
    name: Option<string>,
    description: Option<string>,
    category: Option<string>)

  datatype FragmentResponse = FragmentResponse(
    id: Option<int>,
    typeName: Option<string>,
    text: Option<string>,
    roleName: Option<string>,
    createdAt: Option<Instant>,
    updatedAt: Option<Instant>)

  /** MemeResponseDTO has no update timestamp. */
  datatype MemeResponse = MemeResponse(
    id: Option<int>,
    author: Option<string>,
    quote: Option<string>,
    createdAt: Option<Instant>)

  datatype LawResponse = LawResponse(
    id: Option<int>,
    name: Option<string>,
    description: Option<string>,
    category: Option<string>,
    createdAt: Option<Instant>,
    updatedAt: Option<Instant>)

  datatype ExcuseResponse = ExcuseResponse(
    id: Option<int>,
    context: Option<FragmentResponse>,
    cause: Option<FragmentResponse>,
    consequence: Option<FragmentResponse>,
    recommendation: Option<FragmentResponse>,
    meme: Option<MemeResponse>,
    law: Option<LawResponse>,
    typeName: Option<string>,
    roleName: Option<string>,
    seed: Option<int>,
    createdAt: Option<Instant>,
    updatedAt: Option<Instant>)

  datatype ExcuseSummary = ExcuseSummary(
    id: Option<int>,
    typeName: Option<string>,
    roleName: Option<string>,
    seed: Option<int>)
}
