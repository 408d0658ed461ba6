/**
 The question-list route, pages/api/questions.ts: GET only, then the store's
 question query wrapped in the response envelope. The query's ordering (newest
 first) is the store's work; its result is an input here.
 */
module QuestionsApi {
  import opened Js
  import opened Store
  import opened ApiResponse

  const OnlyGet := "只支持 GET 请求"

  /** The reply, and whether the handler read the store to produce it. */
  datatype Outcome<+Q> = Outcome(reply: Reply<Content<Option<seq<Q>>>>, queried: bool)

  function Handle<Q>(httpMethod: string, query: Query<seq<Q>>): (o: Outcome<Q>)
    ensures Mirrored(o.reply)
    ensures o.queried <==> httpMethod == "GET"
    ensures httpMethod != "GET" ==>
      o.reply.status == 405 && o.reply.body.message == OnlyGet && o.reply.body.data == None
    ensures httpMethod == "GET" && query.Failed? ==>
      o.reply.status == 500 && o.reply.body.message == query.error.message && o.reply.body.data == None
    ensures httpMethod == "GET" && query.Data? ==>
      o.reply.status == 200 && o.reply.body.data == Some(Content(query.data))
    ensures o.reply.status == 200 <==> httpMethod == "GET" && query.Data?
  {
    if httpMethod != "GET" then
      Outcome(ErrorResponse(405, OnlyGet, None), false)
    else
      match query
      case Failed(e) => Outcome(ErrorResponse(500, e.message, None), true)
      case Data(rows) => Outcome(SuccessResponse(Content(rows), None), true)
  }
}
