/**
 The question list end to end: the route of pages/api/questions.ts answers,
 and `getQuestions` of lib/api.ts reads that answer. axios resolves for a 2xx
 status and rejects otherwise, so the route's error replies reach the client as
 failed requests.

 The route puts its rows at `data.content` of the envelope, but the client
 reads `response.data?.content`, the top level of the body, where the envelope
 has no `content` key. `Receive` is the client as written; `ReceiveNested` is
 the client reading `response.data?.data?.content`, the evident intent.
 */
module QuestionListFlow {
  import opened Js
  import opened Decimal
  import opened Store
  import opened ApiResponse
  import Api
  import QuestionsApi

  type ListReply = Reply<Content<Option<seq<Api.Item>>>>

  predicate Success(reply: ListReply)
  {
    200 <= reply.status < 300
  }

  /** What `getQuestions` sees as written: `response.data?.content` for a 2xx status, a failed
      request otherwise. The body is an envelope `{ statusCode, message, data, error }` or a bare
      `{ message }`; neither has a top-level `content`, so a 2xx reply never carries an array. */
  function Receive(reply: ListReply): (f: Api.Fetched<Api.Payload>)
    ensures f.Response? <==> Success(reply)
    ensures f.Response? ==> !f.body.ContentArray?
  {
    if !Success(reply) then Api.RequestFailed else Api.Response(Api.NoContent)
  }

  /** The client reading `response.data?.data?.content`: the rows the envelope carries. */
  function ReceiveNested(reply: ListReply): (f: Api.Fetched<Api.Payload>)
    ensures f.Response? <==> Success(reply)
    ensures f.Response? && f.body.ContentArray? <==>
      Success(reply) && reply.body.Envelope? && reply.body.data.Some? && reply.body.data.value.content.Some?
    ensures f.Response? && f.body.ContentArray? ==> f.body.items == reply.body.data.value.content.value
  {
    if !Success(reply) then Api.RequestFailed
    else if reply.body.Envelope? && reply.body.data.Some? then
      match reply.body.data.value.content
      case Some(items) => Api.Response(Api.ContentArray(items))
      case None => Api.Response(Api.ContentNotArray)
    else Api.Response(Api.NoContent)
  }

  /** As written, a successful list reaches the client as no questions at all, whatever rows the
      store returned; a failed query, or a request that is not GET, shows the mock list. */
  lemma ListShowsNothing(httpMethod: string, query: Query<seq<Api.Item>>, rng: nat -> Api.Random)
    ensures var shown := Api.GetQuestions(Receive(QuestionsApi.Handle(httpMethod, query).reply), rng);
      && (httpMethod != "GET" || query.Failed? ==> shown == Api.MockQuestions())
      && (httpMethod == "GET" && query.Data? ==> shown == [])
  {
  }

  /** The discrepancy on one row: the client as written shows nothing, the client reading the
      nested key shows that row's question. */
  lemma OneRowLost(q: Api.RawQuestion, rng: nat -> Api.Random)
    ensures var reply := QuestionsApi.Handle("GET", Data(Some([Api.Present(q)]))).reply;
      && Api.GetQuestions(Receive(reply), rng) == []
      && |Api.GetQuestions(ReceiveNested(reply), rng)| == 1
      && Api.GetQuestions(ReceiveNested(reply), rng)[0].content == q.content
  {
    NestedListReachesClient("GET", Data(Some([Api.Present(q)])), rng);
  }

  /** Reading the nested key, a successful query reaches the client as the same questions,
      normalised, in the same order; a failed query, or a request that is not GET, shows the mock
      list. */
  lemma NestedListReachesClient(httpMethod: string, query: Query<seq<Api.Item>>, rng: nat -> Api.Random)
    ensures var shown := Api.GetQuestions(ReceiveNested(QuestionsApi.Handle(httpMethod, query).reply), rng);
      && (httpMethod != "GET" || query.Failed? ==> shown == Api.MockQuestions())
      && (httpMethod == "GET" && query.Data? && query.data.Some? && Api.NoNulls(query.data.value) ==>
            |shown| == |query.data.value|
            && forall i :: 0 <= i < |shown| ==>
                 var q := query.data.value[i].question;
                 && ParseInt(shown[i].id) == Some(q.id)
                 && shown[i].content == q.content
                 && shown[i].questionType == Api.TypeTag(q.questionType)
                 && shown[i].difficulty == q.difficulty
                 && shown[i].createdAt == q.createdAt
                 && shown[i].duration.Some? && 5 <= shown[i].duration.value <= 24
                 && shown[i].views.Some? && 100 <= shown[i].views.value <= 2099)
      && (httpMethod == "GET" && query == Data(None) ==> shown == [])
  {
    var o := QuestionsApi.Handle(httpMethod, query);
    if httpMethod == "GET" && query.Data? && query.data.Some? && Api.NoNulls(query.data.value) {
      assert ReceiveNested(o.reply) == Api.Response(Api.ContentArray(query.data.value));
      Api.ListNormalized(query.data.value, rng);
    }
  }
}
