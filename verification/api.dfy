/**
 The client-side question fetchers of lib/api.ts: the list and single-question
 requests, the normalisation of each received question (string id, type tag,
 made-up duration and view count), and the fallbacks on failure. The HTTP
 request is an input: either the response body or a failed request (axios
 rejects on network errors and on non-2xx statuses).
 */
module Api {
  import opened Js
  import opened Decimal

  /** A JSON scalar, enough to tell `q.type === 1` apart from every other value. */
  datatype Scalar = Num(n: int) | Text(s: string) | Null

  /** A question as the API sends it; `createdAt` stands for the fields `...q` carries along. */
  datatype RawQuestion = RawQuestion(id: int, content: string, questionType: Scalar, difficulty: int, createdAt: Option<string>)

  /** An element of the received array: a question object, or `null`. */
  datatype Item = Present(question: RawQuestion) | NullItem

  /** What `response.data?.content` holds: an array, some other value, or nothing. */
  datatype Payload = ContentArray(items: seq<Item>) | ContentNotArray | NoContent

  datatype Fetched<+T> = Response(body: T) | RequestFailed

  /** The `Question` type of lib/api.ts. */
  datatype Question = Question(
    id: string, content: string, questionType: string, difficulty: int,
    duration: Option<int>, views: Option<int>, createdAt: Option<string>)

  /** A value of `Math.random()`: the exact fraction num/den in [0, 1). */
  datatype Fraction = Fraction(num: nat, den: nat)
  type Random = f: Fraction | f.num < f.den witness Fraction(0, 1)

  /** `Math.floor(Math.random() * k)` for a positive integer `k`. */
  function Scaled(r: Random, k: nat): (n: nat)
    requires k > 0
    ensures n < k
  {
    ScaledBelow(r, k);
    r.num * k / r.den
  }

  lemma ScaledBelow(r: Random, k: nat)
    requires k > 0
    ensures r.num * k / r.den < k
  {
    var q := r.num * k / r.den;
    assert r.den * q <= r.num * k;
    assert r.num * k < r.den * k;
    assert r.den * q < r.den * k;
  }

  /** The 10 questions shown when the list request fails. */
  function MockQuestions(): (qs: seq<Question>)
    ensures |qs| == 10
    ensures forall i :: 0 <= i < 10 ==> qs[i].id == IntToString(i + 1)
    ensures forall i :: 0 <= i < 10 ==> qs[i].duration.Some? && qs[i].views.Some?
  {
    [
      Mock(1, "请解释 React Hooks 的原理及其使用场景", "frontend", 2, 15, 1280),
      Mock(2, "什么是 RESTful API？请设计一个符合 RESTful 规范的 API", "backend", 2, 20, 892),
      Mock(3, "请实现一个简单的防抖和节流函数", "frontend", 1, 10, 1567),
      Mock(4, "数据库索引的作用是什么？如何优化索引性能？", "database", 2, 15, 1120),
      Mock(5, "请实现快速排序算法，并分析其时间复杂度", "algorithm", 3, 25, 1890),
      Mock(6, "什么是闭包？闭包在 JavaScript 中的应用场景有哪些？", "frontend", 1, 15, 2045),
      Mock(7, "请解释 TCP/IP 协议的三次握手和四次挥手过程", "system", 2, 20, 1340),
      Mock(8, "React 中 Virtual DOM 的工作原理是什么？", "frontend", 2, 15, 1678),
      Mock(9, "如何设计一个高可用的分布式系统？", "backend", 3, 30, 987),
      Mock(10, "请解释 HTTP/2 的主要特性和优势", "frontend", 1, 15, 1430)
    ]
  }

  function Mock(id: nat, content: string, questionType: string, difficulty: int, duration: int, views: int): Question
  {
    Question(IntToString(id), content, questionType, difficulty, Some(duration), Some(views), None)
  }

  /** `q.type === 1 ? 'frontend' : 'backend'` */
  function TypeTag(t: Scalar): string
  {
    if t == Num(1) then "frontend" else "backend"
  }

  /** One received question with its two random draws, duration first. */
  function Normalize(q: RawQuestion, durationDraw: Random, viewsDraw: Random): (r: Question)
    ensures r.duration.Some? && 5 <= r.duration.value <= 24
    ensures r.views.Some? && 100 <= r.views.value <= 2099
  {
    Question(IntToString(q.id), q.content, TypeTag(q.questionType), q.difficulty,
             Some(Scaled(durationDraw, 20) + 5), Some(Scaled(viewsDraw, 2000) + 100), q.createdAt)
  }

  /** Reading a field of a `null` item throws, so the array maps only when it has none. */
  predicate NoNulls(items: seq<Item>)
  {
    forall i :: 0 <= i < |items| ==> items[i].Present?
  }

  /** `questionsData.map(...)` over an array without null items; item `i` takes the draws
      `2i` and `2i + 1`. */
  function NormalizeAll(items: seq<Item>, rng: nat -> Random): (qs: seq<Question>)
    requires NoNulls(items)
    ensures |qs| == |items|
  {
    seq(|items|, i requires 0 <= i < |items| => Normalize(items[i].question, rng(2 * i), rng(2 * i + 1)))
  }

  /** A failed request shows the ten mock questions, a received array without null items as
      many questions as it has items, and anything but an array none at all. */
  function GetQuestions(resp: Fetched<Payload>, rng: nat -> Random): (qs: seq<Question>)
    ensures resp.RequestFailed? ==> |qs| == 10
    ensures resp.Response? && resp.body.ContentArray? && NoNulls(resp.body.items) ==> |qs| == |resp.body.items|
    ensures resp.Response? && resp.body.ContentArray? && !NoNulls(resp.body.items) ==> |qs| == 10
    ensures resp.Response? && !resp.body.ContentArray? ==> qs == []
  {
    match resp
    case RequestFailed => MockQuestions()
    case Response(payload) =>
      var items := if payload.ContentArray? then payload.items else [];
      if NoNulls(items) then NormalizeAll(items, rng) else MockQuestions()
  }

  /** `getQuestionById`: the received question normalised, or null when the request fails or
      the body is null. */
  function GetQuestionById(resp: Fetched<Item>, rng: nat -> Random): (r: Option<Question>)
    ensures r.Some? <==> resp.Response? && resp.body.Present?
    ensures r.Some? ==> r.value.duration.Some? && 5 <= r.value.duration.value <= 24
    ensures r.Some? ==> r.value.views.Some? && 100 <= r.value.views.value <= 2099
  {
    match resp
    case Response(Present(q)) => Some(Normalize(q, rng(0), rng(1)))
    case _ => None
  }

  /** Normalisation keeps the content, the difficulty and the carried fields, turns the id into
      text that reads back as the id, and tags exactly type 1 as front end. */
  lemma NormalizeFaithful(q: RawQuestion, d: Random, v: Random)
    ensures var r := Normalize(q, d, v);
      && ParseInt(r.id) == Some(q.id)
      && r.content == q.content && r.difficulty == q.difficulty && r.createdAt == q.createdAt
      && (r.questionType == "frontend" <==> q.questionType == Num(1))
      && (r.questionType == "backend" <==> q.questionType != Num(1))
  {
    IntToStringRoundTrip(q.id);
  }

  /** A list whose `content` is not an array, or is missing, yields no questions at all. */
  lemma NonArrayIsEmpty(payload: Payload, rng: nat -> Random)
    requires !payload.ContentArray?
    ensures GetQuestions(Response(payload), rng) == []
  {
  }

  /** A received array without null items comes back as a list of the same length, each
      element normalised in place, with bounded duration and views. */
  lemma ListNormalized(items: seq<Item>, rng: nat -> Random)
    requires NoNulls(items)
    ensures var qs := GetQuestions(Response(ContentArray(items)), rng);
      && |qs| == |items|
      && forall i :: 0 <= i < |qs| ==>
           && qs[i] == Normalize(items[i].question, rng(2 * i), rng(2 * i + 1))
           && qs[i].id == IntToString(items[i].question.id)
           && ParseInt(qs[i].id) == Some(items[i].question.id)
           && qs[i].content == items[i].question.content
           && qs[i].questionType == TypeTag(items[i].question.questionType)
           && qs[i].difficulty == items[i].question.difficulty
           && qs[i].createdAt == items[i].question.createdAt
           && qs[i].duration.Some? && 5 <= qs[i].duration.value <= 24
           && qs[i].views.Some? && 100 <= qs[i].views.value <= 2099
  {
    var qs := GetQuestions(Response(ContentArray(items)), rng);
    assert qs == NormalizeAll(items, rng);
    forall i | 0 <= i < |qs|
      ensures qs[i] == Normalize(items[i].question, rng(2 * i), rng(2 * i + 1))
      ensures ParseInt(qs[i].id) == Some(items[i].question.id)
    {
      IntToStringRoundTrip(items[i].question.id);
    }
  }

  /** Whichever way the list is produced, every question on it carries a duration and a view
      count, so the list never shows a question without them. */
  lemma EveryQuestionTimed(resp: Fetched<Payload>, rng: nat -> Random)
    ensures var qs := GetQuestions(resp, rng);
      forall i :: 0 <= i < |qs| ==> qs[i].duration.Some? && qs[i].views.Some?
  {
    if resp.Response? && resp.body.ContentArray? && NoNulls(resp.body.items) {
      ListNormalized(resp.body.items, rng);
    }
  }

  /** A failed list request, or a null item in the array, gives exactly the mock list. */
  lemma ListFallsBackToMocks(resp: Fetched<Payload>, rng: nat -> Random)
    requires resp.RequestFailed? || (resp.body.ContentArray? && !NoNulls(resp.body.items))
    ensures GetQuestions(resp, rng) == MockQuestions()
  {
  }

  /** The single-question request yields a question exactly when the body is one; it is then
      the normalised body. */
  lemma ByIdNullOnFailure(resp: Fetched<Item>, rng: nat -> Random)
    ensures GetQuestionById(resp, rng).Some? <==> resp.Response? && resp.body.Present?
    ensures resp.Response? && resp.body.Present? ==>
      GetQuestionById(resp, rng).value.content == resp.body.question.content
  {
  }

  /** The single-question request normalises a question exactly as the list request normalises
      the first element of its array. */
  lemma ByIdMatchesList(q: RawQuestion, rng: nat -> Random)
    ensures GetQuestionById(Response(Present(q)), rng) ==
      Some(GetQuestions(Response(ContentArray([Present(q)])), rng)[0])
  {
    ListNormalized([Present(q)], rng);
  }

  /** The mock ids are distinct. */
  lemma MockIdsDistinct(i: nat, j: nat)
    requires i < 10 && j < 10 && i != j
    ensures MockQuestions()[i].id != MockQuestions()[j].id
  {
    IntToStringInjective(i + 1, j + 1);
  }
}
