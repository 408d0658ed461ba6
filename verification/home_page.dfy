/**
 The home page's server-side data assembly, `getServerSideProps` of
 pages/index.tsx: the question list decorated with its formatted creation
 date, the signed-in user's answers folded into a question-to-answer map, and
 one fallback for any failure. The signed-in user, both query results and the
 platform's date parsing are inputs.
 */
module HomePage {
  import opened Js
  import opened Store
  import opened DateUtils

  datatype QuestionRow = QuestionRow(id: int, content: string, questionType: int, difficulty: int, createdAt: string)

  datatype AnswerRow = AnswerRow(questionId: int, answer: string)

  /** `{ ...question, formattedCreatedAt }` */
  datatype Decorated = Decorated(question: QuestionRow, formattedCreatedAt: string)

  datatype User = User(id: string)

  datatype Props = Props(questions: seq<Decorated>, userAnswers: map<int, string>, error: Option<string>)

  datatype PageQuery = QuestionsQuery | AnswersQuery(userId: string)

  /** The page's props and the store queries made for them, in order. */
  datatype Page = Page(props: Props, queries: seq<PageQuery>)

  const LoadFailed := "获取数据时发生错误"

  /** `(questionsData || []).map(q => ({ ...q, formattedCreatedAt: formatDate(q.created_at) }))` */
  function Decorate(rows: Option<seq<QuestionRow>>, parse: string -> DateReading): (qs: seq<Decorated>)
    ensures rows.None? ==> qs == []
    ensures rows.Some? ==> |qs| == |rows.value|
    ensures rows.Some? ==> forall i :: 0 <= i < |qs| ==>
      qs[i].question == rows.value[i] && qs[i].formattedCreatedAt == FormatDate(parse(rows.value[i].createdAt))
  {
    var list := rows.GetOr([]);
    seq(|list|, i requires 0 <= i < |list| => Decorated(list[i], FormatDate(parse(list[i].createdAt))))
  }

  /** `answersData.reduce((acc, item) => { acc[item.question_id] = item.answer; return acc }, acc)` */
  function FoldAnswers(acc: map<int, string>, rows: seq<AnswerRow>): map<int, string>
    decreases |rows|
  {
    if rows == [] then acc else FoldAnswers(acc[rows[0].questionId := rows[0].answer], rows[1..])
  }

  /** Question ids appearing in the rows. */
  function QuestionIds(rows: seq<AnswerRow>): set<int>
  {
    set i | 0 <= i < |rows| :: rows[i].questionId
  }

  /** Reference reading of the fold: the answer of the last row for question `q`. */
  function LastAnswer(rows: seq<AnswerRow>, q: int): Option<string>
    decreases |rows|
  {
    if rows == [] then None
    else if rows[|rows| - 1].questionId == q then Some(rows[|rows| - 1].answer)
    else LastAnswer(rows[..|rows| - 1], q)
  }

  /** The map built from the answer rows, empty for null or empty data. */
  function AnswerMap(rows: Option<seq<AnswerRow>>): map<int, string>
  {
    if rows.Some? && |rows.value| > 0 then FoldAnswers(map[], rows.value) else map[]
  }

  function GetServerSideProps(
    user: Option<User>,
    questions: Query<seq<QuestionRow>>,
    answers: Query<seq<AnswerRow>>,
    parse: string -> DateReading
  ): (p: Page)
    ensures 1 <= |p.queries| <= 2 && p.queries[0] == QuestionsQuery
    ensures |p.queries| == 2 <==> user.Some? && questions.Data?
    ensures |p.queries| == 2 ==> p.queries[1] == AnswersQuery(user.value.id)
    ensures p.props.error.Some? ==> p.props.questions == [] && p.props.userAnswers == map[]
  {
    match questions
    case Failed(e) => Page(Fallback(e), [QuestionsQuery])
    case Data(rows) =>
      var decorated := Decorate(rows, parse);
      if user.None? then
        Page(Props(decorated, map[], None), [QuestionsQuery])
      else
        var calls := [QuestionsQuery, AnswersQuery(user.value.id)];
        match answers
        case Failed(e) => Page(Fallback(e), calls)
        case Data(answerRows) => Page(Props(decorated, AnswerMap(answerRows), None), calls)
  }

  /** The catch block: no questions, no answers, and a message. */
  function Fallback(e: StoreError): (p: Props)
    ensures p.questions == [] && p.userAnswers == map[] && p.error.Some?
    ensures e.isErrorInstance ==> p.error == Some(e.message)
    ensures !e.isErrorInstance ==> p.error == Some(LoadFailed)
  {
    Props([], map[], Some(MessageOr(AsThrown(e), LoadFailed)))
  }

  /** Folding rows into a map keeps the keys already there and adds exactly the rows' question
      ids; a key with rows takes the last row's answer, any other key keeps its value. */
  lemma {:induction false} FoldAnswersLastWins(acc: map<int, string>, rows: seq<AnswerRow>)
    ensures FoldAnswers(acc, rows).Keys == acc.Keys + QuestionIds(rows)
    ensures forall q :: q in QuestionIds(rows) ==> LastAnswer(rows, q) == Some(FoldAnswers(acc, rows)[q])
    ensures forall q :: q in acc && q !in QuestionIds(rows) ==> FoldAnswers(acc, rows)[q] == acc[q]
    decreases |rows|
  {
    if rows != [] {
      var acc' := acc[rows[0].questionId := rows[0].answer];
      var tail := rows[1..];
      FoldAnswersLastWins(acc', tail);
      assert QuestionIds(rows) == {rows[0].questionId} + QuestionIds(tail) by {
        forall q | q in QuestionIds(rows) ensures q in {rows[0].questionId} + QuestionIds(tail) {
          var i :| 0 <= i < |rows| && rows[i].questionId == q;
          if i > 0 { assert tail[i - 1] == rows[i]; }
        }
        forall q | q in QuestionIds(tail) ensures q in QuestionIds(rows) {
          var i :| 0 <= i < |tail| && tail[i].questionId == q;
          assert rows[i + 1] == tail[i];
        }
      }
      forall q | q in QuestionIds(rows)
        ensures LastAnswer(rows, q) == Some(FoldAnswers(acc, rows)[q])
      {
        if q in QuestionIds(tail) {
          LastAnswerOfTail(rows, q);
        } else {
          assert q == rows[0].questionId;
          LastAnswerOfHead(rows, q);
        }
      }
    }
  }

  /** If the tail has a row for `q`, the last such row is the tail's. */
  lemma {:induction false} LastAnswerOfTail(rows: seq<AnswerRow>, q: int)
    requires rows != [] && q in QuestionIds(rows[1..])
    ensures LastAnswer(rows, q) == LastAnswer(rows[1..], q)
    decreases |rows|
  {
    var tail := rows[1..];
    if tail[|tail| - 1].questionId != q {
      assert rows[..|rows| - 1][1..] == tail[..|tail| - 1];
      assert q in QuestionIds(tail[..|tail| - 1]) by {
        var i :| 0 <= i < |tail| && tail[i].questionId == q;
        assert tail[..|tail| - 1][i] == tail[i];
      }
      LastAnswerOfTail(rows[..|rows| - 1], q);
    }
  }

  /** If only the head has a row for `q`, the last such row is the head. */
  lemma {:induction false} LastAnswerOfHead(rows: seq<AnswerRow>, q: int)
    requires rows != [] && rows[0].questionId == q && q !in QuestionIds(rows[1..])
    ensures LastAnswer(rows, q) == Some(rows[0].answer)
    decreases |rows|
  {
    if |rows| > 1 {
      assert rows[|rows| - 1] == rows[1..][|rows| - 2];
      var init := rows[..|rows| - 1];
      assert init[0] == rows[0];
      assert q !in QuestionIds(init[1..]) by {
        forall i | 0 <= i < |init[1..]| ensures init[1..][i].questionId != q {
          assert init[1..][i] == rows[1..][i];
        }
      }
      LastAnswerOfHead(init, q);
    }
  }

  /** The answers map has a key for exactly the question ids in the rows, and under each key
      the answer of the last row with that id. */
  lemma AnswerMapLastWriteWins(rows: seq<AnswerRow>)
    ensures AnswerMap(Some(rows)).Keys == QuestionIds(rows)
    ensures forall q :: q in QuestionIds(rows) ==> LastAnswer(rows, q) == Some(AnswerMap(Some(rows))[q])
  {
    FoldAnswersLastWins(map[], rows);
  }

  /** Without a signed-in user only the questions are queried and the answers map is empty. */
  lemma SignedOutSkipsAnswers(questions: Query<seq<QuestionRow>>, answers: Query<seq<AnswerRow>>, parse: string -> DateReading)
    ensures var p := GetServerSideProps(None, questions, answers, parse);
      && p.queries == [QuestionsQuery]
      && p.props.userAnswers == map[]
  {
  }

  /** On success the page carries every queried question in query order, each with its
      formatted date, and no error. */
  lemma SuccessKeepsQuestions(user: Option<User>, questions: Query<seq<QuestionRow>>, answers: Query<seq<AnswerRow>>, parse: string -> DateReading)
    requires questions.Data? && (user.Some? ==> answers.Data?)
    ensures var p := GetServerSideProps(user, questions, answers, parse).props;
      && p.error == None
      && |p.questions| == |questions.data.GetOr([])|
      && (forall i :: 0 <= i < |p.questions| ==>
            p.questions[i].question == questions.data.value[i]
            && p.questions[i].formattedCreatedAt == FormatDate(parse(questions.data.value[i].createdAt)))
      && (user.Some? ==> p.userAnswers == AnswerMap(answers.data))
  {
  }

  /** Any failed query gives the all-or-nothing fallback: no questions, no answers, an error;
      and a page without an error is exactly a page whose queries all succeeded. */
  lemma AnyFailureFallsBack(user: Option<User>, questions: Query<seq<QuestionRow>>, answers: Query<seq<AnswerRow>>, parse: string -> DateReading)
    ensures var p := GetServerSideProps(user, questions, answers, parse).props;
      && (p.error.Some? <==> questions.Failed? || (user.Some? && answers.Failed?))
      && (p.error.Some? ==> p.questions == [] && p.userAnswers == map[])
  {
  }
}
