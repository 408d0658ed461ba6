/**
 The answer-saving route, pages/api/user-answers.ts: POST only, both fields
 present, then "look the answer up by question; update it if found, else
 insert one". The `user_answers` table is a sequence of rows; the store's
 `.single()` lookup finds a row only when exactly one row matches, and its
 failure is not inspected by the handler, which then inserts.
 */
module UserAnswersApi {
  import opened Js
  import opened ApiResponse

  datatype Row = Row(id: nat, questionId: int, content: string)

  type Table = seq<Row>

  /** The request method and the two body fields; `None` is a missing field. */
  datatype Request = Request(httpMethod: string, questionId: Option<int>, content: Option<string>)

  /** What the store does besides following the table: the lookup can fail (network,
      permissions), and a write can report an error message. */
  datatype Faults = Faults(lookupFails: bool, writeError: Option<string>)

  datatype StoreCall = LookupByQuestion(questionId: int) | UpdateById(id: nat) | Insert(questionId: int)

  /** The reply, the table afterwards, and the store calls made, in order. */
  datatype Outcome = Outcome(reply: Reply<Content<string>>, table: Table, calls: seq<StoreCall>)

  const OnlyPost := "只支持 POST 请求"
  const FieldsRequired := "题目ID和回答内容不能为空"
  const Saved := "回答保存成功"

  /** Rows answering question `q`, in table order. */
  function RowsFor(t: Table, q: int): (rs: seq<Row>)
    ensures |rs| <= |t|
    ensures forall r :: r in rs <==> r in t && r.questionId == q
  {
    if t == [] then []
    else (if t[0].questionId == q then [t[0]] else []) + RowsFor(t[1..], q)
  }

  /** An id larger than every id in the table, as the table's identity column hands out. */
  function FreshId(t: Table): (id: nat)
    ensures forall r :: r in t ==> r.id < id
  {
    if t == [] then 1
    else
      var rest := FreshId(t[1..]);
      assert forall r :: r in t[1..] ==> r.id < rest;
      if t[0].id < rest then rest else t[0].id + 1
  }

  /** `.select('id').eq('question_id', q).single()`: the id of the one matching row, and
      nothing when the lookup fails or when zero or several rows match. */
  function SingleIdFor(t: Table, q: int, fails: bool): (r: Option<nat>)
    ensures r.Some? <==> !fails && |RowsFor(t, q)| == 1
    ensures r.Some? ==> exists row :: row in t && row.questionId == q && row.id == r.value
  {
    var rs := RowsFor(t, q);
    if !fails && |rs| == 1 then
      assert rs[0] in rs;
      Some(rs[0].id)
    else None
  }

  /** `.update({ content }).eq('id', id)` */
  function UpdateContent(t: Table, id: nat, content: string): (t': Table)
    ensures |t'| == |t|
    ensures forall i :: 0 <= i < |t| ==>
      t'[i] == if t[i].id == id then t[i].(content := content) else t[i]
  {
    if t == [] then [] else
      (if t[0].id == id then [t[0].(content := content)] else [t[0]]) + UpdateContent(t[1..], id, content)
  }

  /** The route. It answers 405, 400, 500 or 200; it touches the store only for a POST with
      both fields, and then looks the question up before writing once; and the table changes
      only on a 200. */
  function Handle(req: Request, t: Table, faults: Faults): (o: Outcome)
    ensures o.reply.status in {200, 400, 405, 500}
    ensures o.reply.status == 405 <==> req.httpMethod != "POST"
    ensures o.calls != [] <==> req.httpMethod == "POST" && TruthyNumber(req.questionId) && Truthy(req.content)
    ensures o.calls != [] ==> |o.calls| == 2 && o.calls[0] == LookupByQuestion(req.questionId.value)
    ensures o.table != t ==> o.reply.status == 200
  {
    if req.httpMethod != "POST" then
      Outcome(Reply(405, Bare(OnlyPost)), t, [])
    else if !TruthyNumber(req.questionId) || !Truthy(req.content) then
      Outcome(ErrorResponse(400, FieldsRequired, None), t, [])
    else
      var q, c := req.questionId.value, req.content.value;
      var existing := SingleIdFor(t, q, faults.lookupFails);
      var (written, call) :=
        if existing.Some? then (UpdateContent(t, existing.value, c), UpdateById(existing.value))
        else (t + [Row(FreshId(t), q, c)], Insert(q));
      var calls := [LookupByQuestion(q), call];
      if faults.writeError.Some? then
        Outcome(ErrorResponse(500, faults.writeError.value, None), t, calls)
      else
        Outcome(SuccessResponse(Content(Saved), None), written, calls)
  }

  /** At most one row per question: the shape the handler's lookup relies on. */
  predicate OnePerQuestion(t: Table)
  {
    forall i, j :: 0 <= i < j < |t| ==> t[i].questionId != t[j].questionId
  }

  /** Row ids are distinct, as the table's primary key guarantees. */
  predicate DistinctIds(t: Table)
  {
    forall i, j :: 0 <= i < j < |t| ==> t[i].id != t[j].id
  }

  /** The content stored for question `q` when exactly one row answers it. */
  function StoredAnswer(t: Table, q: int): Option<string>
  {
    var rs := RowsFor(t, q);
    if |rs| == 1 then Some(rs[0].content) else None
  }

  /** A request other than POST gets 405 with a bare `{ message }` body, and the store is
      not touched. */
  lemma NonPostRejected(req: Request, t: Table, faults: Faults)
    requires req.httpMethod != "POST"
    ensures var o := Handle(req, t, faults);
      && o.reply == Reply(405, Bare(OnlyPost))
      && o.table == t && o.calls == []
  {
  }

  /** A POST whose question id or content is missing or falsy gets 400 in the envelope,
      and the store is not touched. */
  lemma MissingFieldRejected(req: Request, t: Table, faults: Faults)
    requires req.httpMethod == "POST"
    requires !TruthyNumber(req.questionId) || !Truthy(req.content)
    ensures var o := Handle(req, t, faults);
      && o.reply.status == 400 && Mirrored(o.reply)
      && o.reply.body.message == FieldsRequired && o.reply.body.error == Some(FieldsRequired)
      && o.table == t && o.calls == []
  {
  }

  /** Valid POSTs always look the question up first and then write exactly once; a write
      error leaves the table as it was and answers 500 with the error's message. */
  lemma WriteErrorReported(req: Request, t: Table, faults: Faults)
    requires req.httpMethod == "POST" && TruthyNumber(req.questionId) && Truthy(req.content)
    requires faults.writeError.Some?
    ensures var o := Handle(req, t, faults);
      && o.reply.status == 500 && o.reply.body.message == faults.writeError.value
      && o.table == t
      && |o.calls| == 2 && o.calls[0] == LookupByQuestion(req.questionId.value)
  {
  }

  /** When the lookup finds the question's one row, the save replaces that row's content
      and nothing else, and answers 200 with the fixed confirmation. */
  lemma ExistingAnswerUpdated(req: Request, t: Table, faults: Faults)
    requires req.httpMethod == "POST" && TruthyNumber(req.questionId) && Truthy(req.content)
    requires faults == Faults(false, None)
    requires DistinctIds(t)
    requires |RowsFor(t, req.questionId.value)| == 1
    ensures var o := Handle(req, t, faults);
      && o.reply.status == 200 && o.reply.body.data == Some(Content(Saved))
      && |o.table| == |t|
      && (forall i :: 0 <= i < |t| && t[i].questionId != req.questionId.value ==> o.table[i] == t[i])
      && (forall i :: 0 <= i < |t| && t[i].questionId == req.questionId.value ==>
            o.table[i] == t[i].(content := req.content.value))
      && o.calls[1].UpdateById?
  {
    var q := req.questionId.value;
    var id := SingleIdFor(t, q, false).value;
    var row :| row in t && row.questionId == q && row.id == id;
    forall i | 0 <= i < |t|
      ensures t[i].id == id <==> t[i].questionId == q
    {
      var k :| 0 <= k < |t| && t[k] == row;
      if t[i].id == id {
        assert i == k;
      } else if t[i].questionId == q {
        assert t[i] in RowsFor(t, q) && row in RowsFor(t, q);
        OneRowIsUnique(RowsFor(t, q), t[i], row);
      }
    }
  }

  lemma OneRowIsUnique(rs: seq<Row>, a: Row, b: Row)
    requires |rs| == 1 && a in rs && b in rs
    ensures a == b
  {
  }

  /** When the lookup finds nothing — no row, several rows, or a failed lookup alike — the
      save appends a new row for the question and keeps every existing row. */
  lemma NotFoundInserts(req: Request, t: Table, faults: Faults)
    requires req.httpMethod == "POST" && TruthyNumber(req.questionId) && Truthy(req.content)
    requires faults.writeError.None?
    requires faults.lookupFails || |RowsFor(t, req.questionId.value)| != 1
    ensures var o := Handle(req, t, faults);
      && o.reply.status == 200
      && o.table[..|t|] == t
      && |o.table| == |t| + 1
      && o.table[|t|].questionId == req.questionId.value
      && o.table[|t|].content == req.content.value
      && o.calls == [LookupByQuestion(req.questionId.value), Insert(req.questionId.value)]
  {
  }

  /** The fall-through, stated exactly: a failed lookup of a question that already has its
      one row leads to a second row for it, so the table stops having one row per question. */
  lemma FailedLookupDuplicates(req: Request, t: Table)
    requires req.httpMethod == "POST" && TruthyNumber(req.questionId) && Truthy(req.content)
    requires |RowsFor(t, req.questionId.value)| == 1
    ensures var o := Handle(req, t, Faults(true, None));
      && o.reply.status == 200
      && !OnePerQuestion(o.table)
  {
    var q := req.questionId.value;
    var o := Handle(req, t, Faults(true, None));
    var rs := RowsFor(t, q);
    assert rs[0] in rs;
    var k :| 0 <= k < |t| && t[k] == rs[0];
    assert o.table[k] == t[k];
    assert o.table[k].questionId == o.table[|t|].questionId;
  }

  /** Rows answering other questions are the same before and after any request. */
  lemma OtherQuestionsUntouched(req: Request, t: Table, faults: Faults, other: int)
    requires DistinctIds(t)
    requires req.questionId.Some? ==> other != req.questionId.value
    ensures RowsFor(Handle(req, t, faults).table, other) == RowsFor(t, other)
  {
    var o := Handle(req, t, faults);
    if req.httpMethod == "POST" && TruthyNumber(req.questionId) && Truthy(req.content) && faults.writeError.None? {
      var q, c := req.questionId.value, req.content.value;
      var existing := SingleIdFor(t, q, faults.lookupFails);
      if existing.Some? {
        var row :| row in t && row.questionId == q && row.id == existing.value;
        UpdateKeepsOthers(t, existing.value, c, other, row);
      } else {
        RowsForAppend(t, Row(FreshId(t), q, c), other);
      }
    }
  }

  lemma {:induction false} UpdateKeepsOthers(t: Table, id: nat, c: string, other: int, row: Row)
    requires DistinctIds(t)
    requires row in t && row.id == id && row.questionId != other
    ensures RowsFor(UpdateContent(t, id, c), other) == RowsFor(t, other)
    decreases |t|
  {
    if t != [] {
      var t' := UpdateContent(t, id, c);
      assert t'[1..] == UpdateContent(t[1..], id, c);
      if t[0] == row {
        assert forall i :: 0 <= i < |t[1..]| ==> t[1..][i].id != id;
        NoMatchUnchanged(t[1..], id, c);
      } else {
        assert t[0].id != id by {
          var k :| 0 <= k < |t| && t[k] == row;
          assert k != 0;
        }
        DistinctIdsTail(t);
        UpdateKeepsOthers(t[1..], id, c, other, row);
      }
    }
  }

  lemma DistinctIdsTail(t: Table)
    requires t != [] && DistinctIds(t)
    ensures DistinctIds(t[1..])
  {
    assert forall i, j :: 0 <= i < j < |t[1..]| ==> t[1..][i] == t[i + 1] && t[1..][j] == t[j + 1];
  }

  lemma NoMatchUnchanged(t: Table, id: nat, c: string)
    requires forall i :: 0 <= i < |t| ==> t[i].id != id
    ensures UpdateContent(t, id, c) == t
  {
  }

  lemma {:induction false} RowsForAppend(t: Table, row: Row, q: int)
    ensures RowsFor(t + [row], q) == RowsFor(t, q) + (if row.questionId == q then [row] else [])
    decreases |t|
  {
    if t != [] {
      assert (t + [row])[1..] == t[1..] + [row];
      RowsForAppend(t[1..], row, q);
    } else {
      assert RowsFor([row], q) == (if row.questionId == q then [row] else []) + RowsFor([], q);
    }
  }

  /** Saving into a table with one row per question keeps it that way when the lookup
      works, and afterwards the question's stored answer is the content just saved. */
  lemma SaveThenRead(req: Request, t: Table)
    requires req.httpMethod == "POST" && TruthyNumber(req.questionId) && Truthy(req.content)
    requires OnePerQuestion(t) && DistinctIds(t)
    ensures var o := Handle(req, t, Faults(false, None));
      && OnePerQuestion(o.table)
      && StoredAnswer(o.table, req.questionId.value) == req.content
  {
    OneRowAtMost(t, req.questionId.value);
    if |RowsFor(t, req.questionId.value)| == 1 {
      SaveOverExisting(req, t);
    } else {
      SaveAsNew(req, t);
    }
  }

  lemma SaveOverExisting(req: Request, t: Table)
    requires req.httpMethod == "POST" && TruthyNumber(req.questionId) && Truthy(req.content)
    requires OnePerQuestion(t) && DistinctIds(t)
    requires |RowsFor(t, req.questionId.value)| == 1
    ensures var o := Handle(req, t, Faults(false, None));
      && OnePerQuestion(o.table)
      && StoredAnswer(o.table, req.questionId.value) == req.content
  {
    var q, c := req.questionId.value, req.content.value;
    var o := Handle(req, t, Faults(false, None));
    var k :| 0 <= k < |t| && t[k] == RowsFor(t, q)[0] by {
      assert RowsFor(t, q)[0] in RowsFor(t, q);
    }
    assert |o.table| == |t| && o.table[k] == t[k].(content := c)
      && forall i :: 0 <= i < |t| ==> o.table[i].questionId == t[i].questionId by {
      ExistingAnswerUpdated(req, t, Faults(false, None));
    }
    assert OnePerQuestion(o.table) by {
      forall i, j | 0 <= i < j < |o.table|
        ensures o.table[i].questionId != o.table[j].questionId
      {
        assert t[i].questionId != t[j].questionId;
      }
    }
    var rs := RowsFor(o.table, q);
    assert |rs| == 1 && rs[0] == o.table[k] by {
      OneRowAtMost(o.table, q);
      assert o.table[k] in rs;
      OneRowIsUnique(rs, rs[0], o.table[k]);
    }
    assert StoredAnswer(o.table, q) == Some(o.table[k].content);
  }

  lemma SaveAsNew(req: Request, t: Table)
    requires req.httpMethod == "POST" && TruthyNumber(req.questionId) && Truthy(req.content)
    requires OnePerQuestion(t)
    requires |RowsFor(t, req.questionId.value)| == 0
    ensures var o := Handle(req, t, Faults(false, None));
      && OnePerQuestion(o.table)
      && StoredAnswer(o.table, req.questionId.value) == req.content
  {
    var q, c := req.questionId.value, req.content.value;
    var o := Handle(req, t, Faults(false, None));
    assert forall r :: r in t ==> r.questionId != q;
    RowsForAppend(t, Row(FreshId(t), q, c), q);
    assert o.table == t + [Row(FreshId(t), q, c)];
    forall i, j | 0 <= i < j < |o.table|
      ensures o.table[i].questionId != o.table[j].questionId
    {
      if j == |t| {
        assert o.table[i] == t[i] && t[i] in t;
      }
    }
  }

  /** A table with one row per question has at most one row for any question. */
  lemma {:induction false} OneRowAtMost(t: Table, q: int)
    requires OnePerQuestion(t)
    ensures |RowsFor(t, q)| <= 1
    decreases |t|
  {
    if t != [] {
      assert OnePerQuestion(t[1..]) by {
        assert forall i, j :: 0 <= i < j < |t[1..]| ==> t[1..][i] == t[i + 1] && t[1..][j] == t[j + 1];
      }
      OneRowAtMost(t[1..], q);
      if t[0].questionId == q {
        assert forall r :: r in t[1..] ==> r.questionId != q by {
          forall r | r in t[1..] ensures r.questionId != q {
            var k :| 0 <= k < |t[1..]| && t[1..][k] == r;
            assert t[k + 1] == r;
          }
        }
        NoRowsWithoutMatch(t[1..], q);
      }
    }
  }

  lemma NoRowsWithoutMatch(t: Table, q: int)
    requires forall r :: r in t ==> r.questionId != q
    ensures RowsFor(t, q) == []
  {
  }
}
