/**
 How the flat rows of the question query become the questions of a quest
 attempt: the grouping loop neither loses, repeats nor reorders anything.
 */
module QuestQuestions {
  import opened Wrappers
  import opened SessionRows

  /** One row of the join of questions, options and the attempt's answers. */
  datatype Row = Row(question: Uuid, position: int, prompt: string, selected: Option<Uuid>, choice: Choice)
  datatype Choice = Choice(id: Uuid, position: int, caption: string)
  datatype Question = Question(id: Uuid, position: int, prompt: string, selected: Option<Uuid>, options: seq<Choice>)

  function Header(r: Row): (Uuid, int, string, Option<Uuid>) { (r.question, r.position, r.prompt, r.selected) }

  /** Rows of one question carry the same question. */
  predicate SameHeaders(rows: seq<Row>) {
    forall i, j | 0 <= i < |rows| && 0 <= j < |rows| && rows[i].question == rows[j].question ::
      Header(rows[i]) == Header(rows[j])
  }

  /** ORDER BY question.position, question.id. */
  predicate InQuestionOrder(rows: seq<Row>) {
    forall i, j | 0 <= i < j < |rows| ::
      rows[i].position < rows[j].position
        || (rows[i].position == rows[j].position && rows[i].question <= rows[j].question)
  }

  /** The rows of each question are next to each other. */
  predicate Clustered(rows: seq<Row>) {
    forall i, j, k | 0 <= i < j < k < |rows| && rows[i].question == rows[k].question ::
      rows[j].question == rows[i].question
  }

  lemma OrderedRowsAreClustered(rows: seq<Row>)
    requires SameHeaders(rows) && InQuestionOrder(rows)
    ensures Clustered(rows)
  {
    forall i, j, k | 0 <= i < j < k < |rows| && rows[i].question == rows[k].question
      ensures rows[j].question == rows[i].question
    {
      assert Header(rows[i]) == Header(rows[k]);
    }
  }

  function QuestionRows(q: Question): seq<Row> {
    seq(|q.options|, i requires 0 <= i < |q.options| => Row(q.id, q.position, q.prompt, q.selected, q.options[i]))
  }

  /** The rows a list of questions stands for. */
  function Flatten(questions: seq<Question>): seq<Row> {
    if questions == [] then [] else Flatten(questions[..|questions| - 1]) + QuestionRows(questions[|questions| - 1])
  }

  /** The options listed for one question, in row order. */
  function OptionsOf(rows: seq<Row>, question: Uuid): seq<Choice> {
    if rows == [] then [] else
      var last := rows[|rows| - 1];
      OptionsOf(rows[..|rows| - 1], question) + if last.question == question then [last.choice] else []
  }

  function Values(order: seq<Uuid>, byId: map<Uuid, Question>): (values: seq<Question>)
    requires forall id | id in order :: id in byId
  {
    seq(|order|, i requires 0 <= i < |order| => byId[order[i]])
  }

  /** The map's insertion order lists its keys, each once. */
  ghost predicate Indexes(order: seq<Uuid>, byId: map<Uuid, Question>) {
    && (forall i, j | 0 <= i < j < |order| :: order[i] != order[j])
    && (forall id :: id in order <==> id in byId)
  }

  /** The questions grouped so far have the options of exactly the rows read so far. */
  ghost predicate Groups(byId: map<Uuid, Question>, rows: seq<Row>) {
    && (forall id | id in byId ::
         byId[id].id == id && byId[id].options == OptionsOf(rows, id) && byId[id].options != [])
    && (forall r | r in rows :: r.question in byId)
  }

  ghost predicate Lossless(order: seq<Uuid>, byId: map<Uuid, Question>, rows: seq<Row>)
    requires forall id | id in order :: id in byId
  {
    && Flatten(Values(order, byId)) == rows
    && (rows != [] ==> order != [] && order[|order| - 1] == rows[|rows| - 1].question)
  }

  method GroupQuestions(rows: seq<Row>) returns (questions: seq<Question>)
    ensures forall i, j | 0 <= i < j < |questions| :: questions[i].id != questions[j].id
    ensures forall q | q in questions :: q.options == OptionsOf(rows, q.id) && q.options != []
    ensures forall r | r in rows :: exists q :: q in questions && q.id == r.question
    ensures SameHeaders(rows) && InQuestionOrder(rows) ==> Flatten(questions) == rows
  {
    hide Flatten, OptionsOf, SameHeaders, InQuestionOrder, Clustered, Groups, Lossless;
    var order: seq<Uuid> := [];
    var byId: map<Uuid, Question> := map[];
    NothingRead();
    ghost var ordered := SameHeaders(rows) && InQuestionOrder(rows);
    if ordered { OrderedRowsAreClustered(rows); }
    for i := 0 to |rows|
      invariant Indexes(order, byId) && Groups(byId, rows[..i])
      invariant ordered ==> Lossless(order, byId, rows[..i])
    {
      var row := rows[i];
      ghost var order0, byId0 := order, byId;
      assert rows[..i + 1] == rows[..i] + [row];
      if row.question !in byId {
        order := order + [row.question];
        byId := byId[row.question := NewQuestion(row)];
      }
      var q := byId[row.question];
      byId := byId[row.question := q.(options := q.options + [row.choice])];
      AddRow(order0, byId0, rows[..i], row);
      if ordered { AddRowLossless(order0, byId0, rows, i); }
      assert byId == Add(byId0, row);
    }
    assert rows[..|rows|] == rows;
    questions := Values(order, byId);
    AllGrouped(order, byId, rows);
    if ordered { AllRead(order, byId, rows); }
  }

  lemma AllRead(order: seq<Uuid>, byId: map<Uuid, Question>, rows: seq<Row>)
    ensures Indexes(order, byId) && Lossless(order, byId, rows) ==> Flatten(Values(order, byId)) == rows
  {}

  function NewQuestion(row: Row): Question { Question(row.question, row.position, row.prompt, row.selected, []) }

  /** The map and its order after one more row. */
  function Add(byId: map<Uuid, Question>, row: Row): map<Uuid, Question> {
    var q := if row.question in byId then byId[row.question] else NewQuestion(row);
    byId[row.question := q.(options := q.options + [row.choice])]
  }

  function Extend(order: seq<Uuid>, byId: map<Uuid, Question>, row: Row): seq<Uuid> {
    if row.question in byId then order else order + [row.question]
  }

  lemma NothingRead()
    ensures Indexes([], map[]) && Groups(map[], []) && Lossless([], map[], [])
  {}

  lemma AllGrouped(order: seq<Uuid>, byId: map<Uuid, Question>, rows: seq<Row>)
    requires Indexes(order, byId) && Groups(byId, rows)
    ensures
      var questions := Values(order, byId);
      && (forall i, j | 0 <= i < j < |questions| :: questions[i].id != questions[j].id)
      && (forall q | q in questions :: q.options == OptionsOf(rows, q.id) && q.options != [])
      && (forall r | r in rows :: exists q :: q in questions && q.id == r.question)
  {
    var questions := Values(order, byId);
    forall r | r in rows ensures exists q :: q in questions && q.id == r.question {
      var i :| 0 <= i < |order| && order[i] == r.question;
      assert questions[i].id == r.question;
    }
  }

  lemma {:induction false} NoOptions(rows: seq<Row>, id: Uuid)
    requires forall r | r in rows :: r.question != id
    ensures OptionsOf(rows, id) == []
  {
    if rows != [] { NoOptions(rows[..|rows| - 1], id); }
  }

  lemma AddRow(order: seq<Uuid>, byId: map<Uuid, Question>, rows: seq<Row>, row: Row)
    requires Indexes(order, byId) && Groups(byId, rows)
    ensures Indexes(Extend(order, byId, row), Add(byId, row)) && Groups(Add(byId, row), rows + [row])
  {
    assert (rows + [row])[..|rows|] == rows;
    if row.question !in byId { NoOptions(rows, row.question); }
  }

  lemma {:induction false} AddRowLossless(order: seq<Uuid>, byId: map<Uuid, Question>, rows: seq<Row>, i: nat)
    requires i < |rows| && SameHeaders(rows) && Clustered(rows)
    requires Indexes(order, byId) && Groups(byId, rows[..i]) && Lossless(order, byId, rows[..i])
    ensures Lossless(Extend(order, byId, rows[i]), Add(byId, rows[i]), rows[..i] + [rows[i]])
  {
    if rows[i].question in byId {
      SeenRow(byId, rows[..i], rows[i].question);
      var k :| 0 <= k < i && rows[..i][k].question == rows[i].question;
      if k < i - 1 { assert rows[i - 1].question == rows[k].question; }
      assert Header(rows[i - 1]) == Header(rows[i]);
      assert rows[..i][|rows[..i]| - 1] == rows[i - 1];
      hide Flatten, OptionsOf, SameHeaders, Clustered;
      ExtendLast(order, byId, rows[..i], rows[i]);
    } else {
      hide OptionsOf, SameHeaders, Clustered;
      StartQuestion(order, byId, rows[..i], rows[i]);
    }
  }

  lemma StartQuestion(order: seq<Uuid>, byId: map<Uuid, Question>, rows: seq<Row>, row: Row)
    requires Indexes(order, byId) && Lossless(order, byId, rows) && row.question !in byId
    ensures Lossless(order + [row.question], Add(byId, row), rows + [row])
  {
    var values := Values(order + [row.question], Add(byId, row));
    assert values[..|order|] == Values(order, byId);
    assert QuestionRows(values[|order|]) == [row];
  }

  /** A row of the last question extends that question. */
  lemma ExtendLast(order: seq<Uuid>, byId: map<Uuid, Question>, rows: seq<Row>, row: Row)
    requires Indexes(order, byId) && Groups(byId, rows) && Lossless(order, byId, rows)
    requires rows != [] && Header(rows[|rows| - 1]) == Header(row)
    ensures Indexes(order, Add(byId, row)) && Lossless(order, Add(byId, row), rows + [row])
  {
    hide OptionsOf, Flatten, SameHeaders, Clustered;
    LastHeader(Values(order, byId), rows);
    SameLast(order, byId, row);
    hide Groups, Header, QuestionRows;
    ExtendedRows(Values(order, byId)[|order| - 1], row);
    FlattenExtended(Values(order, byId), Values(order, Add(byId, row)), row);
  }

  lemma ExtendedRows(q: Question, row: Row)
    ensures (q.id, q.position, q.prompt, q.selected) == Header(row) ==>
      QuestionRows(q.(options := q.options + [row.choice])) == QuestionRows(q) + [row]
  {}

  lemma FlattenExtended(was: seq<Question>, now: seq<Question>, row: Row)
    requires |now| == |was| > 0 && now[..|was| - 1] == was[..|was| - 1]
    requires QuestionRows(now[|was| - 1]) == QuestionRows(was[|was| - 1]) + [row]
    ensures Flatten(now) == Flatten(was) + [row]
  {
    hide QuestionRows;
  }

  lemma {:induction false} SeenRow(byId: map<Uuid, Question>, rows: seq<Row>, id: Uuid)
    requires Groups(byId, rows) && id in byId
    ensures exists k :: 0 <= k < |rows| && rows[k].question == id
  {
    if forall r | r in rows :: r.question != id { NoOptions(rows, id); }
  }

  lemma SameLast(order: seq<Uuid>, byId: map<Uuid, Question>, row: Row)
    requires Indexes(order, byId) && order != [] && order[|order| - 1] == row.question
    ensures Indexes(order, Add(byId, row))
    ensures Values(order, Add(byId, row))[..|order| - 1] == Values(order, byId)[..|order| - 1]
  {}

  /** The last question is the one of the last row. */
  lemma {:induction false} LastHeader(questions: seq<Question>, rows: seq<Row>)
    requires rows != [] && questions != [] && Flatten(questions) == rows && questions[|questions| - 1].options != []
    ensures
      var q, r := questions[|questions| - 1], rows[|rows| - 1];
      Header(r) == (q.id, q.position, q.prompt, q.selected)
  {
    var q := questions[|questions| - 1];
    assert rows[|rows| - 1] == QuestionRows(q)[|q.options| - 1];
  }
}
