/**
 What a processor answers to the rows of one message, and what Connection.process makes
 of the answers (commons/processor.py, commons/connection.py:87-162).
 */
module Answers {
  import opened Sequences
  import opened Permutations

  /** The answer to one row; Silent is None, WithEof is SEND_EOF, and Raises an exception. */
  datatype Response<R> = Silent | Single(row: R) | Multiple(rows: seq<R>) | NotReady | WithEof(row: R) | Raises

  /** What processing a message comes to: rows to send on, perhaps with an EOF behind them,
      or the first answer that stops it. */
  datatype Processed<R> = Rows(rows: seq<R>, sendEof: bool) | Unready | Failed

  function Answer<R>(rows: seq<R>, sendEof: bool, answer: Response<R>): Processed<R> {
    match answer
    case Silent => Rows(rows, sendEof)
    case Single(r) => Rows(rows + [r], sendEof)
    case Multiple(rs) => Rows(rows + rs, sendEof)
    case NotReady => Unready
    case WithEof(r) => Rows(rows + [r], true)
    case Raises => Failed
  }

  function ProcessedBy<R>(answers: seq<Response<R>>): Processed<R> {
    if answers == [] then Rows([], false)
    else
      match ProcessedBy(answers[..|answers| - 1])
      case Rows(rows, sendEof) => Answer(rows, sendEof, answers[|answers| - 1])
      case other => other
  }

  // ---------- what it means ----------

  /** No answer stops the processing. */
  predicate AllGoOn<R>(answers: seq<Response<R>>) {
    forall i :: 0 <= i < |answers| ==> !answers[i].NotReady? && !answers[i].Raises?
  }

  /** The first answer that stops it is not ready. */
  predicate StopsUnready<R>(answers: seq<Response<R>>) {
    exists i :: 0 <= i < |answers| && answers[i].NotReady?
                && forall j :: 0 <= j < i ==> !answers[j].NotReady? && !answers[j].Raises?
  }

  predicate StopsRaising<R>(answers: seq<Response<R>>) {
    exists i :: 0 <= i < |answers| && answers[i].Raises?
                && forall j :: 0 <= j < i ==> !answers[j].NotReady? && !answers[j].Raises?
  }

  predicate AsksForEof<R>(answers: seq<Response<R>>) {
    exists i :: 0 <= i < |answers| && answers[i].WithEof?
  }

  /** What each answer contributes. */
  predicate Contribute<R(==)>(parts: seq<seq<R>>, answers: seq<Response<R>>) {
    |parts| == |answers| && forall i :: 0 <= i < |answers| ==>
      && (answers[i].Single? || answers[i].WithEof? ==> parts[i] == [answers[i].row])
      && (answers[i].Multiple? ==> parts[i] == answers[i].rows)
      && (answers[i].Silent? ==> parts[i] == [])
  }

  /** Every row of every answer is there, in the order of the answers. */
  ghost predicate AreRows<R(!new)>(rows: seq<R>, answers: seq<Response<R>>) {
    exists parts :: Contribute(parts, answers) && rows == Flatten(parts)
  }

  /** The outcome in terms of the answers alone. */
  ghost predicate ComesTo<R(!new)>(answers: seq<Response<R>>, p: Processed<R>) {
    match p
    case Rows(rows, sendEof) => AllGoOn(answers) && AreRows(rows, answers) && (sendEof <==> AsksForEof(answers))
    case Unready => StopsUnready(answers)
    case Failed => StopsRaising(answers)
  }

  lemma OneMoreAnswer<R>(answers: seq<Response<R>>, i: nat)
    requires i < |answers| && ProcessedBy(answers[..i]).Rows?
    ensures var p := ProcessedBy(answers[..i]); ProcessedBy(answers[..i + 1]) == Answer(p.rows, p.sendEof, answers[i])
  {
    assert answers[..i + 1][..i] == answers[..i] && answers[..i + 1][i] == answers[i];
  }

  /** Nothing after the first answer that is not ready, or raises, is looked at. */
  lemma {:induction false} Stops<R>(answers: seq<Response<R>>, i: nat)
    requires i <= |answers| && !ProcessedBy(answers[..i]).Rows?
    ensures ProcessedBy(answers) == ProcessedBy(answers[..i])
    decreases |answers| - i
  {
    if i < |answers| {
      assert answers[..i + 1][..i] == answers[..i];
      Stops(answers, i + 1);
    } else {
      assert answers[..i] == answers;
    }
  }

  /** What the answers come to is what they say, and nothing else. */
  lemma {:induction false} ProcessedMeans<R(!new)>(answers: seq<Response<R>>)
    ensures ComesTo(answers, ProcessedBy(answers))
  {
    if answers == [] {
      assert Contribute<R>([], answers);
    } else {
      var front, last := answers[..|answers| - 1], answers[|answers| - 1];
      ProcessedMeans(front);
      assert answers == front + [last];
      if ProcessedBy(front).Rows? {
        OneMoreComes(front, last, ProcessedBy(front));
      } else {
        StoppedComes(front, last, ProcessedBy(front));
      }
    }
  }

  lemma OneMoreComes<R(!new)>(front: seq<Response<R>>, last: Response<R>, p: Processed<R>)
    requires ComesTo(front, p) && p.Rows?
    ensures ComesTo(front + [last], Answer(p.rows, p.sendEof, last))
  {
    hide AreRows, AllGoOn, AsksForEof, StopsUnready, StopsRaising;
    OneMoreFlag(front, last);
    if !last.NotReady? && !last.Raises? {
      OneMorePart(front, last, p.rows);
    }
  }

  lemma OneMoreFlag<R>(front: seq<Response<R>>, last: Response<R>)
    requires AllGoOn(front)
    ensures AsksForEof(front + [last]) <==> AsksForEof(front) || last.WithEof?
    ensures AllGoOn(front + [last]) <==> !last.NotReady? && !last.Raises?
    ensures last.NotReady? ==> StopsUnready(front + [last])
    ensures last.Raises? ==> StopsRaising(front + [last])
  {
    var answers := front + [last];
    assert answers[|front|] == last && forall i :: 0 <= i < |front| ==> answers[i] == front[i];
  }

  lemma OneMorePart<R(!new)>(front: seq<Response<R>>, last: Response<R>, rows: seq<R>)
    requires AreRows(rows, front) && !last.NotReady? && !last.Raises?
    ensures AreRows(Answer(rows, false, last).rows, front + [last])
  {
    var answers := front + [last];
    assert answers[|front|] == last && forall i :: 0 <= i < |front| ==> answers[i] == front[i];
    var parts :| Contribute(parts, front) && rows == Flatten(parts);
    var part := if last.Silent? then [] else if last.Multiple? then last.rows else [last.row];
    assert Contribute(parts + [part], answers);
    FlattenAppend(parts, [part]);
    assert Flatten([part]) == part;
    NoTail(rows);
    hide Flatten, Contribute;
  }

  lemma StoppedComes<R(!new)>(front: seq<Response<R>>, last: Response<R>, p: Processed<R>)
    requires ComesTo(front, p) && !p.Rows?
    ensures ComesTo(front + [last], p)
  {
    var answers := front + [last];
    assert forall i :: 0 <= i < |front| ==> answers[i] == front[i];
  }

  /** The answers come to one thing only. */
  lemma OneOutcome<R>(answers: seq<Response<R>>)
    ensures AllGoOn(answers) ==> !StopsUnready(answers) && !StopsRaising(answers)
    ensures !(StopsUnready(answers) && StopsRaising(answers))
  {
  }

  /** The loop of Connection.process over the answers; it ends at the first one that is not
      ready, and with the exception of the first one that raises. */
  method Gather<R(!new)>(answers: seq<Response<R>>) returns (p: Processed<R>)
    ensures p == ProcessedBy(answers) && ComesTo(answers, p)
  {
    hide ProcessedBy;
    ProcessedMeans(answers);
    hide ComesTo;
    var rows, sendEof := [], false;
    assert ProcessedBy(answers[..0]) == Rows([], false) by { NoAnswers(answers); }
    for i := 0 to |answers|
      invariant ProcessedBy(answers[..i]) == Rows(rows, sendEof)
    {
      OneMoreAnswer(answers, i);
      match answers[i] {
        case Silent =>
        case Single(r) => rows := rows + [r];
        case Multiple(rs) => rows := rows + rs;
        case NotReady => Stops(answers, i + 1); return Unready;
        case WithEof(r) => rows, sendEof := rows + [r], true;
        case Raises => Stops(answers, i + 1); return Failed;
      }
    }
    assert answers[..|answers|] == answers;
    return Rows(rows, sendEof);
  }

  lemma NoAnswers<R>(answers: seq<Response<R>>)
    ensures ProcessedBy(answers[..0]) == Rows([], false)
  {
  }

  // ---------- topics ----------

  function TopicsOf<R>(rows: seq<R>, topic: R -> string): set<string> {
    set i | 0 <= i < |rows| :: topic(rows[i])
  }

  function Under<R>(topic: R -> string, t: string): R -> bool {
    (r: R) => topic(r) == t
  }

  /** One message with all the rows, or one for each topic. */
  function MessagesFor<R>(rows: seq<R>, topic: Option<R -> string>): nat {
    if rows == [] then 0 else if topic.None? then 1 else |TopicsOf(rows, topic.value)|
  }

  /** The messages that processing sends. */
  function Outputs<R>(p: Processed<R>, topic: Option<R -> string>): nat {
    if p.Rows? then MessagesFor(p.rows, topic) else 0
  }

  lemma TopicsGrow<R>(rows: seq<R>, i: nat, topic: R -> string)
    requires i < |rows|
    ensures TopicsOf(rows[..i + 1], topic) == TopicsOf(rows[..i], topic) + {topic(rows[i])}
    ensures forall t :: Filter(rows[..i + 1], Under(topic, t))
                     == Filter(rows[..i], Under(topic, t)) + (if topic(rows[i]) == t then [rows[i]] else [])
    ensures forall t :: t !in TopicsOf(rows[..i], topic) ==> Filter(rows[..i], Under(topic, t)) == []
  {
    assert rows[..i + 1] == rows[..i] + [rows[i]];
    forall t
      ensures Filter(rows[..i + 1], Under(topic, t))
           == Filter(rows[..i], Under(topic, t)) + (if topic(rows[i]) == t then [rows[i]] else [])
    {
      FilterLast(rows[..i], rows[i], Under(topic, t));
    }
    forall t | t !in TopicsOf(rows[..i], topic)
      ensures Filter(rows[..i], Under(topic, t)) == []
    {
      NoneUnder(rows[..i], topic, t);
    }
  }

  lemma {:induction false} NoneUnder<R>(rows: seq<R>, topic: R -> string, t: string)
    requires t !in TopicsOf(rows, topic)
    ensures Filter(rows, Under(topic, t)) == []
  {
    if rows != [] {
      var front := rows[..|rows| - 1];
      assert topic(rows[|rows| - 1]) in TopicsOf(rows, topic);
      assert forall i :: 0 <= i < |front| ==> topic(front[i]) == topic(rows[i]);
      NoneUnder(front, topic, t);
    }
  }

  /** Connection.send_messages_topic gathers the rows of each topic, in their order. */
  method ByTopic<R>(rows: seq<R>, topic: R -> string) returns (byTopic: map<string, seq<R>>)
    ensures byTopic.Keys == set i | 0 <= i < |rows| :: topic(rows[i])
    ensures forall t :: t in byTopic ==> byTopic[t] == Filter(rows, (r: R) => topic(r) == t)
  {
    hide Filter, TopicsOf;
    byTopic := map[];
    assert TopicsOf(rows[..0], topic) == {} by { NoTopics(rows, topic); }
    for i := 0 to |rows|
      invariant byTopic.Keys == TopicsOf(rows[..i], topic)
      invariant forall t :: t in byTopic ==> byTopic[t] == Filter(rows[..i], Under(topic, t))
    {
      TopicsGrow(rows, i, topic);
      var t := topic(rows[i]);
      byTopic := byTopic[t := (if t in byTopic then byTopic[t] else []) + [rows[i]]];
    }
    assert rows[..|rows|] == rows;
    TopicsWrittenOut(rows, topic);
  }

  lemma NoTopics<R>(rows: seq<R>, topic: R -> string)
    ensures TopicsOf(rows[..0], topic) == {}
  {
  }

  lemma TopicsWrittenOut<R>(rows: seq<R>, topic: R -> string)
    ensures TopicsOf(rows, topic) == set i | 0 <= i < |rows| :: topic(rows[i])
    ensures forall t :: Under(topic, t) == ((r: R) => topic(r) == t)
  {
  }
}
