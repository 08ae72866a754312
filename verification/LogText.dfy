/**
 The text of the logs: how lines, records and ids are written, and why reading the
 files bottom up, matching prefixes and cutting the last line work on that text.
 JSON is an opaque writer that produces one line starting with a brace.
 */
module LogText {
  import opened Sequences
  import opened Decimals
  import opened Logs
  import opened Recovery
  import opened LogFiles

  function TokenText(token: Token): string {
    match token
    case START => "START"
    case SENT => "SENT"
    case SAVE_BEGIN => "SAVE BEGIN"
    case SAVE_DONE => "SAVE DONE"
    case COMMIT => "COMMIT"
  }

  predicate IsJson(text: string) {
    |text| > 0 && text[0] == '{' && OneLine(text)
  }

  function Marked(token: Token, id: nat, client: nat): string {
    TokenText(token) + " " + Decimal(id) + " / " + Decimal(client)
  }

  /** One line of the communication log, without its newline. */
  function LineText(line: Line, json: State -> string): string {
    match line
    case Start(id, c) => Marked(START, id, c)
    case Sent(Some((id, c))) => Marked(SENT, id, c)
    case Sent(None) => "SENT None / None"
    case SaveBegin(id, c) => Marked(SAVE_BEGIN, id, c)
    case StateLine(s) => json(s)
    case SaveDone(id, c) => Marked(SAVE_DONE, id, c)
    case Commit(id, c) => Marked(COMMIT, id, c)
  }

  /** The lines of message 12 of client 7, and of its record in the connection log. */
  lemma LinesOfTwelve(json: State -> string, s: State, rows: seq<int> -> string)
    ensures LineText(Start(12, 7), json) == "START 12 / 7"
    ensures LineText(Sent(Some((12, 7))), json) == "SENT 12 / 7"
    ensures LineText(Sent(None), json) == "SENT None / None"
    ensures LineText(SaveBegin(12, 7), json) == "SAVE BEGIN 12 / 7"
    ensures LineText(StateLine(s), json) == json(s)
    ensures LineText(SaveDone(12, 7), json) == "SAVE DONE 12 / 7"
    ensures LineText(Commit(12, 7), json) == "COMMIT 12 / 7"
    ensures RecordText(Record(12, [5]), rows) == "12/" + rows([5])
  {
    assert Decimal(12) == "12" && Decimal(7) == "7";
    assert "START" + " " + "12" + " / " + "7" == "START 12 / 7";
  }

  /** The second and the sixth character tell the tokens apart. */
  lemma TokensDiffer(a: Token, b: Token)
    requires TokenText(a)[1] == TokenText(b)[1]
    requires |TokenText(a)| >= 9 && |TokenText(b)| >= 9 ==> TokenText(a)[5] == TokenText(b)[5]
    ensures a == b
  {
    assert TokenText(START)[1] == 'T';
    assert TokenText(SENT)[1] == 'E' && TokenText(COMMIT)[1] == 'O';
    assert TokenText(SAVE_BEGIN)[1] == TokenText(SAVE_DONE)[1] == 'A';
    assert TokenText(SAVE_BEGIN)[5] == 'B' && TokenText(SAVE_DONE)[5] == 'D';
  }

  lemma MarkedStarts(token: Token, id: nat, client: nat, other: Token)
    ensures TokenText(other) <= Marked(token, id, client) <==> other == token
  {
    var text, mine := Marked(token, id, client), TokenText(token);
    assert mine <= text;
    if TokenText(other) <= text {
      assert text[1] == mine[1] == TokenText(other)[1];
      TokensDiffer(token, other);
    }
  }

  lemma NoneStarts(token: Token)
    ensures TokenText(token) <= "SENT None / None" <==> token == SENT
  {
    assert "SENT None / None"[..4] == TokenText(SENT);
    assert TokenText(token) <= "SENT None / None" ==> TokenText(token)[1] == 'E';
  }

  /** `line.startswith(token)` recognises exactly the lines written with that token. */
  lemma StartsWithToken(line: Line, json: State -> string, token: Token)
    requires line.StateLine? ==> IsJson(json(line.state))
    ensures TokenText(token) <= LineText(line, json) <==> Is(line, token)
  {
    match line
    case Start(id, c) => MarkedStarts(START, id, c, token);
    case Sent(Some((id, c))) => MarkedStarts(SENT, id, c, token);
    case Sent(None) => NoneStarts(token);
    case SaveBegin(id, c) => MarkedStarts(SAVE_BEGIN, id, c, token);
    case StateLine(s) => assert TokenText(token)[0] != '{';
    case SaveDone(id, c) => MarkedStarts(SAVE_DONE, id, c, token);
    case Commit(id, c) => MarkedStarts(COMMIT, id, c, token);
  }

  // ---------- reading the ids of a line ----------

  function FirstSlash(s: string): (k: nat)
    ensures k <= |s|
  {
    if s == "" || s[0] == '/' then 0 else 1 + FirstSlash(s[1..])
  }

  /** `line.split(token)[1].split(" / ")`, stripped and read by int(). */
  function ReadIds(text: string, token: Token): Option<(nat, nat)>
    requires TokenText(token) <= text
  {
    var rest := text[|TokenText(token)|..];
    var k := FirstSlash(rest);
    if k < 2 || k + 2 > |rest| then None
    else
      var id, client := rest[1..k - 1], rest[k + 2..];
      if AllDigits(id) && AllDigits(client) then Some((Value(id), Value(client))) else None
  }

  lemma {:induction false} FirstSlashAfter(digits: string, rest: string)
    requires forall i :: 0 <= i < |digits| ==> digits[i] != '/'
    requires rest != "" && rest[0] == '/'
    ensures FirstSlash(digits + rest) == |digits|
  {
    if digits != "" {
      assert (digits + rest)[1..] == digits[1..] + rest;
      FirstSlashAfter(digits[1..], rest);
    } else {
      assert digits + rest == rest;
    }
  }

  lemma ReadsAfterToken(token: Token, rest: string)
    ensures TokenText(token) <= TokenText(token) + rest
    ensures (TokenText(token) + rest)[|TokenText(token)|..] == rest
  {
  }

  /** Cutting the text after the token at the slash. */
  lemma CutAtSlash(a: string, b: string)
    requires AllDigits(a)
    ensures var rest := " " + a + " / " + b;
      && FirstSlash(rest) == |a| + 2 <= |rest| - 2
      && rest[1..|a| + 1] == a && rest[|a| + 4..] == b
  {
    var left, right := " " + a + " ", "/ " + b;
    assert " " + a + " / " + b == left + right;
    FirstSlashAfter(left, right);
  }

  /** The ids that were written are the ids that are read. */
  lemma IdsRoundTrip(token: Token, id: nat, client: nat)
    ensures TokenText(token) <= Marked(token, id, client)
    ensures ReadIds(Marked(token, id, client), token) == Some((id, client))
  {
    var rest := " " + Decimal(id) + " / " + Decimal(client);
    assert Marked(token, id, client) == TokenText(token) + rest;
    ReadsAfterToken(token, rest);
    CutAtSlash(Decimal(id), Decimal(client));
    ValueOfDecimal(id);
    ValueOfDecimal(client);
    hide Decimal, Value, TokenText, FirstSlash;
  }

  // ---------- whole files ----------

  function LineTexts(log: seq<Line>, json: State -> string): (texts: seq<string>)
    ensures |texts| == |log|
  {
    seq(|log|, i requires 0 <= i < |log| => LineText(log[i], json))
  }

  lemma MarkedIsOneLine(token: Token, id: nat, client: nat)
    ensures OneLine(Marked(token, id, client)) && Marked(token, id, client) != ""
  {
    var a, b := Decimal(id), Decimal(client);
    assert OneLine(a) && OneLine(b) && OneLine(TokenText(token)) && OneLine(" / ");
  }

  /** Lines written one after the other are read back, newest first, for any chunk size. */
  lemma ReadsBack(texts: seq<string>, chunkSize: nat)
    requires chunkSize > 0
    requires forall i :: 0 <= i < |texts| ==> OneLine(texts[i]) && texts[i] != ""
    ensures Backward(Join(texts), chunkSize, "") == Reverse(texts)
  {
    SplitJoin(texts);
    ReaderIsExact(Join(texts));
  }

  /** The communication log of any run, as a file, is read back line by line. */
  lemma LogReadsBack(log: seq<Line>, json: State -> string, chunkSize: nat)
    requires chunkSize > 0 && forall s :: IsJson(json(s))
    ensures Backward(Join(LineTexts(log, json)), chunkSize, "") == Reverse(LineTexts(log, json))
  {
    var texts := LineTexts(log, json);
    forall i | 0 <= i < |texts|
      ensures OneLine(texts[i]) && texts[i] != ""
    {
      match log[i]
      case Start(id, c) => MarkedIsOneLine(START, id, c);
      case Sent(Some((id, c))) => MarkedIsOneLine(SENT, id, c);
      case Sent(None) =>
      case SaveBegin(id, c) => MarkedIsOneLine(SAVE_BEGIN, id, c);
      case StateLine(s) => assert IsJson(json(s));
      case SaveDone(id, c) => MarkedIsOneLine(SAVE_DONE, id, c);
      case Commit(id, c) => MarkedIsOneLine(COMMIT, id, c);
    }
    ReadsBack(texts, chunkSize);
  }

  /** A line of the connection log. */
  function RecordText<M>(r: Record<M>, json: seq<M> -> string): string {
    Decimal(r.id) + "/" + json(r.batch)
  }

  function RecordTexts<M>(rs: seq<Record<M>>, json: seq<M> -> string): (texts: seq<string>)
    ensures |texts| == |rs|
  {
    seq(|rs|, i requires 0 <= i < |rs| => RecordText(rs[i], json))
  }

  /** Undoing on the file is undoing on the records: the prefix test looks at the ids only,
      and cutting the last line drops the last record. */
  lemma UndoOnFile<M>(rs: seq<Record<M>>, id: nat, json: seq<M> -> string)
    requires rs != [] && forall b :: OneLine(json(b))
    ensures var texts := RecordTexts(rs, json);
      && (Decimal(id) <= texts[|texts| - 1] <==> Decimal(id) <= Decimal(rs[|rs| - 1].id))
      && RecordTexts(UndoRecords(rs, id), json)
         == (if Decimal(id) <= texts[|texts| - 1] then texts[..|texts| - 1] else texts)
      && CutLastLine(Join(texts)) == Join(texts[..|texts| - 1])
  {
    var texts := RecordTexts(rs, json);
    PrefixOfRecord(rs[|rs| - 1], id, json);
    TextsOfFront(rs, json);
    RecordsAreLines(rs, json);
    hide Decimal, RecordText, OneLine, Join, CutLastLine;
    assert texts[|texts| - 1] == RecordText(rs[|rs| - 1], json);
    CutLast(texts);
  }

  /** The lines of a catcher log are the ids alone. */
  function IdTexts(ids: seq<nat>): (texts: seq<string>)
    ensures |texts| == |ids|
  {
    seq(|ids|, i requires 0 <= i < |ids| => Decimal(ids[i]))
  }

  /** The same for the catcher log. */
  lemma UndoIdsOnFile(ids: seq<nat>, id: nat)
    requires ids != []
    ensures var texts := IdTexts(ids);
      && (Decimal(id) <= texts[|texts| - 1] <==> Decimal(id) <= Decimal(ids[|ids| - 1]))
      && IdTexts(UndoIds(ids, id)) == (if Decimal(id) <= texts[|texts| - 1] then texts[..|texts| - 1] else texts)
      && CutLastLine(Join(texts)) == Join(texts[..|texts| - 1])
  {
    var texts := IdTexts(ids);
    forall i | 0 <= i < |texts|
      ensures OneLine(texts[i]) && texts[i] != ""
    {
      assert OneLine(Decimal(ids[i]));
    }
    hide Decimal, OneLine, Join, CutLastLine;
    assert IdTexts(ids[..|ids| - 1]) == texts[..|texts| - 1];
    CutLast(texts);
  }

  lemma PrefixOfRecord<M>(r: Record<M>, id: nat, json: seq<M> -> string)
    ensures Decimal(id) <= RecordText(r, json) <==> Decimal(id) <= Decimal(r.id)
  {
    hide Decimal;
    assert RecordText(r, json) == Decimal(r.id) + ("/" + json(r.batch));
    StartsWithNumeral(id, r.id, "/" + json(r.batch));
  }

  lemma TextsOfFront<M>(rs: seq<Record<M>>, json: seq<M> -> string)
    requires rs != []
    ensures RecordTexts(rs[..|rs| - 1], json) == RecordTexts(rs, json)[..|rs| - 1]
  {
    hide RecordText;
  }

  lemma {:induction false} CutLast(texts: seq<string>)
    requires texts != [] && forall i :: 0 <= i < |texts| ==> OneLine(texts[i]) && texts[i] != ""
    ensures CutLastLine(Join(texts)) == Join(texts[..|texts| - 1])
  {
    var front, last := texts[..|texts| - 1], texts[|texts| - 1];
    FrontAndLast(texts);
    CutUndoesAppend(front, last);
  }

  lemma RecordsAreLines<M>(rs: seq<Record<M>>, json: seq<M> -> string)
    requires forall b :: OneLine(json(b))
    ensures forall i :: 0 <= i < |rs| ==> OneLine(RecordTexts(rs, json)[i]) && RecordTexts(rs, json)[i] != ""
  {
    forall i | 0 <= i < |rs|
      ensures OneLine(RecordText(rs[i], json)) && RecordText(rs[i], json) != ""
    {
      assert OneLine(Decimal(rs[i].id)) && OneLine(json(rs[i].batch));
    }
  }
}
