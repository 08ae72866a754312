/**
 Looking up suspected messages in the communication log (Logger.search_processed
 and LogSearcher), and the text form of what is found.
 */
module LogSearch {
  import opened Sequences
  import opened Messages
  import opened Decimals
  import opened EofRing
  import opened Logs

  // ---------- "12" and "12S" ----------

  function Text(e: ProcessedMessage): string {
    Decimal(e.id) + (if e.sent then "S" else "")
  }

  function Texts(es: seq<ProcessedMessage>): seq<string> {
    seq(|es|, i requires 0 <= i < |es| => Text(es[i]))
  }

  /** `message_str.split("S")[0]` */
  function BeforeS(s: string): string {
    if s == [] || s[0] == 'S' then [] else [s[0]] + BeforeS(s[1..])
  }

  /** ProcessedMessage.from_str; None stands for the ValueError of int(). */
  function FromStr(s: string): Option<ProcessedMessage> {
    if BeforeS(s) == [] || !AllDigits(BeforeS(s)) then None
    else Some(ProcessedMessage(Value(BeforeS(s)), 'S' in s))
  }

  lemma {:induction false} BeforeSAppend(digits: string, rest: string)
    requires AllDigits(digits)
    ensures BeforeS(digits + rest) == digits + BeforeS(rest)
  {
    if digits == [] {
      assert digits + rest == rest;
    } else {
      assert (digits + rest)[1..] == digits[1..] + rest;
      BeforeSAppend(digits[1..], rest);
    }
  }

  /** What search_processed writes is what from_str reads. */
  lemma TextRoundTrip(e: ProcessedMessage)
    ensures FromStr(Text(e)) == Some(e)
  {
    var digits, flag := Decimal(e.id), if e.sent then "S" else "";
    BeforeSAppend(digits, flag);
    assert BeforeS(flag) == [];
    assert BeforeS(Text(e)) == digits;
    ValueOfDecimal(e.id);
    if e.sent {
      assert Text(e)[|digits|] == 'S';
    } else {
      assert forall i :: 0 <= i < |Text(e)| ==> IsDigit(Text(e)[i]);
    }
  }

  // ---------- the scan ----------

  /** The last START or SENT line among the first `at` lines, or -1. */
  function Opening(log: seq<Line>, at: nat): (k: int)
    requires at <= |log|
    ensures -1 <= k < at && (k >= 0 ==> log[k].Start? || log[k].Sent?)
  {
    if at == 0 then -1 else if log[at - 1].Start? || log[at - 1].Sent? then at - 1 else Opening(log, at - 1)
  }

  predicate Wanted(line: Line, client: nat, ids: seq<nat>) {
    line.SaveDone? && line.client == client && line.id in ids
  }

  /** One text per wanted SAVE DONE line among the first `at` lines, newest first. */
  function Found(log: seq<Line>, at: nat, client: nat, ids: seq<nat>): seq<ProcessedMessage>
    requires at <= |log|
  {
    if at == 0 then []
    else if Wanted(log[at - 1], client, ids) && Opening(log, at - 1) >= 0 then
      [ProcessedMessage(log[at - 1].id, log[Opening(log, at - 1)].Sent?)] + Found(log, at - 1, client, ids)
    else Found(log, at - 1, client, ids)
  }

  lemma {:induction false} NothingBetween(log: seq<Line>, lo: nat, hi: nat, client: nat, ids: seq<nat>)
    requires lo <= hi <= |log|
    requires forall j :: lo <= j < hi ==> !log[j].SaveDone?
    ensures Found(log, hi, client, ids) == Found(log, lo, client, ids)
  {
    if lo < hi {
      NothingBetween(log, lo, hi - 1, client, ids);
    }
  }

  lemma {:induction false} OpeningIs(log: seq<Line>, at: nat, k: nat)
    requires k < at <= |log| && (log[k].Start? || log[k].Sent?)
    requires forall j :: k < j < at ==> !log[j].Start? && !log[j].Sent?
    ensures Opening(log, at) == k
  {
    if k < at - 1 {
      OpeningIs(log, at - 1, k);
    }
  }

  lemma {:induction false} OpeningWithin(a: seq<Line>, b: seq<Line>, at: nat)
    requires at <= |a|
    ensures Opening(a + b, at) == Opening(a, at)
  {
    if at > 0 {
      OpeningWithin(a, b, at - 1);
    }
  }

  lemma {:induction false} FoundWithin(a: seq<Line>, b: seq<Line>, at: nat, client: nat, ids: seq<nat>)
    requires at <= |a|
    ensures Found(a + b, at, client, ids) == Found(a, at, client, ids)
  {
    if at > 0 {
      OpeningWithin(a, b, at - 1);
      FoundWithin(a, b, at - 1, client, ids);
    }
  }

  /** Above every SAVE DONE line comes its own cycle's SENT or START line, and no other
      SAVE DONE line in between. */
  ghost predicate Orderly(log: seq<Line>) {
    forall k :: 0 <= k < |log| && log[k].SaveDone? ==>
      Opening(log, k) >= 0 && forall j :: Opening(log, k) <= j < k ==> !log[j].SaveDone?
  }

  /** The lines of one cycle, as this search sees them. */
  lemma CycleInLog(front: seq<Line>, c: Cycle)
    requires ValidCycle(c)
    ensures var log, base := front + Lines(c), |front|;
      && (forall k :: base <= k < |log| && log[k].SaveDone? ==> c.save.Some? && k == base + c.sents + 3)
      && (c.save.Some? ==>
            && base + c.sents + 3 < |log|
            && log[base + c.sents + 3] == SaveDone(c.id, c.client)
            && Opening(log, base + c.sents + 3) == base + c.sents
            && (log[base + c.sents].Sent? <==> c.sents > 0))
  {
    var log, ls, base := front + Lines(c), Lines(c), |front|;
    LinesAt(c);
    assert forall k :: base <= k < |log| ==> log[k] == ls[k - base];
    forall k | base <= k < |log| && log[k].SaveDone?
      ensures c.save.Some? && k == base + c.sents + 3
    {
      var j := k - base;
      if j > c.sents && j <= c.sents + |SaveLines(c)| {
        assert ls[j] == SaveLines(c)[j - c.sents - 1];
      }
    }
    if c.save.Some? {
      assert ls[c.sents + 1] == SaveLines(c)[0] && ls[c.sents + 2] == SaveLines(c)[1];
      assert ls[c.sents + 3] == SaveLines(c)[2];
      OpeningIs(log, base + c.sents + 3, base + c.sents);
    }
  }

  lemma {:induction false} RenderOrderly(head: seq<Line>, cs: seq<Cycle>)
    requires OnlySent(head) && ValidCycles(cs)
    ensures Orderly(head + Render(cs))
  {
    if cs == [] {
      assert head + Render(cs) == head;
    } else {
      var front, c := head + Render(cs[..|cs| - 1]), cs[|cs| - 1];
      RenderOrderly(head, cs[..|cs| - 1]);
      LastLines(head, cs);
      CycleOrderly(front, c);
    }
  }

  lemma CycleOrderly(front: seq<Line>, c: Cycle)
    requires Orderly(front) && ValidCycle(c)
    ensures Orderly(front + Lines(c))
  {
    var log := front + Lines(c);
    CycleInLog(front, c);
    hide Lines;
    forall k | 0 <= k < |log| && log[k].SaveDone?
      ensures Opening(log, k) >= 0
      ensures forall j :: Opening(log, k) <= j < k ==> !log[j].SaveDone?
    {
      if k < |front| {
        OpeningWithin(front, Lines(c), k);
        assert front[k].SaveDone?;
      }
    }
  }

  /** What the scan finds in the last cycle. */
  lemma FoundInLast(front: seq<Line>, c: Cycle, client: nat, ids: seq<nat>)
    requires ValidCycle(c)
    ensures var log := front + Lines(c);
      Found(log, |log|, client, ids)
      == (if c.save.Some? && c.client == client && c.id in ids then [ProcessedMessage(c.id, c.sents > 0)] else [])
         + Found(front, |front|, client, ids)
  {
    var log := front + Lines(c);
    CycleInLog(front, c);
    FoundWithin(front, Lines(c), |front|, client, ids);
    if c.save.Some? {
      NothingBetween(log, |front| + c.sents + 4, |log|, client, ids);
      NothingBetween(log, |front|, |front| + c.sents + 3, client, ids);
    } else {
      NothingBetween(log, |front|, |log|, client, ids);
    }
  }

  /** The scan finds exactly the saved messages of the client whose id is searched for,
      newest first, each marked as sent when its own cycle holds a SENT line. */
  lemma {:induction false} FoundIsSearch(head: seq<Line>, cs: seq<Cycle>, client: nat, ids: seq<nat>)
    requires OnlySent(head) && ValidCycles(cs)
    ensures var log := head + Render(cs); Found(log, |log|, client, ids) == Search(Records(cs, client), ids)
  {
    if cs == [] {
      NothingBetween(head + Render(cs), 0, |head|, client, ids);
    } else {
      var front, c := cs[..|cs| - 1], cs[|cs| - 1];
      FoundIsSearch(head, front, client, ids);
      LastLines(head, cs);
      FoundInLast(head + Render(front), c, client, ids);
      var rs := Records(front, client);
      assert (rs + [ProcessedMessage(c.id, c.sents > 0)])[..|rs|] == rs;
      assert rs + [] == rs;
    }
  }

  /** Logger.search_processed: the cursor moves up the file, and a match also consumes the
      lines up to its SENT or START line. */
  method SearchLines(log: seq<Line>, client: nat, ids: seq<nat>) returns (found: seq<string>)
    requires Orderly(log)
    ensures found == Texts(Found(log, |log|, client, ids))
  {
    found := [];
    var unread := |log|;
    ghost var rest := Found(log, |log|, client, ids);
    while unread > 0
      invariant 0 <= unread <= |log|
      invariant rest == Found(log, unread, client, ids)
      invariant found + Texts(rest) == Texts(Found(log, |log|, client, ids))
    {
      FoundStep(log, unread - 1, client, ids);
      var line := log[unread - 1];
      unread := unread - 1;
      if line.SaveDone? && line.client == client && line.id in ids {
        ghost var before, first := found, Text(rest[0]);
        TextsFirst(rest);
        rest := rest[1..];
        unread := ToOpening(log, unread);
        var above := log[unread];
        var text := if above.Sent? then Decimal(line.id) + "S" else Decimal(line.id);
        assert text == first;
        found := found + [text];
        assert found + Texts(rest) == before + ([first] + Texts(rest));
      }
    }
  }

  /** A match skips to its opening line, because nothing else is saved in between. */
  lemma FoundStep(log: seq<Line>, at: nat, client: nat, ids: seq<nat>)
    requires Orderly(log) && at < |log|
    ensures !Wanted(log[at], client, ids) ==> Found(log, at + 1, client, ids) == Found(log, at, client, ids)
    ensures Wanted(log[at], client, ids) ==>
      && Opening(log, at) >= 0
      && Found(log, at + 1, client, ids)
         == [ProcessedMessage(log[at].id, log[Opening(log, at)].Sent?)] + Found(log, Opening(log, at), client, ids)
  {
    if Wanted(log[at], client, ids) {
      NothingBetween(log, Opening(log, at), at, client, ids);
    }
  }

  lemma TextsFirst(es: seq<ProcessedMessage>)
    requires es != []
    ensures Texts(es) == [Text(es[0])] + Texts(es[1..])
  {
  }

  /** Consumes the lines above a SAVE DONE line up to the first SENT or START. */
  method ToOpening(log: seq<Line>, at: nat) returns (unread: nat)
    requires Orderly(log) && at < |log| && log[at].SaveDone?
    ensures unread == Opening(log, at)
  {
    unread := at;
    var above := log[at];
    while !above.Start? && !above.Sent? && unread > 0
      invariant Opening(log, at) <= unread <= at
      invariant above == log[unread]
      invariant Opening(log, unread + 1) == Opening(log, at)
      decreases unread
    {
      above := log[unread - 1];
      unread := unread - 1;
    }
  }

  method SearchProcessed(log: seq<Line>, client: nat, ids: seq<nat>, ghost head: seq<Line>, ghost cs: seq<Cycle>)
    returns (found: seq<string>)
    requires log == head + Render(cs) && OnlySent(head) && ValidCycles(cs)
    ensures found == Texts(Search(Records(cs, client), ids))
  {
    RenderOrderly(head, cs);
    FoundIsSearch(head, cs, client, ids);
    found := SearchLines(log, client, ids);
  }

  /** `[ProcessedMessage.from_str(message) for message in messages]` */
  method Parse(texts: seq<string>, ghost es: seq<ProcessedMessage>) returns (found: seq<ProcessedMessage>)
    requires texts == Texts(es)
    ensures found == es
  {
    found := [];
    for i := 0 to |texts|
      invariant found == es[..i]
    {
      TextRoundTrip(es[i]);
      found := found + [FromStr(texts[i]).value];
    }
  }

  /** LogSearcher.search_for_duplicate_messages */
  method SearchForDuplicateMessages(log: seq<Line>, client: nat, ids: seq<nat>,
                                    ghost head: seq<Line>, ghost cs: seq<Cycle>)
    returns (found: seq<ProcessedMessage>)
    requires log == head + Render(cs) && OnlySent(head) && ValidCycles(cs)
    ensures found == Search(Records(cs, client), ids)
  {
    var texts := SearchProcessed(log, client, ids, head, cs);
    found := Parse(texts, Search(Records(cs, client), ids));
  }
}
