/** The lossy log monitor (Monitor in api/sys_monitor.go): one goroutine forwards scanned lines to a bounded channel and
    reports how many it had to drop. */
module LogMonitor {
  import opened Basics

  const CAPACITY: nat := 64

  /** A line as scanned, or the report that so many lines were dropped. */
  datatype Message = Line(text: string) | Dropped(count: nat)

  // ---- What the messages say ----

  /** The lines behind the messages, in order, with a gap for each dropped one. */
  function Expand(sent: seq<Message>): seq<Option<string>> {
    if sent == [] then []
    else
      Expand(sent[..|sent| - 1]) +
      match sent[|sent| - 1] {
        case Line(text) => [Some(text)]
        case Dropped(n) => seq(n, _ => None)
      }
  }

  /** Position by position, the messages give the line that was scanned or say that it was dropped. */
  predicate Matches(expanded: seq<Option<string>>, lines: seq<string>) {
    |expanded| <= |lines| && forall i :: 0 <= i < |expanded| ==> expanded[i] == None || expanded[i] == Some(lines[i])
  }

  /** A consumer that has received only some of the messages so far sees a beginning of that sequence. */
  lemma {:induction false} ExpandPrefix(sent: seq<Message>, n: nat)
    requires n <= |sent|
    ensures Expand(sent[..n]) <= Expand(sent)
  {
    if n < |sent| {
      ExpandPrefix(sent[..|sent| - 1], n);
      assert sent[..|sent| - 1][..n] == sent[..n];
    } else {
      assert sent[..n] == sent;
    }
  }

  /** What has been received so far matches the lines as well. */
  lemma ReceivedMatches(sent: seq<Message>, n: nat, lines: seq<string>)
    requires n <= |sent| && Matches(Expand(sent), lines)
    ensures Matches(Expand(sent[..n]), lines)
  {
    ExpandPrefix(sent, n);
    assert forall i :: 0 <= i < |Expand(sent[..n])| ==> Expand(sent[..n])[i] == Expand(sent)[i];
  }

  // ---- The channel ----

  /** What is left of so many messages when the consumer has taken some. */
  function Left(buffered: nat, taken: nat): nat {
    if taken < buffered then buffered - taken else 0
  }

  /** A buffered channel and what its consumer has received. */
  class Channel {
    var buffer: seq<Message>
    var received: seq<Message>

    ghost predicate Valid()
      reads this
    {
      |buffer| <= CAPACITY
    }

    /** Everything ever sent, in order. */
    ghost function Sent(): seq<Message>
      reads this
    {
      received + buffer
    }

    constructor ()
      ensures Valid() && Sent() == []
    {
      buffer, received := [], [];
    }

    /** A send that does not block: it succeeds exactly when there is room. */
    method TrySend(m: Message) returns (ok: bool)
      requires Valid()
      modifies this
      ensures Valid() && received == old(received)
      ensures ok <==> |old(buffer)| < CAPACITY
      ensures buffer == if ok then old(buffer) + [m] else old(buffer)
      ensures Sent() == if ok then old(Sent()) + [m] else old(Sent())
    {
      ok := |buffer| < CAPACITY;
      if ok {
        buffer := buffer + [m];
      }
    }

    /** The consumer takes up to `n` messages. */
    method Take(n: nat)
      requires Valid()
      modifies this
      ensures Valid() && Sent() == old(Sent()) && received <= Sent()
      ensures |buffer| == Left(|old(buffer)|, n)
      ensures |buffer| <= CAPACITY && (n > 0 ==> |buffer| < CAPACITY)
    {
      var k := if n < |buffer| then n else |buffer|;
      received := received + buffer[..k];
      buffer := buffer[k..];
    }
  }

  // ---- The goroutine ----

  /** One round of its loop: whether the context is done by then, and how much the consumer takes before each send. */
  datatype Round = Round(cancelled: bool, beforeReport: nat, beforeLine: nat)

  /** The messages account for the first `scanned` lines, all but the last `dropped` of them. */
  ghost predicate Accounts(sent: seq<Message>, dropped: nat, lines: seq<string>, scanned: nat) {
    scanned <= |lines| && Matches(Expand(sent), lines) && |Expand(sent)| + dropped == scanned
  }

  /** The messages are exactly the lines, none dropped. */
  predicate AllLines(sent: seq<Message>, lines: seq<string>) {
    |sent| == |lines| && forall i :: 0 <= i < |sent| ==> sent[i] == Line(lines[i])
  }

  lemma ReportAccounts(sent: seq<Message>, dropped: nat, lines: seq<string>, scanned: nat)
    requires Accounts(sent, dropped, lines, scanned)
    ensures Accounts(sent + [Dropped(dropped)], 0, lines, scanned)
  {
  }

  lemma LineAccounts(sent: seq<Message>, lines: seq<string>, scanned: nat)
    requires Accounts(sent, 0, lines, scanned) && scanned < |lines|
    ensures Accounts(sent + [Line(lines[scanned])], 0, lines, scanned + 1)
  {
  }

  /** One scanned line: report the lines dropped before it if there is room, then send it if there is room. */
  method Forward(ch: Channel, lines: seq<string>, scanned: nat, dropped: nat, r: Round) returns (droppedCount: nat)
    requires ch.Valid() && scanned < |lines| && Accounts(ch.Sent(), dropped, lines, scanned)
    modifies ch
    ensures ch.Valid() && Accounts(ch.Sent(), droppedCount, lines, scanned + 1)
    ensures droppedCount > 0 ==> |ch.buffer| == CAPACITY
    ensures dropped > 0 && Left(|old(ch.buffer)|, r.beforeReport) == CAPACITY ==>
      ch.Sent() == old(ch.Sent()) && droppedCount == dropped + 1
    ensures dropped > 0 && Left(|old(ch.buffer)|, r.beforeReport) < CAPACITY ==>
      if Left(Left(|old(ch.buffer)|, r.beforeReport) + 1, r.beforeLine) < CAPACITY then
        ch.Sent() == old(ch.Sent()) + [Dropped(dropped)] + [Line(lines[scanned])] && droppedCount == 0
      else ch.Sent() == old(ch.Sent()) + [Dropped(dropped)] && droppedCount == 1
    ensures dropped == 0 ==>
      if Left(|old(ch.buffer)|, r.beforeLine) < CAPACITY then
        ch.Sent() == old(ch.Sent()) + [Line(lines[scanned])] && droppedCount == 0
      else ch.Sent() == old(ch.Sent()) && droppedCount == 1
    ensures dropped == 0 && r.beforeLine > 0 ==> droppedCount == 0 && ch.Sent() == old(ch.Sent()) + [Line(lines[scanned])]
  {
    hide *;
    droppedCount := dropped;
    if droppedCount > 0 {
      ch.Take(r.beforeReport);
      ReportAccounts(ch.Sent(), dropped, lines, scanned);
      var ok := ch.TrySend(Dropped(droppedCount));
      if !ok {
        NotSent(ch.Sent(), dropped, lines, scanned);
        return droppedCount + 1;
      }
      droppedCount := 0;
    }
    ch.Take(r.beforeLine);
    LineAccounts(ch.Sent(), lines, scanned);
    NotSent(ch.Sent(), 0, lines, scanned);
    var ok := ch.TrySend(Line(lines[scanned]));
    if !ok {
      droppedCount := droppedCount + 1;
    }
  }

  lemma NothingYet(lines: seq<string>)
    ensures Accounts([], 0, lines, 0) && AllLines([], lines[..0])
  {
  }

  lemma OneMore(sent: seq<Message>, lines: seq<string>, scanned: nat)
    requires scanned < |lines|
    ensures AllLines(sent, lines[..scanned]) ==> AllLines(sent + [Line(lines[scanned])], lines[..scanned + 1])
  {
  }

  lemma NotSent(sent: seq<Message>, dropped: nat, lines: seq<string>, scanned: nat)
    requires Accounts(sent, dropped, lines, scanned) && scanned < |lines|
    ensures Accounts(sent, dropped + 1, lines, scanned + 1)
  {
  }

  /** Forwards the lines of a scanner until the context is done, the scanner has no more, or the rounds given are over. */
  method Monitor(ch: Channel, lines: seq<string>, rounds: seq<Round>) returns (scanned: nat, droppedCount: nat)
    requires ch.Valid() && ch.Sent() == []
    modifies ch
    ensures ch.Valid() && Accounts(ch.Sent(), droppedCount, lines, scanned)
    ensures scanned <= |lines| && scanned <= |rounds| && (forall i :: 0 <= i < scanned ==> !rounds[i].cancelled)
    ensures scanned == |lines| || scanned == |rounds| || rounds[scanned].cancelled
    ensures (forall i :: 0 <= i < |rounds| ==> rounds[i].beforeLine > 0) ==>
      droppedCount == 0 && AllLines(ch.Sent(), lines[..scanned])
  {
    hide Accounts, AllLines, Expand, Matches;
    scanned, droppedCount := 0, 0;
    NothingYet(lines);
    for i := 0 to |rounds|
      invariant ch.Valid() && Accounts(ch.Sent(), droppedCount, lines, scanned) && scanned == i <= |lines|
      invariant forall j :: 0 <= j < i ==> !rounds[j].cancelled
      invariant (forall j :: 0 <= j < |rounds| ==> rounds[j].beforeLine > 0) ==>
        droppedCount == 0 && AllLines(ch.Sent(), lines[..scanned])
    {
      if rounds[i].cancelled || scanned == |lines| {
        return;
      }
      OneMore(ch.Sent(), lines, scanned);
      droppedCount := Forward(ch, lines, scanned, droppedCount, rounds[i]);
      scanned := scanned + 1;
    }
  }
}
