/** The test subscriber's consume loop (bins/ctl-md-subscriber/src/main.rs):
    one step per poll of the ring, updating the received-message and
    empty-poll counters and deciding what is reported. The ring itself is an
    input: each poll is given as its outcome. */
module MdSubscriber {
  import opened Ints
  import opened Text
  import opened RawMessage
  import opened FeedProtocol
  import opened MdHandler

  /** The ring the subscriber attaches to. */
  const RING_NAME: string := "TOP_0_PS"

  /** A status line is reported once per this many empty polls. */
  const STATUS_INTERVAL: nat := 1000000

  /** The outcome of one `consume_start`, with the result of `try_commit`
      for a successful one. */
  datatype ConsumeOutcome =
    | Success(record: Record, committed: bool)
    | InFlight
    | SpedPast
    | Empty

  datatype Counters = Counters(msgCount: nat, emptyPolls: nat)

  /** What one poll prints: a received payload with its running number, the
      overtaken warning, a status line with the total received, or nothing. */
  datatype Report = Received(index: nat, payload: seq<byte>) | Overtaken | Status(received: nat) | Silent

  datatype StepResult = StepResult(counters: Counters, report: Report)

  /** The subscriber's ring is the Top ring of the symbol with id 0, in the
      handler's naming. */
  lemma RingNameMatchesHandler()
    ensures RING_NAME == RingName(Top, 0)
  {
    assert Decimal(0) == "0";
  }

  /** One iteration of the loop. */
  function Step(c: Counters, o: ConsumeOutcome): (r: StepResult)
    ensures r.counters.msgCount == c.msgCount + (if o.Success? && o.committed then 1 else 0)
    ensures r.counters.emptyPolls == c.emptyPolls + (if o.Empty? then 1 else 0)
    ensures r.report.Received? <==> o.Success? && o.committed
    ensures r.report.Received? ==> r.report.index == r.counters.msgCount && r.report.payload == DecodeRecord(o.record)
    ensures r.report.Overtaken? <==> o.SpedPast?
    ensures r.report.Status? <==> o.Empty? && r.counters.emptyPolls % STATUS_INTERVAL == 0
    ensures r.report.Status? ==> r.report.received == c.msgCount
  {
    match o
    case Success(record, committed) =>
      if committed then
        var next := c.(msgCount := c.msgCount + 1);
        StepResult(next, Received(next.msgCount, DecodeRecord(record)))
      else StepResult(c, Silent)
    case InFlight => StepResult(c, Silent)
    case SpedPast => StepResult(c, Overtaken)
    case Empty =>
      var next := c.(emptyPolls := c.emptyPolls + 1);
      if next.emptyPolls % STATUS_INTERVAL == 0 then StepResult(next, Status(c.msgCount))
      else StepResult(next, Silent)
  }

  /** Committed successes in a sequence of polls. */
  function CommittedCount(os: seq<ConsumeOutcome>): nat
  {
    if |os| == 0 then 0
    else CommittedCount(os[..|os| - 1]) + (if os[|os| - 1].Success? && os[|os| - 1].committed then 1 else 0)
  }

  /** Empty polls in a sequence of polls. */
  function EmptyCount(os: seq<ConsumeOutcome>): nat
  {
    if |os| == 0 then 0 else EmptyCount(os[..|os| - 1]) + (if os[|os| - 1].Empty? then 1 else 0)
  }

  /** Status lines among the reports. */
  function StatusCount(reports: seq<Report>): nat
  {
    if |reports| == 0 then 0 else StatusCount(reports[..|reports| - 1]) + (if reports[|reports| - 1].Status? then 1 else 0)
  }

  datatype RunResult = RunResult(counters: Counters, reports: seq<Report>)

  /** The loop over a finite sequence of polls: steps in order, one report
      per poll. */
  function Run(c: Counters, os: seq<ConsumeOutcome>): (r: RunResult)
    ensures |r.reports| == |os|
  {
    if |os| == 0 then RunResult(c, [])
    else
      var prev := Run(c, os[..|os| - 1]);
      var step := Step(prev.counters, os[|os| - 1]);
      RunResult(step.counters, prev.reports + [step.report])
  }

  /** Over any run, the received count grows by the committed successes and
      the empty-poll count by the empty polls; nothing else moves them. */
  lemma {:induction false} RunCounts(c: Counters, os: seq<ConsumeOutcome>)
    ensures Run(c, os).counters.msgCount == c.msgCount + CommittedCount(os)
    ensures Run(c, os).counters.emptyPolls == c.emptyPolls + EmptyCount(os)
  {
    if |os| > 0 {
      RunCounts(c, os[..|os| - 1]);
    }
  }

  lemma DivStep(e: nat)
    ensures (e + 1) / STATUS_INTERVAL == e / STATUS_INTERVAL + (if (e + 1) % STATUS_INTERVAL == 0 then 1 else 0)
  {
  }

  /** Starting from zero, the status lines reported are one per full
      million empty polls. */
  lemma {:induction false} StatusLinesPerMillion(os: seq<ConsumeOutcome>)
    ensures StatusCount(Run(Counters(0, 0), os).reports) == Run(Counters(0, 0), os).counters.emptyPolls / STATUS_INTERVAL
  {
    if |os| > 0 {
      var init := os[..|os| - 1];
      StatusLinesPerMillion(init);
      var prev := Run(Counters(0, 0), init);
      var r := Run(Counters(0, 0), os);
      assert r.reports[..|r.reports| - 1] == prev.reports;
      DivStep(prev.counters.emptyPolls);
    }
  }

  /** Polls that are in flight, overtaken, or whose commit fails leave the
      received count alone. */
  lemma OtherOutcomesKeepCount(c: Counters, o: ConsumeOutcome)
    requires !(o.Success? && o.committed)
    ensures Step(c, o).counters.msgCount == c.msgCount
  {
  }
}
