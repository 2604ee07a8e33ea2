/**
  Building runs of the system out of the steps and operations of one client,
  from any system on: what could still happen.
 */
module PipelineContinuations {
  import opened Values
  import opened Metrics
  import opened Pipeline
  import opened WriteSide

  lemma {:induction false} RunThen(s: System, events: seq<Event>, e: Event)
    requires Run(s, events).Some?
    ensures Run(s, events + [e]) == Apply(Run(s, events).value, e)
    decreases |events|
  {
    hide Apply;
    if events == [] {
      assert [e][1..] == [];
      assert Run(s, [e]) == match Apply(s, e) case None => None case Some(s') => Run(s', []);
    } else {
      assert (events + [e])[1..] == events[1..] + [e];
      RunThen(Apply(s, events[0]).value, events[1..], e);
    }
  }

  lemma RunAfter(s: System, events: seq<Event>, s': System)
    requires events != [] && Run(s, events) == Some(s')
    ensures Apply(s, events[0]).Some? && Run(Apply(s, events[0]).value, events[1..]) == Some(s')
  {
    hide Apply;
  }

  lemma LeadsNowhere(s: System)
    ensures Leads(s, s)
  {
    assert Run(s, []) == Some(s);
  }

  lemma Then(s0: System, s: System, e: Event, s': System)
    requires Leads(s0, s) && Apply(s, e) == Some(s')
    ensures Leads(s0, s')
  {
    hide Apply;
    var events :| Run(s0, events) == Some(s);
    RunThen(s0, events, e);
  }

  lemma {:induction false} RunOn(s0: System, events: seq<Event>, s: System, more: seq<Event>)
    requires Run(s0, events) == Some(s)
    ensures Run(s0, events + more) == Run(s, more)
    decreases |events|
  {
    hide Apply;
    if events == [] {
      assert events + more == more;
    } else {
      assert (events + more)[1..] == events[1..] + more;
      RunOn(Apply(s0, events[0]).value, events[1..], s, more);
    }
  }

  lemma LeadsOn(s0: System, s: System, s': System)
    requires Leads(s0, s) && Leads(s, s')
    ensures Leads(s0, s')
  {
    var events :| Run(s0, events) == Some(s);
    var more :| Run(s, more) == Some(s');
    RunOn(s0, events, s, more);
  }

  /** The system in which client `i` is `c`, and the others are as listed. */
  function With(clients: seq<Client>, i: nat, c: Client, st: Store): System
    requires i < |clients|
  {
    System(clients[i := c], st)
  }

  /** One step of client `i`. */
  lemma Moves(s0: System, clients: seq<Client>, i: nat, c: Client, st: Store, e: Event, c': Client, st': Store)
    requires i < |clients| && Leads(s0, With(clients, i, c, st)) && !e.OpenClient? && e.client == i && c.alive
    requires ClientStep(i, c, st, e) == Some((c', st'))
    ensures Leads(s0, With(clients, i, c', st'))
  {
    hide ClientStep, Leads;
    assert clients[i := c][i := c'] == clients[i := c'];
    Then(s0, With(clients, i, c, st), e, With(clients, i, c', st'));
  }

  // ------------------------------------------------------------ without a failing drain

  /** No drain of client `i` fails or times out. */
  predicate Calm(events: seq<Event>, i: nat) {
    forall k :: 0 <= k < |events| ==> events[k] != Command(i, Fail)
  }

  ghost predicate LeadsCalmly(s: System, s': System, i: nat) {
    exists events :: Run(s, events) == Some(s') && Calm(events, i)
  }

  lemma CalmlyNowhere(s: System, i: nat)
    ensures LeadsCalmly(s, s, i)
  {
    assert Run(s, []) == Some(s) && Calm([], i);
  }

  lemma CalmLeads(s: System, s': System, i: nat)
    requires LeadsCalmly(s, s', i)
    ensures Leads(s, s')
  {
  }

  lemma CalmlyOn(s0: System, s: System, s': System, i: nat)
    requires LeadsCalmly(s0, s, i) && LeadsCalmly(s, s', i)
    ensures LeadsCalmly(s0, s', i)
  {
    var events :| Run(s0, events) == Some(s) && Calm(events, i);
    var more :| Run(s, more) == Some(s') && Calm(more, i);
    RunOn(s0, events, s, more);
    assert Calm(events + more, i);
  }

  lemma MovesCalmly(s0: System, clients: seq<Client>, i: nat, c: Client, st: Store, e: Event, c': Client, st': Store)
    requires i < |clients| && LeadsCalmly(s0, With(clients, i, c, st), i) && !e.OpenClient? && e.client == i && c.alive && e != Command(i, Fail)
    requires ClientStep(i, c, st, e) == Some((c', st'))
    ensures LeadsCalmly(s0, With(clients, i, c', st'), i)
  {
    hide ClientStep;
    assert clients[i := c][i := c'] == clients[i := c'];
    assert Apply(With(clients, i, c, st), e) == Some(With(clients, i, c', st'));
    hide Apply;
    var events :| Run(s0, events) == Some(With(clients, i, c, st)) && Calm(events, i);
    RunThen(s0, events, e);
    assert Calm(events + [e], i);
  }

  /** A run of worker steps of client `i`. */
  lemma {:induction false} WorksCalmly(s0: System, clients: seq<Client>, i: nat, c: Client, st: Store, events: seq<WorkerEvent>, p': Pipe, st': Store)
    requires i < |clients| && LeadsCalmly(s0, With(clients, i, c, st), i) && c.alive && WorkerRun(i, c.pipe, st, events) == Some((p', st'))
    ensures LeadsCalmly(s0, With(clients, i, c.(pipe := p'), st'), i)
    decreases |events|
  {
    hide WorkerStep, LeadsCalmly;
    if events == [] {
      assert c.(pipe := p') == c;
    } else {
      var (p1, st1) := WorkerStep(i, c.pipe, st, events[0]).value;
      MovesCalmly(s0, clients, i, c, st, Work(i, events[0]), c.(pipe := p1), st1);
      WorksCalmly(s0, clients, i, c.(pipe := p1), st1, events[1..], p', st');
    }
  }

  lemma Works(s0: System, clients: seq<Client>, i: nat, c: Client, st: Store, events: seq<WorkerEvent>, p': Pipe, st': Store)
    requires i < |clients| && Leads(s0, With(clients, i, c, st)) && c.alive && WorkerRun(i, c.pipe, st, events) == Some((p', st'))
    ensures Leads(s0, With(clients, i, c.(pipe := p'), st'))
  {
    hide WorkerRun, Leads, LeadsCalmly;
    var s, s' := With(clients, i, c, st), With(clients, i, c.(pipe := p'), st');
    CalmlyNowhere(s, i);
    WorksCalmly(s, clients, i, c, st, events, p', st');
    CalmLeads(s, s', i);
    LeadsOn(s0, s, s');
  }

  /** A run of steps of the logging threads of client `i`. */
  lemma {:induction false} ReportsCalmly(s0: System, clients: seq<Client>, i: nat, c: Client, st: Store, events: seq<LoggerEvent>, p': Pipe, runs': Runs)
    requires i < |clients| && LeadsCalmly(s0, With(clients, i, c, st), i) && c.alive && LoggerRun(c.pipe, c.runs, events) == Some((p', runs'))
    ensures LeadsCalmly(s0, With(clients, i, c.(pipe := p', runs := runs'), st), i)
    decreases |events|
  {
    hide LoggerStep, LeadsCalmly;
    if events == [] {
      assert c.(pipe := p', runs := runs') == c;
    } else {
      var (p1, runs1) := LoggerStep(c.pipe, c.runs, events[0]).value;
      MovesCalmly(s0, clients, i, c, st, Logger(i, events[0]), c.(pipe := p1, runs := runs1), st);
      ReportsCalmly(s0, clients, i, c.(pipe := p1, runs := runs1), st, events[1..], p', runs');
    }
  }

  /** A thread of the client can log to the run, through object `o`. */
  predicate CanLog(c: Client, o: nat, run: RunId) {
    c.alive && o < |c.runs.objs| && c.runs.objs[o] == ActiveRun(run, Open, true, Free) && CanSend(c.pipe)
  }

  /** The thread that gets the sender lock next can send its report. */
  predicate CanSend(p: Pipe) {
    p.sender.Unlocked? && p.reporter.senderOpen && !p.reporter.writer.WriterFailed? && ReceiverAlive(p.worker) && HasRoom(p)
  }

  /** A thread inside the gate of object `o` reports its point. */
  lemma ReportsHeld(s0: System, clients: seq<Client>, i: nat, c: Client, st: Store, o: nat, now: int)
    requires i < |clients| && LeadsCalmly(s0, With(clients, i, c, st), i) && c.alive && o < |c.runs.objs| && c.runs.objs[o].gate.Held?
    requires CanSend(c.pipe)
    ensures var gate := c.runs.objs[o].gate;
            var report := NextReport(c.pipe, c.runs.objs[o].run, gate.key, gate.step, gate.value, now);
            LeadsCalmly(s0, With(clients, i, c.(pipe := Enqueued(c.pipe, report), runs := SetGate(c.runs, o, Free)), st), i)
  {
    hide LeadsCalmly, LoggerRun;
    ReportedIsSteps(c.pipe, c.runs, o, now);
    var gate := c.runs.objs[o].gate;
    var report := NextReport(c.pipe, c.runs.objs[o].run, gate.key, gate.step, gate.value, now);
    ReportsCalmly(s0, clients, i, c, st, ReportEvents(c.pipe, o, now), Enqueued(c.pipe, report), SetGate(c.runs, o, Free));
  }

  /** A logging thread enters the gate of object `o` and reports one point. */
  lemma LogsCalmly(s0: System, clients: seq<Client>, i: nat, c: Client, st: Store, o: nat, run: RunId, key: MetricKey, step: int, value: Value, now: int)
    requires i < |clients| && LeadsCalmly(s0, With(clients, i, c, st), i) && CanLog(c, o, run)
    ensures LeadsCalmly(s0, With(clients, i, c.(pipe := Enqueued(c.pipe, NextReport(c.pipe, run, key, step, value, now))), st), i)
  {
    var inside := SetGate(c.runs, o, Held(key, step, value));
    assert SetGate(inside, o, Free) == c.runs;
    assert ClientStep(i, c, st, Logger(i, Enter(o, key, step, value))) == Some((c.(runs := inside), st));
    hide LeadsCalmly, ClientStep;
    MovesCalmly(s0, clients, i, c, st, Logger(i, Enter(o, key, step, value)), c.(runs := inside), st);
    ReportsHeld(s0, clients, i, c.(runs := inside), st, o, now);
  }

  lemma LogsOne(s0: System, clients: seq<Client>, i: nat, c: Client, st: Store, o: nat, run: RunId, key: MetricKey, step: int, value: Value, now: int)
    requires i < |clients| && Leads(s0, With(clients, i, c, st)) && CanLog(c, o, run)
    ensures Leads(s0, With(clients, i, c.(pipe := Enqueued(c.pipe, NextReport(c.pipe, run, key, step, value, now))), st))
  {
    hide Leads, LeadsCalmly;
    var s, s' := With(clients, i, c, st), With(clients, i, c.(pipe := Enqueued(c.pipe, NextReport(c.pipe, run, key, step, value, now))), st);
    CalmlyNowhere(s, i);
    LogsCalmly(s, clients, i, c, st, o, run, key, step, value, now);
    CalmLeads(s, s', i);
    LeadsOn(s0, s, s');
  }

  /** The write side after a successful append and all of its counter updates. */
  function Persisted(i: nat, p: Pipe, st: Store, now: int): Pipe
    requires p.worker.Writing?
  {
    Acked(Appended(i, p, st, now).0)
  }

  lemma PersistedIsSteps(i: nat, p: Pipe, st: Store, now: int) returns (events: seq<WorkerEvent>)
    requires p.worker.Writing?
    ensures WorkerRun(i, p, st, events) == Some((Persisted(i, p, st, now), Appended(i, p, st, now).1))
  {
    var (p1, st1) := Appended(i, p, st, now);
    assert p1.worker == Counting(p.worker.batch);
    hide Appended, Acked;
    AckedIsSteps(i, p1, st1);
    WorkerRunNext(i, p, st, Append(now), [CountPersisted, MarkThrough, SettlePending]);
    events := [Append(now)] + [CountPersisted, MarkThrough, SettlePending];
  }

  /** One report, from the log call to its row. */
  lemma StoresOne(s0: System, clients: seq<Client>, i: nat, c: Client, st: Store, o: nat, run: RunId, key: MetricKey, step: int, value: Value, now: int)
    requires i < |clients| && Leads(s0, With(clients, i, c, st)) && CanLog(c, o, run) && c.pipe.worker.Receiving? && c.pipe.reporter.queue == []
    ensures var ready := Collected(Enqueued(c.pipe, NextReport(c.pipe, run, key, step, value, now)));
            Leads(s0, With(clients, i, c.(pipe := Persisted(i, ready, st, now)), Appended(i, ready, st, now).1))
  {
    var queued := Enqueued(c.pipe, NextReport(c.pipe, run, key, step, value, now));
    var ready := Collected(queued);
    LogsOne(s0, clients, i, c, st, o, run, key, step, value, now);
    hide Leads, Persisted, Appended;
    var taking := CollectedIsSteps(i, queued, st);
    Works(s0, clients, i, c.(pipe := queued), st, taking, ready, st);
    var storing := PersistedIsSteps(i, ready, st, now);
    Works(s0, clients, i, c.(pipe := ready), st, storing, Persisted(i, ready, st, now), Appended(i, ready, st, now).1);
  }

  /** What that leaves in the store: one more row, stamped by the later of clock and last stamp. */
  lemma OneRowStored(i: nat, p: Pipe, st: Store, run: RunId, key: MetricKey, step: int, value: Value, now: int)
    requires p.reporter.queue == []
    ensures var report := NextReport(p, run, key, step, value, now);
            var ready := Collected(Enqueued(p, report));
            var st' := Appended(i, ready, st, now).1;
            && st'.rows == st.rows + [Row(i, report, Max(p.nextStamp, now))] && st'.acked == st.acked + [|st.rows|]
            && st' == st.(rows := st'.rows, acked := st'.acked, skewed := st'.skewed)
  {
    var report := NextReport(p, run, key, step, value, now);
    assert [report][..1] == [report];
    assert Collected(Enqueued(p, report)).worker.batch == [report];
  }

  function GaveUp(p: Pipe): Pipe
    requires p.worker.Writing?
  {
    p.(worker := Exited(true, p.worker.batch), reporter := p.reporter.(queue := [], writer := WriterFailed))
  }

  /** Every further append fails, none leaves a row behind, and the worker ends. */
  lemma {:induction false} GivesUp(i: nat, p: Pipe, st: Store) returns (events: seq<WorkerEvent>)
    requires p.worker.Writing?
    ensures WorkerRun(i, p, st, events) == Some((GaveUp(p), st))
    decreases MAX_RETRIES - p.worker.retries
  {
    var (p1, st1) := AppendFailed(i, p, st, p.lastNow, 0);
    assert st.rows + [] == st.rows && st.skewed + NewlySkewed(st.rows, []) == st.skewed;
    assert st1 == st;
    if p.worker.retries < MAX_RETRIES {
      var rest := GivesUp(i, p1, st);
      WorkerRunNext(i, p, st, AppendError(p.lastNow, 0), rest);
      events := [AppendError(p.lastNow, 0)] + rest;
    } else {
      GivenUpIsSteps(i, p1, st);
      WorkerRunNext(i, p, st, AppendError(p.lastNow, 0), [DropReceiver, Die]);
      events := [AppendError(p.lastNow, 0)] + [DropReceiver, Die];
    }
  }
}
