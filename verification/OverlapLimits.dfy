/** Which steps of overlapping calls break the ledger lifecycle, and runs that take them. */
module OverlapLimits {
  import opened Shared
  import opened Domain
  import opened Postgres
  import opened LedgerStore
  import opened Bank
  import opened Outcome
  import opened Publishing
  import opened System
  import opened Runs
  import opened Redelivery
  import opened Overlap

  // ---- one store call ----

  /** The recorder's lookup found a COMPLETED entry, which it now overwrites. */
  predicate Reverts(l: seq<Entry>, r: Recorder, f: Fault, pick: nat) {
    && r.Overwriting? && !f.Lost?
    && match SomeIndex(l, r.req.transactionId, pick)
       case None => false
       case Some(i) => l[i].status.Completed?
  }

  lemma RecorderForwardIff(l: seq<Entry>, r: Recorder, f: Fault, pick: nat)
    ensures OnlyForward(l, RecorderCall(l, r, f, pick).0) <==> !Reverts(l, r, f, pick)
  {
    if r.Overwriting? && SomeIndex(l, r.req.transactionId, pick).Some? && !f.Lost? {
      var i := SomeIndex(l, r.req.transactionId, pick).value;
      assert RecorderCall(l, r, f, pick).0 == l[i := Marked(l[i], Failed, r.reason)];
    }
  }

  lemma AppendUniqueIff(l: seq<Entry>, e: Entry)
    requires Unique(l)
    ensures Unique(l + [e]) <==> !Listed(l, e.transactionId)
  {
    if Listed(l, e.transactionId) {
      var i := EntryIndex(l, e.transactionId).value;
      assert (l + [e])[i].transactionId == (l + [e])[|l|].transactionId;
    }
  }

  /** The recorder checked before somebody else inserted. */
  lemma RecorderUniqueIff(l: seq<Entry>, r: Recorder, f: Fault, pick: nat)
    requires Unique(l)
    ensures Unique(RecorderCall(l, r, f, pick).0) <==> !(r.Inserting? && !f.Lost? && Listed(l, r.req.transactionId))
  {
    if r.Inserting? {
      AppendUniqueIff(l, FailedEntry(r.req, r.reason));
    }
  }

  /** The publisher checked before somebody else inserted. */
  lemma PollerUniqueIff(rows: seq<Message>, l: seq<Entry>, p: Poller, maxRetry: int, f: Fault, pick: nat)
    requires Unique(l) && CanPoll(p)
    ensures Unique(PollerCall(rows, l, p, maxRetry, f, pick).1)
       <==> !(p.Adding? && !f.Lost? && Listed(l, p.m.payload.entry.transactionId))
  {
    if p.Adding? {
      AppendUniqueIff(l, CompletedEntry(p.m.payload.entry));
    }
  }

  // ---- one step ----

  predicate RevertingStep(w: World, step: Step) {
    step.Record? && step.k < |w.recorders| && Reverts(w.ledger, w.recorders[step.k], step.f, step.pick)
  }

  predicate DuplicatingStep(w: World, step: Step) {
    match step
    case Record(k, f, _) => k < |w.recorders| && w.recorders[k].Inserting? && !f.Lost?
        && Listed(w.ledger, w.recorders[k].req.transactionId)
    case Poll(k, f, _) => k < |w.pollers| && w.pollers[k].Adding? && !f.Lost?
        && Listed(w.ledger, w.pollers[k].m.transactionId)
    case _ => false
  }

  lemma PollForward(w: World, step: Step, maxRetry: int)
    requires Inv(w) && Enabled(w, step) && step.Poll?
    ensures OnlyForward(w.ledger, Next(w, step, maxRetry).ledger)
  {
    var p := w.pollers[step.k];
    if p.Completing? {
      assert PollerSound(w, p);
      var row := MessageIs(w, p);
      UpdatedGrows(w.ledger, p.m.transactionId, Completed, NoReason, step.f, step.pick);
      forall j | 0 <= j < |w.ledger| && w.ledger[j].status.Completed?
        ensures Marked(w.ledger[j], Completed, NoReason) == w.ledger[j]
      {
        assert EntrySound(w, w.ledger[j]);
      }
    }
  }

  lemma StepForwardIff(w: World, step: Step, maxRetry: int)
    requires Inv(w) && Enabled(w, step)
    ensures OnlyForward(w.ledger, Next(w, step, maxRetry).ledger) <==> !RevertingStep(w, step)
  {
    if step.Record? {
      RecorderForwardIff(w.ledger, w.recorders[step.k], step.f, step.pick);
    } else if step.Poll? {
      PollForward(w, step, maxRetry);
    }
  }

  lemma StepUniqueIff(w: World, step: Step, maxRetry: int)
    requires Inv(w) && Enabled(w, step) && Unique(w.ledger)
    ensures Unique(Next(w, step, maxRetry).ledger) <==> !DuplicatingStep(w, step)
  {
    if step.Record? {
      RecorderUniqueIff(w.ledger, w.recorders[step.k], step.f, step.pick);
    } else if step.Poll? {
      var p := w.pollers[step.k];
      PollerUniqueIff(w.rows, w.ledger, p, maxRetry, step.f, step.pick);
      if p.Adding? {
        assert PollerSound(w, p);
        var row := MessageIs(w, p);
      }
    }
  }

  // ---- whole runs ----

  predicate Follows(w: World, step: Step, w': World, maxRetry: int) {
    Enabled(w, step) && w' == Next(w, step, maxRetry)
  }

  /** ws lists the worlds a run goes through. */
  ghost predicate IsRun(ws: seq<World>, steps: seq<Step>, maxRetry: int) {
    && |ws| == |steps| + 1 && ws[0] == EMPTY_WORLD
    && forall k :: 0 <= k < |steps| ==> Follows(ws[k], steps[k], ws[k + 1], maxRetry)
  }

  lemma {:induction false} WorldsOf(maxRetry: int, steps: seq<Step>) returns (ws: seq<World>)
    requires Run(maxRetry, steps).Some?
    ensures IsRun(ws, steps, maxRetry) && ws[|steps|] == Run(maxRetry, steps).value
  {
    if steps == [] {
      ws := [EMPTY_WORLD];
    } else {
      var init := steps[..|steps| - 1];
      var before := WorldsOf(maxRetry, init);
      ws := before + [Run(maxRetry, steps).value];
      forall k | 0 <= k < |steps| ensures Follows(ws[k], steps[k], ws[k + 1], maxRetry) {
        if k < |init| {
          assert Follows(before[k], init[k], before[k + 1], maxRetry);
        }
      }
    }
  }

  predicate NeverReverts(ws: seq<World>, steps: seq<Step>)
    requires |ws| == |steps| + 1
  {
    forall k :: 0 <= k < |steps| ==> !RevertingStep(ws[k], steps[k])
  }

  predicate NeverDuplicates(ws: seq<World>, steps: seq<Step>)
    requires |ws| == |steps| + 1
  {
    forall k :: 0 <= k < |steps| ==> !DuplicatingStep(ws[k], steps[k])
  }

  lemma {:induction false} InvAt(ws: seq<World>, steps: seq<Step>, maxRetry: int, n: nat)
    requires IsRun(ws, steps, maxRetry) && n <= |steps|
    ensures Inv(ws[n])
  {
    if n > 0 {
      InvAt(ws, steps, maxRetry, n - 1);
      assert Follows(ws[n - 1], steps[n - 1], ws[n], maxRetry);
      NextKeeps(ws[n - 1], steps[n - 1], maxRetry);
    }
  }

  lemma ForwardAt(w: World, step: Step, w': World, maxRetry: int)
    requires Inv(w) && Follows(w, step, w', maxRetry)
    ensures OnlyForward(w.ledger, w'.ledger) <==> !RevertingStep(w, step)
  {
    StepForwardIff(w, step, maxRetry);
  }

  lemma UniqueAt(w: World, step: Step, w': World, maxRetry: int)
    requires Inv(w) && Follows(w, step, w', maxRetry)
    ensures Unique(w'.ledger) <==> Unique(w.ledger) && !DuplicatingStep(w, step)
  {
    NextKeeps(w, step, maxRetry);
    if Unique(w.ledger) {
      StepUniqueIff(w, step, maxRetry);
    } else {
      DuplicatesStay(w.ledger, w'.ledger);
    }
  }

  lemma DuplicatesStay(l: seq<Entry>, l': seq<Entry>)
    requires Grows(l, l') && !Unique(l)
    ensures !Unique(l')
  {
    var i, j :| 0 <= i < j < |l| && l[i].transactionId == l[j].transactionId;
    Kept(l, l', i);
    Kept(l, l', j);
  }

  lemma Kept(l: seq<Entry>, l': seq<Entry>, i: nat)
    requires Grows(l, l') && i < |l|
    ensures i < |l'| && l'[i].transactionId == l[i].transactionId
  {
    assert l'[i].(status := l[i].status, failureReason := l[i].failureReason, processed := l[i].processed) == l[i];
  }

  lemma UniqueAtStep(ws: seq<World>, steps: seq<Step>, maxRetry: int, k: nat)
    requires IsRun(ws, steps, maxRetry) && k < |steps|
    ensures Unique(ws[k + 1].ledger) <==> Unique(ws[k].ledger) && !DuplicatingStep(ws[k], steps[k])
  {
    InvAt(ws, steps, maxRetry, k);
    UniqueAt(ws[k], steps[k], ws[k + 1], maxRetry);
  }

  /** One entry per transaction, after n steps of a run, exactly when none of them duplicated one. */
  lemma {:induction false} UniqueIff(ws: seq<World>, steps: seq<Step>, maxRetry: int, n: nat)
    requires IsRun(ws, steps, maxRetry) && n <= |steps|
    ensures Unique(ws[n].ledger) <==> forall k :: 0 <= k < n ==> !DuplicatingStep(ws[k], steps[k])
  {
    if n > 0 {
      UniqueIff(ws, steps, maxRetry, n - 1);
      UniqueAtStep(ws, steps, maxRetry, n - 1);
    }
  }

  lemma {:induction false} ForwardBetween(ws: seq<World>, a: nat, b: nat)
    requires a <= b < |ws| && forall k :: 0 <= k < |ws| - 1 ==> OnlyForward(ws[k].ledger, ws[k + 1].ledger)
    ensures OnlyForward(ws[a].ledger, ws[b].ledger)
    decreases b
  {
    if a < b {
      ForwardBetween(ws, a, b - 1);
      ForwardTwice(ws[a].ledger, ws[b - 1].ledger, ws[b].ledger);
    }
  }

  /** COMPLETED never reverts between any two points of a run exactly when no step of it reverted an entry. */
  lemma ForwardIff(ws: seq<World>, steps: seq<Step>, maxRetry: int)
    requires IsRun(ws, steps, maxRetry)
    ensures (forall a, b :: 0 <= a <= b < |ws| ==> OnlyForward(ws[a].ledger, ws[b].ledger)) <==> NeverReverts(ws, steps)
  {
    forall k | 0 <= k < |steps|
      ensures OnlyForward(ws[k].ledger, ws[k + 1].ledger) <==> !RevertingStep(ws[k], steps[k])
    {
      InvAt(ws, steps, maxRetry, k);
      ForwardAt(ws[k], steps[k], ws[k + 1], maxRetry);
    }
    if NeverReverts(ws, steps) {
      forall a, b | 0 <= a <= b < |ws| ensures OnlyForward(ws[a].ledger, ws[b].ledger) {
        ForwardBetween(ws, a, b);
      }
    } else {
      var k :| 0 <= k < |steps| && RevertingStep(ws[k], steps[k]);
      assert !OnlyForward(ws[k].ledger, ws[k + 1].ledger);
    }
  }

  // ---- what the overwriting recorder had seen ----

  /** A lookup leads to an overwriting call exactly when it finds a COMPLETED entry: nothing
      else that is stored is not FAILED. */
  lemma LookupOverwritesIff(w: World, req: Request, reason: FailureReason, f: Fault, pick: nat)
    requires Inv(w)
    ensures RecorderCall(w.ledger, Looking(req, reason), f, pick).1.Overwriting?
        <==> FindsCompleted(w.ledger, req, f, pick)
  {
    if SomeIndex(w.ledger, req.transactionId, pick).Some? {
      assert EntrySound(w, w.ledger[SomeIndex(w.ledger, req.transactionId, pick).value]);
    }
  }

  predicate FindsCompleted(l: seq<Entry>, req: Request, f: Fault, pick: nat) {
    && f.NoFault?
    && match SomeIndex(l, req.transactionId, pick)
       case None => false
       case Some(i) => l[i].status.Completed?
  }

  /** At step k recorder r looked and found its transaction COMPLETED. */
  predicate LookedAt(ws: seq<World>, steps: seq<Step>, r: nat, k: nat)
    requires k < |steps| <= |ws|
  {
    && steps[k].Record? && steps[k].k == r && r < |ws[k].recorders| && ws[k].recorders[r].Looking?
    && FindsCompleted(ws[k].ledger, ws[k].recorders[r].req, steps[k].f, steps[k].pick)
  }

  lemma {:induction false} OverwritingHasLooked(ws: seq<World>, steps: seq<Step>, maxRetry: int, n: nat,
                                                r: nat) returns (k: nat)
    requires IsRun(ws, steps, maxRetry) && n <= |steps| && r < |ws[n].recorders| && ws[n].recorders[r].Overwriting?
    ensures k < n && LookedAt(ws, steps, r, k)
  {
    var w, step := ws[n - 1], steps[n - 1];
    assert Follows(w, step, ws[n], maxRetry);
    if step.Record? && step.k == r {
      k := n - 1;
      InvAt(ws, steps, maxRetry, k);
      LookupOverwritesIff(w, w.recorders[r].req, w.recorders[r].reason, step.f, step.pick);
    } else {
      k := OverwritingHasLooked(ws, steps, maxRetry, n - 1, r);
    }
  }

  /** Only a recorder whose own lookup found the transaction COMPLETED ever reverts it. */
  lemma RevertFollowsLookup(ws: seq<World>, steps: seq<Step>, maxRetry: int, n: nat) returns (k: nat)
    requires IsRun(ws, steps, maxRetry) && n < |steps| && RevertingStep(ws[n], steps[n])
    ensures k < n && LookedAt(ws, steps, steps[n].k, k)
  {
    k := OverwritingHasLooked(ws, steps, maxRetry, n, steps[n].k);
  }

  // ---- without such steps the lifecycle holds although calls overlap ----

  ghost predicate Clean(w: World) {
    && Unique(w.ledger)
    && (forall i :: 0 <= i < |w.rows| && w.rows[i].status.OutboxProcessed? ==>
        IsCompleted(w.ledger, w.rows[i].transactionId))
    && (forall k :: 0 <= k < |w.pollers| && w.pollers[k].Marking? ==>
        IsCompleted(w.ledger, w.pollers[k].m.transactionId))
  }

  lemma ForwardKeepsCompleted(l: seq<Entry>, l': seq<Entry>, id: Uuid)
    requires OnlyForward(l, l') && Unique(l') && IsCompleted(l, id)
    ensures IsCompleted(l', id)
  {
    var i := EntryIndex(l, id).value;
    Kept(l, l', i);
    assert EntryIndex(l', id) == Some(i);
  }

  lemma CallMarks(rows: seq<Message>, l: seq<Entry>, p: Poller, maxRetry: int, f: Fault, pick: nat)
    requires Unique(l) && !p.Done? && p.m.payload.Decodes? && p.m.payload.entry.transactionId == p.m.transactionId
    requires p.Marking? ==> IsCompleted(l, p.m.transactionId)
    ensures var (_, l', p') := PollerCall(rows, l, p, maxRetry, f, pick);
      Unique(l') && p'.Marking? ==> p'.m == p.m && IsCompleted(l', p.m.transactionId)
  {
    var (_, l', p') := PollerCall(rows, l, p, maxRetry, f, pick);
    var id := p.m.transactionId;
    if p.Completing? && p'.Marking? {
      var i := SomeIndex(l, id, pick).value;
      assert l'[i].transactionId == id;
    } else if p.Adding? && p'.Marking? {
      assert l'[|l|].transactionId == id;
    }
  }

  /** A publisher about to mark its row has the completed entry behind it. */
  lemma MarkingIsCompleted(w: World, step: Step, maxRetry: int)
    requires Inv(w) && Clean(w) && Enabled(w, step) && step.Poll?
    requires Unique(Next(w, step, maxRetry).ledger) && Next(w, step, maxRetry).pollers[step.k].Marking?
    ensures IsCompleted(Next(w, step, maxRetry).ledger, Next(w, step, maxRetry).pollers[step.k].m.transactionId)
  {
    var p := w.pollers[step.k];
    if !p.Done? {
      assert PollerSound(w, p);
      var row := MessageIs(w, p);
      CallMarks(w.rows, w.ledger, p, maxRetry, step.f, step.pick);
    }
  }

  lemma MarksOwnRow(rows: seq<Message>, l: seq<Entry>, p: Poller, maxRetry: int, f: Fault, pick: nat, row: nat)
    requires CanPoll(p) && !p.Done? && row < |rows| && IndexById(rows, p.m.id) == Some(row)
    ensures p.m.payload.Decodes? ==>
      var rows' := PollerCall(rows, l, p, maxRetry, f, pick).0;
      && |rows'| == |rows| && rows' == rows[row := rows'[row]] && rows'[row].transactionId == rows[row].transactionId
      && (rows'[row].status.OutboxProcessed? ==> rows[row].status.OutboxProcessed? || p.Marking?)
  {
  }

  /** Only a publisher that marks its own row makes it PROCESSED. */
  lemma NewlyProcessed(w: World, step: Step, maxRetry: int, i: nat)
    requires Inv(w) && Enabled(w, step) && i < |Next(w, step, maxRetry).rows|
    requires Next(w, step, maxRetry).rows[i].status.OutboxProcessed?
    ensures i < |w.rows| && w.rows[i].transactionId == Next(w, step, maxRetry).rows[i].transactionId
    ensures || w.rows[i].status.OutboxProcessed?
            || (step.Poll? && w.pollers[step.k].Marking?
                && w.pollers[step.k].m.transactionId == w.rows[i].transactionId)
  {
    if step.Poll? && !w.pollers[step.k].Done? {
      assert PollerSound(w, w.pollers[step.k]);
      var row := MessageIs(w, w.pollers[step.k]);
      MarksOwnRow(w.rows, w.ledger, w.pollers[step.k], maxRetry, step.f, step.pick, row);
    }
  }

  lemma CleanStep(w: World, step: Step, maxRetry: int)
    requires Inv(w) && Clean(w) && Enabled(w, step) && !RevertingStep(w, step) && !DuplicatingStep(w, step)
    ensures Clean(Next(w, step, maxRetry))
  {
    var w' := Next(w, step, maxRetry);
    StepForwardIff(w, step, maxRetry);
    StepUniqueIff(w, step, maxRetry);
    forall i | 0 <= i < |w'.rows| && w'.rows[i].status.OutboxProcessed?
      ensures IsCompleted(w'.ledger, w'.rows[i].transactionId)
    {
      NewlyProcessed(w, step, maxRetry, i);
      ForwardKeepsCompleted(w.ledger, w'.ledger, w.rows[i].transactionId);
    }
    forall k | 0 <= k < |w'.pollers| && w'.pollers[k].Marking?
      ensures IsCompleted(w'.ledger, w'.pollers[k].m.transactionId)
    {
      if k < |w.pollers| && w'.pollers[k] == w.pollers[k] {
        ForwardKeepsCompleted(w.ledger, w'.ledger, w.pollers[k].m.transactionId);
      } else if step.Poll? {
        MarkingIsCompleted(w, step, maxRetry);
      }
    }
  }

  lemma {:induction false} CleanAt(ws: seq<World>, steps: seq<Step>, maxRetry: int, n: nat)
    requires IsRun(ws, steps, maxRetry) && n <= |steps| && NeverReverts(ws, steps) && NeverDuplicates(ws, steps)
    ensures Clean(ws[n])
  {
    if n > 0 {
      CleanAt(ws, steps, maxRetry, n - 1);
      InvAt(ws, steps, maxRetry, n - 1);
      assert Follows(ws[n - 1], steps[n - 1], ws[n], maxRetry);
      CleanStep(ws[n - 1], steps[n - 1], maxRetry);
    }
  }

  /** In a run without such steps each transaction has one entry and PROCESSED means COMPLETED,
      however calls overlap. */
  lemma LifecycleWithoutOvertaking(ws: seq<World>, steps: seq<Step>, maxRetry: int, n: nat)
    requires IsRun(ws, steps, maxRetry) && n <= |steps| && NeverReverts(ws, steps) && NeverDuplicates(ws, steps)
    ensures Unique(ws[n].ledger)
    ensures forall i :: 0 <= i < |ws[n].rows| && ws[n].rows[i].status.OutboxProcessed? ==>
      IsCompleted(ws[n].ledger, ws[n].rows[i].transactionId)
  {
    CleanAt(ws, steps, maxRetry, n);
  }

  // ---- exactly when PROCESSED stops meaning COMPLETED ----

  predicate ProcessedOk(w: World) {
    forall i :: 0 <= i < |w.rows| && w.rows[i].status.OutboxProcessed? ==>
        IsCompleted(w.ledger, w.rows[i].transactionId)
  }

  predicate HasProcessed(rows: seq<Message>, id: Uuid) {
    exists i :: 0 <= i < |rows| && rows[i].transactionId == id && rows[i].status.OutboxProcessed?
  }

  /** A recorder reverts the entry of a PROCESSED row, or a publisher marks its row after
      the entry it completed has been reverted. */
  predicate UnsettlingStep(w: World, step: Step) {
    match step
    case Record(k, _, _) => RevertingStep(w, step) && HasProcessed(w.rows, w.recorders[k].req.transactionId)
    case Poll(k, f, _) =>
      && k < |w.pollers| && w.pollers[k].Marking? && !f.Lost?
      && !IsCompleted(w.ledger, w.pollers[k].m.transactionId)
    case _ => false
  }

  /** An update of one entry leaves the other transactions' as they were. */
  lemma OthersCompleted(l: seq<Entry>, i: nat, e: Entry, id: Uuid)
    requires Unique(l) && i < |l| && e.transactionId == l[i].transactionId
    ensures id != e.transactionId ==> (IsCompleted(l[i := e], id) <==> IsCompleted(l, id))
    ensures IsCompleted(l[i := e], e.transactionId) <==> e.status.Completed?
  {
    var l' := l[i := e];
    assert l'[i].transactionId == e.transactionId;
    if EntryIndex(l, id).Some? {
      assert l'[EntryIndex(l, id).value].transactionId == id;
    }
  }

  lemma RecordProcessedIff(w: World, step: Step, maxRetry: int)
    requires Inv(w) && Enabled(w, step) && step.Record? && Unique(w.ledger) && ProcessedOk(w)
    requires Unique(Next(w, step, maxRetry).ledger)
    ensures ProcessedOk(Next(w, step, maxRetry)) <==> !UnsettlingStep(w, step)
  {
    var w', r := Next(w, step, maxRetry), w.recorders[step.k];
    if RevertingStep(w, step) {
      var i := SomeIndex(w.ledger, r.req.transactionId, step.pick).value;
      forall k | 0 <= k < |w.rows| {
        OthersCompleted(w.ledger, i, Marked(w.ledger[i], Failed, r.reason), w.rows[k].transactionId);
      }
    } else {
      StepForwardIff(w, step, maxRetry);
      forall k | 0 <= k < |w.rows| && w.rows[k].status.OutboxProcessed?
        ensures IsCompleted(w'.ledger, w.rows[k].transactionId)
      {
        ForwardKeepsCompleted(w.ledger, w'.ledger, w.rows[k].transactionId);
      }
    }
  }

  /** A mark that takes effect makes the publisher's row PROCESSED and touches no entry. */
  lemma MarkIs(w: World, step: Step, maxRetry: int) returns (row: nat)
    requires Inv(w) && Enabled(w, step) && step.Poll? && w.pollers[step.k].Marking? && !step.f.Lost?
    ensures var w' := Next(w, step, maxRetry);
      && w'.ledger == w.ledger && row < |w'.rows|
      && w'.rows[row].status.OutboxProcessed? && w'.rows[row].transactionId == w.pollers[step.k].m.transactionId
  {
    assert PollerSound(w, w.pollers[step.k]);
    row := MessageIs(w, w.pollers[step.k]);
    assert w.rows[row].transactionId == w.pollers[step.k].m.transactionId;
  }

  lemma NonRecordProcessedIff(w: World, step: Step, maxRetry: int)
    requires Inv(w) && Enabled(w, step) && !step.Record? && Unique(w.ledger) && ProcessedOk(w)
    requires Unique(Next(w, step, maxRetry).ledger)
    ensures ProcessedOk(Next(w, step, maxRetry)) <==> !UnsettlingStep(w, step)
  {
    var w' := Next(w, step, maxRetry);
    if UnsettlingStep(w, step) {
      var row := MarkIs(w, step, maxRetry);
    } else {
      StepForwardIff(w, step, maxRetry);
      forall i | 0 <= i < |w'.rows| && w'.rows[i].status.OutboxProcessed?
        ensures IsCompleted(w'.ledger, w'.rows[i].transactionId)
      {
        NewlyProcessed(w, step, maxRetry, i);
        ForwardKeepsCompleted(w.ledger, w'.ledger, w.rows[i].transactionId);
      }
    }
  }

  lemma ProcessedAtStep(ws: seq<World>, steps: seq<Step>, maxRetry: int, k: nat)
    requires IsRun(ws, steps, maxRetry) && k < |steps| && NeverDuplicates(ws, steps) && ProcessedOk(ws[k])
    ensures ProcessedOk(ws[k + 1]) <==> !UnsettlingStep(ws[k], steps[k])
  {
    InvAt(ws, steps, maxRetry, k);
    UniqueIff(ws, steps, maxRetry, k);
    UniqueIff(ws, steps, maxRetry, k + 1);
    assert Follows(ws[k], steps[k], ws[k + 1], maxRetry);
    if steps[k].Record? {
      RecordProcessedIff(ws[k], steps[k], maxRetry);
    } else {
      NonRecordProcessedIff(ws[k], steps[k], maxRetry);
    }
  }

  /** While each transaction has one entry, PROCESSED means COMPLETED throughout the first n
      steps exactly when none of them is such a step. */
  lemma {:induction false} ProcessedIff(ws: seq<World>, steps: seq<Step>, maxRetry: int, n: nat)
    requires IsRun(ws, steps, maxRetry) && n <= |steps| && NeverDuplicates(ws, steps)
    ensures (forall k :: 0 <= k <= n ==> ProcessedOk(ws[k]))
        <==> (forall k :: 0 <= k < n ==> !UnsettlingStep(ws[k], steps[k]))
  {
    if n > 0 {
      ProcessedIff(ws, steps, maxRetry, n - 1);
      if ProcessedOk(ws[n - 1]) {
        ProcessedAtStep(ws, steps, maxRetry, n - 1);
      }
    }
  }

  // ---- where a recorded reason comes from ----

  lemma RecorderCallReason(l: seq<Entry>, r: Recorder, f: Fault, pick: nat)
    ensures var (l', r') := RecorderCall(l, r, f, pick);
      && (!r'.Returned? ==> !r.Returned? && r'.req == r.req && r'.reason == r.reason)
      && (forall j :: 0 <= j < |l'| && l'[j].status.Failed? ==>
            || (j < |l| && l'[j] == l[j])
            || (!r.Returned? && r.req.transactionId == l'[j].transactionId && r.reason == l'[j].failureReason))
  {
  }

  lemma PollerCallReason(rows: seq<Message>, l: seq<Entry>, p: Poller, maxRetry: int, f: Fault, pick: nat)
    requires CanPoll(p)
    ensures var l' := PollerCall(rows, l, p, maxRetry, f, pick).1;
      forall j :: 0 <= j < |l'| && l'[j].status.Failed? ==> j < |l| && l'[j] == l[j]
  {
  }

  /** A worker refused the transaction at step k for the reason, as the account stood then. */
  predicate RefusedAt(ws: seq<World>, steps: seq<Step>, id: Uuid, reason: FailureReason, k: nat)
    requires k < |steps| <= |ws|
  {
    && steps[k] == Refuse(id) && Find(ws[k].topic, id).Some?
    && RefusalReason(ws[k].accounts, Find(ws[k].topic, id).value) == Some(reason)
  }

  ghost predicate RefusedBefore(ws: seq<World>, steps: seq<Step>, n: nat, id: Uuid, reason: FailureReason)
    requires n <= |steps| <= |ws|
  {
    exists k: nat :: k < n && RefusedAt(ws, steps, id, reason, k)
  }

  lemma {:induction false} ReasonsAreRead(ws: seq<World>, steps: seq<Step>, maxRetry: int, n: nat)
    requires IsRun(ws, steps, maxRetry) && n <= |steps|
    ensures forall j :: 0 <= j < |ws[n].ledger| && ws[n].ledger[j].status.Failed? ==>
      RefusedBefore(ws, steps, n, ws[n].ledger[j].transactionId, ws[n].ledger[j].failureReason)
    ensures forall k :: 0 <= k < |ws[n].recorders| && !ws[n].recorders[k].Returned? ==>
      RefusedBefore(ws, steps, n, ws[n].recorders[k].req.transactionId, ws[n].recorders[k].reason)
  {
    if n > 0 {
      var w, w' := ws[n - 1], ws[n];
      ReasonsAreRead(ws, steps, maxRetry, n - 1);
      ReasonStep(ws, steps, maxRetry, n - 1);
      forall j | 0 <= j < |w'.ledger| && w'.ledger[j].status.Failed?
        ensures RefusedBefore(ws, steps, n, w'.ledger[j].transactionId, w'.ledger[j].failureReason)
      {
        assert RefusedBefore(ws, steps, n - 1, w'.ledger[j].transactionId, w'.ledger[j].failureReason);
        RefusalStays(ws, steps, n, w'.ledger[j].transactionId, w'.ledger[j].failureReason);
      }
      forall k | 0 <= k < |w'.recorders| && !w'.recorders[k].Returned?
        ensures RefusedBefore(ws, steps, n, w'.recorders[k].req.transactionId, w'.recorders[k].reason)
      {
        RefusalStays(ws, steps, n, w'.recorders[k].req.transactionId, w'.recorders[k].reason);
      }
    }
  }

  lemma RefusalStays(ws: seq<World>, steps: seq<Step>, n: nat, id: Uuid, reason: FailureReason)
    requires 0 < n <= |steps| <= |ws|
    requires RefusedBefore(ws, steps, n - 1, id, reason) || RefusedAt(ws, steps, id, reason, n - 1)
    ensures RefusedBefore(ws, steps, n, id, reason)
  {
    if RefusedBefore(ws, steps, n - 1, id, reason) {
      var k: nat :| k < n - 1 && RefusedAt(ws, steps, id, reason, k);
    }
  }

  /** A step copies the reason from an entry or a recorder, or reads it. */
  lemma ReasonStep(ws: seq<World>, steps: seq<Step>, maxRetry: int, n: nat)
    requires IsRun(ws, steps, maxRetry) && n < |steps|
    ensures var w, w' := ws[n], ws[n + 1];
      && (forall j :: 0 <= j < |w'.ledger| && w'.ledger[j].status.Failed? ==>
            || (j < |w.ledger| && w.ledger[j] == w'.ledger[j])
            || (exists k :: 0 <= k < |w.recorders| && !w.recorders[k].Returned?
                  && w.recorders[k].req.transactionId == w'.ledger[j].transactionId
                  && w.recorders[k].reason == w'.ledger[j].failureReason))
      && (forall k :: 0 <= k < |w'.recorders| && !w'.recorders[k].Returned? ==>
            || (k < |w.recorders| && !w.recorders[k].Returned?
                && w.recorders[k].req == w'.recorders[k].req && w.recorders[k].reason == w'.recorders[k].reason)
            || RefusedAt(ws, steps, w'.recorders[k].req.transactionId, w'.recorders[k].reason, n))
  {
    var w, step := ws[n], steps[n];
    assert Follows(w, step, ws[n + 1], maxRetry);
    if step.Record? {
      RecorderCallReason(w.ledger, w.recorders[step.k], step.f, step.pick);
    } else if step.Poll? {
      PollerCallReason(w.rows, w.ledger, w.pollers[step.k], maxRetry, step.f, step.pick);
    }
  }

  /** Every FAILED entry carries the reason for which the account, as a worker read it at
      some earlier step, had to refuse the request. */
  lemma FailedAsRead(ws: seq<World>, steps: seq<Step>, maxRetry: int, n: nat, j: nat) returns (k: nat)
    requires IsRun(ws, steps, maxRetry) && n <= |steps| && j < |ws[n].ledger| && ws[n].ledger[j].status.Failed?
    ensures k < n && RefusedAt(ws, steps, ws[n].ledger[j].transactionId, ws[n].ledger[j].failureReason, k)
  {
    ReasonsAreRead(ws, steps, maxRetry, n);
    k :| k < n && RefusedAt(ws, steps, ws[n].ledger[j].transactionId, ws[n].ledger[j].failureReason, k);
  }

  /** A FAILED entry beside an outbox row is a withdrawal for which the funds were short, or
      a request for an account that was missing, when a worker read them at an earlier step. */
  lemma FailedBesideRowIs(ws: seq<World>, steps: seq<Step>, maxRetry: int, n: nat, i: nat, j: nat) returns (k: nat)
    requires IsRun(ws, steps, maxRetry) && n <= |steps| && i < |ws[n].rows| && j < |ws[n].ledger|
    requires ws[n].ledger[j].status.Failed? && ws[n].rows[i].transactionId == ws[n].ledger[j].transactionId
    ensures k < n && steps[k] == Refuse(ws[n].ledger[j].transactionId)
    ensures var e, accounts := ws[n].ledger[j], ws[k].accounts;
      if e.accountId in accounts
      then e.kind.Withdrawal? && accounts[e.accountId].balance < e.amount && e.failureReason == InsufficientFundsReason
      else e.failureReason == AccountNotFoundReason
  {
    k := FailedAsRead(ws, steps, maxRetry, n, j);
    InvAt(ws, steps, maxRetry, n);
    FailedReason(ws[n], i, j);
    SameRequest(ws, steps, maxRetry, k, n, ws[n].ledger[j].transactionId);
    assert EntrySound(ws[n], ws[n].ledger[j]);
  }

  /** A transaction id keeps its request. */
  lemma {:induction false} SameRequest(ws: seq<World>, steps: seq<Step>, maxRetry: int, k: nat, n: nat, id: Uuid)
    requires IsRun(ws, steps, maxRetry) && k <= n <= |steps| && Find(ws[k].topic, id).Some?
    ensures Find(ws[n].topic, id) == Find(ws[k].topic, id)
    decreases n
  {
    if k < n {
      SameRequest(ws, steps, maxRetry, k, n - 1, id);
      assert Follows(ws[n - 1], steps[n - 1], ws[n], maxRetry);
      if steps[n - 1].Submit? {
        FindAppended(ws[n - 1].topic, steps[n - 1].req, id);
      }
    }
  }

  // ---- runs that take them ----

  lemma RunNext(steps: seq<Step>, step: Step, w: World, w': World)
    requires Run(3, steps) == Some(w) && Follows(w, step, w', 3)
    ensures Run(3, steps + [step]) == Some(w')
  {
    assert (steps + [step])[..|steps|] == steps;
  }

  /** The payout applied, its account empty. */
  function PaidWorld(status: OutboxStatus, l: seq<Entry>, r: seq<Recorder>, p: seq<Poller>): World {
    World([PAYOUT], map[7 := FIVE.(balance := 0, version := 2)], PaidRows(status), l, r, p)
  }

  const LOOKING := Looking(PAYOUT, InsufficientFundsReason)
  const PAID := [CompletedEntry(ProcessingEntry(PAYOUT))]

  /** Paid out once, and delivered again to a worker that finds the account empty. */
  lemma RefusedAgainRun() returns (steps: seq<Step>)
    ensures Run(3, steps) == Some(PaidWorld(OutboxPending, [], [LOOKING], []))
  {
    var funded := World([], map[7 := FIVE], [], [], [], []);
    var asked := funded.(topic := [PAYOUT]);
    RunNext([], Step.Open(7, FIVE), EMPTY_WORLD, funded);
    assert [] + [PAYOUT] == [PAYOUT];
    RunNext([] + [Step.Open(7, FIVE)], Step.Submit(PAYOUT), funded, asked);
    assert map[7 := FIVE][7 := FIVE.(balance := 0, version := 2)] == map[7 := FIVE.(balance := 0, version := 2)];
    assert [] + [AppliedRow(PAYOUT, 1, 0)] == [AppliedRow(PAYOUT, 1, 0)];
    RunNext([] + [Step.Open(7, FIVE)] + [Step.Submit(PAYOUT)], Apply(1, 1, 0), asked,
        PaidWorld(OutboxPending, [], [], []));
    assert [] + [LOOKING] == [LOOKING];
    steps := [] + [Step.Open(7, FIVE)] + [Step.Submit(PAYOUT)] + [Apply(1, 1, 0)];
    RunNext(steps, Refuse(1), PaidWorld(OutboxPending, [], [], []), PaidWorld(OutboxPending, [], [LOOKING], []));
    steps := steps + [Refuse(1)];
  }

  /** One fault-free store call of the poller. */
  lemma PollerRuns(steps: seq<Step>, status: OutboxStatus, status': OutboxStatus, l: seq<Entry>, l': seq<Entry>,
                   p: Poller, p': Poller) returns (steps': seq<Step>)
    requires Run(3, steps) == Some(PaidWorld(status, l, [LOOKING], [p])) && CanPoll(p)
    requires PollerCall(PaidRows(status), l, p, 3, NoFault, 0) == (PaidRows(status'), l', p')
    ensures Run(3, steps') == Some(PaidWorld(status', l', [LOOKING], [p']))
  {
    assert [p][0 := p'] == [p'];
    RunNext(steps, Poll(0, NoFault, 0), PaidWorld(status, l, [LOOKING], [p]), PaidWorld(status', l', [LOOKING], [p']));
    steps' := steps + [Poll(0, NoFault, 0)];
  }

  lemma TakenRun() returns (steps: seq<Step>)
    ensures Run(3, steps) == Some(PaidWorld(OutboxPending, [], [LOOKING], [Reading(AppliedRow(PAYOUT, 1, 0))]))
  {
    var row := AppliedRow(PAYOUT, 1, 0);
    steps := RefusedAgainRun();
    assert SameRow(row, row) && PaidWorld(OutboxPending, [], [LOOKING], []).rows[0] == row;
    assert [] + [Reading(row)] == [Reading(row)];
    RunNext(steps, Take(row), PaidWorld(OutboxPending, [], [LOOKING], []),
        PaidWorld(OutboxPending, [], [LOOKING], [Reading(row)]));
    steps := steps + [Take(row)];
  }

  function PaidRows(status: OutboxStatus): seq<Message> {
    [AppliedRow(PAYOUT, 1, 0).(status := status)]
  }

  lemma PublishCalls()
    ensures var row, rows := AppliedRow(PAYOUT, 1, 0), PaidRows(OutboxPending);
      && PollerCall(rows, [], Reading(row), 3, NoFault, 0) == (rows, [], Rechecking(row))
      && PollerCall(rows, [], Rechecking(row), 3, NoFault, 0) == (rows, [], Adding(row))
      && PollerCall(rows, [], Adding(row), 3, NoFault, 0) == (rows, PAID, Marking(row))
      && PollerCall(rows, PAID, Marking(row), 3, NoFault, 0) == (PaidRows(OutboxProcessed), PAID, Done)
  {
    assert [] + PAID == PAID;
    var row := AppliedRow(PAYOUT, 1, 0);
    assert PaidRows(OutboxPending)[0] == row && IndexById(PaidRows(OutboxPending), 1) == Some(0);
    assert [row][0 := row.(status := OutboxProcessed)] == PaidRows(OutboxProcessed);
  }

  /** Meanwhile the poller publishes the payout. */
  lemma PublishedRun() returns (steps: seq<Step>)
    ensures Run(3, steps) == Some(PaidWorld(OutboxProcessed, PAID, [LOOKING], [Done]))
  {
    var row := AppliedRow(PAYOUT, 1, 0);
    PublishCalls();
    steps := TakenRun();
    steps := PollerRuns(steps, OutboxPending, OutboxPending, [], [], Reading(row), Rechecking(row));
    steps := PollerRuns(steps, OutboxPending, OutboxPending, [], [], Rechecking(row), Adding(row));
    steps := PollerRuns(steps, OutboxPending, OutboxPending, [], PAID, Adding(row), Marking(row));
    steps := PollerRuns(steps, OutboxPending, OutboxProcessed, PAID, PAID, Marking(row), Done);
  }

  /** The late refusal then turns the published entry into a failure, beside a PROCESSED row. */
  lemma RevertedRun() returns (before: seq<Step>, steps: seq<Step>)
    ensures before <= steps
    ensures Run(3, before) == Some(PaidWorld(OutboxProcessed, PAID, [LOOKING], [Done]))
    ensures Run(3, steps) == Some(PaidWorld(OutboxProcessed, [FailedEntry(PAYOUT, InsufficientFundsReason)],
        [Returned], [Done]))
  {
    before := PublishedRun();
    var overwriting := Overwriting(PAYOUT, InsufficientFundsReason);
    assert [LOOKING][0 := overwriting] == [overwriting];
    RunNext(before, Record(0, NoFault, 0), PaidWorld(OutboxProcessed, PAID, [LOOKING], [Done]),
            PaidWorld(OutboxProcessed, PAID, [overwriting], [Done]));
    assert [overwriting][0 := Returned] == [Returned];
    assert PAID[0 := FailedEntry(PAYOUT, InsufficientFundsReason)] == [FailedEntry(PAYOUT, InsufficientFundsReason)];
    RunNext(before + [Record(0, NoFault, 0)], Record(0, NoFault, 0),
        PaidWorld(OutboxProcessed, PAID, [overwriting], [Done]),
            PaidWorld(OutboxProcessed, [FailedEntry(PAYOUT, InsufficientFundsReason)], [Returned], [Done]));
    steps := before + [Record(0, NoFault, 0)] + [Record(0, NoFault, 0)];
  }

  /** The payout submitted before its account exists. */
  function UnfundedWorld(l: seq<Entry>, r: seq<Recorder>): World {
    World([PAYOUT], map[], [], l, r, [])
  }

  /** One fault-free store call of a recorder. */
  lemma RecorderRuns(steps: seq<Step>, l: seq<Entry>, rs: seq<Recorder>, k: nat, l': seq<Entry>, r': Recorder)
    returns (steps': seq<Step>)
    requires Run(3, steps) == Some(UnfundedWorld(l, rs)) && k < |rs| && RecorderCall(l, rs[k], NoFault, 0) == (l', r')
    ensures Run(3, steps') == Some(UnfundedWorld(l', rs[k := r']))
  {
    RunNext(steps, Record(k, NoFault, 0), UnfundedWorld(l, rs), UnfundedWorld(l', rs[k := r']));
    steps' := steps + [Record(k, NoFault, 0)];
  }

  lemma RefusedTwiceRun() returns (steps: seq<Step>)
    ensures var look := Looking(PAYOUT, AccountNotFoundReason); Run(3, steps) == Some(UnfundedWorld([], [look, look]))
  {
    var look := Looking(PAYOUT, AccountNotFoundReason);
    assert [] + [PAYOUT] == [PAYOUT];
    RunNext([], Step.Submit(PAYOUT), EMPTY_WORLD, UnfundedWorld([], []));
    steps := [] + [Step.Submit(PAYOUT)];
    assert [] + [look] == [look] && [look] + [look] == [look, look];
    RunNext(steps, Refuse(1), UnfundedWorld([], []), UnfundedWorld([], [look]));
    RunNext(steps + [Refuse(1)], Refuse(1), UnfundedWorld([], [look]), UnfundedWorld([], [look, look]));
    steps := steps + [Refuse(1)] + [Refuse(1)];
  }

  /** Two deliveries of a request for a missing account are refused at once: both recorders
      look and check before either inserts, and the ledger lists the transaction twice. */
  lemma DuplicateRun() returns (steps: seq<Step>)
    ensures var e := FailedEntry(PAYOUT, AccountNotFoundReason);
        Run(3, steps) == Some(UnfundedWorld([e, e], [Returned, Returned]))
  {
    var look, check, insert := Looking(PAYOUT, AccountNotFoundReason), Checking(PAYOUT, AccountNotFoundReason),
                               Inserting(PAYOUT, AccountNotFoundReason);
    var e := FailedEntry(PAYOUT, AccountNotFoundReason);
    RefusalCalls();
    steps := RefusedTwiceRun();
    steps := RecorderRuns(steps, [], [look, look], 0, [], check);
    assert [look, look][0 := check] == [check, look];
    steps := RecorderRuns(steps, [], [check, look], 0, [], insert);
    assert [check, look][0 := insert] == [insert, look];
    steps := RecorderRuns(steps, [], [insert, look], 1, [], check);
    assert [insert, look][1 := check] == [insert, check];
    steps := RecorderRuns(steps, [], [insert, check], 1, [], insert);
    assert [insert, check][1 := insert] == [insert, insert];
    steps := RecorderRuns(steps, [], [insert, insert], 0, [e], Returned);
    assert [insert, insert][0 := Returned] == [Returned, insert];
    steps := RecorderRuns(steps, [e], [Returned, insert], 1, [e, e], Returned);
    assert [Returned, insert][1 := Returned] == [Returned, Returned];
  }

  lemma RefusalCalls()
    ensures var reason, e := AccountNotFoundReason, FailedEntry(PAYOUT, AccountNotFoundReason);
      && RecorderCall([], Looking(PAYOUT, reason), NoFault, 0) == ([], Checking(PAYOUT, reason))
      && RecorderCall([], Checking(PAYOUT, reason), NoFault, 0) == ([], Inserting(PAYOUT, reason))
      && RecorderCall([], Inserting(PAYOUT, reason), NoFault, 0) == ([e], Returned)
      && RecorderCall([e], Inserting(PAYOUT, reason), NoFault, 0) == ([e, e], Returned)
  {
    var e := FailedEntry(PAYOUT, AccountNotFoundReason);
    assert [] + [e] == [e] && [e] + [e] == [e, e];
  }
}
