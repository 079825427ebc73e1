/** How often a row is really tried, as opposed to what its attempts column says. */
module Retries {
  import opened Shared
  import opened Domain
  import opened Postgres
  import opened Bank
  import opened Publishing
  import opened System
  import opened Runs
  import opened Redelivery

  // ---- one turn ----

  /** The attempt fails, leaves the row PENDING, and is not counted below the limit: its
      counter write is lost, or at the limit the row is not retired. */
  predicate Wasted(rows: seq<Message>, l: seq<Entry>, m: Message, maxRetry: int, f: MessageFaults) {
    var (rows1, _, err) := Published(rows, l, m, f.publish);
    && err.Some?
    && (f.increment.Lost? || (m.attempts + 1 >= maxRetry && (f.increment.Ambiguous? || f.giveUp.Lost?)))
    && match IndexById(rows1, m.id)
       case Some(i) => rows1[i].status.OutboxPending?
       case None => false
  }

  /** The row is retired, or its try has been counted and another one is allowed. */
  predicate Progress(m: Message, m': Message, maxRetry: int) {
    m'.status.OutboxPending? ==> m'.attempts == m.attempts + 1 < maxRetry
  }

  /** A turn makes progress exactly when it is not wasted. */
  lemma ProgressIff(rows: seq<Message>, l: seq<Entry>, i: nat, maxRetry: int, f: MessageFaults)
    requires DistinctIds(rows) && i < |rows| && rows[i].status.OutboxPending?
        && rows[i].attempts < maxRetry <= INT32_MAX
    ensures var rows' := Handled(rows, l, rows[i], maxRetry, f).0;
      && |rows'| == |rows| && rows' == rows[i := rows'[i]] && rows'[i].id == rows[i].id
      && (Progress(rows[i], rows'[i], maxRetry) <==> !Wasted(rows, l, rows[i], maxRetry, f))
  {
    var m := rows[i];
    var (rows1, _, err) := Published(rows, l, m, f.publish);
    PublishedAt(rows, l, i, f.publish);
    assert IndexById(rows1, m.id) == Some(i);
    HandledSettles(rows, l, i, maxRetry, f);
    if err.Some? {
      AddAttemptAt(rows1, i, f.increment);
      SetStatusAt(AddAttempt(rows1, m.id, f.increment).0, i, OutboxFailedToPublish, f.giveUp);
    }
  }

  // ---- the tally over a run ----

  function TurnOf(s: Sys, e: System.Event, id: int): nat {
    if e.Handle? && s.batch != [] && s.batch[0].id == id then 1 else 0
  }

  /** How many turns of the run tried to publish the row. */
  function Tries(maxRetry: int, es: seq<System.Event>, id: int): nat {
    if es == [] then 0
    else
      Tries(maxRetry, es[..|es| - 1], id)
      + match Reached(maxRetry, es[..|es| - 1])
        case Some(s) => TurnOf(s, es[|es| - 1], id)
        case None => 0
  }

  predicate WastedStep(s: Sys, maxRetry: int, e: System.Event) {
    e.Handle? && s.batch != [] && Wasted(s.stores.pg.outbox, s.stores.ledger, s.batch[0], maxRetry, e.message)
  }

  predicate NeverWasted(maxRetry: int, es: seq<System.Event>) {
    es == [] ||
    (&& NeverWasted(maxRetry, es[..|es| - 1])
     && match Reached(maxRetry, es[..|es| - 1])
        case Some(s) => !WastedStep(s, maxRetry, es[|es| - 1])
        case None => true)
  }

  /** The attempts column tells the tries of a PENDING row, which is allowed another one. */
  predicate Paced(rows: seq<Message>, tries: int -> nat, maxRetry: int) {
    forall i :: 0 <= i < |rows| && rows[i].status.OutboxPending? ==> tries(rows[i].id) == rows[i].attempts < maxRetry
  }

  /** No row has been tried more often than allowed. */
  predicate WithinLimit(rows: seq<Message>, tries: int -> nat, maxRetry: int) {
    forall i :: 0 <= i < |rows| ==> tries(rows[i].id) <= maxRetry
  }

  function Tally(maxRetry: int, es: seq<System.Event>): int -> nat {
    id => Tries(maxRetry, es, id)
  }

  predicate PacedAt(maxRetry: int, es: seq<System.Event>) {
    match Reached(maxRetry, es)
    case Some(s) => Paced(s.stores.pg.outbox, Tally(maxRetry, es), maxRetry)
    case None => true
  }

  predicate AlwaysPaced(maxRetry: int, es: seq<System.Event>) {
    PacedAt(maxRetry, es) && (es == [] || AlwaysPaced(maxRetry, es[..|es| - 1]))
  }

  /** A turn of the poller, seen from the tally. */
  lemma TurnPacedIff(rows: seq<Message>, l: seq<Entry>, i: nat, maxRetry: int, f: MessageFaults,
                     tries: int -> nat, tries': int -> nat)
    requires 0 < maxRetry <= INT32_MAX && DistinctIds(rows) && i < |rows| && rows[i].status.OutboxPending?
    requires Paced(rows, tries, maxRetry) && WithinLimit(rows, tries, maxRetry)
    requires forall id :: tries'(id) == tries(id) + if id == rows[i].id then 1 else 0
    ensures var rows' := Handled(rows, l, rows[i], maxRetry, f).0;
      && (Paced(rows', tries', maxRetry) <==> !Wasted(rows, l, rows[i], maxRetry, f))
      && WithinLimit(rows', tries', maxRetry)
  {
    var rows' := Handled(rows, l, rows[i], maxRetry, f).0;
    ProgressIff(rows, l, i, maxRetry, f);
    HandledSettles(rows, l, i, maxRetry, f);
    assert tries'(rows'[i].id) == rows[i].attempts + 1;
    forall k | 0 <= k < |rows'| && k != i ensures rows'[k] == rows[k] && tries'(rows'[k].id) == tries(rows[k].id) {
      assert rows[k].id != rows[i].id;
    }
  }

  /** Only rows of the table have been tried. */
  lemma {:induction false} TriedIsARow(maxRetry: int, es: seq<System.Event>, id: int) returns (i: nat)
    requires Reached(maxRetry, es).Some? && Tries(maxRetry, es, id) > 0
    ensures var rows := Reached(maxRetry, es).value.stores.pg.outbox; i < |rows| && rows[i].id == id
  {
    var init := es[..|es| - 1];
    var s, e := Reached(maxRetry, init).value, es[|es| - 1];
    Prefix(maxRetry, es);
    IdsStay(s, maxRetry, e);
    if TurnOf(s, e, id) > 0 {
      InvParts(s);
      i :| 0 <= i < |s.stores.pg.outbox| && s.stores.pg.outbox[i] == s.batch[0];
    } else {
      i := TriedIsARow(maxRetry, init, id);
    }
  }

  lemma IdsStay(s: Sys, maxRetry: int, e: System.Event)
    requires SysInv(s) && Possible(s, e)
    ensures var rows, rows' := s.stores.pg.outbox, After(s, maxRetry, e).stores.pg.outbox;
      |rows| <= |rows'| && forall i :: 0 <= i < |rows| ==> rows'[i].id == rows[i].id
  {
    RowStep(s, maxRetry, e);
  }

  /** A step of anyone but the poller's turn leaves every row paced; new rows are untried. */
  lemma OthersPaced(rows: seq<Message>, rows': seq<Message>, tries: int -> nat, tries': int -> nat, maxRetry: int)
    requires 0 < maxRetry && Paced(rows, tries, maxRetry) && WithinLimit(rows, tries, maxRetry)
    requires |rows| <= |rows'| && forall i :: 0 <= i < |rows| ==> rows'[i] == rows[i]
    requires forall i :: |rows| <= i < |rows'| ==>
      rows'[i].status.OutboxPending? && rows'[i].attempts == 0 && tries'(rows'[i].id) == 0
    requires forall id :: tries'(id) == tries(id)
    ensures Paced(rows', tries', maxRetry) && WithinLimit(rows', tries', maxRetry)
  {
  }

  lemma NewRowsUntried(maxRetry: int, es: seq<System.Event>, i: nat)
    requires es != [] && Reached(maxRetry, es).Some? && Reached(maxRetry, es[..|es| - 1]).Some?
    requires |Reached(maxRetry, es[..|es| - 1]).value.stores.pg.outbox| <= i
    requires i < |Reached(maxRetry, es).value.stores.pg.outbox|
    requires !es[|es| - 1].Handle?
    ensures Tries(maxRetry, es, Reached(maxRetry, es).value.stores.pg.outbox[i].id) == 0
  {
    var id := Reached(maxRetry, es).value.stores.pg.outbox[i].id;
    Prefix(maxRetry, es);
    RowStep(Reached(maxRetry, es[..|es| - 1]).value, maxRetry, es[|es| - 1]);
    if Tries(maxRetry, es, id) > 0 {
      var j := TriedIsARow(maxRetry, es[..|es| - 1], id);
      RunKeeps(START, maxRetry, es);
      InvParts(Reached(maxRetry, es).value);
    }
  }

  lemma FirstOfBatchPacedIff(s: Sys, maxRetry: int, f: MessageFaults, tries: int -> nat, tries': int -> nat)
    requires 0 < maxRetry <= INT32_MAX && SysInv(s) && s.batch != []
    requires Paced(s.stores.pg.outbox, tries, maxRetry) && WithinLimit(s.stores.pg.outbox, tries, maxRetry)
    requires forall id :: tries'(id) == tries(id) + if id == s.batch[0].id then 1 else 0
    ensures var rows' := Handled(s.stores.pg.outbox, s.stores.ledger, s.batch[0], maxRetry, f).0;
      && (Paced(rows', tries', maxRetry) <==> !Wasted(s.stores.pg.outbox, s.stores.ledger, s.batch[0], maxRetry, f))
      && WithinLimit(rows', tries', maxRetry)
  {
    var i := HandleIs(s, maxRetry, f);
    InvParts(s);
    TurnPacedIff(s.stores.pg.outbox, s.stores.ledger, i, maxRetry, f, tries, tries');
  }

  lemma OtherStepPaced(maxRetry: int, es: seq<System.Event>)
    requires 0 < maxRetry && es != [] && !es[|es| - 1].Handle? && Reached(maxRetry, es).Some?
    requires Reached(maxRetry, es[..|es| - 1]).Some?
    requires var rows, t := Reached(maxRetry, es[..|es| - 1]).value.stores.pg.outbox, Tally(maxRetry, es[..|es| - 1]);
      Paced(rows, t, maxRetry) && WithinLimit(rows, t, maxRetry)
    ensures var rows', t' := Reached(maxRetry, es).value.stores.pg.outbox, Tally(maxRetry, es);
      Paced(rows', t', maxRetry) && WithinLimit(rows', t', maxRetry)
  {
    var init := es[..|es| - 1];
    var s, s' := Reached(maxRetry, init).value, Reached(maxRetry, es).value;
    Prefix(maxRetry, es);
    RowStep(s, maxRetry, es[|es| - 1]);
    forall i | |s.stores.pg.outbox| <= i < |s'.stores.pg.outbox|
      ensures Tally(maxRetry, es)(s'.stores.pg.outbox[i].id) == 0
    {
      NewRowsUntried(maxRetry, es, i);
    }
    OthersPaced(s.stores.pg.outbox, s'.stores.pg.outbox, Tally(maxRetry, init), Tally(maxRetry, es), maxRetry);
  }

  /** One step of a run whose tally was right so far. */
  lemma StepPacedIff(maxRetry: int, es: seq<System.Event>)
    requires 0 < maxRetry <= INT32_MAX && es != [] && Reached(maxRetry, es).Some?
    requires Reached(maxRetry, es[..|es| - 1]).Some?
    requires var rows, t := Reached(maxRetry, es[..|es| - 1]).value.stores.pg.outbox, Tally(maxRetry, es[..|es| - 1]);
      Paced(rows, t, maxRetry) && WithinLimit(rows, t, maxRetry)
    ensures var s, rows' := Reached(maxRetry, es[..|es| - 1]).value, Reached(maxRetry, es).value.stores.pg.outbox;
      && (Paced(rows', Tally(maxRetry, es), maxRetry) <==> !WastedStep(s, maxRetry, es[|es| - 1]))
      && WithinLimit(rows', Tally(maxRetry, es), maxRetry)
  {
    var init, e := es[..|es| - 1], es[|es| - 1];
    if e.Handle? {
      Prefix(maxRetry, es);
      FirstOfBatchPacedIff(Reached(maxRetry, init).value, maxRetry, e.message, Tally(maxRetry, init),
          Tally(maxRetry, es));
    } else {
      OtherStepPaced(maxRetry, es);
    }
  }

  /** At every point of a run the attempts column tells the tries and leaves room for
      another, exactly when no turn of the run is wasted; then no row is tried more often than allowed. */
  lemma {:induction false} PacedIff(maxRetry: int, es: seq<System.Event>)
    requires 0 < maxRetry <= INT32_MAX && Reached(maxRetry, es).Some?
    ensures AlwaysPaced(maxRetry, es) <==> NeverWasted(maxRetry, es)
    ensures NeverWasted(maxRetry, es) ==>
        WithinLimit(Reached(maxRetry, es).value.stores.pg.outbox, Tally(maxRetry, es), maxRetry)
  {
    if es == [] {
    } else {
      PacedIff(maxRetry, es[..|es| - 1]);
      if NeverWasted(maxRetry, es[..|es| - 1]) {
        StepPacedIff(maxRetry, es);
      }
    }
  }

  // ---- exactly when a row is tried too often ----

  /** The attempt fails, leaves the row PENDING, and is not counted. */
  predicate Uncounted(rows: seq<Message>, l: seq<Entry>, m: Message, f: MessageFaults) {
    var (rows1, _, err) := Published(rows, l, m, f.publish);
    && err.Some? && (f.increment.Lost? || m.attempts >= INT32_MAX)
    && match IndexById(rows1, m.id)
       case Some(i) => rows1[i].status.OutboxPending?
       case None => false
  }

  function UncountedTurn(s: Sys, e: System.Event, id: int): nat {
    if TurnOf(s, e, id) == 1 && Uncounted(s.stores.pg.outbox, s.stores.ledger, s.batch[0], e.message) then 1 else 0
  }

  /** How many turns of the run tried the row without its counter telling. */
  function UncountedTries(maxRetry: int, es: seq<System.Event>, id: int): nat {
    if es == [] then 0
    else
      UncountedTries(maxRetry, es[..|es| - 1], id)
      + match Reached(maxRetry, es[..|es| - 1])
        case Some(s) => UncountedTurn(s, es[|es| - 1], id)
        case None => 0
  }

  /** A row that is still PENDING after its turn has been counted, or was not counted. */
  lemma CountedUnless(rows: seq<Message>, l: seq<Entry>, i: nat, maxRetry: int, f: MessageFaults)
    requires DistinctIds(rows) && i < |rows| && rows[i].status.OutboxPending?
    ensures var rows' := Handled(rows, l, rows[i], maxRetry, f).0;
      && |rows'| == |rows| && rows' == rows[i := rows'[i]] && rows'[i].id == rows[i].id
      && (rows'[i].status.OutboxPending? ==>
            rows'[i].attempts == rows[i].attempts + if Uncounted(rows, l, rows[i], f) then 0 else 1)
  {
    var m := rows[i];
    var (rows1, _, err) := Published(rows, l, m, f.publish);
    PublishedAt(rows, l, i, f.publish);
    assert IndexById(rows1, m.id) == Some(i);
    HandledSettles(rows, l, i, maxRetry, f);
    if err.Some? {
      AddAttemptAt(rows1, i, f.increment);
      SetStatusAt(AddAttempt(rows1, m.id, f.increment).0, i, OutboxFailedToPublish, f.giveUp);
    }
  }

  /** What a turn does to the rows: only the first of the batch changes, and its counter follows. */
  lemma TurnCounts(s: Sys, maxRetry: int, f: MessageFaults, k: nat)
    requires SysInv(s) && s.batch != [] && k < |s.stores.pg.outbox|
    ensures var rows := s.stores.pg.outbox;
      var rows' := Handled(rows, s.stores.ledger, s.batch[0], maxRetry, f).0;
      && |rows'| == |rows| && rows'[k].id == rows[k].id
      && (rows'[k].status.OutboxPending? ==>
            && rows[k].status.OutboxPending?
            && rows'[k].attempts + UncountedTurn(s, Handle(f), rows[k].id)
               == rows[k].attempts + TurnOf(s, Handle(f), rows[k].id))
  {
    var i := HandleIs(s, maxRetry, f);
    InvParts(s);
    CountedUnless(s.stores.pg.outbox, s.stores.ledger, i, maxRetry, f);
    if k != i {
      assert s.stores.pg.outbox[k].id != s.stores.pg.outbox[i].id;
    }
  }

  lemma StepCounts(s: Sys, maxRetry: int, e: System.Event, k: nat)
    requires SysInv(s) && Possible(s, e) && k < |After(s, maxRetry, e).stores.pg.outbox|
    requires After(s, maxRetry, e).stores.pg.outbox[k].status.OutboxPending?
    ensures var rows, m' := s.stores.pg.outbox, After(s, maxRetry, e).stores.pg.outbox[k];
      if k < |rows|
      then && rows[k].status.OutboxPending? && m'.id == rows[k].id
           && m'.attempts + UncountedTurn(s, e, m'.id) == rows[k].attempts + TurnOf(s, e, m'.id)
      else !e.Handle? && m'.attempts == 0
  {
    if e.Handle? {
      HandledRows(s, maxRetry, e.message);
      TurnCounts(s, maxRetry, e.message, k);
    } else {
      RowStep(s, maxRetry, e);
    }
  }

  lemma StepCountsAt(maxRetry: int, es: seq<System.Event>, k: nat)
    requires Reached(maxRetry, es).Some? && k < |Reached(maxRetry, es).value.stores.pg.outbox|
    requires Reached(maxRetry, es).value.stores.pg.outbox[k].status.OutboxPending?
    ensures es != [] && Reached(maxRetry, es[..|es| - 1]).Some?
    ensures var s, m' := Reached(maxRetry, es[..|es| - 1]).value, Reached(maxRetry, es).value.stores.pg.outbox[k];
      var rows, e := s.stores.pg.outbox, es[|es| - 1];
      if k < |rows|
      then && rows[k].status.OutboxPending? && m'.id == rows[k].id
           && m'.attempts + UncountedTurn(s, e, m'.id) == rows[k].attempts + TurnOf(s, e, m'.id)
      else !e.Handle? && m'.attempts == 0
  {
    Prefix(maxRetry, es);
    StepCounts(Reached(maxRetry, es[..|es| - 1]).value, maxRetry, es[|es| - 1], k);
  }

  lemma {:induction false} UncountedAtMostTries(maxRetry: int, es: seq<System.Event>, id: int)
    ensures UncountedTries(maxRetry, es, id) <= Tries(maxRetry, es, id)
  {
    if es != [] {
      UncountedAtMostTries(maxRetry, es[..|es| - 1], id);
    }
  }

  /** In every run, under any faults, the tries of a PENDING row are its counter plus the uncounted ones. */
  lemma {:induction false} TriesAre(maxRetry: int, es: seq<System.Event>, k: nat)
    requires Reached(maxRetry, es).Some? && k < |Reached(maxRetry, es).value.stores.pg.outbox|
    requires Reached(maxRetry, es).value.stores.pg.outbox[k].status.OutboxPending?
    ensures var m := Reached(maxRetry, es).value.stores.pg.outbox[k];
      Tries(maxRetry, es, m.id) == m.attempts + UncountedTries(maxRetry, es, m.id)
  {
    StepCountsAt(maxRetry, es, k);
    if k < |Reached(maxRetry, es[..|es| - 1]).value.stores.pg.outbox| {
      TriesAre(maxRetry, es[..|es| - 1], k);
    } else {
      NewRowsUntried(maxRetry, es, k);
      UncountedAtMostTries(maxRetry, es, Reached(maxRetry, es).value.stores.pg.outbox[k].id);
    }
  }

  /** The next message has used up its tries, counted and uncounted. */
  predicate BeyondLimit(maxRetry: int, es: seq<System.Event>, s: Sys, e: System.Event) {
    && e.Handle? && s.batch != []
    && s.batch[0].attempts + UncountedTries(maxRetry, es, s.batch[0].id) >= maxRetry
  }

  predicate NeverBeyondLimit(maxRetry: int, es: seq<System.Event>) {
    es == [] ||
    (&& NeverBeyondLimit(maxRetry, es[..|es| - 1])
     && match Reached(maxRetry, es[..|es| - 1])
        case Some(s) => !BeyondLimit(maxRetry, es[..|es| - 1], s, es[|es| - 1])
        case None => true)
  }

  lemma FirstOfBatchTries(maxRetry: int, es: seq<System.Event>)
    requires Reached(maxRetry, es).Some? && Reached(maxRetry, es).value.batch != []
    ensures var m := Reached(maxRetry, es).value.batch[0];
      Tries(maxRetry, es, m.id) == m.attempts + UncountedTries(maxRetry, es, m.id)
  {
    var s := Reached(maxRetry, es).value;
    RunKeeps(START, maxRetry, es);
    InvParts(s);
    var k :| 0 <= k < |s.stores.pg.outbox| && s.stores.pg.outbox[k] == s.batch[0];
    TriesAre(maxRetry, es, k);
  }

  ghost predicate AllWithin(tries: int -> nat, limit: int) {
    forall id :: tries(id) <= limit
  }

  lemma OneMoreTry(tries: int -> nat, tries': int -> nat, turn: bool, tried: int, limit: int)
    requires forall id :: tries'(id) == tries(id) + if turn && id == tried then 1 else 0
    ensures AllWithin(tries', limit) <==> AllWithin(tries, limit) && (turn ==> tries(tried) < limit)
  {
    if !AllWithin(tries, limit) {
      var id :| tries(id) > limit;
      assert tries'(id) > limit;
    } else if turn && tries(tried) >= limit {
      assert tries'(tried) > limit;
    }
  }

  /** No row of a run is tried more often than allowed exactly when no turn is taken on a row
      whose counter and uncounted tries together have reached the limit. */
  lemma {:induction false} TriesWithinLimitIff(maxRetry: int, es: seq<System.Event>)
    requires 0 <= maxRetry && Reached(maxRetry, es).Some?
    ensures AllWithin(Tally(maxRetry, es), maxRetry) <==> NeverBeyondLimit(maxRetry, es)
  {
    if es == [] {
    } else {
      var init, e := es[..|es| - 1], es[|es| - 1];
      TriesGrow(maxRetry, es);
      TriesWithinLimitIff(maxRetry, init);
      var s := Reached(maxRetry, init).value;
      var turn := e.Handle? && s.batch != [];
      OneMoreTry(Tally(maxRetry, init), Tally(maxRetry, es), turn, if turn then s.batch[0].id else 0, maxRetry);
    }
  }

  /** The last step adds one try to the first of its batch, whose tries are known. */
  lemma TriesGrow(maxRetry: int, es: seq<System.Event>)
    requires es != [] && Reached(maxRetry, es).Some?
    ensures Reached(maxRetry, es[..|es| - 1]).Some?
    ensures var s, e := Reached(maxRetry, es[..|es| - 1]).value, es[|es| - 1];
      && (forall id :: Tries(maxRetry, es, id) == Tries(maxRetry, es[..|es| - 1], id) + TurnOf(s, e, id))
      && (e.Handle? && s.batch != [] ==>
            var m := s.batch[0];
            Tries(maxRetry, es[..|es| - 1], m.id) == m.attempts + UncountedTries(maxRetry, es[..|es| - 1], m.id))
  {
    var s := Reached(maxRetry, es[..|es| - 1]).value;
    if s.batch != [] {
      FirstOfBatchTries(maxRetry, es[..|es| - 1]);
    }
  }

  // ---- the counters over a run ----

  predicate OverrunStep(s: Sys, maxRetry: int, e: System.Event) {
    var rows := s.stores.pg.outbox;
    && e.Handle? && s.batch != [] && DistinctIds(rows)
    && match IndexById(rows, s.batch[0].id)
       case Some(i) => Overruns(rows, s.stores.ledger, i, maxRetry, e.message)
       case None => false
  }

  predicate NeverOverrun(maxRetry: int, es: seq<System.Event>) {
    es == [] ||
    (&& NeverOverrun(maxRetry, es[..|es| - 1])
     && match Reached(maxRetry, es[..|es| - 1])
        case Some(s) => !OverrunStep(s, maxRetry, es[|es| - 1])
        case None => true)
  }

  predicate AlwaysBudgeted(maxRetry: int, es: seq<System.Event>) {
    && (es == [] || AlwaysBudgeted(maxRetry, es[..|es| - 1]))
    && match Reached(maxRetry, es)
       case Some(s) => Budgeted(s.stores.pg.outbox, maxRetry)
       case None => true
  }

  lemma StepBudgetedIff(s: Sys, maxRetry: int, e: System.Event)
    requires 0 < maxRetry <= INT32_MAX && SysInv(s) && Possible(s, e) && Budgeted(s.stores.pg.outbox, maxRetry)
    ensures Budgeted(After(s, maxRetry, e).stores.pg.outbox, maxRetry) <==> !OverrunStep(s, maxRetry, e)
  {
    if e.Handle? {
      FirstOfBatchBudgetedIff(s, maxRetry, e.message);
    } else {
      RowStep(s, maxRetry, e);
    }
  }

  lemma FirstOfBatchBudgetedIff(s: Sys, maxRetry: int, f: MessageFaults)
    requires 0 < maxRetry <= INT32_MAX && SysInv(s) && s.batch != [] && Budgeted(s.stores.pg.outbox, maxRetry)
    ensures Budgeted(Handled(s.stores.pg.outbox, s.stores.ledger, s.batch[0], maxRetry, f).0, maxRetry)
       <==> !OverrunStep(s, maxRetry, Handle(f))
  {
    var i := HandleIs(s, maxRetry, f);
    InvParts(s);
    assert IndexById(s.stores.pg.outbox, s.batch[0].id) == Some(i);
    BudgetKeptIff(s.stores.pg.outbox, s.stores.ledger, i, maxRetry, f);
  }

  /** At every point of a run PENDING means attempts are left and no counter exceeds the
      limit, exactly when no turn of the run lets a counter run past it. */
  lemma {:induction false} BudgetedIff(maxRetry: int, es: seq<System.Event>)
    requires 0 < maxRetry <= INT32_MAX && Reached(maxRetry, es).Some?
    ensures AlwaysBudgeted(maxRetry, es) <==> NeverOverrun(maxRetry, es)
  {
    if es == [] {
    } else {
      var init := es[..|es| - 1];
      Prefix(maxRetry, es);
      BudgetedIff(maxRetry, init);
      if AlwaysBudgeted(maxRetry, init) {
        StepBudgetedIff(Reached(maxRetry, init).value, maxRetry, es[|es| - 1]);
      }
    }
  }

  // ---- a row tried without end ----

  const UNCOUNTED := UNPUBLISHED.(increment := Lost)

  lemma LostCounterTick()
    ensures var idle := PaidOut(OutboxPending, 0, 2, [], []);
      && After(idle, 1, Fetch(1)) == PaidOut(OutboxPending, 0, 2, [], [AppliedRow(PAYOUT, 1, 0)])
      && After(PaidOut(OutboxPending, 0, 2, [], [AppliedRow(PAYOUT, 1, 0)]), 1, Handle(UNCOUNTED)) == idle
  {
  }

  lemma {:induction false} NoTurnsNoTries(maxRetry: int, es: seq<System.Event>, id: int)
    requires forall k :: 0 <= k < |es| ==> !es[k].Handle?
    ensures Tries(maxRetry, es, id) == 0
  {
    if es != [] {
      NoTurnsNoTries(maxRetry, es[..|es| - 1], id);
    }
  }

  lemma TriesStep(maxRetry: int, es: seq<System.Event>, e: System.Event, id: int)
    requires Reached(maxRetry, es).Some?
    ensures Tries(maxRetry, es + [e], id) == Tries(maxRetry, es, id) + TurnOf(Reached(maxRetry, es).value, e, id)
  {
    assert (es + [e])[..|es|] == es;
  }

  /** While its counter write is lost a row is tried again on every tick: with a limit of
      one attempt, any number of tries leave it PENDING and uncounted. */
  lemma {:induction false} TriedWithoutEnd(n: nat) returns (es: seq<System.Event>)
    ensures Reached(1, es) == Some(PaidOut(OutboxPending, 0, 2, [], []))
    ensures Tries(1, es, 1) == n && CountersWork(es)
  {
    if n == 0 {
      es := PayoutApplied();
      NoTurnsNoTries(1, es, 1);
    } else {
      var before := TriedWithoutEnd(n - 1);
      LostCounterTick();
      RunStep(START, 1, before, Fetch(1));
      TriesStep(1, before, Fetch(1), 1);
      var fetched := before + [Fetch(1)];
      RunStep(START, 1, fetched, Handle(UNCOUNTED));
      TriesStep(1, fetched, Handle(UNCOUNTED), 1);
      es := fetched + [Handle(UNCOUNTED)];
    }
  }
}
