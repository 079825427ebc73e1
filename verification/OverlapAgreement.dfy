/** The two stores agree on the money also while calls overlap, as long as no entry is duplicated. */
module OverlapAgreement {
  import opened Shared
  import opened Domain
  import opened Postgres
  import opened LedgerStore
  import opened Bank
  import opened Agreement
  import opened Overlap
  import opened OverlapLimits

  /** The balance each account was opened with in the first n steps. */
  function Openings(steps: seq<Step>, n: nat): map<Uuid, int64>
    requires n <= |steps|
  {
    if n == 0 then map[]
    else match steps[n - 1]
      case Open(id, row) => Openings(steps, n - 1)[id := row.balance]
      case _ => Openings(steps, n - 1)
  }

  ghost predicate Books(w: World, opening: map<Uuid, int64>) {
    && DistinctTransactions(w.rows)
    && forall a :: a in w.accounts ==> a in opening && w.accounts[a].balance == opening[a] + Sum(w.rows, a)
  }

  lemma OpenBooks(w: World, step: Step, maxRetry: int, opening: map<Uuid, int64>)
    requires Inv(w) && Enabled(w, step) && step.Open? && Books(w, opening)
    ensures Books(Next(w, step, maxRetry), opening[step.id := step.row.balance])
  {
    forall i | 0 <= i < |w.rows| ensures w.rows[i].accountId != step.id {
      assert RowSound(w, w.rows[i]);
    }
    NoRowsYet(w.rows, step.id);
  }

  lemma ApplyBooksInWorld(w: World, step: Step, maxRetry: int, opening: map<Uuid, int64>)
    requires Enabled(w, step) && step.Apply? && Books(w, opening)
    ensures Books(Next(w, step, maxRetry), opening)
  {
    var w' := Next(w, step, maxRetry);
    forall a | a in w'.accounts ensures a in opening && w'.accounts[a].balance == opening[a] + Sum(w'.rows, a) {
      AppendBooks(w.rows, w'.rows[|w.rows|], a);
    }
  }

  lemma PollKeepsMoney(w: World, step: Step, maxRetry: int)
    requires Enabled(w, step) && step.Poll?
    ensures SameMoney(w.rows, Next(w, step, maxRetry).rows)
  {
    PollerKeepsMoney(w.rows, w.ledger, w.pollers[step.k], maxRetry, step.f, step.pick);
  }

  lemma PollerKeepsMoney(rows: seq<Message>, l: seq<Entry>, p: Poller, maxRetry: int, f: Fault, pick: nat)
    requires CanPoll(p)
    ensures SameMoney(rows, PollerCall(rows, l, p, maxRetry, f, pick).0)
  {
    if !p.Done? {
      SameMoneyWrites(rows, p.m.id, f);
    }
  }

  /** The poller's statements leave the money columns alone. */
  lemma SameMoneyWrites(rows: seq<Message>, id: int, f: Fault)
    ensures forall status :: SameMoney(rows, SetStatus(rows, id, status, f).0)
    ensures SameMoney(rows, AddAttempt(rows, id, f).0)
  {
  }

  lemma BooksStep(w: World, step: Step, maxRetry: int, opening: map<Uuid, int64>)
    requires Inv(w) && Enabled(w, step) && Books(w, opening)
    ensures Books(Next(w, step, maxRetry), if step.Open? then opening[step.id := step.row.balance] else opening)
  {
    var w' := Next(w, step, maxRetry);
    if step.Open? {
      OpenBooks(w, step, maxRetry, opening);
    } else if step.Apply? {
      ApplyBooksInWorld(w, step, maxRetry, opening);
    } else if step.Poll? {
      PollKeepsMoney(w, step, maxRetry);
      forall a | a in w'.accounts ensures a in opening && w'.accounts[a].balance == opening[a] + Sum(w'.rows, a) {
        SameMoneySameSums(w.rows, w'.rows, a);
      }
    }
  }

  lemma BooksNext(ws: seq<World>, steps: seq<Step>, maxRetry: int, k: nat, opening: map<Uuid, int64>)
    requires IsRun(ws, steps, maxRetry) && k < |steps| && Books(ws[k], opening)
    ensures Books(ws[k + 1], if steps[k].Open? then opening[steps[k].id := steps[k].row.balance] else opening)
  {
    InvAt(ws, steps, maxRetry, k);
    assert Follows(ws[k], steps[k], ws[k + 1], maxRetry);
    BooksStep(ws[k], steps[k], maxRetry, opening);
  }

  lemma {:induction false} BooksAt(ws: seq<World>, steps: seq<Step>, maxRetry: int, n: nat)
    requires IsRun(ws, steps, maxRetry) && n <= |steps|
    ensures Books(ws[n], Openings(steps, n))
  {
    if n > 0 {
      BooksAt(ws, steps, maxRetry, n - 1);
      BooksNext(ws, steps, maxRetry, n - 1, Openings(steps, n - 1));
    }
  }

  lemma WorldReconcilable(w: World)
    requires Inv(w) && DistinctTransactions(w.rows) && Unique(w.ledger)
    ensures Reconcilable(w.topic, w.rows, w.ledger)
  {
    forall i | 0 <= i < |w.rows| ensures RowRepeats(w.topic, w.rows[i]) {
      assert RowSound(w, w.rows[i]);
    }
    forall j | 0 <= j < |w.ledger| ensures EntryRepeats(w.topic, w.rows, w.ledger[j]) {
      assert EntrySound(w, w.ledger[j]);
    }
  }

  /** At every point of a run that has not duplicated an entry, a balance is the opening balance
      plus the COMPLETED entries plus the rows not COMPLETED in the ledger; a reverted entry
      only moves its amount from the one sum to the other. */
  lemma OverlappingStoresAgree(ws: seq<World>, steps: seq<Step>, maxRetry: int, n: nat, a: Uuid)
    requires IsRun(ws, steps, maxRetry) && n <= |steps| && a in ws[n].accounts
    requires forall k :: 0 <= k < n ==> !DuplicatingStep(ws[k], steps[k])
    ensures a in Openings(steps, n)
    ensures ws[n].accounts[a].balance
         == Openings(steps, n)[a] + CompletedSum(ws[n].ledger, a) + UnpublishedSum(ws[n].rows, ws[n].ledger, a)
  {
    BooksAt(ws, steps, maxRetry, n);
    InvAt(ws, steps, maxRetry, n);
    UniqueIff(ws, steps, maxRetry, n);
    WorldReconcilable(ws[n]);
    SumsAgree(ws[n].topic, ws[n].rows, ws[n].ledger, a);
  }
}
