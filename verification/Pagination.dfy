/** Paging through an account's history: the page count of the response and the
    skip/limit of the query, in Go's 64-bit integers. */
module Pagination {
  import opened Shared
  import opened Domain
  import opened Sorting
  import opened LedgerStore

  datatype MetaInfo = MetaInfo(page: int, perPage: int, totalPages: int, totalItems: int)

  /** NewPaginatedResponse: the least number of pages that holds every item. */
  method NewPaginatedResponse(page: int, perPage: int, totalItems: int) returns (meta: MetaInfo)
    requires perPage >= 1 && totalItems >= 0
    ensures meta == MetaInfo(page, perPage, TotalPages(totalItems, perPage), totalItems)
    ensures totalItems <= meta.totalPages * perPage
    ensures forall n: nat :: totalItems <= n * perPage ==> meta.totalPages <= n
  {
    var totalPages := totalItems / perPage;
    if totalItems % perPage > 0 {
      totalPages := totalPages + 1;
    }
    meta := MetaInfo(page, perPage, totalPages, totalItems);
    forall n: nat | totalItems <= n * perPage ensures totalPages <= n {
      LeastPages(totalItems, perPage, n);
    }
    LeastPages(totalItems, perPage, totalPages);
  }

  function TotalPages(totalItems: nat, perPage: int): nat
    requires perPage >= 1
  {
    totalItems / perPage + (if totalItems % perPage > 0 then 1 else 0)
  }

  lemma Scale(m: int, a: int, b: int)
    requires 0 <= m && a <= b
    ensures m * a <= m * b
  {
  }

  lemma LeastPages(total: nat, perPage: int, n: nat)
    requires perPage >= 1
    ensures total <= TotalPages(total, perPage) * perPage
    ensures total <= n * perPage ==> TotalPages(total, perPage) <= n
  {
    Least(total, perPage, total / perPage, total % perPage, n);
  }

  lemma Least(total: nat, perPage: int, q: int, r: int, n: nat)
    requires total == perPage * q + r && 0 <= r < perPage
    ensures total <= (q + (if r > 0 then 1 else 0)) * perPage
    ensures total <= n * perPage ==> q + (if r > 0 then 1 else 0) <= n
  {
    assert perPage * (q + 1) == perPage * q + perPage;
    if total <= n * perPage {
      if n < q { Scale(perPage, n + 1, q); }
      if n == q { assert r <= 0; }
    }
  }

  // ---- the pages themselves ----

  predicate NewestFirst(a: Entry, b: Entry) {
    a.createdAt >= b.createdAt
  }

  function OwnEntries(l: seq<Entry>, account: Uuid): seq<Entry> {
    Filter(l, (e: Entry) => e.accountId == account)
  }

  /** An account's entries, each once, newest first; entries of one instant come in any order. */
  ghost predicate IsHistory(l: seq<Entry>, account: Uuid, h: seq<Entry>) {
    multiset(h) == multiset(OwnEntries(l, account)) && Sorted(h, NewestFirst)
  }

  /** Skip and limit as the database applies them; a negative skip is an error. */
  function SkipLimit(h: seq<Entry>, limit: int, offset: int): Result<seq<Entry>, Error>
    requires limit >= 1
  {
    if offset < 0 then Err(ErrStore)
    else if offset >= |h| then Ok([])
    else if offset + limit >= |h| then Ok(h[offset..])
    else Ok(h[offset..offset + limit])
  }

  /** offset := (page - 1) * perPage in int64. */
  function PageRead(h: seq<Entry>, page: int64, perPage: int64): Result<seq<Entry>, Error>
    requires page >= 1 && perPage >= 1
  {
    SkipLimit(h, perPage, Wrap64((page - 1) * perPage))
  }

  /** GetTransactionsByAccountID: one page of the history, as the database happens to order
      it, and the number of all the account's entries. */
  method GetTransactionsByAccountID(ledger: LedgerRepository, account: Uuid, h: seq<Entry>, page: int64, perPage: int64,
                                    find: Fault, count: Fault)
    returns (r: Result<(seq<Entry>, int), Error>)
    requires page >= 1 && perPage >= 1 && IsHistory(ledger.entries, account, h)
    ensures
      if find.NoFault? && count.NoFault? && PageRead(h, page, perPage).Ok?
      then r == Ok((PageRead(h, page, perPage).value, |h|))
      else r == Err(ErrStore)
    ensures r.Ok? ==> r.value.1 == CountOf(ledger.entries, account)
    ensures r.Ok? && (page - 1) * perPage <= INT64_MAX ==> r.value.0 == ExactPage(h, page, perPage)
  {
    var offset := Wrap64((page - 1) * perPage);
    if !find.NoFault? {
      return Err(ErrStore);
    }
    var entries := SkipLimit(h, perPage, offset);
    if entries.Err? {
      return Err(entries.error);
    }
    if !count.NoFault? {
      return Err(ErrStore);
    }
    var total := |OwnEntries(ledger.entries, account)|;
    HistoryIs(ledger.entries, account, h);
    OwnEntriesAre(ledger.entries, account);
    if (page - 1) * perPage <= INT64_MAX {
      ReadIsExact(h, page, perPage);
    }
    return Ok((entries.value, total));
  }

  /** The history is the account's entries, all of them, newest first. */
  lemma HistoryIs(l: seq<Entry>, account: Uuid, h: seq<Entry>)
    requires IsHistory(l, account, h)
    ensures forall i, j :: 0 <= i < j < |h| ==> h[i].createdAt >= h[j].createdAt
    ensures forall e :: multiset(h)[e] == if e.accountId == account then multiset(l)[e] else 0
    ensures |h| == CountOf(l, account)
    ensures Unique(l) ==> Unique(h)
  {
    OwnEntriesAre(l, account);
    assert |multiset(h)| == |h| && |multiset(OwnEntries(l, account))| == |OwnEntries(l, account)|;
    assert forall i, j :: 0 <= i < j < |h| ==> NewestFirst(h[i], h[j]);
    if Unique(l) {
      NoneTwice(l, h);
    }
  }

  /** CountByAccountID. */
  function CountOf(l: seq<Entry>, account: Uuid): nat {
    if l == [] then 0 else CountOf(l[1..], account) + if l[0].accountId == account then 1 else 0
  }

  lemma {:induction false} OwnEntriesAre(l: seq<Entry>, account: Uuid)
    ensures forall e :: multiset(OwnEntries(l, account))[e] == if e.accountId == account then multiset(l)[e] else 0
    ensures |OwnEntries(l, account)| == CountOf(l, account)
  {
    if l == [] {
    } else {
      OwnEntriesAre(l[1..], account);
      assert l == [l[0]] + l[1..];
    }
  }

  /** A list that holds no entry more often than a ledger of distinct transactions names none twice. */
  lemma NoneTwice(l: seq<Entry>, h: seq<Entry>)
    requires Unique(l) && forall e :: multiset(h)[e] <= multiset(l)[e]
    ensures Unique(h)
  {
    forall i, j | 0 <= i < j < |h| ensures h[i].transactionId != h[j].transactionId {
      assert h[i] in multiset(h) && h[j] in multiset(h);
      assert h[i] in multiset(l) && h[j] in multiset(l);
      if h[i] == h[j] {
        TwiceInMultiset(h, i, j);
        UniqueOnce(l, h[i]);
      }
    }
  }

  lemma TwiceInMultiset(h: seq<Entry>, i: nat, j: nat)
    requires i < j < |h| && h[i] == h[j]
    ensures multiset(h)[h[i]] >= 2
  {
    assert h == h[..j] + h[j..];
    assert h[..j][i] in multiset(h[..j]) && h[j..][0] in multiset(h[j..]);
  }

  lemma {:induction false} UniqueOnce(l: seq<Entry>, e: Entry)
    requires Unique(l)
    ensures multiset(l)[e] <= 1
  {
    if l != [] {
      UniqueOnce(l[1..], e);
      assert l == [l[0]] + l[1..];
      forall k | 0 <= k < |l[1..]| ensures l[1..][k] != l[0] {
        assert l[1..][k] == l[k + 1];
      }
    }
  }

  /** There always is a history to read. */
  lemma HistoryExists(l: seq<Entry>, account: Uuid) returns (h: seq<Entry>)
    ensures IsHistory(l, account, h)
  {
    h := Sort(OwnEntries(l, account), NewestFirst);
    SortSorts(OwnEntries(l, account), NewestFirst);
  }

  /** No two different entries of one instant. */
  predicate TiesAreEqual(h: seq<Entry>) {
    forall i, j :: 0 <= i < j < |h| && h[i].createdAt == h[j].createdAt ==> h[i] == h[j]
  }

  lemma WithoutHead(h: seq<Entry>)
    requires h != []
    ensures multiset(h[1..]) == multiset(h) - multiset{h[0]}
  {
    assert h == [h[0]] + h[1..];
  }

  lemma {:induction false} SortedOneWay(h: seq<Entry>, h': seq<Entry>)
    requires multiset(h) == multiset(h') && Sorted(h, NewestFirst) && Sorted(h', NewestFirst) && TiesAreEqual(h)
    ensures h == h'
    decreases |h|
  {
    assert |multiset(h)| == |h| && |multiset(h')| == |h'|;
    if h != [] {
      SameHead(h, h');
      WithoutHead(h);
      WithoutHead(h');
      SortedOneWay(h[1..], h'[1..]);
    }
  }

  lemma SameHead(h: seq<Entry>, h': seq<Entry>)
    requires h != [] && h' != [] && multiset(h) == multiset(h')
    requires Sorted(h, NewestFirst) && Sorted(h', NewestFirst) && TiesAreEqual(h)
    ensures h[0] == h'[0]
  {
    assert h[0] in multiset(h') && h'[0] in multiset(h);
    var i :| 0 <= i < |h'| && h'[i] == h[0];
    var j :| 0 <= j < |h| && h[j] == h'[0];
    assert i > 0 ==> NewestFirst(h'[0], h'[i]);
    assert j > 0 ==> NewestFirst(h[0], h[j]);
  }

  lemma SwappedTie(h: seq<Entry>, i: nat, j: nat) returns (h': seq<Entry>)
    requires Sorted(h, NewestFirst) && i < j < |h| && h[i].createdAt == h[j].createdAt
    ensures Sorted(h', NewestFirst) && multiset(h') == multiset(h) && |h'| == |h| && h'[i] == h[j]
  {
    h' := h[i := h[j]][j := h[i]];
    forall a, b | 0 <= a < b < |h'| ensures NewestFirst(h'[a], h'[b]) {
      assert h'[a].createdAt == h[a].createdAt && h'[b].createdAt == h[b].createdAt;
      assert NewestFirst(h[a], h[b]);
    }
  }

  /** Every read lists the account in the same order exactly when no two different entries
      share an instant; only then do pages read one after the other fit together for certain. */
  lemma OrderIsFixedIff(l: seq<Entry>, account: Uuid, h: seq<Entry>)
    requires IsHistory(l, account, h)
    ensures (forall h' :: IsHistory(l, account, h') ==> h' == h) <==> TiesAreEqual(h)
  {
    if TiesAreEqual(h) {
      forall h' | IsHistory(l, account, h') ensures h' == h {
        SortedOneWay(h, h');
      }
    } else {
      var i, j :| 0 <= i < j < |h| && h[i].createdAt == h[j].createdAt && h[i] != h[j];
      var h' := SwappedTie(h, i, j);
      assert IsHistory(l, account, h') && h'[i] != h[i];
    }
  }

  function Min(a: int, b: int): int {
    if a < b then a else b
  }

  function Slice(h: seq<Entry>, lo: nat, hi: nat): seq<Entry>
    requires lo <= hi
  {
    h[Min(lo, |h|)..Min(hi, |h|)]
  }

  /** The p-th page on unbounded integers. */
  function ExactPage(h: seq<Entry>, p: nat, perPage: nat): seq<Entry>
    requires p >= 1 && perPage >= 1
  {
    PageBounds(p, perPage);
    Slice(h, (p - 1) * perPage, p * perPage)
  }

  lemma PageBounds(p: nat, perPage: nat)
    requires p >= 1
    ensures 0 <= (p - 1) * perPage
    ensures p * perPage == (p - 1) * perPage + perPage
  {
  }

  function Pages(h: seq<Entry>, perPage: nat, n: nat): seq<Entry>
    requires perPage >= 1
  {
    if n == 0 then [] else Pages(h, perPage, n - 1) + ExactPage(h, n, perPage)
  }

  lemma {:induction false} PagesArePrefix(h: seq<Entry>, perPage: nat, n: nat)
    requires perPage >= 1
    ensures 0 <= n * perPage && Pages(h, perPage, n) == Slice(h, 0, n * perPage)
  {
    if n > 0 {
      PagesArePrefix(h, perPage, n - 1);
      PageBounds(n, perPage);
    }
  }

  /** Pages 1..totalPages list the whole history with no gap or repeat; every page but
      the last is full, the last is not empty, and later pages are empty. */
  lemma PagesPartition(h: seq<Entry>, perPage: nat, p: nat)
    requires perPage >= 1 && p >= 1
    ensures Pages(h, perPage, TotalPages(|h|, perPage)) == h
    ensures p < TotalPages(|h|, perPage) ==> |ExactPage(h, p, perPage)| == perPage
    ensures p == TotalPages(|h|, perPage) ==> 1 <= |ExactPage(h, p, perPage)| <= perPage
    ensures p > TotalPages(|h|, perPage) ==> ExactPage(h, p, perPage) == []
  {
    var n := TotalPages(|h|, perPage);
    LeastPages(|h|, perPage, n);
    PagesArePrefix(h, perPage, n);
    PageSize(h, perPage, p, n);
  }

  lemma PageSize(h: seq<Entry>, perPage: nat, p: nat, n: nat)
    requires perPage >= 1 && p >= 1 && n == TotalPages(|h|, perPage)
    ensures p < n ==> |ExactPage(h, p, perPage)| == perPage
    ensures p == n ==> 1 <= |ExactPage(h, p, perPage)| <= perPage
    ensures p > n ==> ExactPage(h, p, perPage) == []
  {
    var lo, hi := (p - 1) * perPage, p * perPage;
    PageBounds(p, perPage);
    LeastPages(|h|, perPage, p);
    LeastPages(|h|, perPage, p - 1);
    if p > n {
      Scale(perPage, n, p - 1);
      assert |h| <= lo;
    } else {
      assert lo < |h|;
    }
  }

  lemma SkipLimitIs(h: seq<Entry>, limit: int, offset: int)
    requires limit >= 1 && offset >= 0
    ensures SkipLimit(h, limit, offset) == Ok(Slice(h, offset, offset + limit))
  {
    if offset >= |h| {
      assert Slice(h, offset, offset + limit) == [];
    } else if offset + limit >= |h| {
      assert h[offset..] == h[offset..|h|];
    }
  }

  /** A page is read exactly whenever its offset fits in int64. */
  lemma ReadIsExact(h: seq<Entry>, page: int64, perPage: int64)
    requires page >= 1 && perPage >= 1 && (page - 1) * perPage <= INT64_MAX
    ensures PageRead(h, page, perPage) == Ok(ExactPage(h, page, perPage))
  {
    PageBounds(page, perPage);
    SkipLimitIs(h, perPage, (page - 1) * perPage);
  }

  function Copies(e: Entry, n: nat): (r: seq<Entry>)
    ensures |r| == n
  {
    seq(n, i => e)
  }

  /** Past the overflow, an empty page is answered by an error or by entries. */
  lemma Misread(page: int64, perPage: int64, e: Entry) returns (h: seq<Entry>)
    requires page >= 1 && perPage >= 1 && (page - 1) * perPage > INT64_MAX
    ensures PageRead(h, page, perPage) != Ok(ExactPage(h, page, perPage)) && ExactPage(h, page, perPage) == []
  {
    var exact := (page - 1) * perPage;
    var offset := Wrap64(exact);
    h := Copies(e, if offset < 0 then 0 else offset + 1);
    PageBounds(page, perPage);
    assert |h| <= exact;
    if offset >= 0 {
      SkipLimitIs(h, perPage, offset);
      assert Slice(h, offset, offset + perPage) != [];
    }
  }

  /** A page number is safe for every history exactly when (page - 1) * perPage does not
      overflow: past that point some history turns an empty page into an error or into entries. */
  lemma ReadIsExactIff(page: int64, perPage: int64, e: Entry)
    requires page >= 1 && perPage >= 1
    ensures (forall h :: PageRead(h, page, perPage) == Ok(ExactPage(h, page, perPage)))
       <==> (page - 1) * perPage <= INT64_MAX
  {
    if (page - 1) * perPage <= INT64_MAX {
      forall h: seq<Entry> ensures PageRead(h, page, perPage) == Ok(ExactPage(h, page, perPage)) {
        ReadIsExact(h, page, perPage);
      }
    } else {
      var h := Misread(page, perPage, e);
    }
  }

  /** For one history: an overflowing page still reads right when its wrapped offset lies past the end. */
  lemma PageIsExactIff(h: seq<Entry>, page: int64, perPage: int64)
    requires page >= 1 && perPage >= 1 && |h| <= INT64_MAX
    ensures PageRead(h, page, perPage) == Ok(ExactPage(h, page, perPage))
       <==> (page - 1) * perPage <= INT64_MAX || Wrap64((page - 1) * perPage) >= |h|
  {
    var exact := (page - 1) * perPage;
    if exact <= INT64_MAX {
      ReadIsExact(h, page, perPage);
    } else {
      PageBounds(page, perPage);
      assert ExactPage(h, page, perPage) == [];
      var offset := Wrap64(exact);
      if 0 <= offset < |h| {
        SkipLimitIs(h, perPage, offset);
        assert Slice(h, offset, offset + perPage) != [];
      }
    }
  }

  /** The overflow is real: with 64 entries a page, page 2^58 + 1 shows the first page again. */
  lemma OverflowExample(h: seq<Entry>)
    requires 0 < |h| <= 64
    ensures PageRead(h, 0x400_0000_0000_0001, 64) == Ok(h) && ExactPage(h, 0x400_0000_0000_0001, 64) == []
  {
  }

  /** No page up to totalPages overflows, so the pages a client is told about are exact. */
  lemma ListedPagesAreExact(h: seq<Entry>, page: int64, perPage: int64)
    requires page >= 1 && perPage >= 1 && |h| <= INT64_MAX && page <= TotalPages(|h|, perPage)
    ensures PageRead(h, page, perPage) == Ok(ExactPage(h, page, perPage))
  {
    LeastPages(|h|, perPage, page - 1);
    ReadIsExact(h, page, perPage);
  }
}
