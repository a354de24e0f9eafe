// Listing a user's accounts page by page.
module Paging {
  import opened Wrappers
  import opened Integers
  import opened Bank
  import opened Protocol
  import opened Api

  /** The owner's accounts with ids below `n`, in id order: what the query returns before LIMIT and OFFSET. */
  function Owned(accounts: map<int, Account>, owner: string, n: nat): seq<Account> {
    if n == 0 then []
    else
      Owned(accounts, owner, n - 1) +
        if n - 1 in accounts && accounts[n - 1].owner == owner then [accounts[n - 1]] else []
  }

  function Min(a: nat, b: nat): nat {
    if a <= b then a else b
  }

  /** LIMIT and OFFSET on an ordered result. */
  function Slice(items: seq<Account>, limit: nat, offset: nat): seq<Account> {
    items[Min(offset, |items|)..Min(offset + limit, |items|)]
  }

  /** The ListAccounts query. PostgreSQL refuses a negative OFFSET. */
  function ListAccounts(accounts: map<int, Account>, n: nat, owner: string, limit: nat, offset: int)
    : Option<seq<Account>>
  {
    if offset < 0 then None else Some(Slice(Owned(accounts, owner, n), limit, offset))
  }

  /** The binding rules of listAccountRequest. */
  predicate PageOk(pageId: int, pageSize: int) {
    InInt32(pageId) && pageId >= 1 && 5 <= pageSize <= 10
  }

  /** The offset the handler computes in int32 arithmetic. */
  function Offset(pageId: int, pageSize: int): int {
    Wrap32((pageId - 1) * pageSize)
  }

  /** What listAccounts answers; None stands for an error response. */
  function ListPage(accounts: map<int, Account>, n: nat, owner: string, pageId: int, pageSize: int)
    : Option<seq<Account>>
    requires PageOk(pageId, pageSize)
  {
    ListAccounts(accounts, n, owner, pageSize, Offset(pageId, pageSize))
  }

  // ----- the listing is the owner's accounts in id order, each once

  lemma {:induction false} OwnedMeaning(accounts: map<int, Account>, owner: string, n: nat)
    requires forall id | id in accounts :: 0 <= id < n && accounts[id].id == id
    ensures OwnedUpTo(accounts, owner, n)
  {
    OwnedPrefix(accounts, owner, n);
  }

  /** Ascending ids, and exactly the owner's rows with ids below `n`. */
  ghost predicate OwnedUpTo(accounts: map<int, Account>, owner: string, n: nat) {
    var items := Owned(accounts, owner, n);
    && (forall i, j | 0 <= i < j < |items| :: items[i].id < items[j].id)
    && (forall i | 0 <= i < |items| ::
          && 0 <= items[i].id < n && items[i].id in accounts
          && accounts[items[i].id] == items[i] && items[i].owner == owner)
    && (forall id | 0 <= id < n && id in accounts && accounts[id].owner == owner :: accounts[id] in items)
  }

  lemma {:induction false} OwnedPrefix(accounts: map<int, Account>, owner: string, n: nat)
    requires forall id | id in accounts :: accounts[id].id == id
    ensures OwnedUpTo(accounts, owner, n)
  {
    if n > 0 {
      OwnedPrefix(accounts, owner, n - 1);
    }
  }

  /** Scanning on only appends. */
  lemma {:induction false} OwnedGrows(accounts: map<int, Account>, owner: string, m: nat, n: nat)
    requires m <= n
    ensures Owned(accounts, owner, m) <= Owned(accounts, owner, n)
  {
    if m < n {
      OwnedGrows(accounts, owner, m, n - 1);
    }
  }

  /** LIMIT and OFFSET: at most `limit` rows, the first `offset` left out, nothing else missing or moved. */
  lemma SliceMeaning(items: seq<Account>, limit: nat, offset: nat)
    ensures var page := Slice(items, limit, offset);
            && (|page| == limit || |page| == |items| - offset || (|page| == 0 && offset >= |items|))
            && (|page| < limit ==> offset + |page| >= |items|) && |page| <= limit
            && forall k | 0 <= k < |page| :: offset + k < |items| && page[k] == items[offset + k]
  {
  }

  /** A scan that has filled its page, or has seen every row, may stop. */
  lemma FullSlice(items: seq<Account>, more: seq<Account>, limit: nat, offset: nat)
    requires items <= more && (|Slice(items, limit, offset)| >= limit || items == more)
    ensures Slice(more, limit, offset) == Slice(items, limit, offset)
  {
  }

  // ----- pages

  /** Pages 1 to k, put together. */
  function Pages(items: seq<Account>, pageSize: nat, k: nat): seq<Account> {
    if k == 0 then [] else Pages(items, pageSize, k - 1) + Slice(items, pageSize, (k - 1) * pageSize)
  }

  lemma {:induction false} PagesCover(items: seq<Account>, pageSize: nat, k: nat)
    ensures Pages(items, pageSize, k) == items[..Min(k * pageSize, |items|)]
  {
    if k > 0 {
      PagesCover(items, pageSize, k - 1);
      assert (k - 1) * pageSize + pageSize == k * pageSize;
    }
  }

  /** While the page arithmetic stays in int32, page k continues where pages 1 to k-1 stopped: no gap, no repeat. */
  lemma PageContinues(accounts: map<int, Account>, n: nat, owner: string, pageId: int, pageSize: int)
    requires PageOk(pageId, pageSize) && InInt32((pageId - 1) * pageSize)
    ensures var items := Owned(accounts, owner, n);
            var page := ListPage(accounts, n, owner, pageId, pageSize);
            && page.Some?
            && Pages(items, pageSize, pageId - 1) + page.value == Pages(items, pageSize, pageId)
            && Pages(items, pageSize, pageId) == items[..Min(pageId * pageSize, |items|)]
  {
    OffsetExact(pageId, pageSize);
    PagesCover(Owned(accounts, owner, n), pageSize, pageId);
  }

  lemma OffsetExact(pageId: int, pageSize: int)
    requires PageOk(pageId, pageSize) && InInt32((pageId - 1) * pageSize)
    ensures Offset(pageId, pageSize) == (pageId - 1) * pageSize >= 0
  {
    Wrap32Meaning((pageId - 1) * pageSize);
  }

  /** The handler answers with the true page exactly when the offset did not wrap, or wrapped to a point past the
      owner's accounts; a negative offset is an error and a small one repeats accounts already listed. */
  lemma PageRightIff(accounts: map<int, Account>, n: nat, owner: string, pageId: int, pageSize: int)
    requires PageOk(pageId, pageSize) && |Owned(accounts, owner, n)| <= MAX_INT32
    ensures var exact := (pageId - 1) * pageSize;
            var items := Owned(accounts, owner, n);
            && exact >= 0
            && (ListPage(accounts, n, owner, pageId, pageSize) == Some(Slice(items, pageSize, exact))
                <==> InInt32(exact) || Offset(pageId, pageSize) >= |items|)
  {
    var exact := (pageId - 1) * pageSize;
    assert exact >= 0;
    SliceRightIff(Owned(accounts, owner, n), pageSize, exact);
  }

  lemma SliceRightIff(items: seq<Account>, limit: nat, exact: nat)
    requires limit > 0 && |items| <= MAX_INT32
    ensures Wrap32(exact) >= 0 && Slice(items, limit, Wrap32(exact)) == Slice(items, limit, exact)
            <==> InInt32(exact) || Wrap32(exact) >= |items|
  {
    Wrap32Meaning(exact);
    var offset := Wrap32(exact);
    if !InInt32(exact) && 0 <= offset {
      assert |Slice(items, limit, exact)| == 0;
      assert |Slice(items, limit, offset)| == 0 <==> offset >= |items|;
    }
  }

  /** Page 536870913 of size 8 is page 1 again. */
  lemma PageRepeats(accounts: map<int, Account>, n: nat, owner: string)
    ensures PageOk(536870913, 8)
    ensures ListPage(accounts, n, owner, 536870913, 8) == ListPage(accounts, n, owner, 1, 8)
  {
  }

  // ----- in reachable states page 1 is complete

  lemma {:induction false} DistinctCurrencies(items: seq<Account>, currencies: set<string>)
    requires forall i | 0 <= i < |items| :: items[i].currency in currencies
    requires forall i, j | 0 <= i < j < |items| :: items[i].currency != items[j].currency
    ensures |items| <= |currencies|
  {
    if items != [] {
      var last := items[|items| - 1].currency;
      DistinctCurrencies(items[..|items| - 1], currencies - {last});
    }
  }

  lemma AtMostThree(s: State, owner: string)
    requires AccountsOk(s)
    ensures |Owned(s.db.accounts, owner, s.accountBound)| <= 3
  {
    var items := Owned(s.db.accounts, owner, s.accountBound);
    OwnedMeaning(s.db.accounts, owner, s.accountBound);
    forall i, j | 0 <= i < j < |items|
      ensures items[i].currency != items[j].currency
    {
      assert items[i].id < items[j].id;
      assert s.db.accounts[items[i].id] == items[i] && s.db.accounts[items[j].id] == items[j];
    }
    var supported := {"USD", "EUR", "CAD"};
    forall i | 0 <= i < |items|
      ensures items[i].currency in supported
    {
      assert s.db.accounts[items[i].id] == items[i];
    }
    DistinctCurrencies(items, supported);
  }

  /** Whatever the API served, a user has at most three accounts, one per currency, so page 1 of any admissible size
      lists them all. */
  lemma FirstPageComplete(calls: seq<Call>, owner: string, pageSize: int)
    requires ValidCalls(Fresh(), calls) && PageOk(1, pageSize)
    ensures var s := After(Fresh(), calls).core;
            && |Owned(s.db.accounts, owner, s.accountBound)| <= 3
            && ListPage(s.db.accounts, s.accountBound, owner, 1, pageSize) ==
                 Some(Owned(s.db.accounts, owner, s.accountBound))
  {
    Reachable(calls);
    var s := After(Fresh(), calls).core;
    AtMostThree(s, owner);
    assert (1 - 1) * pageSize == 0;
    Wrap32Meaning(0);
    var items := Owned(s.db.accounts, owner, s.accountBound);
    assert Slice(items, pageSize, 0) == items;
  }
}
