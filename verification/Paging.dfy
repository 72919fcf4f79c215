/** One page of the review queue from two tables (src/services/adminReviewService.js). */
module Paging {
  import opened Common
  import opened Sorting

  // The two kinds of review ID; as strings, "document-..." sorts before "pending-...".
  datatype Kind = DocumentKind | PendingKind

  // A queue item: when it was received, and its review ID (kind and row ID).
  datatype Item = Item(receivedDate: int, kind: Kind, id: nat)

  datatype Order = Asc | Desc

  const REVIEW_QUEUE_WINDOW := 1000

  function Rank(kind: Kind): nat {
    if kind == DocumentKind then 0 else 1
  }

  predicate IdLe(a: Item, b: Item) {
    Rank(a.kind) < Rank(b.kind) || (a.kind == b.kind && a.id <= b.id)
  }

  // compareItems(order) <= 0: by date in the given direction, ties by review ID.
  function CompareItems(order: Order): (Item, Item) -> bool {
    (a: Item, b: Item) =>
      if a.receivedDate == b.receivedDate then IdLe(a, b)
      else if order == Asc then a.receivedDate < b.receivedDate else a.receivedDate > b.receivedDate
  }

  // ORDER BY date, ID within one table.
  function TableOrder(order: Order): (Item, Item) -> bool {
    (a: Item, b: Item) =>
      if a.receivedDate == b.receivedDate then a.id <= b.id
      else if order == Asc then a.receivedDate < b.receivedDate else a.receivedDate > b.receivedDate
  }

  function Take(s: seq<Item>, n: nat): seq<Item> {
    if n < |s| then s[..n] else s
  }

  // Array.prototype.slice(from, to).
  function Slice(s: seq<Item>, from: nat, to: nat): seq<Item> {
    var t := Take(s, to);
    if from < |t| then t[from..] else []
  }

  // findMany(... orderBy, take: window)
  function Fetch(order: Order, table: seq<Item>, window: nat): seq<Item> {
    Take(Sort(TableOrder(order), table), window)
  }

  function Window(order: Order, pending: seq<Item>, documents: seq<Item>, from: nat, window: nat): seq<Item> {
    var merged := Sort(CompareItems(order), Fetch(order, pending, window) + Fetch(order, documents, window));
    Slice(merged, from, window)
  }

  function ListReviewQueue(order: Order, pending: seq<Item>, documents: seq<Item>, page: nat, pageSize: nat): seq<Item>
    requires 1 <= page && 1 <= pageSize
  {
    Window(order, pending, documents, (page - 1) * pageSize, page * pageSize)
  }

  // What it stands for: the whole queue, merged and sorted.
  function WholeQueue(order: Order, pending: seq<Item>, documents: seq<Item>): seq<Item> {
    Sort(CompareItems(order), pending + documents)
  }

  ghost predicate IsTable(kind: Kind, table: seq<Item>) {
    && (forall i :: 0 <= i < |table| ==> table[i].kind == kind)
    && (forall i, j :: 0 <= i < j < |table| ==> table[i].id != table[j].id)
  }

  // ------------------------------------------------------------------ orders

  lemma OrdersRank(order: Order)
    ensures Ranks(CompareItems(order)) && Ranks(TableOrder(order))
  {
  }

  lemma OneRankEach(order: Order, a: Item, b: Item)
    requires CompareItems(order)(a, b) && CompareItems(order)(b, a)
    ensures a == b
  {
  }

  // Oldest first or newest first; of two items of one date the document comes
  // first, and of two of one table the smaller ID.
  lemma QueueOrderMeaning(a: Item, b: Item)
    ensures a.receivedDate < b.receivedDate ==> CompareItems(Asc)(a, b) && !CompareItems(Asc)(b, a)
    ensures a.receivedDate < b.receivedDate ==> CompareItems(Desc)(b, a) && !CompareItems(Desc)(a, b)
    ensures a.receivedDate == b.receivedDate && a.kind == DocumentKind && b.kind == PendingKind ==>
              forall order :: CompareItems(order)(a, b) && !CompareItems(order)(b, a)
    ensures a.receivedDate == b.receivedDate && a.kind == b.kind ==> forall order :: CompareItems(order)(a, b) <==> a.id <= b.id
  {
  }

  // Within one table the database's order is the queue's.
  lemma TableSortIsQueueSort(order: Order, kind: Kind, table: seq<Item>)
    requires IsTable(kind, table)
    ensures Sort(TableOrder(order), table) == Sort(CompareItems(order), table)
  {
    OrdersRank(order);
    var byTable, byQueue := Sort(TableOrder(order), table), Sort(CompareItems(order), table);
    SortSorts(TableOrder(order), table);
    SortSorts(CompareItems(order), table);
    SameElements(table, byTable);
    forall i, j | 0 <= i < j < |byTable| ensures CompareItems(order)(byTable[i], byTable[j]) {
      assert byTable[i] in table && byTable[j] in table;
      assert byTable[i].kind == kind && byTable[j].kind == kind;
      assert TableOrder(order)(byTable[i], byTable[j]);
    }
    forall x, y | x in byTable && y in byTable && CompareItems(order)(x, y) && CompareItems(order)(y, x) ensures x == y {
      OneRankEach(order, x, y);
    }
    SortedOnce(CompareItems(order), byTable, byQueue);
  }

  // The whole queue: every item of both tables, oldest (or newest) first, items
  // of the same date by review ID.
  lemma WholeQueueInOrder(order: Order, pending: seq<Item>, documents: seq<Item>)
    ensures
      var q := WholeQueue(order, pending, documents);
      && multiset(q) == multiset(pending) + multiset(documents)
      && (forall i, j :: 0 <= i < j < |q| ==>
            && (order == Asc ==> q[i].receivedDate <= q[j].receivedDate)
            && (order == Desc ==> q[j].receivedDate <= q[i].receivedDate)
            && (q[i].receivedDate == q[j].receivedDate ==> IdLe(q[i], q[j])))
  {
    OrdersRank(order);
    SortSorts(CompareItems(order), pending + documents);
    assert multiset(pending + documents) == multiset(pending) + multiset(documents);
    var q := WholeQueue(order, pending, documents);
    assert forall i, j :: 0 <= i < j < |q| ==> CompareItems(order)(q[i], q[j]);
  }

  // ------------------------------------------------------------------ merging

  function Merge(le: (Item, Item) -> bool, a: seq<Item>, b: seq<Item>): seq<Item>
    decreases |a| + |b|
  {
    if a == [] then b
    else if b == [] then a
    else if le(a[0], b[0]) then [a[0]] + Merge(le, a[1..], b)
    else [b[0]] + Merge(le, a, b[1..])
  }

  lemma {:induction false} MergeSorts(le: (Item, Item) -> bool, a: seq<Item>, b: seq<Item>)
    requires Ranks(le) && Sorted(le, a) && Sorted(le, b)
    ensures Sorted(le, Merge(le, a, b))
    ensures multiset(Merge(le, a, b)) == multiset(a) + multiset(b)
    decreases |a| + |b|
  {
    if a != [] && b != [] {
      if le(a[0], b[0]) {
        MergeSorts(le, a[1..], b);
        HeadFirst(le, a, b, Merge(le, a[1..], b));
      } else {
        assert le(b[0], a[0]);
        MergeSorts(le, a, b[1..]);
        HeadFirst(le, b, a, Merge(le, a, b[1..]));
      }
    }
  }

  // The smaller head before what the rests merge to.
  lemma HeadFirst(le: (Item, Item) -> bool, a: seq<Item>, b: seq<Item>, rest: seq<Item>)
    requires Ranks(le) && Sorted(le, a) && Sorted(le, b) && a != [] && b != [] && le(a[0], b[0])
    requires Sorted(le, rest) && multiset(rest) == multiset(a[1..]) + multiset(b)
    ensures Sorted(le, [a[0]] + rest) && multiset([a[0]] + rest) == multiset(a) + multiset(b)
  {
    assert a == [a[0]] + a[1..];
    FirstIsLeast(le, a);
    FirstIsLeast(le, b);
    forall e | e in rest ensures le(a[0], e) {
      assert e in multiset(rest);
      assert e in a[1..] || e in b;
    }
    ConsSorted(le, a[0], rest);
  }

  // The first n of a merge need only the first n of each list.
  lemma {:induction false} MergeTake(le: (Item, Item) -> bool, a: seq<Item>, b: seq<Item>, n: nat)
    ensures Take(Merge(le, a, b), n) == Take(Merge(le, Take(a, n), Take(b, n)), n)
    decreases n
  {
    if a != [] && b != [] && n > 0 {
      if le(a[0], b[0]) {
        MergeTake(le, a[1..], b, n - 1);
        MergeTake(le, Take(a, n)[1..], Take(b, n), n - 1);
        TakeRest(a, n);
        TakeLess(b, n);
        TakeCons(a[0], Merge(le, a[1..], b), n);
        TakeCons(a[0], Merge(le, Take(a, n)[1..], Take(b, n)), n);
      } else {
        MergeTake(le, a, b[1..], n - 1);
        MergeTake(le, Take(a, n), Take(b, n)[1..], n - 1);
        TakeRest(b, n);
        TakeLess(a, n);
        TakeCons(b[0], Merge(le, a, b[1..]), n);
        TakeCons(b[0], Merge(le, Take(a, n), Take(b, n)[1..]), n);
      }
    }
  }

  lemma TakeRest(s: seq<Item>, n: nat)
    requires s != [] && n > 0
    ensures Take(s, n) != [] && Take(s, n)[0] == s[0] && Take(Take(s, n)[1..], n - 1) == Take(s[1..], n - 1)
  {
  }

  lemma TakeLess(s: seq<Item>, n: nat)
    requires s != [] && n > 0
    ensures Take(s, n) != [] && Take(s, n)[0] == s[0] && Take(Take(s, n), n - 1) == Take(s, n - 1)
  {
  }

  lemma TakeCons(x: Item, s: seq<Item>, n: nat)
    requires n > 0
    ensures Take([x] + s, n) == [x] + Take(s, n - 1)
  {
  }

  // Sorting two sorted lists together is merging them.
  lemma SortIsMerge(order: Order, a: seq<Item>, b: seq<Item>)
    requires Sorted(CompareItems(order), a) && Sorted(CompareItems(order), b)
    ensures Sort(CompareItems(order), a + b) == Merge(CompareItems(order), a, b)
  {
    var le := CompareItems(order);
    OrdersRank(order);
    SortSorts(le, a + b);
    MergeSorts(le, a, b);
    assert multiset(a + b) == multiset(a) + multiset(b);
    forall x, y | le(x, y) && le(y, x) ensures x == y { OneRankEach(order, x, y); }
    SortedOnce(le, Sort(le, a + b), Merge(le, a, b));
  }

  lemma SortOfSorted(order: Order, a: seq<Item>, b: seq<Item>)
    ensures Sort(CompareItems(order), a + b)
         == Sort(CompareItems(order), Sort(CompareItems(order), a) + Sort(CompareItems(order), b))
  {
    var le := CompareItems(order);
    OrdersRank(order);
    SortSorts(le, a);
    SortSorts(le, b);
    SortSorts(le, a + b);
    SortSorts(le, Sort(le, a) + Sort(le, b));
    assert multiset(a + b) == multiset(a) + multiset(b);
    assert multiset(Sort(le, a) + Sort(le, b)) == multiset(Sort(le, a)) + multiset(Sort(le, b));
    forall x, y | le(x, y) && le(y, x) ensures x == y { OneRankEach(order, x, y); }
    SortedOnce(le, Sort(le, a + b), Sort(le, Sort(le, a) + Sort(le, b)));
  }

  // ------------------------------------------------------------------ theorems

  lemma WindowIsSlice(order: Order, pending: seq<Item>, documents: seq<Item>, from: nat, window: nat)
    requires IsTable(PendingKind, pending) && IsTable(DocumentKind, documents)
    ensures Window(order, pending, documents, from, window) == Slice(WholeQueue(order, pending, documents), from, window)
  {
    var le := CompareItems(order);
    OrdersRank(order);
    TableSortIsQueueSort(order, PendingKind, pending);
    TableSortIsQueueSort(order, DocumentKind, documents);
    var p, d := Sort(le, pending), Sort(le, documents);
    SortSorts(le, pending);
    SortSorts(le, documents);
    SortOfSorted(order, pending, documents);
    SortIsMerge(order, p, d);
    SortIsMerge(order, Take(p, window), Take(d, window));
    MergeTake(le, p, d, window);
  }

  // Fetching only the first page * pageSize rows of each table gives the page
  // that slicing the whole sorted queue would give.
  lemma PageIsSliceOfWholeQueue(order: Order, pending: seq<Item>, documents: seq<Item>, page: nat, pageSize: nat)
    requires IsTable(PendingKind, pending) && IsTable(DocumentKind, documents) && 1 <= page && 1 <= pageSize
    ensures ListReviewQueue(order, pending, documents, page, pageSize)
         == Slice(WholeQueue(order, pending, documents), (page - 1) * pageSize, page * pageSize)
  {
    WindowIsSlice(order, pending, documents, (page - 1) * pageSize, page * pageSize);
  }

  function Pages(order: Order, pending: seq<Item>, documents: seq<Item>, n: nat, pageSize: nat): seq<Item>
    requires 1 <= pageSize
  {
    if n == 0 then []
    else Pages(order, pending, documents, n - 1, pageSize) + ListReviewQueue(order, pending, documents, n, pageSize)
  }

  lemma NextMultiple(n: nat, k: nat)
    requires n > 0
    ensures n * k == (n - 1) * k + k && 0 <= (n - 1) * k
  {
  }

  lemma TakeThenSlice(s: seq<Item>, from: nat, to: nat)
    requires from <= to
    ensures Take(s, from) + Slice(s, from, to) == Take(s, to)
  {
  }

  // The first n pages, one after the other, are the first items of the queue:
  // nothing is skipped or shown twice.
  lemma {:induction false} PagesAreAPrefix(order: Order, pending: seq<Item>, documents: seq<Item>, n: nat, pageSize: nat)
    requires IsTable(PendingKind, pending) && IsTable(DocumentKind, documents) && 1 <= pageSize
    ensures Pages(order, pending, documents, n, pageSize) == Take(WholeQueue(order, pending, documents), n * pageSize)
  {
    if n > 0 {
      PagesAreAPrefix(order, pending, documents, n - 1, pageSize);
      PageIsSliceOfWholeQueue(order, pending, documents, n, pageSize);
      NextMultiple(n, pageSize);
      TakeThenSlice(WholeQueue(order, pending, documents), (n - 1) * pageSize, n * pageSize);
    }
  }

  // Math.max(1, Math.ceil(total / pageSize))
  function TotalPages(total: nat, pageSize: nat): nat
    requires 1 <= pageSize
  {
    Max(1, (total + pageSize - 1) / pageSize)
  }

  lemma PagesAreEnough(total: nat, pageSize: nat)
    requires 1 <= pageSize
    ensures total <= TotalPages(total, pageSize) * pageSize
    ensures TotalPages(total, pageSize) > 1 ==> (TotalPages(total, pageSize) - 1) * pageSize < total
  {
    var pages := (total + pageSize - 1) / pageSize;
    assert pages * pageSize <= total + pageSize - 1 < pages * pageSize + pageSize;
    assert (pages - 1) * pageSize == pages * pageSize - pageSize;
  }

  lemma Multiples(a: nat, b: nat, k: nat)
    requires a <= b
    ensures a * k <= b * k
  {
  }

  // parseReviewQueueQuery refuses pages beyond the window. All pages of a queue
  // are admitted exactly when it fits into the full pages inside the window.
  lemma AllPagesAdmittedIff(total: nat, pageSize: nat)
    requires 1 <= pageSize <= 100
    ensures TotalPages(total, pageSize) * pageSize <= REVIEW_QUEUE_WINDOW
        <==> total <= REVIEW_QUEUE_WINDOW - REVIEW_QUEUE_WINDOW % pageSize
  {
    PagesAreEnough(total, pageSize);
    var pages, full := TotalPages(total, pageSize), REVIEW_QUEUE_WINDOW / pageSize;
    assert full * pageSize == REVIEW_QUEUE_WINDOW - REVIEW_QUEUE_WINDOW % pageSize && full >= 1;
    assert (full + 1) * pageSize == full * pageSize + pageSize;
    if pages <= full {
      Multiples(pages, full, pageSize);
    } else {
      Multiples(full + 1, pages, pageSize);
      Multiples(full, pages - 1, pageSize);
    }
  }

  lemma TakeAll(s: seq<Item>, n: nat)
    requires |s| <= n
    ensures Take(s, n) == s
  {
  }

  // Main result: every item is on exactly one page.
  lemma PagesPartitionTheQueue(order: Order, pending: seq<Item>, documents: seq<Item>, pageSize: nat)
    requires IsTable(PendingKind, pending) && IsTable(DocumentKind, documents) && 1 <= pageSize
    ensures Pages(order, pending, documents, TotalPages(|pending| + |documents|, pageSize), pageSize)
         == WholeQueue(order, pending, documents)
  {
    var n := TotalPages(|pending| + |documents|, pageSize);
    PagesAreAPrefix(order, pending, documents, n, pageSize);
    PagesAreEnough(|pending| + |documents|, pageSize);
    OrdersRank(order);
    SortSorts(CompareItems(order), pending + documents);
    TakeAll(WholeQueue(order, pending, documents), n * pageSize);
  }
}
