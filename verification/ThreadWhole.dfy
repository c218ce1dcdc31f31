// Every run of the chat page from the arrival of its first page: when the thread
// ends up as the whole history, and how many pages it takes.
module ThreadWhole {
  import opened Options
  import opened StableSort
  import opened ThreadView
  import opened ThreadPaging

  // ---------------------------------------------------------------------
  // What any step keeps, late deliveries included.

  ghost predicate Stored(s: State) {
    StoreOk(s.store) && forall m :: m in s.messages ==> m in s.store
  }

  // A request asks below a message of the thread, and the thread starts no higher.
  ghost predicate Asks(s: State, before: int) {
    && s.hasMore && s.messages != [] && s.messages[0].sentAt <= before
    && exists m :: m in s.messages && m.sentAt == before
  }

  ghost predicate AnyInv(s: State) {
    && Stored(s)
    && (s.hasMore ==> s.messages != [])
    && (s.loading <==> s.request.Some?)
    && (s.request.Some? ==> Asks(s, s.request.value.before))
    && (s.request.Some? && s.request.value.answer.Some? ==>
          s.request.value.answer.value == Newest(History(s.store, Some(s.request.value.before)), PAGE))
  }

  lemma UpsertMembers(s: State, m: Message)
    requires Stored(s) && m in s.store
    ensures forall x :: x in Upsert(s.messages, m) <==> x in s.messages || x == m
  {
    var all := set x | x in s.store;
    StoreConsistent(s.store);
    forall x ensures x in Upsert(s.messages, m) <==> x in s.messages || x == m {
      UpsertMember(all, s.messages, m, x);
    }
  }

  lemma UpsertStartsNoHigher(s: State, m: Message)
    requires Stored(s) && m in s.store && s.messages != []
    ensures Upsert(s.messages, m) != [] && Upsert(s.messages, m)[0].sentAt <= s.messages[0].sentAt
  {
    var t := Upsert(s.messages, m);
    UpsertMembers(s, m);
    assert s.messages[0] in t;
    if !HasId(s.messages, m.id) {
      SortSorts(SentAt, s.messages + [m]);
      var j :| 0 <= j < |t| && t[j] == s.messages[0];
      assert SentAt(t[0]) <= SentAt(t[j]);
    }
  }

  lemma PageMember(store: seq<Message>, before: int, m: Message)
    requires m in Newest(History(store, Some(before)), PAGE)
    ensures m in store && m.sentAt < before
  {
    HistoryMember(store, Some(before), m);
  }

  lemma StoreKeepsAny(s: State, m: Message)
    requires AnyInv(s) && Enabled(s, Store(m))
    ensures AnyInv(Next(s, Store(m)))
  {
    if s.request.Some? {
      var x :| x in s.messages && x.sentAt == s.request.value.before;
      var i :| 0 <= i < |s.store| && s.store[i] == x;
      HistoryUnderInsert(s.store, m, x.sentAt);
    }
  }

  lemma ReceiveKeepsAny(s: State, m: Message)
    requires AnyInv(s) && Enabled(s, Receive(m))
    ensures AnyInv(Next(s, Receive(m)))
  {
    UpsertMembers(s, m);
    if s.messages != [] {
      UpsertStartsNoHigher(s, m);
    }
    if s.request.Some? {
      var x :| x in s.messages && x.sentAt == s.request.value.before;
      assert x in Next(s, Receive(m)).messages;
    }
  }

  lemma ArriveKeepsAny(s: State)
    requires AnyInv(s) && Enabled(s, Arrive)
    ensures AnyInv(Next(s, Arrive))
  {
    forall m | m in s.request.value.answer.value ensures m in s.store {
      PageMember(s.store, s.request.value.before, m);
    }
  }

  lemma StepKeepsAny(s: State, a: Action)
    requires AnyInv(s) && Enabled(s, a)
    ensures AnyInv(Next(s, a))
  {
    match a
    case Store(m) => StoreKeepsAny(s, m);
    case LoadMore =>
      if s.messages != [] {
        assert s.messages[0] in s.messages;
      }
    case Serve => PageIsNewest(s.store, Some(s.request.value.before), PAGE);
    case Arrive => ArriveKeepsAny(s);
    case Fail =>
    case Receive(m) => ReceiveKeepsAny(s, m);
  }

  lemma {:induction false} RunKeepsAny(s: State, run: seq<Action>)
    requires AnyInv(s) && EnabledRun(s, run)
    ensures AnyInv(After(s, run))
    decreases |run|
  {
    if run != [] {
      StepKeepsAny(s, run[0]);
      RunKeepsAny(Next(s, run[0]), run[1..]);
    }
  }

  lemma PrefixWithin(base: seq<Message>, store: seq<Message>)
    requires base <= store
    ensures forall m :: m in base ==> m in store
  {
    assert forall i :: 0 <= i < |base| ==> base[i] == store[i];
  }

  lemma {:induction false} StoreGrows(s: State, run: seq<Action>)
    requires EnabledRun(s, run)
    ensures s.store <= After(s, run).store && forall m :: m in Received(run) ==> m in After(s, run).store
    decreases |run|
  {
    if run != [] {
      StoreGrows(Next(s, run[0]), run[1..]);
      assert s.store <= Next(s, run[0]).store;
      PrefixWithin(s.store, After(s, run).store);
    }
  }

  // Nothing leaves the thread, not even one of two copies.
  lemma StepGrowsThread(s: State, a: Action)
    requires Enabled(s, a)
    ensures multiset(s.messages) <= multiset(Next(s, a).messages)
  {
    if a.Receive? {
      SortPermutes(SentAt, s.messages + [a.m]);
    }
  }

  lemma {:induction false} RunGrowsThread(s: State, run: seq<Action>)
    requires EnabledRun(s, run)
    ensures multiset(s.messages) <= multiset(After(s, run).messages)
    decreases |run|
  {
    if run != [] {
      StepGrowsThread(s, run[0]);
      RunGrowsThread(Next(s, run[0]), run[1..]);
    }
  }

  lemma StaysInThread(s: State, run: seq<Action>, m: Message)
    requires EnabledRun(s, run) && m in s.messages
    ensures m in After(s, run).messages
  {
    RunGrowsThread(s, run);
    assert m in multiset(s.messages);
  }

  // ---------------------------------------------------------------------
  // Order: a page must not bring what the thread already has.

  predicate Fresh(s: State, a: Action)
    requires Enabled(s, a)
  {
    a.Arrive? ==> forall m :: m in s.request.value.answer.value ==> m !in s.messages
  }

  predicate FreshPages(s: State, run: seq<Action>)
    requires EnabledRun(s, run)
    decreases |run|
  {
    run == [] || (Fresh(s, run[0]) && FreshPages(Next(s, run[0]), run[1..]))
  }

  // A message below the start of the thread, and of the page on its way: it was
  // delivered while another page was on its way.
  ghost predicate Buried(s: State) {
    && s.hasMore && s.messages != []
    && exists m :: m in s.messages && m.sentAt < s.messages[0].sentAt && (s.request.Some? ==> m.sentAt < s.request.value.before)
  }

  ghost predicate InShape(s: State) {
    DistinctKeys(SentAt, s.messages) && (StrictlySorted(SentAt, s.messages) || Buried(s))
  }

  lemma ReceiveKeepsShape(s: State, m: Message)
    requires AnyInv(s) && InShape(s) && Enabled(s, Receive(m))
    ensures InShape(Next(s, Receive(m)))
  {
    if !HasId(s.messages, m.id) {
      StoreConsistent(s.store);
      forall i | 0 <= i < |s.messages| ensures SentAt(s.messages[i]) != SentAt(m) {
        assert s.messages[i] in s.messages;
        assert s.messages[i].id != m.id;
      }
      SortSortsStrictly(SentAt, s.messages + [m]);
    }
  }

  lemma EndInNewest(h: seq<Message>, i: nat)
    requires i < |h|
    ensures |h| <= i + PAGE ==> h[i] in Newest(h, PAGE)
  {
    if |h| > PAGE && |h| <= i + PAGE {
      assert h[|h| - PAGE..][i - (|h| - PAGE)] == h[i];
    }
  }

  // Whatever lies below the page that arrives lies below all of it.
  lemma BelowPage(store: seq<Message>, before: int, m: Message)
    requires StoreOk(store) && m in store && m.sentAt < before
    requires m !in Newest(History(store, Some(before)), PAGE)
    ensures var page := Newest(History(store, Some(before)), PAGE); |page| >= PAGE && m.sentAt < page[0].sentAt
  {
    var h := History(store, Some(before));
    HistoryMember(store, Some(before), m);
    HistorySorted(store, Some(before));
    var i :| 0 <= i < |h| && h[i] == m;
    EndInNewest(h, i);
    assert SentAt(h[i]) < SentAt(h[|h| - PAGE]);
  }

  lemma PageSorted(store: seq<Message>, before: int)
    requires StoreOk(store)
    ensures StrictlySorted(SentAt, Newest(History(store, Some(before)), PAGE))
  {
    HistorySorted(store, Some(before));
  }

  lemma PrependDistinct(page: seq<Message>, rest: seq<Message>, store: seq<Message>)
    requires StoreOk(store) && StrictlySorted(SentAt, page) && DistinctKeys(SentAt, rest)
    requires forall m :: m in page ==> m in store && m !in rest
    requires forall m :: m in rest ==> m in store
    ensures DistinctKeys(SentAt, page + rest)
  {
    StoreConsistent(store);
    forall i, j | 0 <= i < j < |page + rest| ensures SentAt((page + rest)[i]) != SentAt((page + rest)[j]) {
      if i < |page| <= j {
        assert page[i] in page && rest[j - |page|] in rest;
      }
    }
  }

  lemma ArriveKeepsShape(s: State)
    requires AnyInv(s) && InShape(s) && Enabled(s, Arrive) && Fresh(s, Arrive)
    ensures InShape(Next(s, Arrive))
  {
    var before, page := s.request.value.before, s.request.value.answer.value;
    PageSorted(s.store, before);
    forall m | m in page ensures m in s.store && m.sentAt < before {
      PageMember(s.store, before, m);
    }
    PrependDistinct(page, s.messages, s.store);
    if m :| m in s.messages && m.sentAt < before {
      BelowPage(s.store, before, m);
      assert m in Next(s, Arrive).messages;
    } else {
      forall i | 0 <= i < |s.messages| ensures before <= s.messages[i].sentAt {
        assert s.messages[i] in s.messages;
      }
      forall i | 0 <= i < |page| ensures page[i].sentAt < before {
        assert page[i] in page;
      }
    }
  }

  lemma StepKeepsShape(s: State, a: Action)
    requires AnyInv(s) && InShape(s) && Enabled(s, a) && Fresh(s, a)
    ensures InShape(Next(s, a))
  {
    match a
    case Store(m) =>
    case LoadMore =>
    case Serve =>
    case Arrive => ArriveKeepsShape(s);
    case Fail =>
    case Receive(m) => ReceiveKeepsShape(s, m);
  }

  lemma {:induction false} RunKeepsShape(s: State, run: seq<Action>)
    requires AnyInv(s) && InShape(s) && EnabledRun(s, run) && FreshPages(s, run)
    ensures InShape(After(s, run))
    decreases |run|
  {
    if run != [] {
      StepKeepsShape(s, run[0]);
      StepKeepsAny(s, run[0]);
      RunKeepsShape(Next(s, run[0]), run[1..]);
    }
  }

  lemma {:induction false} SortedCount(s: seq<Message>, m: Message)
    requires StrictlySorted(SentAt, s)
    ensures multiset(s)[m] <= 1
  {
    if s != [] {
      var front, last := s[..|s| - 1], s[|s| - 1];
      SortedCount(front, m);
      assert s == front + [last];
      if m == last {
        assert forall i :: 0 <= i < |front| ==> front[i] == s[i] && SentAt(s[i]) < SentAt(last);
        assert m !in multiset(front);
      }
    }
  }

  // A copy that came with a page is there to stay.
  lemma {:induction false} StaleStays(s: State, run: seq<Action>)
    requires EnabledRun(s, run) && StrictlySorted(SentAt, After(s, run).messages)
    ensures FreshPages(s, run)
    decreases |run|
  {
    if run != [] {
      var t := Next(s, run[0]);
      StaleStays(t, run[1..]);
      RunGrowsThread(t, run[1..]);
      if run[0].Arrive? {
        forall m | m in s.request.value.answer.value ensures m !in s.messages {
          SortedCount(After(s, run).messages, m);
          assert multiset(t.messages) == multiset(s.request.value.answer.value) + multiset(s.messages);
          assert m in multiset(s.request.value.answer.value);
        }
      }
    }
  }

  // Once no page is missing, the thread is in order and free of duplicates exactly
  // if no page brought a message that was there already.
  lemma InOrderIff(s: State, run: seq<Action>)
    requires AnyInv(s) && InShape(s) && EnabledRun(s, run) && !After(s, run).hasMore
    ensures StrictlySorted(SentAt, After(s, run).messages) <==> FreshPages(s, run)
  {
    if FreshPages(s, run) {
      RunKeepsShape(s, run);
    }
    if StrictlySorted(SentAt, After(s, run).messages) {
      StaleStays(s, run);
    }
  }

  // ---------------------------------------------------------------------
  // Completeness: what lies above the cursor of a request is not asked for again.

  predicate Starts(s: State, a: Action) {
    a.LoadMore? && s.hasMore && !s.loading && s.messages != []
  }

  predicate Promised(s: State, run: seq<Action>, m: Message) {
    m in s.messages || m in Received(run)
  }

  // Whenever a request is sent, each message of base newer than its cursor is in
  // the thread or is delivered some time.
  predicate NothingSkipped(base: seq<Message>, s: State, run: seq<Action>)
    requires EnabledRun(s, run)
    decreases |run|
  {
    run == [] ||
    ((Starts(s, run[0]) ==> forall m :: m in base && s.messages[0].sentAt < m.sentAt ==> Promised(s, run, m))
     && NothingSkipped(base, Next(s, run[0]), run[1..]))
  }

  lemma PromiseKept(s: State, run: seq<Action>, m: Message)
    requires AnyInv(s) && EnabledRun(s, run) && run != [] && Promised(s, run, m)
    ensures Promised(Next(s, run[0]), run[1..], m)
  {
    if m in s.messages {
      StepGrowsThread(s, run[0]);
      assert m in multiset(s.messages);
    } else if run[0].Receive? {
      UpsertMembers(s, run[0].m);
    }
  }

  // What is promised of base: everything the pages to come will not bring.
  ghost predicate Owed(base: seq<Message>, s: State, run: seq<Action>) {
    && (s.request.Some? ==> forall m :: m in base && s.request.value.before <= m.sentAt ==> Promised(s, run, m))
    && (!s.hasMore ==> forall m :: m in base ==> Promised(s, run, m))
  }

  lemma StepKeepsOwed(base: seq<Message>, s: State, run: seq<Action>)
    requires AnyInv(s) && EnabledRun(s, run) && run != [] && NothingSkipped(base, s, run) && Owed(base, s, run)
    requires forall m :: m in base ==> m in s.store
    ensures Owed(base, Next(s, run[0]), run[1..])
  {
    var t := Next(s, run[0]);
    forall m | m in base && Promised(s, run, m) ensures Promised(t, run[1..], m) {
      PromiseKept(s, run, m);
    }
    if Starts(s, run[0]) {
      StoreConsistent(s.store);
      assert s.messages[0] in s.messages;
    }
    if run[0].Arrive? && !t.hasMore {
      forall m | m in base && m.sentAt < s.request.value.before ensures m in t.messages {
        HistoryMember(s.store, Some(s.request.value.before), m);
      }
    }
  }

  lemma {:induction false} OwedIsPaid(base: seq<Message>, s: State, run: seq<Action>)
    requires AnyInv(s) && EnabledRun(s, run) && NothingSkipped(base, s, run) && Owed(base, s, run)
    requires (forall m :: m in base ==> m in s.store) && !After(s, run).hasMore
    ensures forall m :: m in base ==> m in After(s, run).messages
    decreases |run|
  {
    if run != [] {
      StepKeepsOwed(base, s, run);
      StepKeepsAny(s, run[0]);
      assert s.store <= Next(s, run[0]).store;
      PrefixWithin(s.store, Next(s, run[0]).store);
      OwedIsPaid(base, Next(s, run[0]), run[1..]);
    }
  }

  // No page to come reaches above this time.
  predicate AsksBelow(s: State, bound: int) {
    s.hasMore ==>
      && s.messages != [] && s.messages[0].sentAt <= bound
      && (s.request.Some? ==> s.request.value.before <= bound)
  }

  lemma StepAsksBelow(s: State, a: Action, bound: int)
    requires AnyInv(s) && Enabled(s, a) && AsksBelow(s, bound)
    ensures AsksBelow(Next(s, a), bound)
    ensures forall m :: m in Next(s, a).messages ==> m in s.messages || m.sentAt < bound || a == Receive(m)
  {
    if a.Receive? {
      UpsertMembers(s, a.m);
      if s.messages != [] {
        UpsertStartsNoHigher(s, a.m);
      }
    } else if a.Arrive? {
      var page := s.request.value.answer.value;
      forall m | m in page ensures m.sentAt < s.request.value.before {
        PageMember(s.store, s.request.value.before, m);
      }
      assert page != [] ==> page[0] in page;
    }
  }

  // So what is above it enters the thread by a delivery only.
  lemma {:induction false} OnlyDelivered(s: State, run: seq<Action>, bound: int, m: Message)
    requires AnyInv(s) && EnabledRun(s, run) && AsksBelow(s, bound)
    requires m in After(s, run).messages && bound <= m.sentAt
    ensures Promised(s, run, m)
    decreases |run|
  {
    if run != [] {
      StepAsksBelow(s, run[0], bound);
      StepKeepsAny(s, run[0]);
      OnlyDelivered(Next(s, run[0]), run[1..], bound, m);
    }
  }

  lemma {:induction false} CompleteSkipsNothing(base: seq<Message>, s: State, run: seq<Action>)
    requires AnyInv(s) && EnabledRun(s, run) && forall m :: m in base ==> m in After(s, run).messages
    ensures NothingSkipped(base, s, run)
    decreases |run|
  {
    if run != [] {
      if Starts(s, run[0]) {
        forall m | m in base && s.messages[0].sentAt < m.sentAt ensures Promised(s, run, m) {
          OnlyDelivered(s, run, s.messages[0].sentAt, m);
        }
      }
      StepKeepsAny(s, run[0]);
      CompleteSkipsNothing(base, Next(s, run[0]), run[1..]);
    }
  }

  // ---------------------------------------------------------------------
  // From the arrival of the first page.

  lemma OpenedAny(base: seq<Message>, store: seq<Message>)
    requires ReadBefore(base, store)
    ensures var s := Opened(base, store); AnyInv(s) && InShape(s) && forall m :: m in s.messages ==> m in base
  {
    BaseOk(base, store);
    OpenedRebuilds(base, store);
    OpenedSplits(base, store);
    forall m | m in Opened(base, store).messages ensures m in base {
      HistoryMember(base, None, m);
    }
  }

  lemma OpenedOwes(base: seq<Message>, store: seq<Message>, run: seq<Action>)
    requires ReadBefore(base, store)
    ensures Owed(base, Opened(base, store), run)
  {
    BaseOk(base, store);
    OpenedSplits(base, store);
    if !Opened(base, store).hasMore {
      forall m | m in base ensures m in Opened(base, store).messages {
        HistoryMember(base, None, m);
      }
    }
  }

  lemma {:induction false} ReceivedArrive(s: State, run: seq<Action>)
    requires AnyInv(s) && EnabledRun(s, run)
    ensures forall m :: m in Received(run) ==> m in After(s, run).messages
    decreases |run|
  {
    if run != [] {
      StepKeepsAny(s, run[0]);
      ReceivedArrive(Next(s, run[0]), run[1..]);
      if run[0].Receive? {
        UpsertMembers(s, run[0].m);
        StaysInThread(Next(s, run[0]), run[1..], run[0].m);
      }
    }
  }

  // Pages bring nothing but what the first read saw.
  lemma LaterOnlyDelivered(base: seq<Message>, store: seq<Message>, run: seq<Action>, m: Message)
    requires ReadBefore(base, store) && EnabledRun(Opened(base, store), run)
    requires m in After(Opened(base, store), run).messages && m !in base
    ensures m in Received(run)
  {
    var s := Opened(base, store);
    OpenedAny(base, store);
    if s.hasMore {
      assert s.messages[0] in s.messages;
      RunKeepsAny(s, run);
      LaterIsNewer(base, s, run, m);
      OnlyDelivered(s, run, s.messages[0].sentAt, m);
    } else {
      OnlyDelivered(s, run, m.sentAt, m);
    }
  }

  lemma {:induction false} LaterIsNewer(base: seq<Message>, s: State, run: seq<Action>, m: Message)
    requires EnabledRun(s, run) && ReadBefore(base, s.store) && m in After(s, run).store && m !in base
    ensures forall x :: x in base ==> x.sentAt < m.sentAt
    decreases |run|
  {
    if run == [] {
      var j :| 0 <= j < |s.store| && s.store[j] == m;
      assert j < |base| ==> s.store[j] == base[j];
    } else {
      ReadBeforeKept(base, s, run[0]);
      LaterIsNewer(base, Next(s, run[0]), run[1..], m);
    }
  }

  lemma ReadBeforeKept(base: seq<Message>, s: State, a: Action)
    requires ReadBefore(base, s.store) && Enabled(s, a)
    ensures ReadBefore(base, Next(s, a).store)
  {
    assert forall i :: 0 <= i < |base| ==> base[i] == s.store[i];
  }

  lemma WithinStore(base: seq<Message>, store: seq<Message>, run: seq<Action>)
    requires ReadBefore(base, store) && EnabledRun(Opened(base, store), run)
    ensures var t := After(Opened(base, store), run);
        AnyInv(t) && (forall m :: m in base ==> m in t.store) && forall m :: m in Received(run) ==> m in t.store
  {
    var s := Opened(base, store);
    OpenedAny(base, store);
    RunKeepsAny(s, run);
    StoreGrows(s, run);
    BaseOk(base, store);
    PrefixWithin(store, After(s, run).store);
  }

  // Every member of the thread is of the first read or was delivered, and the
  // other way round if nothing was skipped.
  lemma EndMembers(base: seq<Message>, store: seq<Message>, run: seq<Action>)
    requires ReadBefore(base, store) && EnabledRun(Opened(base, store), run) && !After(Opened(base, store), run).hasMore
    ensures var t := After(Opened(base, store), run); forall m :: m in t.messages ==> m in base || m in Received(run)
    ensures NothingSkipped(base, Opened(base, store), run) <==>
        forall m :: m in base || m in Received(run) ==> m in After(Opened(base, store), run).messages
  {
    var s := Opened(base, store);
    OpenedAny(base, store);
    ReceivedArrive(s, run);
    forall m | m in After(s, run).messages && m !in base ensures m in Received(run) {
      LaterOnlyDelivered(base, store, run, m);
    }
    if NothingSkipped(base, s, run) {
      BaseOk(base, store);
      OpenedOwes(base, store, run);
      OwedIsPaid(base, s, run);
    }
    if forall m :: m in base || m in Received(run) ==> m in After(s, run).messages {
      CompleteSkipsNothing(base, s, run);
    }
  }

  lemma HistoryOfBase(base: seq<Message>, all: set<Message>)
    requires StoreOk(base) && forall m :: m in base ==> m in all
    ensures StrictlySorted(SentAt, History(base, None)) && Within(History(base, None), all)
    ensures forall m :: m in History(base, None) <==> m in base
  {
    HistorySorted(base, None);
    forall m ensures m in History(base, None) <==> m in base {
      HistoryMember(base, None, m);
    }
  }

  lemma DeliveredIsUnion(base: seq<Message>, t: State, received: seq<Message>)
    requires StoreOk(t.store) && StoreOk(base)
    requires (forall m :: m in base ==> m in t.store) && forall m :: m in received ==> m in t.store
    ensures var d := Deliver(History(base, None), received);
        StrictlySorted(SentAt, d) && forall m :: m in d <==> m in base || m in received
  {
    var all := set m | m in t.store;
    StoreConsistent(t.store);
    HistoryOfBase(base, all);
    DeliverIsUnion(all, History(base, None), received);
  }

  // Once no page is missing, after any run, the thread is the history read at
  // first together with what was delivered since, ascending and free of
  // duplicates, exactly if no page brought a message that was there already and no
  // request skipped a message that is not delivered.
  lemma PagingRebuildsIff(base: seq<Message>, store: seq<Message>, run: seq<Action>)
    requires ReadBefore(base, store) && EnabledRun(Opened(base, store), run) && !After(Opened(base, store), run).hasMore
    ensures After(Opened(base, store), run).messages == Deliver(History(base, None), Received(run)) <==>
        FreshPages(Opened(base, store), run) && NothingSkipped(base, Opened(base, store), run)
  {
    var s := Opened(base, store);
    var t := After(s, run);
    var d := Deliver(History(base, None), Received(run));
    OpenedAny(base, store);
    WithinStore(base, store, run);
    BaseOk(base, store);
    DeliveredIsUnion(base, t, Received(run));
    EndMembers(base, store, run);
    InOrderIff(s, run);
    if FreshPages(s, run) && NothingSkipped(base, s, run) {
      SameElementsSameSequence(SentAt, t.messages, d);
    }
  }

  ghost predicate AllDelivered(base: seq<Message>, t: State, run: seq<Action>) {
    forall m :: m in t.store && m !in base ==> m in Received(run)
  }

  lemma UnionIsHistory(base: seq<Message>, t: State, received: seq<Message>)
    requires StoreOk(t.store) && StoreOk(base)
    requires forall m :: m in t.store <==> m in base || m in received
    ensures Deliver(History(base, None), received) == History(t.store, None)
  {
    DeliveredIsUnion(base, t, received);
    HistorySorted(t.store, None);
    forall m ensures m in History(t.store, None) <==> m in t.store {
      HistoryMember(t.store, None, m);
    }
    SameElementsSameSequence(SentAt, Deliver(History(base, None), received), History(t.store, None));
  }

  // And it is the whole history of the store, without gap or duplicate, exactly if
  // moreover every later message was delivered at least once.
  lemma WholeHistoryIff(base: seq<Message>, store: seq<Message>, run: seq<Action>)
    requires ReadBefore(base, store) && EnabledRun(Opened(base, store), run) && !After(Opened(base, store), run).hasMore
    ensures After(Opened(base, store), run).messages == History(After(Opened(base, store), run).store, None) <==>
        && FreshPages(Opened(base, store), run) && NothingSkipped(base, Opened(base, store), run)
        && AllDelivered(base, After(Opened(base, store), run), run)
  {
    var t := After(Opened(base, store), run);
    WithinStore(base, store, run);
    BaseOk(base, store);
    PagingRebuildsIff(base, store, run);
    if AllDelivered(base, t, run) {
      UnionIsHistory(base, t, Received(run));
    }
    if t.messages == History(t.store, None) {
      forall m | m in t.store && m !in base ensures m in Received(run) {
        HistoryMember(t.store, None, m);
        LaterOnlyDelivered(base, store, run, m);
      }
    }
  }

  // The guard of each single delivery: a run whose late deliveries are all
  // harmless brings no message twice and skips none.
  lemma HarmlessRunsAreWhole(base: seq<Message>, store: seq<Message>, run: seq<Action>)
    requires ReadBefore(base, store) && EnabledRun(Opened(base, store), run) && !After(Opened(base, store), run).hasMore
    requires HarmlessRun(Opened(base, store), run)
    ensures FreshPages(Opened(base, store), run) && NothingSkipped(base, Opened(base, store), run)
    ensures After(Opened(base, store), run).messages == Deliver(History(base, None), Received(run))
  {
    OpenedRebuilds(base, store);
    RunConserves(Opened(base, store), run);
    PagingRebuildsIff(base, store, run);
  }

  // ---------------------------------------------------------------------
  // How many pages it takes.

  // Where the next page to arrive starts from.
  function Cursor(s: State): int {
    if s.request.Some? then s.request.value.before
    else if s.messages != [] then s.messages[0].sentAt else 0
  }

  function PagesLeft(s: State): nat {
    if s.hasMore then |History(s.store, Some(Cursor(s)))| / PAGE + 1 else 0
  }

  lemma {:induction false} LowerCursorLess(store: seq<Message>, low: int, high: int)
    requires low <= high
    ensures |Filter(Before(Some(low)), store)| <= |Filter(Before(Some(high)), store)|
  {
    if store != [] {
      LowerCursorLess(store[..|store| - 1], low, high);
    }
  }

  lemma LowerCursorFewerPages(s: State, t: State)
    requires t.store == s.store && t.hasMore == s.hasMore && Cursor(t) <= Cursor(s)
    ensures PagesLeft(t) <= PagesLeft(s)
  {
    LowerCursorLess(s.store, Cursor(t), Cursor(s));
    SortPermutes(SentAt, Filter(Before(Some(Cursor(t))), s.store));
    SortPermutes(SentAt, Filter(Before(Some(Cursor(s))), s.store));
    DivideKeepsOrder(|History(s.store, Some(Cursor(t)))|, |History(s.store, Some(Cursor(s)))|);
  }

  lemma DivideKeepsOrder(a: nat, b: nat)
    requires a <= b
    ensures a / PAGE <= b / PAGE
  {
  }

  lemma TenAreAPage(n: nat)
    ensures (n + PAGE) / PAGE == n / PAGE + 1
  {
  }

  lemma ArriveTakesOne(s: State)
    requires AnyInv(s) && Enabled(s, Arrive)
    ensures PagesLeft(Next(s, Arrive)) == PagesLeft(s) - 1
  {
    var h := History(s.store, Some(s.request.value.before));
    if |h| >= PAGE {
      HistoryBelow(s.store, Some(s.request.value.before), |h| - PAGE);
      assert Next(s, Arrive).messages[0] == h[|h| - PAGE];
      TenAreAPage(|h| - PAGE);
    }
  }

  lemma StoreTakesNone(s: State, m: Message)
    requires AnyInv(s) && Enabled(s, Store(m))
    ensures PagesLeft(Next(s, Store(m))) == PagesLeft(s)
  {
    if s.hasMore {
      assert s.messages[0] in s.messages;
      var x :| x in s.messages && x.sentAt == Cursor(s);
      var i :| 0 <= i < |s.store| && s.store[i] == x;
      HistoryUnderInsert(s.store, m, Cursor(s));
    }
  }

  lemma StepPages(s: State, a: Action)
    requires AnyInv(s) && Enabled(s, a)
    ensures PagesLeft(Next(s, a)) + (if a.Arrive? then 1 else 0) <= PagesLeft(s)
  {
    match a
    case Store(m) => StoreTakesNone(s, m);
    case LoadMore =>
    case Serve =>
    case Arrive => ArriveTakesOne(s);
    case Fail => LowerCursorFewerPages(s, Next(s, a));
    case Receive(m) =>
      if s.hasMore {
        UpsertStartsNoHigher(s, m);
        LowerCursorFewerPages(s, Next(s, a));
      }
  }

  lemma StepPagesExactly(s: State, a: Action)
    requires AnyInv(s) && Inv(s) && Enabled(s, a) && !Late(s, a)
    ensures PagesLeft(Next(s, a)) + (if a.Arrive? then 1 else 0) == PagesLeft(s)
  {
    match a
    case Store(m) => StoreTakesNone(s, m);
    case LoadMore =>
    case Serve =>
    case Arrive => ArriveTakesOne(s);
    case Fail =>
    case Receive(m) =>
      if s.hasMore {
        UpsertKeepsFirst(s, m);
      }
  }

  lemma {:induction false} RunPages(s: State, run: seq<Action>)
    requires AnyInv(s) && EnabledRun(s, run)
    ensures Pages(run) + PagesLeft(After(s, run)) <= PagesLeft(s)
    decreases |run|
  {
    if run != [] {
      StepPages(s, run[0]);
      StepKeepsAny(s, run[0]);
      RunPages(Next(s, run[0]), run[1..]);
    }
  }

  lemma {:induction false} RunPagesExactly(s: State, run: seq<Action>)
    requires AnyInv(s) && Inv(s) && EnabledRun(s, run) && NothingLate(s, run)
    ensures Pages(run) + PagesLeft(After(s, run)) == PagesLeft(s)
    decreases |run|
  {
    if run != [] {
      StepPagesExactly(s, run[0]);
      StepConserves(s, run[0]);
      StepKeepsAny(s, run[0]);
      RunPagesExactly(Next(s, run[0]), run[1..]);
    }
  }

  lemma OpenedPages(base: seq<Message>, store: seq<Message>)
    requires ReadBefore(base, store)
    ensures PagesLeft(Opened(base, store)) == |base| / PAGE
  {
    var s := Opened(base, store);
    BaseOk(base, store);
    OpenedSplits(base, store);
    HistoryOfAll(base);
    assert |Rebuilt(s)| == |Older(s)| + |s.messages|;
    TenAreAPage(|Older(s)|);
  }

  lemma HasMoreIff(s: State)
    ensures s.hasMore <==> PagesLeft(s) > 0
  {
  }

  // Paging ends in every run: at most one page arrives for every ten messages read
  // at first, and one fewer while pages are missing. It takes exactly that many if
  // nothing is delivered late.
  lemma PagingEnds(base: seq<Message>, store: seq<Message>, run: seq<Action>)
    requires ReadBefore(base, store) && EnabledRun(Opened(base, store), run)
    ensures Pages(run) <= |base| / PAGE
    ensures After(Opened(base, store), run).hasMore ==> Pages(run) < |base| / PAGE
    ensures NothingLate(Opened(base, store), run) && Pages(run) < |base| / PAGE ==> After(Opened(base, store), run).hasMore
  {
    var s := Opened(base, store);
    OpenedAny(base, store);
    OpenedRebuilds(base, store);
    OpenedPages(base, store);
    RunPages(s, run);
    HasMoreIff(After(s, run));
    if NothingLate(s, run) {
      RunPagesExactly(s, run);
    }
  }

  // ---------------------------------------------------------------------
  // Both failures are real, for every history of twelve messages. The first page
  // holds ten.

  // Strictly ascending, as messages are stored.
  ghost predicate Twelve(base: seq<Message>) {
    |base| == PAGE + 2 && StoreOk(base) && StrictlySorted(SentAt, base)
  }

  lemma OpenedSorted(base: seq<Message>)
    requires StoreOk(base) && StrictlySorted(SentAt, base) && |base| >= PAGE
    ensures ReadBefore(base, base) && Inv(Opened(base, base)) && Opened(base, base).hasMore
    ensures Opened(base, base).messages == base[|base| - PAGE..] && Older(Opened(base, base)) == base[..|base| - PAGE]
  {
    var s := Opened(base, base);
    FilterAll(base);
    SortedIsFixed(SentAt, base);
    OpenedSplits(base, base);
    OpenedRebuilds(base, base);
    assert Older(s) == (Older(s) + s.messages)[..|base| - PAGE];
  }

  lemma Cons(s: State, a: Action, rest: seq<Action>)
    requires Enabled(s, a) && EnabledRun(Next(s, a), rest)
    ensures EnabledRun(s, [a] + rest) && After(s, [a] + rest) == After(Next(s, a), rest)
  {
    assert ([a] + rest)[1..] == rest;
  }

  // A page asked for, answered and arrived.
  lemma LoadsOlder(s: State) returns (run: seq<Action>)
    requires Inv(s) && s.hasMore && !s.loading
    ensures run == [LoadMore, Serve, Arrive] && EnabledRun(s, run)
    ensures After(s, run) == Landed(s, Newest(Older(s), PAGE))
  {
    PageIsNewest(s.store, Some(s.messages[0].sentAt), PAGE);
    var s1 := Next(s, LoadMore);
    var s2 := Next(s1, Serve);
    Cons(s2, Arrive, []);
    Cons(s1, Serve, [Arrive]);
    Cons(s, LoadMore, [Serve, Arrive]);
    assert [LoadMore] + ([Serve] + ([Arrive] + [])) == [LoadMore, Serve, Arrive];
    assert [Serve] + ([Arrive] + []) == [Serve, Arrive] && [Arrive] + [] == [Arrive];
    run := [LoadMore, Serve, Arrive];
  }

  function Numbered(n: nat): seq<Message> {
    seq(n, i requires 0 <= i < n => Message(i, i, ""))
  }

  lemma NumberedAscends(n: nat)
    ensures n == PAGE + 2 ==> Twelve(Numbered(n))
  {
  }

  // The first of them is delivered before the second was paged in: the second is
  // never asked for.
  lemma LateDeliverySkips(base: seq<Message>) returns (run: seq<Action>)
    requires Twelve(base)
    ensures var s := Opened(base, base);
        EnabledRun(s, run) && !After(s, run).hasMore && base[1] !in After(s, run).messages
  {
    OpenedSorted(base);
    var s, first := Opened(base, base), base[0];
    assert first == Older(s)[0];
    LateReceive(s, 0);
    LateKeepsInv(s, 0);
    var t := Next(s, Receive(first));
    var rest := LoadsOlder(t);
    Cons(s, Receive(first), rest);
    run := [Receive(first)] + rest;
    assert Older(t) == [] && After(s, run).messages == [first] + base[2..];
    NotAgain(base);
  }

  lemma NotAgain(base: seq<Message>)
    requires StrictlySorted(SentAt, base) && |base| > 1
    ensures base[1] !in [base[0]] + base[2..]
  {
    assert forall i :: 2 <= i < |base| ==> SentAt(base[1]) < SentAt(base[i]);
    assert SentAt(base[0]) < SentAt(base[1]);
  }

  lemma LoadsOlderLate(s: State, m: Message) returns (run: seq<Action>)
    requires Inv(s) && s.hasMore && !s.loading && m in s.store
    ensures EnabledRun(s, run) && After(s, run) == Landed(Next(s, Receive(m)), Newest(Older(s), PAGE))
  {
    var s1 := Next(s, LoadMore);
    SettleLands(s1, m);
    var s2 := Next(s1, Receive(m));
    var s3 := Next(s2, Serve);
    Cons(s3, Arrive, []);
    Cons(s2, Serve, [Arrive] + []);
    Cons(s1, Receive(m), [Serve] + ([Arrive] + []));
    Cons(s, LoadMore, [Receive(m)] + ([Serve] + ([Arrive] + [])));
    run := [LoadMore] + ([Receive(m)] + ([Serve] + ([Arrive] + [])));
  }

  lemma CountedTwice<T>(page: seq<T>, m: T, rest: seq<T>)
    requires m in page
    ensures multiset(page + ([m] + rest))[m] >= 2
  {
    assert m in multiset(page);
    assert multiset(page + ([m] + rest)) == multiset(page) + multiset{m} + multiset(rest);
  }

  // The same message, delivered while the page with it is on its way, is there
  // twice.
  lemma LateDeliveryDoubles(base: seq<Message>) returns (run: seq<Action>)
    requires Twelve(base)
    ensures var s := Opened(base, base);
        EnabledRun(s, run) && !After(s, run).hasMore && multiset(After(s, run).messages)[base[0]] >= 2
  {
    OpenedSorted(base);
    var s, first := Opened(base, base), base[0];
    assert first == Older(s)[0];
    LateReceive(s, 0);
    run := LoadsOlderLate(s, first);
    CountedTwice(Older(s), first, s.messages);
  }
}
