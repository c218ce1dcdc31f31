// The open conversation of the chat page: frontend/src/features/chat/chat.page.tsx
// against getMessages of backend/src/modules/chat/chat.service.ts. Pages are
// fetched by cursor while new messages are stored and delivered live.
module ThreadView {
  import opened Options
  import opened StableSort

  datatype Message = Message(id: nat, sentAt: int, body: string)

  function SentAt(m: Message): int { m.sentAt }

  function NewestFirst(m: Message): int { -m.sentAt }

  predicate HasId(messages: seq<Message>, id: nat) {
    exists i :: 0 <= i < |messages| && messages[i].id == id
  }

  // upsertMessage.
  function Upsert(messages: seq<Message>, message: Message): seq<Message> {
    if HasId(messages, message.id) then messages else Sort(SentAt, messages + [message])
  }

  function Deliver(thread: seq<Message>, arrivals: seq<Message>): seq<Message>
    decreases |arrivals|
  {
    if arrivals == [] then thread else Deliver(Upsert(thread, arrivals[0]), arrivals[1..])
  }

  // ---------------------------------------------------------------------
  // Live delivery converges.

  // One payload per id, and no two messages of the conversation at one time.
  ghost predicate Consistent(all: set<Message>) {
    && (forall m, n :: m in all && n in all && m.id == n.id ==> m == n)
    && (forall m, n :: m in all && n in all && m.sentAt == n.sentAt ==> m == n)
  }

  ghost predicate Within(s: seq<Message>, all: set<Message>) {
    forall m :: m in s ==> m in all
  }

  lemma UpsertMember(all: set<Message>, thread: seq<Message>, m: Message, x: Message)
    requires Consistent(all) && Within(thread, all) && m in all
    ensures x in Upsert(thread, m) <==> x in thread || x == m
  {
    if HasId(thread, m.id) {
      var i :| 0 <= i < |thread| && thread[i].id == m.id;
      assert thread[i] in thread;
    } else {
      SortMember(SentAt, thread + [m], x);
    }
  }

  lemma UpsertSorts(all: set<Message>, thread: seq<Message>, m: Message)
    requires Consistent(all) && Within(thread, all) && m in all && StrictlySorted(SentAt, thread)
    ensures StrictlySorted(SentAt, Upsert(thread, m))
  {
    if !HasId(thread, m.id) {
      forall i | 0 <= i < |thread| ensures thread[i].sentAt != m.sentAt {
        assert thread[i] in thread;
        assert thread[i].id != m.id;
      }
      SortSortsStrictly(SentAt, thread + [m]);
    }
  }

  lemma {:induction false} DeliverIsUnion(all: set<Message>, thread: seq<Message>, arrivals: seq<Message>)
    requires Consistent(all) && Within(thread, all) && Within(arrivals, all) && StrictlySorted(SentAt, thread)
    ensures StrictlySorted(SentAt, Deliver(thread, arrivals))
    ensures forall x :: x in Deliver(thread, arrivals) <==> x in thread || x in arrivals
    decreases |arrivals|
  {
    if arrivals != [] {
      var m, rest := arrivals[0], arrivals[1..];
      assert m in arrivals && forall x :: x in arrivals <==> x == m || x in rest;
      forall x ensures x in Upsert(thread, m) <==> x in thread || x == m {
        UpsertMember(all, thread, m, x);
      }
      UpsertSorts(all, thread, m);
      DeliverIsUnion(all, Upsert(thread, m), rest);
    }
  }

  // Whatever the order and the repetitions of the deliveries.
  lemma DeliveryConverges(all: set<Message>, thread: seq<Message>, one: seq<Message>, other: seq<Message>)
    requires Consistent(all) && Within(thread, all) && Within(one, all) && StrictlySorted(SentAt, thread)
    requires forall x :: x in one <==> x in other
    ensures Deliver(thread, one) == Deliver(thread, other) && StrictlySorted(SentAt, Deliver(thread, one))
  {
    DeliverIsUnion(all, thread, one);
    DeliverIsUnion(all, thread, other);
    SameElementsSameSequence(SentAt, Deliver(thread, one), Deliver(thread, other));
  }

  lemma UpsertNew(thread: seq<Message>, m: Message)
    requires Sorted(SentAt, thread) && !HasId(thread, m.id)
    ensures Upsert(thread, m) == Insert(SentAt, thread, m) && Sorted(SentAt, Upsert(thread, m))
  {
    SortedIsFixed(SentAt, thread);
    assert (thread + [m])[..|thread|] == thread;
    InsertSorts(SentAt, thread, m);
  }

  lemma UpsertNewAtKey(thread: seq<Message>, m: Message, k: int)
    requires Sorted(SentAt, thread) && !HasId(thread, m.id)
    ensures AtKey(SentAt, k, Upsert(thread, m)) == AtKey(SentAt, k, thread) + (if m.sentAt == k then [m] else [])
  {
    UpsertNew(thread, m);
    InsertAtKey(SentAt, k, thread, m);
  }

  lemma StillNew(thread: seq<Message>, a: Message, b: Message)
    requires Sorted(SentAt, thread) && a.id != b.id && !HasId(thread, a.id) && !HasId(thread, b.id)
    ensures !HasId(Upsert(thread, a), b.id)
  {
    UpsertNew(thread, a);
    forall i | 0 <= i < |Upsert(thread, a)| ensures Upsert(thread, a)[i].id != b.id {
      InsertMember(SentAt, thread, a, Upsert(thread, a)[i]);
    }
  }

  lemma DeliverTwo(thread: seq<Message>, a: Message, b: Message)
    ensures Deliver(thread, [a, b]) == Upsert(Upsert(thread, a), b)
  {
    assert [a, b][1..] == [b];
    assert Deliver(Upsert(thread, a), [b]) == Deliver(Upsert(Upsert(thread, a), b), []);
  }

  lemma TwoNewAtKey(thread: seq<Message>, a: Message, b: Message, k: int)
    requires Sorted(SentAt, thread) && a.id != b.id && !HasId(thread, a.id) && !HasId(thread, b.id)
    ensures Sorted(SentAt, Upsert(Upsert(thread, a), b))
    ensures AtKey(SentAt, k, Upsert(Upsert(thread, a), b)) ==
        AtKey(SentAt, k, thread) + (if a.sentAt == k then [a] else []) + (if b.sentAt == k then [b] else [])
  {
    UpsertNew(thread, a);
    StillNew(thread, a, b);
    UpsertNew(Upsert(thread, a), b);
    UpsertNewAtKey(thread, a, k);
    UpsertNewAtKey(Upsert(thread, a), b, k);
  }

  lemma TiesKeepArrivalOrder(thread: seq<Message>, a: Message, b: Message)
    requires Sorted(SentAt, thread) && a.id != b.id && !HasId(thread, a.id) && !HasId(thread, b.id)
    ensures a.sentAt == b.sentAt ==> Upsert(Upsert(thread, a), b) != Upsert(Upsert(thread, b), a)
  {
    TwoNewAtKey(thread, a, b, a.sentAt);
    TwoNewAtKey(thread, b, a, a.sentAt);
    var n := |AtKey(SentAt, a.sentAt, thread)|;
    if a.sentAt == b.sentAt {
      assert AtKey(SentAt, a.sentAt, Upsert(Upsert(thread, a), b))[n] == a;
      assert AtKey(SentAt, a.sentAt, Upsert(Upsert(thread, b), a))[n] == b;
    }
  }

  lemma OthersCommuteAtKey(thread: seq<Message>, a: Message, b: Message, k: int)
    requires Sorted(SentAt, thread) && a.id != b.id && !HasId(thread, a.id) && !HasId(thread, b.id)
    requires a.sentAt != b.sentAt
    ensures AtKey(SentAt, k, Upsert(Upsert(thread, a), b)) == AtKey(SentAt, k, Upsert(Upsert(thread, b), a))
  {
    TwoNewAtKey(thread, a, b, k);
    TwoNewAtKey(thread, b, a, k);
  }

  lemma TwoNewSorted(thread: seq<Message>, a: Message, b: Message)
    requires Sorted(SentAt, thread) && a.id != b.id && !HasId(thread, a.id) && !HasId(thread, b.id)
    ensures Sorted(SentAt, Upsert(Upsert(thread, a), b))
  {
    UpsertNew(thread, a);
    StillNew(thread, a, b);
    UpsertNew(Upsert(thread, a), b);
  }

  lemma OthersCommute(thread: seq<Message>, a: Message, b: Message)
    requires Sorted(SentAt, thread) && a.id != b.id && !HasId(thread, a.id) && !HasId(thread, b.id)
    requires a.sentAt != b.sentAt
    ensures Upsert(Upsert(thread, a), b) == Upsert(Upsert(thread, b), a)
  {
    TwoNewSorted(thread, a, b);
    TwoNewSorted(thread, b, a);
    forall k: int
      ensures AtKey(SentAt, k, Upsert(Upsert(thread, a), b)) == AtKey(SentAt, k, Upsert(Upsert(thread, b), a))
    {
      OthersCommuteAtKey(thread, a, b, k);
    }
    SameSortedSequence(SentAt, Upsert(Upsert(thread, a), b), Upsert(Upsert(thread, b), a));
  }

  // Distinct times are needed: two new messages end up in the same order in both
  // orders of arrival exactly if their times differ.
  lemma ArrivalOrderShowsIff(thread: seq<Message>, a: Message, b: Message)
    requires Sorted(SentAt, thread) && a.id != b.id && !HasId(thread, a.id) && !HasId(thread, b.id)
    ensures Deliver(thread, [a, b]) == Deliver(thread, [b, a]) <==> a.sentAt != b.sentAt
  {
    DeliverTwo(thread, a, b);
    DeliverTwo(thread, b, a);
    TiesKeepArrivalOrder(thread, a, b);
    if a.sentAt != b.sentAt {
      OthersCommute(thread, a, b);
    }
  }

  // ---------------------------------------------------------------------
  // getMessages.

  function Before(bound: Option<int>): Message -> bool {
    (m: Message) => bound.None? || m.sentAt < bound.value
  }

  function Reverse<T>(s: seq<T>): (r: seq<T>)
    ensures |r| == |s| && forall i :: 0 <= i < |s| ==> r[i] == s[|s| - 1 - i]
  {
    seq(|s|, i requires 0 <= i < |s| => s[|s| - 1 - i])
  }

  // limit(0) does not limit, and limit(-n) is limit(n).
  function Limited(s: seq<Message>, limit: int): seq<Message> {
    var n := if limit < 0 then -limit else limit;
    if n == 0 || |s| <= n then s else s[..n]
  }

  function GetMessages(store: seq<Message>, before: Option<int>, limit: int): seq<Message> {
    Reverse(Limited(Sort(NewestFirst, Filter(Before(before), store)), if limit < 50 then limit else 50))
  }

  ghost predicate StoreOk(store: seq<Message>) {
    && DistinctKeys(SentAt, store)
    && forall i, j :: 0 <= i < j < |store| ==> store[i].id != store[j].id
  }

  // The history below a cursor, in ascending order.
  function History(store: seq<Message>, before: Option<int>): seq<Message> {
    Sort(SentAt, Filter(Before(before), store))
  }

  lemma HistoryMember(store: seq<Message>, before: Option<int>, m: Message)
    ensures m in History(store, before) <==> m in store && (before.None? || m.sentAt < before.value)
  {
    SortMember(SentAt, Filter(Before(before), store), m);
    FilterKeepsExactly(Before(before), store, m);
  }

  lemma {:induction false} FilterKeepsDistinct(p: Message -> bool, key: Message -> int, store: seq<Message>)
    requires DistinctKeys(key, store)
    ensures DistinctKeys(key, Filter(p, store))
  {
    if store != [] {
      var front := store[..|store| - 1];
      FilterKeepsDistinct(p, key, front);
      forall i | 0 <= i < |Filter(p, front)| ensures key(Filter(p, front)[i]) != key(store[|store| - 1]) {
        FilterKeepsExactly(p, front, Filter(p, front)[i]);
      }
    }
  }

  lemma HistorySorted(store: seq<Message>, before: Option<int>)
    requires StoreOk(store)
    ensures StrictlySorted(SentAt, History(store, before))
  {
    FilterKeepsDistinct(Before(before), SentAt, store);
    SortSortsStrictly(SentAt, Filter(Before(before), store));
  }

  function Newest(s: seq<Message>, n: nat): seq<Message> {
    if |s| <= n then s else s[|s| - n..]
  }

  lemma NewestFirstReversed(store: seq<Message>, before: Option<int>)
    requires StoreOk(store)
    ensures Reverse(Sort(NewestFirst, Filter(Before(before), store))) == History(store, before)
  {
    var matching := Filter(Before(before), store);
    var down := Sort(NewestFirst, matching);
    FilterKeepsDistinct(Before(before), SentAt, store);
    assert DistinctKeys(NewestFirst, matching);
    SortSortsStrictly(NewestFirst, matching);
    HistorySorted(store, before);
    ReverseSorts(down);
    forall m ensures m in Reverse(down) <==> m in History(store, before) {
      SortMember(NewestFirst, matching, m);
      SortMember(SentAt, matching, m);
      ReverseMember(down, m);
    }
    SameElementsSameSequence(SentAt, Reverse(down), History(store, before));
  }

  lemma ReverseSorts(down: seq<Message>)
    requires StrictlySorted(NewestFirst, down)
    ensures StrictlySorted(SentAt, Reverse(down))
  {
    forall i, j | 0 <= i < j < |down| ensures SentAt(Reverse(down)[i]) < SentAt(Reverse(down)[j]) {
      assert NewestFirst(down[|down| - 1 - j]) < NewestFirst(down[|down| - 1 - i]);
    }
  }

  lemma ReverseLimited(s: seq<Message>, n: nat)
    requires 1 <= n
    ensures Reverse(Limited(s, n)) == Newest(Reverse(s), n)
  {
    if |s| > n {
      assert Reverse(s[..n]) == Reverse(s)[|s| - n..];
    }
  }

  // Sorting newest first, cutting and reversing gives the end of the history.
  lemma PageIsNewest(store: seq<Message>, before: Option<int>, limit: int)
    requires StoreOk(store) && 1 <= limit
    ensures GetMessages(store, before, limit) == Newest(History(store, before), if limit < 50 then limit else 50)
  {
    NewestFirstReversed(store, before);
    ReverseLimited(Sort(NewestFirst, Filter(Before(before), store)), if limit < 50 then limit else 50);
  }

  lemma ReverseMember<T>(s: seq<T>, x: T)
    ensures x in Reverse(s) <==> x in s
  {
    if x in s {
      var i :| 0 <= i < |s| && s[i] == x;
      assert Reverse(s)[|s| - 1 - i] == x;
    }
  }

  // ---------------------------------------------------------------------
  // The page and the server, step by step.

  const PAGE := 10

  // A page request on its way: answer is what the server read.
  datatype Request = Request(before: int, answer: Option<seq<Message>>)

  datatype State = State(store: seq<Message>, messages: seq<Message>, hasMore: bool, loading: bool, request: Option<Request>)

  datatype Action =
    | Store(m: Message)   // the server stores a new message
    | LoadMore              // loadMoreMessages, up to its await
    | Serve                 // the server runs the query
    | Arrive                // the page arrives
    | Fail                  // the request fails
    | Receive(m: Message)   // a live delivery of a stored message

  // selectConversation, when its first page arrives: base is the store its query
  // read.
  function Opened(base: seq<Message>, store: seq<Message>): State {
    var messages := GetMessages(base, None, PAGE);
    State(store, messages, |messages| >= PAGE, false, None)
  }

  predicate Newer(store: seq<Message>, m: Message) {
    forall i :: 0 <= i < |store| ==> store[i].sentAt < m.sentAt && store[i].id != m.id
  }

  predicate Enabled(s: State, a: Action) {
    match a
    case Store(m) => Newer(s.store, m)
    case LoadMore => true
    case Serve => s.request.Some? && s.request.value.answer.None?
    case Arrive => s.request.Some? && s.request.value.answer.Some?
    case Fail => s.request.Some?
    case Receive(m) => m in s.store
  }

  function Next(s: State, a: Action): State
    requires Enabled(s, a)
  {
    match a
    case Store(m) => s.(store := s.store + [m])
    case LoadMore =>
      if !s.hasMore || s.loading || s.messages == [] then s
      else s.(loading := true, request := Some(Request(s.messages[0].sentAt, None)))
    case Serve =>
      var r := s.request.value;
      s.(request := Some(r.(answer := Some(GetMessages(s.store, Some(r.before), PAGE)))))
    case Arrive =>
      var older := s.request.value.answer.value;
      s.(messages := older + s.messages, loading := false, hasMore := |older| >= PAGE, request := None)
    case Fail => s.(loading := false, request := None)
    case Receive(m) => s.(messages := Upsert(s.messages, m))
  }

  // The component's state, updated by its callbacks.
  class ChatPage {
    var store: seq<Message>
    var messages: seq<Message>
    var hasMoreMessages: bool
    var loadingMessages: bool
    var request: Option<Request>

    ghost function View(): State
      reads this
    {
      State(store, messages, hasMoreMessages, loadingMessages, request)
    }

    constructor (store: seq<Message>)
      ensures this.store == store && messages == [] && hasMoreMessages && loadingMessages && request.None?
    {
      this.store := store;
      messages, hasMoreMessages, loadingMessages, request := [], true, true, None;
    }

    method FirstPageArrived(ghost base: seq<Message>, page: seq<Message>)
      requires page == GetMessages(base, None, PAGE) && request.None?
      modifies this
      ensures View() == Opened(base, old(store))
    {
      messages := page;
      loadingMessages := false;
      hasMoreMessages := |page| >= PAGE;
    }

    method LoadMoreMessages()
      modifies this
      ensures View() == Next(old(View()), LoadMore)
    {
      if !hasMoreMessages || loadingMessages {
        return;
      }
      if |messages| == 0 {
        return;
      }
      loadingMessages := true;
      request := Some(Request(messages[0].sentAt, None));
    }

    method ServeRequest()
      requires Enabled(View(), Serve)
      modifies this
      ensures View() == Next(old(View()), Serve)
    {
      var page := GetMessages(store, Some(request.value.before), 10);
      request := Some(Request(request.value.before, Some(page)));
    }

    method OlderPageArrived()
      requires Enabled(View(), Arrive)
      modifies this
      ensures View() == Next(old(View()), Arrive)
    {
      var olderMessages := request.value.answer.value;
      messages := olderMessages + messages;
      loadingMessages := false;
      hasMoreMessages := |olderMessages| >= 10;
      request := None;
    }

    method LoadFailed()
      requires Enabled(View(), Fail)
      modifies this
      ensures View() == Next(old(View()), Fail)
    {
      loadingMessages := false;
      request := None;
    }

    method OnMessage(m: Message)
      requires Enabled(View(), Receive(m))
      modifies this
      ensures View() == Next(old(View()), Receive(m))
    {
      messages := Upsert(messages, m);
    }
  }

  predicate EnabledRun(s: State, run: seq<Action>)
    decreases |run|
  {
    run == [] || (Enabled(s, run[0]) && EnabledRun(Next(s, run[0]), run[1..]))
  }

  function After(s: State, run: seq<Action>): State
    requires EnabledRun(s, run)
    decreases |run|
  {
    if run == [] then s else After(Next(s, run[0]), run[1..])
  }

  function Received(run: seq<Action>): seq<Message> {
    if run == [] then []
    else (if run[0].Receive? then [run[0].m] else []) + Received(run[1..])
  }

  function Pages(run: seq<Action>): nat {
    if run == [] then 0 else (if run[0].Arrive? then 1 else 0) + Pages(run[1..])
  }
}
