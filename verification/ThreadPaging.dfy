// Loading older pages while messages are stored and delivered: what a step
// conserves, and what a late delivery does.
module ThreadPaging {
  import opened Options
  import opened StableSort
  import opened ThreadView

  // ---------------------------------------------------------------------
  // What paging conserves: the thread together with the history below it.

  predicate Paging(s: State) {
    s.hasMore && s.messages != []
  }

  function Older(s: State): seq<Message> {
    if Paging(s) then History(s.store, Some(s.messages[0].sentAt)) else []
  }

  function Rebuilt(s: State): seq<Message> {
    Older(s) + s.messages
  }

  ghost predicate Inv(s: State) {
    && StoreOk(s.store)
    && StrictlySorted(SentAt, s.messages)
    && (forall m :: m in s.messages ==> m in s.store)
    && (s.hasMore ==> s.messages != [])
    && (s.request.Some? ==> s.hasMore && s.request.value.before == s.messages[0].sentAt)
    && (s.request.Some? && s.request.value.answer.Some? ==>
          s.request.value.answer.value == Newest(Older(s), PAGE))
  }

  // While pages are missing, the delivery of a message older than the thread.
  predicate Late(s: State, a: Action) {
    a.Receive? && Paging(s) && a.m !in s.messages && a.m.sentAt <= s.messages[0].sentAt
  }

  // It does no harm if no page is on its way and nothing lies between it and the
  // thread.
  predicate Harmless(s: State, a: Action) {
    Late(s, a) ==> s.request.None? && Older(s) != [] && a.m == Older(s)[|Older(s)| - 1]
  }

  predicate HarmlessRun(s: State, run: seq<Action>)
    requires EnabledRun(s, run)
    decreases |run|
  {
    run == [] || (Harmless(s, run[0]) && HarmlessRun(Next(s, run[0]), run[1..]))
  }

  predicate NothingLate(s: State, run: seq<Action>)
    requires EnabledRun(s, run)
    decreases |run|
  {
    run == [] || (!Late(s, run[0]) && NothingLate(Next(s, run[0]), run[1..]))
  }

  lemma StoreConsistent(store: seq<Message>)
    requires StoreOk(store)
    ensures Consistent(set m | m in store)
  {
  }

  lemma HistoryUnderInsert(store: seq<Message>, m: Message, cursor: int)
    requires cursor <= m.sentAt
    ensures History(store + [m], Some(cursor)) == History(store, Some(cursor))
  {
    FilterSnoc(Before(Some(cursor)), store, m);
    var p := Before(Some(cursor));
    assert Filter(p, store + [m]) == Filter(p, store);
  }

  // The history below a page of the history.
  lemma HistoryBelow(store: seq<Message>, before: Option<int>, k: nat)
    requires StoreOk(store) && k < |History(store, before)|
    ensures History(store, Some(History(store, before)[k].sentAt)) == History(store, before)[..k]
  {
    var h := History(store, before);
    var below := History(store, Some(h[k].sentAt));
    HistorySorted(store, before);
    HistorySorted(store, Some(h[k].sentAt));
    forall m ensures m in below <==> m in h[..k] {
      HistoryMember(store, before, m);
      HistoryMember(store, before, h[k]);
      HistoryMember(store, Some(h[k].sentAt), m);
      if m in below {
        var i :| 0 <= i < |h| && h[i] == m;
        assert i < k;
        assert h[..k][i] == m;
      }
    }
    SameElementsSameSequence(SentAt, below, h[..k]);
  }

  lemma RebuiltSorted(s: State)
    requires Inv(s)
    ensures StrictlySorted(SentAt, Rebuilt(s)) && forall m :: m in Rebuilt(s) ==> m in s.store
  {
    if Paging(s) {
      var cursor := Some(s.messages[0].sentAt);
      HistorySorted(s.store, cursor);
      forall m | m in Older(s) ensures m in s.store && m.sentAt < s.messages[0].sentAt {
        HistoryMember(s.store, cursor, m);
      }
    }
  }

  lemma ArriveConserves(s: State)
    requires Inv(s) && Enabled(s, Arrive)
    ensures Inv(Next(s, Arrive)) && Rebuilt(Next(s, Arrive)) == Rebuilt(s)
    ensures |Older(Next(s, Arrive))| == if |Older(s)| >= PAGE then |Older(s)| - PAGE else 0
    ensures Next(s, Arrive).hasMore <==> |Older(s)| >= PAGE
  {
    var t := Next(s, Arrive);
    var h := Older(s);
    var cursor := Some(s.messages[0].sentAt);
    RebuiltSorted(s);
    if |h| >= PAGE {
      var k := |h| - PAGE;
      HistoryBelow(s.store, cursor, k);
      assert h == h[..k] + h[k..];
      assert t.messages[0] == h[k];
      assert Older(t) == h[..k];
      assert t.messages == Rebuilt(s)[k..];
    } else {
      assert t.messages == Rebuilt(s);
    }
  }

  lemma InsertConserves(s: State, m: Message)
    requires Inv(s) && Enabled(s, Store(m))
    ensures Inv(Next(s, Store(m))) && Rebuilt(Next(s, Store(m))) == Rebuilt(s)
  {
    if Paging(s) {
      assert s.messages[0] in s.messages;
      var i :| 0 <= i < |s.store| && s.store[i] == s.messages[0];
      HistoryUnderInsert(s.store, m, s.messages[0].sentAt);
    }
  }

  lemma ServeConserves(s: State)
    requires Inv(s) && Enabled(s, Serve)
    ensures Inv(Next(s, Serve)) && Rebuilt(Next(s, Serve)) == Rebuilt(s)
  {
    PageIsNewest(s.store, Some(s.request.value.before), PAGE);
  }

  lemma UpsertKeepsFirst(s: State, m: Message)
    requires Inv(s) && Paging(s) && m in s.store && !Late(s, Receive(m))
    ensures Upsert(s.messages, m) != [] && Upsert(s.messages, m)[0] == s.messages[0]
  {
    var all := set x | x in s.store;
    var t := Upsert(s.messages, m);
    StoreConsistent(s.store);
    UpsertSorts(all, s.messages, m);
    UpsertMember(all, s.messages, m, s.messages[0]);
    assert s.messages[0] in t;
    UpsertMember(all, s.messages, m, t[0]);
    assert t[0] in t;
    if t[0] in s.messages {
      var i :| 0 <= i < |s.messages| && s.messages[i] == t[0];
    }
    var j :| 0 <= j < |t| && t[j] == s.messages[0];
  }

  lemma ReceiveKeepsInv(s: State, m: Message)
    requires Inv(s) && Enabled(s, Receive(m)) && !Late(s, Receive(m))
    ensures Inv(Next(s, Receive(m))) && Older(Next(s, Receive(m))) == Older(s)
  {
    var all := set x | x in s.store;
    StoreConsistent(s.store);
    UpsertSorts(all, s.messages, m);
    forall x ensures x in Upsert(s.messages, m) <==> x in s.messages || x == m {
      UpsertMember(all, s.messages, m, x);
    }
    if Paging(s) {
      UpsertKeepsFirst(s, m);
    }
  }

  lemma ReceiveAdds(s: State, m: Message)
    requires Inv(s) && Enabled(s, Receive(m)) && !Late(s, Receive(m))
    ensures Inv(Next(s, Receive(m))) && Rebuilt(Next(s, Receive(m))) == Upsert(Rebuilt(s), m)
  {
    var t := Next(s, Receive(m));
    var all := set x | x in s.store;
    ReceiveKeepsInv(s, m);
    RebuiltSorted(s);
    RebuiltSorted(t);
    StoreConsistent(s.store);
    UpsertSorts(all, Rebuilt(s), m);
    forall x ensures x in Rebuilt(t) <==> x in Upsert(Rebuilt(s), m) {
      UpsertMember(all, Rebuilt(s), m, x);
      UpsertMember(all, s.messages, m, x);
    }
    SameElementsSameSequence(SentAt, Rebuilt(t), Upsert(Rebuilt(s), m));
  }

  // A harmless late delivery only moves the line between the thread and the
  // history below it.
  lemma LateJoins(s: State, m: Message)
    requires Inv(s) && Enabled(s, Receive(m)) && Late(s, Receive(m)) && Harmless(s, Receive(m))
    ensures Inv(Next(s, Receive(m))) && Rebuilt(Next(s, Receive(m))) == Rebuilt(s) == Upsert(Rebuilt(s), m)
    ensures |Older(Next(s, Receive(m)))| == |Older(s)| - 1
  {
    var h := Older(s);
    LateReceive(s, |h| - 1);
    LateKeepsInv(s, |h| - 1);
    SameOnlyIfWhole(h, |h| - 1, s.messages);
    UpsertPresent(Rebuilt(s), |h| - 1);
  }

  lemma UpsertPresent(thread: seq<Message>, k: nat)
    requires k < |thread|
    ensures Upsert(thread, thread[k]) == thread
  {
    assert HasId(thread, thread[k].id);
  }

  lemma StepConserves(s: State, a: Action)
    requires Inv(s) && Enabled(s, a) && Harmless(s, a)
    ensures Inv(Next(s, a))
    ensures Rebuilt(Next(s, a)) == if a.Receive? then Upsert(Rebuilt(s), a.m) else Rebuilt(s)
  {
    match a
    case Store(m) => InsertConserves(s, m);
    case LoadMore =>
    case Serve => ServeConserves(s);
    case Arrive => ArriveConserves(s);
    case Fail =>
    case Receive(m) =>
      if Late(s, a) {
        LateJoins(s, m);
      } else {
        ReceiveAdds(s, m);
      }
  }

  lemma {:induction false} RunConserves(s: State, run: seq<Action>)
    requires Inv(s) && EnabledRun(s, run) && HarmlessRun(s, run)
    ensures Inv(After(s, run)) && Rebuilt(After(s, run)) == Deliver(Rebuilt(s), Received(run))
    decreases |run|
  {
    if run != [] {
      StepConserves(s, run[0]);
      RunConserves(Next(s, run[0]), run[1..]);
      if run[0].Receive? {
        assert Received(run)[1..] == Received(run[1..]);
      } else {
        assert Received(run) == Received(run[1..]);
      }
    }
  }

  // base was read before store: what came since is newer.
  ghost predicate ReadBefore(base: seq<Message>, store: seq<Message>) {
    && StoreOk(store) && base <= store
    && forall i, j :: 0 <= i < |base| <= j < |store| ==> base[i].sentAt < store[j].sentAt
  }

  lemma {:induction false} HistoryUnderStore(base: seq<Message>, store: seq<Message>, cursor: int)
    requires base <= store && forall j :: |base| <= j < |store| ==> cursor <= store[j].sentAt
    ensures History(store, Some(cursor)) == History(base, Some(cursor))
    decreases |store|
  {
    if base == store {
    } else {
      var front := store[..|store| - 1];
      HistoryUnderStore(base, front, cursor);
      HistoryUnderInsert(front, store[|store| - 1], cursor);
      assert store == front + [store[|store| - 1]];
    }
  }

  // The first page, and what is older than it.
  lemma OpenedSplits(base: seq<Message>, store: seq<Message>)
    requires ReadBefore(base, store) && StoreOk(base)
    ensures Opened(base, store).messages == Newest(History(base, None), PAGE)
    ensures Rebuilt(Opened(base, store)) == History(base, None)
  {
    var s := Opened(base, store);
    var h := History(base, None);
    PageIsNewest(base, None, PAGE);
    if |h| >= PAGE {
      var k := |h| - PAGE;
      HistoryBelow(base, None, k);
      HistoryMember(base, None, h[k]);
      HistoryUnderStore(base, store, h[k].sentAt);
      assert s.messages == h[k..];
      assert Older(s) == h[..k];
    }
  }

  lemma BaseOk(base: seq<Message>, store: seq<Message>)
    requires ReadBefore(base, store)
    ensures StoreOk(base) && forall m :: m in base ==> m in store
  {
    assert forall i :: 0 <= i < |base| ==> base[i] == store[i];
  }

  lemma OpenedRebuilds(base: seq<Message>, store: seq<Message>)
    requires ReadBefore(base, store)
    ensures Inv(Opened(base, store)) && Rebuilt(Opened(base, store)) == History(base, None)
  {
    BaseOk(base, store);
    OpenedSplits(base, store);
    HistorySorted(base, None);
    forall m ensures m in History(base, None) <==> m in base {
      HistoryMember(base, None, m);
    }
  }

  lemma HistoryOfAll(base: seq<Message>)
    ensures |History(base, None)| == |base|
  {
    FilterAll(base);
    SortPermutes(SentAt, base);
  }

  lemma {:induction false} FilterAll(base: seq<Message>)
    ensures Filter(Before(None), base) == base
  {
    if base != [] {
      FilterAll(base[..|base| - 1]);
    }
  }

  // ---------------------------------------------------------------------
  // Late deliveries, exactly.

  lemma LateUpsert(s: State, m: Message)
    requires Inv(s) && Paging(s) && m in s.store && m.sentAt < s.messages[0].sentAt
    ensures Upsert(s.messages, m) == [m] + s.messages
  {
    var all := set x | x in s.store;
    StoreConsistent(s.store);
    UpsertSorts(all, s.messages, m);
    forall x ensures x in Upsert(s.messages, m) <==> x in [m] + s.messages {
      UpsertMember(all, s.messages, m, x);
    }
    SameElementsSameSequence(SentAt, Upsert(s.messages, m), [m] + s.messages);
  }

  lemma OlderIsBelow(s: State, k: nat)
    requires Inv(s) && Paging(s) && k < |Older(s)|
    ensures Older(s)[k] in s.store && Older(s)[k].sentAt < s.messages[0].sentAt
  {
    HistoryMember(s.store, Some(s.messages[0].sentAt), Older(s)[k]);
  }

  lemma LateReceive(s: State, k: nat)
    requires Inv(s) && Paging(s) && k < |Older(s)| && Older(s)[k] in s.store
    ensures var t := Next(s, Receive(Older(s)[k]));
        t.messages == [Older(s)[k]] + s.messages && Older(t) == Older(s)[..k] && Rebuilt(t) == Older(s)[..k + 1] + s.messages
  {
    var h := Older(s);
    OlderIsBelow(s, k);
    HistoryBelow(s.store, Some(s.messages[0].sentAt), k);
    LateUpsert(s, h[k]);
    TakeOneMore(h, k, s.messages);
  }

  lemma LateKeepsInv(s: State, k: nat)
    requires Inv(s) && Paging(s) && s.request.None? && k < |Older(s)| && Older(s)[k] in s.store
    ensures Inv(Next(s, Receive(Older(s)[k])))
  {
    LateReceive(s, k);
    OlderIsBelow(s, k);
  }

  lemma TakeOneMore<T>(h: seq<T>, k: nat, rest: seq<T>)
    requires k < |h|
    ensures h[..k] + ([h[k]] + rest) == h[..k + 1] + rest
  {
  }

  // The page on its way, if any, answered and arrived.
  function Settle(s: State): State {
    if s.request.None? then s
    else if s.request.value.answer.None? then Next(Next(s, Serve), Arrive)
    else Next(s, Arrive)
  }

  function Landed(s: State, page: seq<Message>): State {
    s.(messages := page + s.messages, loading := false, hasMore := |page| >= PAGE, request := None)
  }

  lemma SettleLands(s: State, m: Message)
    requires Inv(s) && s.request.Some? && Enabled(s, Receive(m))
    ensures Settle(Next(s, Receive(m))) == Landed(Next(s, Receive(m)), Newest(Older(s), PAGE))
  {
    PageIsNewest(s.store, Some(s.messages[0].sentAt), PAGE);
  }

  lemma LandedOlder(s: State, rest: seq<Message>)
    requires Inv(s) && Paging(s)
    ensures Rebuilt(Landed(s.(messages := rest), Newest(Older(s), PAGE))) == Older(s) + rest
  {
    var h := Older(s);
    var t := Landed(s.(messages := rest), Newest(h, PAGE));
    if |h| >= PAGE {
      var k := |h| - PAGE;
      HistoryBelow(s.store, Some(s.messages[0].sentAt), k);
      assert t.messages == h[k..] + rest && t.messages[0] == h[k];
      assert Older(t) == h[..k];
      Rejoined(h, k, rest);
    } else {
      assert t.messages == h + rest && Older(t) == [];
    }
  }

  lemma Rejoined<T>(h: seq<T>, k: nat, rest: seq<T>)
    requires k <= |h|
    ensures h[..k] + (h[k..] + rest) == h + rest
  {
  }

  // With a page on its way the delivered message comes again, with that page or
  // with a later one.
  lemma LateComesTwice(s: State, k: nat)
    requires Inv(s) && s.request.Some? && Paging(s) && k < |Older(s)| && Older(s)[k] in s.store
    ensures Rebuilt(Settle(Next(s, Receive(Older(s)[k])))) == Older(s) + ([Older(s)[k]] + s.messages)
  {
    var m := Older(s)[k];
    LateReceive(s, k);
    SettleLands(s, m);
    LandedOlder(s, [m] + s.messages);
  }

  // A late delivery leaves the thread and the history below it as they were, once
  // the page on its way has arrived, exactly if there is no such page and nothing
  // lies between the message and the thread.
  lemma LateDeliveryHarmlessIff(s: State, k: nat)
    requires Inv(s) && Paging(s) && k < |Older(s)|
    ensures Older(s)[k] in s.store
    ensures Rebuilt(Settle(Next(s, Receive(Older(s)[k])))) == Rebuilt(s) <==> s.request.None? && k == |Older(s)| - 1
  {
    OlderIsBelow(s, k);
    if s.request.None? {
      LateReceive(s, k);
      SameOnlyIfWhole(Older(s), k, s.messages);
    } else {
      LateComesTwice(s, k);
      OneTooMany(Older(s), Older(s)[k], s.messages);
    }
  }

  lemma SameOnlyIfWhole<T>(h: seq<T>, k: nat, rest: seq<T>)
    requires k < |h|
    ensures h[..k + 1] + rest == h + rest <==> k == |h| - 1
  {
    if k == |h| - 1 {
      assert h[..k + 1] == h;
    } else {
      assert |h[..k + 1] + rest| < |h + rest|;
    }
  }

  lemma OneTooMany<T>(h: seq<T>, x: T, rest: seq<T>)
    ensures h + ([x] + rest) != h + rest
  {
    assert |h + ([x] + rest)| == |h + rest| + 1;
  }
}
