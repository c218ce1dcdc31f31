// Scrolling up in the open conversation: from every state that a run reaches, the
// missing pages can be loaded to the end, and what that shows.
module ThreadAnswers {
  import opened Options
  import opened StableSort
  import opened ThreadView
  import opened ThreadPaging
  import opened ThreadWhole

  // Nothing is stored or delivered meanwhile, and no request fails.
  predicate OnlyPaging(run: seq<Action>) {
    forall i :: 0 <= i < |run| ==> run[i] == LoadMore || run[i] == Serve || run[i] == Arrive
  }

  lemma {:induction false} OnlyPagingIsHarmless(s: State, run: seq<Action>)
    requires EnabledRun(s, run) && OnlyPaging(run)
    ensures HarmlessRun(s, run) && NothingLate(s, run) && Received(run) == []
    decreases |run|
  {
    if run != [] {
      OnlyPagingIsHarmless(Next(s, run[0]), run[1..]);
    }
  }

  // What is left of the page on its way.
  function StepsOfPage(s: State): nat {
    if s.request.None? then 2 else if s.request.value.answer.None? then 1 else 0
  }

  function PagingStep(s: State): Action {
    if s.request.None? then LoadMore else if s.request.value.answer.None? then Serve else Arrive
  }

  lemma PagingStepAdvances(s: State)
    requires AnyInv(s) && s.hasMore
    ensures Enabled(s, PagingStep(s)) && AnyInv(Next(s, PagingStep(s)))
    ensures var t := Next(s, PagingStep(s));
        PagesLeft(t) < PagesLeft(s) || (PagesLeft(t) == PagesLeft(s) && StepsOfPage(t) < StepsOfPage(s))
  {
    StepKeepsAny(s, PagingStep(s));
    StepPages(s, PagingStep(s));
  }

  // Scrolling up to the top: the server has nothing more to give.
  lemma {:induction false} ScrollToTop(s: State) returns (run: seq<Action>)
    requires AnyInv(s)
    ensures EnabledRun(s, run) && OnlyPaging(run) && !After(s, run).hasMore
    decreases PagesLeft(s), StepsOfPage(s)
  {
    if !s.hasMore {
      run := [];
    } else {
      PagingStepAdvances(s);
      var a := PagingStep(s);
      var rest := ScrollToTop(Next(s, a));
      Cons(s, a, rest);
      run := [a] + rest;
    }
  }

  // Whatever was stored, delivered, or failed before, the missing pages can be
  // loaded; and if every late delivery was harmless, the thread then is the history
  // read at first with what was delivered.
  lemma AnyRunCanBeCompleted(base: seq<Message>, store: seq<Message>, run: seq<Action>) returns (more: seq<Action>)
    requires ReadBefore(base, store) && EnabledRun(Opened(base, store), run)
    ensures var t := After(Opened(base, store), run); EnabledRun(t, more) && OnlyPaging(more) && !After(t, more).hasMore
    ensures HarmlessRun(Opened(base, store), run) ==>
        After(After(Opened(base, store), run), more).messages == Deliver(History(base, None), Received(run))
  {
    var s := Opened(base, store);
    var t := After(s, run);
    OpenedAny(base, store);
    OpenedRebuilds(base, store);
    RunKeepsAny(s, run);
    more := ScrollToTop(t);
    if HarmlessRun(s, run) {
      RunConserves(s, run);
      OnlyPagingIsHarmless(t, more);
      RunConserves(t, more);
    }
  }

  // With no live traffic: the first page shows the ten newest messages, and
  // scrolling up shows all of them, oldest first, in as many pages as there are
  // tens.
  lemma ScrollingShowsAll(base: seq<Message>) returns (run: seq<Action>)
    requires StoreOk(base)
    ensures var s := Opened(base, base);
        && s.messages == Newest(History(base, None), 10)
        && EnabledRun(s, run) && OnlyPaging(run) && !After(s, run).hasMore
        && After(s, run).messages == History(base, None) && Pages(run) == |base| / 10
  {
    OpenedSplits(base, base);
    OpenedReady(base);
    OpenedPages(base, base);
    run := ScrollToTop(Opened(base, base));
    TopReached(Opened(base, base), run);
  }

  lemma OpenedReady(base: seq<Message>)
    requires StoreOk(base)
    ensures var s := Opened(base, base); AnyInv(s) && Inv(s) && Rebuilt(s) == History(base, None)
  {
    OpenedAny(base, base);
    OpenedRebuilds(base, base);
  }

  lemma TopReached(s: State, run: seq<Action>)
    requires AnyInv(s) && Inv(s) && EnabledRun(s, run) && OnlyPaging(run) && !After(s, run).hasMore
    ensures After(s, run).messages == Rebuilt(s) && Pages(run) == PagesLeft(s)
  {
    OnlyPagingIsHarmless(s, run);
    RunConserves(s, run);
    RunPagesExactly(s, run);
    HasMoreIff(After(s, run));
  }
}
