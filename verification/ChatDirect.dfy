// Direct conversations: one per pair of users, found again whatever its two
// users did, as long as no member is added to it.
module ChatDirect {
  import opened Options
  import opened ChatDomain

  predicate IsDirect(s: State, d: nat) {
    d < |s.conversations| && s.conversations[d].kind == Direct
  }

  ghost predicate PairOk(s: State, d: nat) {
    var users := Users(s.rows, d);
    |users| == 2 && users[0] != users[1]
  }

  ghost predicate Inv(s: State) {
    && (forall i :: 0 <= i < |s.rows| ==> s.rows[i].conv < |s.conversations|)
    && (forall d: nat :: IsDirect(s, d) ==> PairOk(s, d))
    && forall d: nat, e: nat, a: nat, b: nat :: a != b && Between(s, d, a, b) && Between(s, e, a, b) ==> d == e
  }

  // The runs of the property: addMember is not called on a direct conversation.
  predicate NoDirectAdd(s: State, op: Op) {
    Allowed(s, op) && (op.AddMember? ==> !IsDirect(s, op.conv))
  }

  predicate GoodRun(s: State, run: seq<Op>)
    decreases |run|
  {
    run == [] || (NoDirectAdd(s, run[0]) && GoodRun(Step(s, run[0]), run[1..]))
  }

  // ---------------------------------------------------------------------

  ghost predicate SameKeys(a: seq<Row>, b: seq<Row>) {
    |a| == |b| && forall i :: 0 <= i < |a| ==> a[i].conv == b[i].conv && a[i].user == b[i].user
  }

  lemma {:induction false} SameUsers(a: seq<Row>, b: seq<Row>, d: nat)
    requires SameKeys(a, b)
    ensures Users(a, d) == Users(b, d)
  {
    if a != [] {
      SameUsers(a[..|a| - 1], b[..|b| - 1], d);
    }
  }

  lemma {:induction false} AppendUsers(a: seq<Row>, more: seq<Row>, d: nat)
    ensures Users(a + more, d) == Users(a, d) + Users(more, d)
  {
    if more == [] {
      assert a + more == a;
    } else {
      AppendUsers(a, more[..|more| - 1], d);
      assert (a + more)[..|a + more| - 1] == a + more[..|more| - 1];
    }
  }

  lemma {:induction false} NoUsers(a: seq<Row>, d: nat)
    requires forall i :: 0 <= i < |a| ==> a[i].conv != d
    ensures Users(a, d) == []
  {
    if a != [] {
      NoUsers(a[..|a| - 1], d);
    }
  }

  lemma {:induction false} NewUsers(conv: nat, creator: nat, users: seq<nat>)
    ensures Users(NewRows(conv, creator, users), conv) == users
  {
    if users != [] {
      var front := users[..|users| - 1];
      NewUsers(conv, creator, front);
      assert NewRows(conv, creator, users)[..|users| - 1] == NewRows(conv, creator, front);
    }
  }

  lemma DedupPair(a: nat, b: nat)
    requires a != b
    ensures Dedup([a] + [b]) == [a, b]
  {
    assert ([a] + [b])[..1] == [a];
    assert [a][..0] == [];
    assert Dedup([a]) == [a];
  }

  // ---------------------------------------------------------------------

  lemma KeysKeep(s: State, t: State)
    requires Inv(s) && t.conversations == s.conversations && SameKeys(s.rows, t.rows)
    ensures Inv(t)
  {
    forall d: nat ensures Users(t.rows, d) == Users(s.rows, d) {
      SameUsers(s.rows, t.rows, d);
    }
    assert forall d: nat :: IsDirect(t, d) ==> IsDirect(s, d) && PairOk(s, d);
    assert forall d: nat, a: nat, b: nat :: Between(t, d, a, b) ==> Between(s, d, a, b);
  }

  lemma CreatedUsers(s: State, kind: Kind, title: Option<string>, creator: nat, others: seq<nat>, d: nat)
    requires Inv(s)
    ensures Users(Create(s, kind, title, creator, others).rows, d) ==
        if d == |s.conversations| then Dedup([creator] + others) else Users(s.rows, d)
  {
    var more := NewRows(|s.conversations|, creator, Dedup([creator] + others));
    AppendUsers(s.rows, more, d);
    if d == |s.conversations| {
      NoUsers(s.rows, d);
      NewUsers(d, creator, Dedup([creator] + others));
    } else {
      NoUsers(more, d);
    }
  }

  lemma CreateGroupKeeps(s: State, title: Option<string>, creator: nat, others: seq<nat>)
    requires Inv(s)
    ensures Inv(Create(s, Group, title, creator, others))
  {
    var t := Create(s, Group, title, creator, others);
    forall d: nat | IsDirect(t, d) ensures IsDirect(s, d) && Users(t.rows, d) == Users(s.rows, d) && PairOk(t, d) {
      CreatedUsers(s, Group, title, creator, others, d);
      assert PairOk(s, d);
    }
    assert forall d: nat, a: nat, b: nat :: Between(t, d, a, b) ==> IsDirect(t, d) && Between(s, d, a, b);
  }

  lemma CreateDirectUsers(s: State, title: Option<string>, creator: nat, target: nat, d: nat, a: nat, b: nat)
    requires Inv(s) && target != creator && a != b
    ensures var t := Create(s, Direct, title, creator, [target]);
        (Between(t, d, a, b) <==> if d == |s.conversations| then {a, b} == {creator, target} else Between(s, d, a, b))
    ensures var t := Create(s, Direct, title, creator, [target]); IsDirect(t, d) ==> PairOk(t, d)
  {
    CreatedUsers(s, Direct, title, creator, [target], d);
    DedupPair(creator, target);
    if d != |s.conversations| && IsDirect(s, d) {
      assert PairOk(s, d);
    }
    if d == |s.conversations| {
      PairsEqual(a, b, creator, target);
    }
  }

  lemma PairsEqual(a: nat, b: nat, c: nat, d: nat)
    requires a != b && c != d
    ensures a in [c, d] && b in [c, d] <==> {a, b} == {c, d}
  {
    if a in [c, d] && b in [c, d] {
      assert {a, b} == {c, d};
    }
    if {a, b} == {c, d} {
      assert a in {c, d} && b in {c, d};
    }
  }

  lemma BetweenByPair(s: State, d: nat, a: nat, b: nat, p: nat, q: nat)
    requires Between(s, d, a, b) && {a, b} == {p, q}
    ensures Between(s, d, p, q)
  {
    assert p in {a, b} && q in {a, b};
  }

  lemma CreateDirectKeeps(s: State, title: Option<string>, creator: nat, target: nat)
    requires Inv(s) && target != creator && FindFrom(s, creator, target, 0).None?
    ensures Inv(Create(s, Direct, title, creator, [target]))
  {
    var t := Create(s, Direct, title, creator, [target]);
    forall d: nat, e: nat, a: nat, b: nat | a != b && Between(t, d, a, b) && Between(t, e, a, b) ensures d == e {
      CreateDirectUsers(s, title, creator, target, d, a, b);
      CreateDirectUsers(s, title, creator, target, e, a, b);
      if {a, b} == {creator, target} && d != e {
        BetweenByPair(s, if d == |s.conversations| then e else d, a, b, creator, target);
      }
    }
    forall d: nat | IsDirect(t, d) ensures PairOk(t, d) {
      CreateDirectUsers(s, title, creator, target, d, creator, target);
    }
  }

  lemma JoinGroupKeeps(s: State, conv: nat, user: nat, actor: nat)
    requires Inv(s) && conv < |s.conversations| && !IsDirect(s, conv)
    ensures Inv(Join(s, conv, user, actor))
  {
    var t := Join(s, conv, user, actor);
    forall d: nat | IsDirect(t, d) ensures Users(t.rows, d) == Users(s.rows, d) && PairOk(t, d) {
      assert IsDirect(s, d) && PairOk(s, d);
      AppendUsers(s.rows, [Row(conv, user, false, Active, 0)], d);
      NoUsers([Row(conv, user, false, Active, 0)], d);
    }
    assert forall d: nat, a: nat, b: nat :: Between(t, d, a, b) ==> IsDirect(t, d) && Between(s, d, a, b);
  }

  lemma SendKeepsKeys(s: State, op: Op)
    requires op.Send?
    ensures Step(s, op).conversations == s.conversations && SameKeys(s.rows, Step(s, op).rows)
  {
  }

  lemma QuietKeepsKeys(s: State, op: Op)
    requires !op.OpenDirect? && !op.OpenGroup? && !op.AddMember? && !op.Send?
    ensures Step(s, op).conversations == s.conversations && SameKeys(s.rows, Step(s, op).rows)
  {
  }

  lemma OthersKeepKeys(s: State, op: Op)
    requires !op.OpenDirect? && !op.OpenGroup? && !op.AddMember?
    ensures Step(s, op).conversations == s.conversations && SameKeys(s.rows, Step(s, op).rows)
  {
    if op.Send? {
      SendKeepsKeys(s, op);
    } else {
      QuietKeepsKeys(s, op);
    }
  }

  lemma StepKeepsInv(s: State, op: Op)
    requires Inv(s) && NoDirectAdd(s, op)
    ensures Inv(Step(s, op))
  {
    match op
    case OpenDirect(creator, target, title) =>
      if target != creator && FindFrom(s, creator, target, 0).None? {
        CreateDirectKeeps(s, title, creator, target);
      }
    case OpenGroup(creator, others, title) => CreateGroupKeeps(s, title, creator, others);
    case AddMember(conv, user, actor) => JoinGroupKeeps(s, conv, user, actor);
    case _ =>
      OthersKeepKeys(s, op);
      KeysKeep(s, Step(s, op));
  }

  lemma {:induction false} RunKeepsInv(s: State, run: seq<Op>)
    requires Inv(s) && GoodRun(s, run)
    ensures Inv(After(s, run))
    decreases |run|
  {
    if run != [] {
      StepKeepsInv(s, run[0]);
      RunKeepsInv(Step(s, run[0]), run[1..]);
    }
  }

  // Two rows, always, and one conversation per pair.
  lemma TwoRowsEach(run: seq<Op>, d: nat)
    requires GoodRun(Init, run) && IsDirect(After(Init, run), d)
    ensures PairOk(After(Init, run), d)
  {
    RunKeepsInv(Init, run);
  }

  lemma OnePerPair(run: seq<Op>, d: nat, e: nat, a: nat, b: nat)
    requires GoodRun(Init, run) && a != b && Between(After(Init, run), d, a, b) && Between(After(Init, run), e, a, b)
    ensures d == e
  {
    RunKeepsInv(Init, run);
  }

  // ---------------------------------------------------------------------
  // Opening it again.

  lemma CreatedKeepsBetween(s: State, kind: Kind, title: Option<string>, creator: nat, others: seq<nat>, d: nat, a: nat, b: nat)
    requires Inv(s) && Between(s, d, a, b)
    ensures Between(Create(s, kind, title, creator, others), d, a, b)
  {
    CreatedUsers(s, kind, title, creator, others, d);
  }

  lemma StepKeepsBetween(s: State, op: Op, d: nat, a: nat, b: nat)
    requires Inv(s) && NoDirectAdd(s, op) && Between(s, d, a, b)
    ensures Between(Step(s, op), d, a, b)
  {
    match op
    case OpenDirect(creator, target, title) => CreatedKeepsBetween(s, Direct, title, creator, [target], d, a, b);
    case OpenGroup(creator, others, title) => CreatedKeepsBetween(s, Group, title, creator, others, d, a, b);
    case AddMember(conv, user, actor) =>
      AppendUsers(s.rows, [Row(conv, user, false, Active, 0)], d);
      NoUsers([Row(conv, user, false, Active, 0)], d);
    case _ =>
      OthersKeepKeys(s, op);
      SameUsers(s.rows, Step(s, op).rows, d);
  }

  lemma {:induction false} RunKeepsBetween(s: State, run: seq<Op>, d: nat, a: nat, b: nat)
    requires Inv(s) && GoodRun(s, run) && Between(s, d, a, b)
    ensures Between(After(s, run), d, a, b) && Inv(After(s, run))
    decreases |run|
  {
    if run != [] {
      StepKeepsBetween(s, run[0], d, a, b);
      StepKeepsInv(s, run[0]);
      RunKeepsBetween(Step(s, run[0]), run[1..], d, a, b);
    }
  }

  lemma OpenedIsBetween(s: State, a: nat, b: nat, title: Option<string>)
    requires Inv(s) && a != b
    ensures Perform(s, OpenDirect(a, b, title)).1.Ok?
        && Between(Step(s, OpenDirect(a, b, title)), Perform(s, OpenDirect(a, b, title)).1.value, a, b)
  {
    CreateDirectUsers(s, title, a, b, |s.conversations|, a, b);
  }

  // Whatever both sides did since, opening the conversation again, from either
  // side, returns the same one and changes nothing.
  lemma OpeningAgainFindsIt(before: seq<Op>, run: seq<Op>, a: nat, b: nat, title: Option<string>, again: Option<string>)
    requires a != b && GoodRun(Init, before)
    requires GoodRun(Step(After(Init, before), OpenDirect(a, b, title)), run)
    ensures var s := After(Init, before); var t := After(Step(s, OpenDirect(a, b, title)), run);
        Perform(t, OpenDirect(a, b, again)) == (t, Perform(s, OpenDirect(a, b, title)).1)
        && Perform(t, OpenDirect(b, a, again)) == (t, Perform(s, OpenDirect(a, b, title)).1)
  {
    var s := After(Init, before);
    RunKeepsInv(Init, before);
    OpenedIsBetween(s, a, b, title);
    var d := Perform(s, OpenDirect(a, b, title)).1.value;
    var s1 := Step(s, OpenDirect(a, b, title));
    StepKeepsInv(s, OpenDirect(a, b, title));
    RunKeepsBetween(s1, run, d, a, b);
    FoundIff(After(s1, run), d, a, b);
    FoundIff(After(s1, run), d, b, a);
  }

  lemma FoundIff(s: State, d: nat, a: nat, b: nat)
    requires Inv(s) && a != b
    ensures FindFrom(s, a, b, 0) == Some(d) <==> Between(s, d, a, b)
  {
    var found := FindFrom(s, a, b, 0);
    if found.Some? {
      assert Between(s, found.value, a, b);
    }
  }

  // Why addMember must stay away: it leaves a direct conversation to be found
  // again exactly if the added user was active in it already.
  lemma AddMemberHidesIt(s: State, d: nat, a: nat, b: nat, user: nat, actor: nat)
    requires Inv(s) && a != b && Between(s, d, a, b)
    ensures FindFrom(Step(s, AddMember(d, user, actor)), a, b, 0) == Some(d) <==> FirstActive(s.rows, d, user).Some?
  {
    FoundIff(s, d, a, b);
    if FirstActive(s.rows, d, user).None? {
      var row := Row(d, user, false, Active, 0);
      AppendUsers(s.rows, [row], d);
      assert Users([row], d) == Users([row][..0], d) + [user];
      var t := Join(s, d, user, actor);
      assert |Users(t.rows, d)| == 3;
      var found := FindFrom(t, a, b, 0);
      assert found == Some(d) ==> Between(t, d, a, b);
    }
  }
}
