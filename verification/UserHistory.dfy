// What the user file answers, told by the answers before: who has registered, and
// with what hash.
module UserHistory {
  import opened Options
  import opened UserFile

  // Among the first n requests, the register of this name with this hash was
  // accepted.
  ghost predicate Accepted(ops: seq<Op>, answers: seq<Status>, n: nat, u: string, h: string) {
    exists j: nat :: AcceptedAt(ops, answers, n, u, h, j)
  }

  predicate AcceptedAt(ops: seq<Op>, answers: seq<Status>, n: nat, u: string, h: string, j: nat) {
    j < n && j < |ops| && j < |answers| && ops[j] == RegisterOp(u, h) && answers[j] == RegisterSuccess
  }

  ghost predicate Taken(ops: seq<Op>, answers: seq<Status>, n: nat, u: string) {
    exists h :: Accepted(ops, answers, n, u, h)
  }

  // The answer to request i, told by the requests and answers before it.
  ghost predicate AnswerFits(ops: seq<Op>, answers: seq<Status>, i: nat)
    requires i < |ops| && |answers| == |ops|
  {
    var u, h := ops[i].username, ops[i].hash;
    if !ValidUsername(u) || h == "" then answers[i] == InvalidRequest
    else if ops[i].RegisterOp? then
      answers[i] == if Taken(ops, answers, i, u) then UserExists else RegisterSuccess
    else
      && (answers[i] == Ok <==> Accepted(ops, answers, i, u, h))
      && (answers[i] == UserNotFound <==> !Taken(ops, answers, i, u))
      && (answers[i] == AuthFailed <==> Taken(ops, answers, i, u) && !Accepted(ops, answers, i, u, h))
  }

  lemma {:induction false} MapRunSnoc(accounts: map<string, string>, ops: seq<Op>, op: Op)
    ensures var (m, answers) := MapRun(accounts, ops);
        MapRun(accounts, ops + [op]) == (MapStep(m, op).0, answers + [MapStep(m, op).1]) && |answers| == |ops|
    decreases |ops|
  {
    if ops == [] {
      assert (ops + [op])[0] == op && (ops + [op])[1..] == [];
      assert MapRun(accounts, ops) == (accounts, []);
      assert [] + [MapStep(accounts, op).1] == [MapStep(accounts, op).1] + [];
    } else {
      assert (ops + [op])[1..] == ops[1..] + [op];
      MapRunSnoc(MapStep(accounts, ops[0]).0, ops[1..], op);
      var (m, rest) := MapRun(MapStep(accounts, ops[0]).0, ops[1..]);
      var status := MapStep(accounts, ops[0]).1;
      assert [status] + (rest + [MapStep(m, op).1]) == ([status] + rest) + [MapStep(m, op).1];
    }
  }

  lemma AcceptedSnoc(ops: seq<Op>, answers: seq<Status>, op: Op, answer: Status, n: nat, u: string, h: string)
    requires |answers| == |ops| && n <= |ops|
    ensures Accepted(ops + [op], answers + [answer], n, u, h) <==> Accepted(ops, answers, n, u, h)
    ensures Accepted(ops + [op], answers + [answer], |ops| + 1, u, h) <==>
        Accepted(ops, answers, |ops|, u, h) || (op == RegisterOp(u, h) && answer == RegisterSuccess)
  {
    var all, told := ops + [op], answers + [answer];
    forall j: nat ensures AcceptedAt(all, told, n, u, h, j) <==> AcceptedAt(ops, answers, n, u, h, j) {}
    if Accepted(all, told, |ops| + 1, u, h) {
      var j: nat :| AcceptedAt(all, told, |ops| + 1, u, h, j);
      assert j < |ops| ==> AcceptedAt(ops, answers, |ops|, u, h, j);
    }
    if op == RegisterOp(u, h) && answer == RegisterSuccess {
      assert AcceptedAt(all, told, |ops| + 1, u, h, |ops|);
    }
    if Accepted(ops, answers, |ops|, u, h) {
      var j: nat :| AcceptedAt(ops, answers, |ops|, u, h, j);
      assert AcceptedAt(all, told, |ops| + 1, u, h, j);
    }
  }

  predicate Holds(m: map<string, string>, u: string, h: string) {
    u in m && m[u] == h
  }

  ghost predicate AccountsAre(m: map<string, string>, ops: seq<Op>, answers: seq<Status>) {
    forall u, h :: Holds(m, u, h) <==> Accepted(ops, answers, |ops|, u, h)
  }

  lemma StepAccounts(ops: seq<Op>, answers: seq<Status>, m: map<string, string>, op: Op)
    requires |answers| == |ops| && AccountsAre(m, ops, answers)
    ensures var (next, answer) := MapStep(m, op); AccountsAre(next, ops + [op], answers + [answer])
  {
    var (next, answer) := MapStep(m, op);
    forall u, h ensures Holds(next, u, h) <==> Accepted(ops + [op], answers + [answer], |ops| + 1, u, h) {
      AcceptedSnoc(ops, answers, op, answer, |ops|, u, h);
    }
  }

  lemma TakenIff(m: map<string, string>, ops: seq<Op>, answers: seq<Status>, u: string)
    requires AccountsAre(m, ops, answers)
    ensures Taken(ops, answers, |ops|, u) <==> u in m
  {
    if u in m {
      assert Holds(m, u, m[u]);
    }
  }

  lemma TakenSnoc(ops: seq<Op>, answers: seq<Status>, op: Op, answer: Status, n: nat, u: string)
    requires |answers| == |ops| && n <= |ops|
    ensures Taken(ops + [op], answers + [answer], n, u) <==> Taken(ops, answers, n, u)
  {
    forall h ensures Accepted(ops + [op], answers + [answer], n, u, h) <==> Accepted(ops, answers, n, u, h) {
      AcceptedSnoc(ops, answers, op, answer, n, u, h);
    }
  }

  lemma LastFits(ops: seq<Op>, answers: seq<Status>, m: map<string, string>, op: Op)
    requires |answers| == |ops| && AccountsAre(m, ops, answers)
    ensures AnswerFits(ops + [op], answers + [MapStep(m, op).1], |ops|)
  {
    var answer := MapStep(m, op).1;
    TakenIff(m, ops, answers, op.username);
    TakenSnoc(ops, answers, op, answer, |ops|, op.username);
    AcceptedSnoc(ops, answers, op, answer, |ops|, op.username, op.hash);
    assert (ops + [op])[|ops|] == op && (answers + [answer])[|ops|] == answer;
  }

  lemma EarlierFits(ops: seq<Op>, answers: seq<Status>, op: Op, answer: Status, i: nat)
    requires |answers| == |ops| && i < |ops| && AnswerFits(ops, answers, i)
    ensures AnswerFits(ops + [op], answers + [answer], i)
  {
    TakenSnoc(ops, answers, op, answer, i, ops[i].username);
    AcceptedSnoc(ops, answers, op, answer, i, ops[i].username, ops[i].hash);
    assert (ops + [op])[i] == ops[i] && (answers + [answer])[i] == answers[i];
  }

  lemma {:induction false} MapAnswersFit(ops: seq<Op>)
    ensures var (m, answers) := MapRun(map[], ops);
        |answers| == |ops| && AccountsAre(m, ops, answers) && forall i: nat :: i < |ops| ==> AnswerFits(ops, answers, i)
    decreases |ops|
  {
    if ops != [] {
      var front, op := ops[..|ops| - 1], ops[|ops| - 1];
      assert ops == front + [op];
      MapAnswersFit(front);
      MapRunSnoc(map[], front, op);
      var (m, answers) := MapRun(map[], front);
      StepAccounts(front, answers, m, op);
      LastFits(front, answers, m, op);
      forall i: nat | i < |front| ensures AnswerFits(ops, answers + [MapStep(m, op).1], i) {
        EarlierFits(front, answers, op, MapStep(m, op).1, i);
      }
    }
  }

  // From an empty file: a register succeeds for a valid name exactly if none of that
  // name succeeded before, a login exactly with the hash that was registered, and a
  // name that was never registered is not found.
  lemma AnswersFit(ops: seq<Op>, i: nat)
    requires (forall k :: 0 <= k < |ops| ==> OpFits(ops[k])) && i < |ops|
    ensures var answers := FileRun("", ops).1; |answers| == |ops| && AnswerFits(ops, answers, i)
  {
    var last := EmptyFileRun(ops);
    MapAnswersFit(ops);
  }

  // A user exists in a file exactly if the map has the name.
  lemma ExistsIffInMap(file: string, entries: seq<Entry>, accounts: map<string, string>, u: string)
    requires Represents(file, entries, accounts)
    ensures Exists(file, u) <==> ValidUsername(u) && u in accounts
  {
    ScanIsMap(file, entries, accounts, u);
  }

  // After any requests on an empty file, a user exists exactly if some register of
  // that name was accepted.
  lemma ExistsIffAccepted(ops: seq<Op>, u: string)
    requires forall k :: 0 <= k < |ops| ==> OpFits(ops[k])
    ensures var (file, answers) := FileRun("", ops); Exists(file, u) <==> Taken(ops, answers, |ops|, u)
  {
    var last := EmptyFileRun(ops);
    var (file, answers) := FileRun("", ops);
    var m := MapRun(map[], ops).0;
    MapAnswersFit(ops);
    ExistsIffInMap(file, last, m, u);
    TakenIff(m, ops, answers, u);
    if u in m {
      assert Names(last, u);
      var i :| 0 <= i < |last| && last[i].username == u;
      assert GoodEntry(last[i]);
    }
  }
}
