// The 32-slot table of online users, app/server/server.c. Every operation runs
// under g_online_users_lock, so each method is one atomic step.
module OnlineTable {

  const MaxOnlineUsers := 32

  datatype Slot = Slot(active: bool, fd: nat, username: string)

  const EmptySlot := Slot(false, 0, "")

  // The table as a map from usernames to descriptors.
  function Online(slots: seq<Slot>): map<string, nat> {
    if slots == [] then map[]
    else
      var last := slots[|slots| - 1];
      var before := Online(slots[..|slots| - 1]);
      if last.active then before[last.username := last.fd] else before
  }

  function ActiveCount(slots: seq<Slot>): nat {
    if slots == [] then 0
    else ActiveCount(slots[..|slots| - 1]) + if slots[|slots| - 1].active then 1 else 0
  }

  // At most one active slot per username.
  ghost predicate Distinct(slots: seq<Slot>) {
    forall i, j :: 0 <= i < j < |slots| && slots[i].active && slots[j].active ==> slots[i].username != slots[j].username
  }

  ghost predicate ActiveAt(slots: seq<Slot>, username: string, i: nat) {
    i < |slots| && slots[i].active && slots[i].username == username
  }

  lemma {:induction false} OnlineMembers(slots: seq<Slot>, username: string)
    requires Distinct(slots)
    ensures username in Online(slots) <==> exists i: nat :: ActiveAt(slots, username, i)
    ensures forall i: nat :: ActiveAt(slots, username, i) ==> Online(slots)[username] == slots[i].fd
  {
    if slots != [] {
      var n := |slots| - 1;
      var before := slots[..n];
      OnlineMembers(before, username);
      forall i: nat | ActiveAt(slots, username, i)
        ensures username in Online(slots) && Online(slots)[username] == slots[i].fd
      {
        if i < n {
          assert ActiveAt(before, username, i);
        }
      }
      if username in Online(slots) {
        if slots[n].active && slots[n].username == username {
          assert ActiveAt(slots, username, n);
        } else {
          var i: nat :| ActiveAt(before, username, i);
          assert ActiveAt(slots, username, i);
        }
      }
    }
  }

  lemma {:induction false} OnlineCount(slots: seq<Slot>)
    requires Distinct(slots)
    ensures |Online(slots)| == ActiveCount(slots) <= |slots|
    ensures ActiveCount(slots) == |slots| <==> forall i :: 0 <= i < |slots| ==> slots[i].active
  {
    if slots != [] {
      var n := |slots| - 1;
      OnlineCount(slots[..n]);
      OnlineMembers(slots[..n], slots[n].username);
      if slots[n].active {
        forall i: nat ensures !ActiveAt(slots[..n], slots[n].username, i) {
        }
      }
      assert forall i :: 0 <= i < n ==> slots[..n][i] == slots[i];
    }
  }

  // Two duplicate-free tables with the same active entries are the same map.
  lemma OnlineAfter(slots: seq<Slot>, after: seq<Slot>, m: map<string, nat>)
    requires Distinct(after)
    requires forall u :: u in m <==> exists i: nat :: ActiveAt(after, u, i)
    requires forall u: string, i: nat :: ActiveAt(after, u, i) ==> u in m && m[u] == after[i].fd
    ensures Online(after) == m
  {
    forall u ensures u in Online(after) <==> u in m {
      OnlineMembers(after, u);
    }
    forall u | u in m ensures Online(after)[u] == m[u] {
      OnlineMembers(after, u);
      var i: nat :| ActiveAt(after, u, i);
    }
  }

  lemma FillSlot(slots: seq<Slot>, k: nat, username: string, fd: nat)
    requires Distinct(slots) && k < |slots| && !slots[k].active
    requires forall i: nat :: !ActiveAt(slots, username, i)
    ensures var after := slots[k := Slot(true, fd, username)];
      Distinct(after) && Online(after) == Online(slots)[username := fd]
  {
    var after := slots[k := Slot(true, fd, username)];
    var m := Online(slots)[username := fd];
    assert Distinct(after) by {
      forall i, j | 0 <= i < j < |after| && after[i].active && after[j].active ensures after[i].username != after[j].username {
        if i == k {
          assert !ActiveAt(slots, username, j);
        } else if j == k {
          assert !ActiveAt(slots, username, i);
        }
      }
    }
    forall u: string ensures u in m <==> exists i: nat :: ActiveAt(after, u, i) {
      OnlineMembers(slots, u);
      if u == username {
        assert ActiveAt(after, u, k);
      } else if u in m {
        var i: nat :| ActiveAt(slots, u, i);
        assert ActiveAt(after, u, i);
      } else {
        forall i: nat ensures !ActiveAt(after, u, i) {
          assert ActiveAt(after, u, i) ==> ActiveAt(slots, u, i);
        }
      }
    }
    forall u: string, i: nat | ActiveAt(after, u, i) ensures u in m && m[u] == after[i].fd {
      OnlineMembers(slots, u);
      if i != k {
        assert ActiveAt(slots, u, i);
      }
    }
    OnlineAfter(slots, after, m);
  }

  lemma ClearSlot(slots: seq<Slot>, k: nat, username: string)
    requires Distinct(slots) && ActiveAt(slots, username, k)
    ensures var after := slots[k := EmptySlot];
      Distinct(after) && Online(after) == Online(slots) - {username}
  {
    var after := slots[k := EmptySlot];
    var m := Online(slots) - {username};
    forall u: string, i: nat | ActiveAt(after, u, i) ensures u in m && m[u] == after[i].fd {
      OnlineMembers(slots, u);
      assert ActiveAt(slots, u, i);
    }
    forall u: string ensures u in m <==> exists i: nat :: ActiveAt(after, u, i) {
      OnlineMembers(slots, u);
      if u in m {
        var i: nat :| ActiveAt(slots, u, i);
        assert ActiveAt(after, u, i);
      }
    }
    OnlineAfter(slots, after, m);
  }

  class Table {
    const slots: array<Slot>

    ghost predicate Valid()
      reads this, slots
    {
      slots.Length == MaxOnlineUsers && Distinct(slots[..])
    }

    ghost function Users(): map<string, nat>
      reads this, slots
    {
      Online(slots[..])
    }

    constructor ()
      ensures Valid() && Users() == map[] && fresh(slots)
    {
      slots := new Slot[MaxOnlineUsers](_ => EmptySlot);
      new;
      AllInactive(slots[..]);
    }

    // find_online_user_index.
    method FindIndex(username: string) returns (index: int)
      requires Valid()
      ensures -1 <= index < MaxOnlineUsers
      ensures index >= 0 ==> ActiveAt(slots[..], username, index) && username in Users() && Users()[username] == slots[index].fd
      ensures index == -1 ==> username !in Users() && forall i: nat :: !ActiveAt(slots[..], username, i)
    {
      index := 0;
      while index < MaxOnlineUsers
        invariant 0 <= index <= MaxOnlineUsers
        invariant forall i :: 0 <= i < index ==> !ActiveAt(slots[..], username, i)
      {
        if slots[index].active && slots[index].username == username {
          assert ActiveAt(slots[..], username, index);
          OnlineMembers(slots[..], username);
          return;
        }
        index := index + 1;
      }
      OnlineMembers(slots[..], username);
      return -1;
    }

    // register_online_user: refused when the name is online or no slot is free.
    method Register(username: string, fd: nat) returns (done: bool)
      requires Valid()
      modifies slots
      ensures Valid()
      ensures done == (username !in old(Users()) && |old(Users())| < MaxOnlineUsers)
      ensures Users() == if done then old(Users())[username := fd] else old(Users())
    {
      var found := FindIndex(username);
      if found >= 0 {
        return false;
      }
      OnlineCount(slots[..]);
      var index := 0;
      while index < MaxOnlineUsers
        invariant 0 <= index <= MaxOnlineUsers
        invariant slots[..] == old(slots[..])
        invariant forall i :: 0 <= i < index ==> slots[i].active
      {
        if !slots[index].active {
          FillSlot(slots[..], index, username, fd);
          slots[index] := Slot(true, fd, username);
          return true;
        }
        index := index + 1;
      }
      return false;
    }

    // unregister_online_user.
    method Unregister(username: string)
      requires Valid()
      modifies slots
      ensures Valid()
      ensures Users() == if username == "" then old(Users()) else old(Users()) - {username}
    {
      if username == "" {
        return;
      }
      var index := FindIndex(username);
      if index >= 0 {
        ClearSlot(slots[..], index, username);
        slots[index] := EmptySlot;
      }
    }

    // get_online_user_fd.
    method GetFd(username: string) returns (fd: int)
      requires Valid()
      ensures fd == if username in Users() then Users()[username] else -1
    {
      var index := FindIndex(username);
      fd := if index >= 0 then slots[index].fd else -1;
    }
  }

  lemma {:induction false} AllInactive(slots: seq<Slot>)
    requires forall i :: 0 <= i < |slots| ==> !slots[i].active
    ensures Online(slots) == map[]
  {
    if slots != [] {
      AllInactive(slots[..|slots| - 1]);
    }
  }
}
