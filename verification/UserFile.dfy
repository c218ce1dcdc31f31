// The user file of the C chat server, app/server/server_protocol.c: one
// "username:hash" line per account, appended by registration and scanned with
// fgets and sscanf by every lookup.
module UserFile {
  import opened Options

  const MaxUsername := 32
  const MaxPassword := 64
  const LineBuffer := MaxUsername + MaxPassword + 8

  datatype Status = Ok | AuthFailed | InvalidRequest | UserExists | UserNotFound | RegisterSuccess

  datatype Entry = Entry(username: string, hash: string)

  // ---------------------------------------------------------------------
  // The C library, as far as this file uses it.

  // isspace in the C locale: space, \t, \n, \v, \f and \r.
  predicate IsSpace(c: char) {
    c == ' ' || c == '\t' || c == '\n' || c as int == 11 || c as int == 12 || c == '\r'
  }

  predicate IsAlnum(c: char) {
    'a' <= c <= 'z' || 'A' <= c <= 'Z' || '0' <= c <= '9'
  }

  // fgets with a buffer of size bytes: through the next newline, at most size - 1.
  function LineEnd(file: string, pos: nat, room: nat): (end: nat)
    requires pos <= |file|
    ensures pos <= end <= |file| && end <= pos + room
    ensures pos < |file| && room > 0 ==> end > pos
    decreases room
  {
    if pos == |file| || room == 0 then pos
    else if file[pos] == '\n' then pos + 1
    else LineEnd(file, pos + 1, room - 1)
  }

  function Gets(file: string, pos: nat): (end: nat)
    requires pos < |file|
    ensures pos < end <= |file|
  {
    LineEnd(file, pos, LineBuffer - 1)
  }

  // The longest run from pos of at most limit characters satisfying a scanset.
  function NotColonRun(s: string, pos: nat, limit: nat): (end: nat)
    requires pos <= |s|
    ensures pos <= end <= |s| && end <= pos + limit
    decreases limit
  {
    if pos == |s| || limit == 0 || s[pos] == ':' then pos else NotColonRun(s, pos + 1, limit - 1)
  }

  function SkipSpace(s: string, pos: nat): (end: nat)
    requires pos <= |s|
    ensures pos <= end <= |s|
    decreases |s| - pos
  {
    if pos == |s| || !IsSpace(s[pos]) then pos else SkipSpace(s, pos + 1)
  }

  function WordRun(s: string, pos: nat, limit: nat): (end: nat)
    requires pos <= |s|
    ensures pos <= end <= |s| && end <= pos + limit
    decreases limit
  {
    if pos == |s| || limit == 0 || IsSpace(s[pos]) then pos else WordRun(s, pos + 1, limit - 1)
  }

  // sscanf(line, "%31[^:]:%63s", ..) == 2.
  function Parse(line: string): Option<Entry> {
    var a := NotColonRun(line, 0, MaxUsername - 1);
    if a == 0 || a == |line| || line[a] != ':' then None
    else
      var b := SkipSpace(line, a + 1);
      var c := WordRun(line, b, MaxPassword - 1);
      if c == b then None else Some(Entry(line[..a], line[b..c]))
  }

  // ---------------------------------------------------------------------
  // Requests.

  predicate ValidChar(c: char) {
    IsAlnum(c) || c == '_' || c == '-' || c == '.'
  }

  predicate ValidUsername(username: string) {
    username != "" && forall i :: 0 <= i < |username| ==> ValidChar(username[i])
  }

  // server_validate_username.
  method ValidateUsername(username: string) returns (valid: bool)
    ensures valid == ValidUsername(username)
  {
    if username == "" {
      return false;
    }
    for i := 0 to |username|
      invariant forall j :: 0 <= j < i ==> ValidChar(username[j])
    {
      var ch := username[i];
      if !(IsAlnum(ch) || ch == '_' || ch == '-' || ch == '.') {
        return false;
      }
    }
    return true;
  }

  // A request field: both are C strings in buffers of 32 and 64 bytes, and what
  // the client sends as a hash holds no white space.
  predicate NoSpace(s: string) {
    forall i :: 0 <= i < |s| ==> !IsSpace(s[i])
  }

  predicate Fits(username: string, hash: string) {
    |username| < MaxUsername && |hash| < MaxPassword && NoSpace(hash)
  }

  // ---------------------------------------------------------------------
  // The scan loops: the first parsed line with this username, from pos on.

  function Scan(file: string, pos: nat, username: string): Option<string>
    requires pos <= |file|
    decreases |file| - pos
  {
    if pos == |file| then None
    else
      var end := Gets(file, pos);
      var parsed := Parse(file[pos..end]);
      if parsed.Some? && parsed.value.username == username then Some(parsed.value.hash)
      else Scan(file, end, username)
  }

  // The file and the three operations on it.
  class UserDb {
    var file: string

    constructor ()
      ensures file == ""
    {
      file := "";
    }

    // The while loop shared by the three operations.
    method Find(username: string) returns (hash: Option<string>)
      ensures hash == Scan(file, 0, username)
    {
      var pos := 0;
      while pos < |file|
        invariant pos <= |file| && Scan(file, pos, username) == Scan(file, 0, username)
      {
        var end := Gets(file, pos);
        var parsed := Parse(file[pos..end]);
        if parsed.Some? && parsed.value.username == username {
          return Some(parsed.value.hash);
        }
        pos := end;
      }
      return None;
    }

    // server_user_exists.
    method UserExists(username: string) returns (found: bool)
      ensures found == Exists(file, username)
    {
      var valid := ValidateUsername(username);
      if !valid {
        return false;
      }
      var hash := Find(username);
      return hash.Some?;
    }

    // server_register_user.
    method RegisterUser(username: string, hash: string) returns (status: Status)
      modifies this
      ensures (file, status) == Register(old(file), username, hash)
    {
      var valid := ValidateUsername(username);
      if !valid || hash == "" {
        return InvalidRequest;
      }
      var stored := Find(username);
      if stored.Some? {
        return Status.UserExists;
      }
      file := file + (username + ":" + hash + "\n");
      return RegisterSuccess;
    }

    // server_validate_login.
    method ValidateLogin(username: string, hash: string) returns (status: Status)
      ensures status == Login(file, username, hash)
    {
      var valid := ValidateUsername(username);
      if !valid || hash == "" {
        return InvalidRequest;
      }
      var stored := Find(username);
      if stored.None? {
        return UserNotFound;
      }
      return if stored.value == hash then Ok else AuthFailed;
    }
  }

  function Print(e: Entry): string {
    e.username + ":" + e.hash + "\n"
  }

  function Exists(file: string, username: string): bool {
    ValidUsername(username) && Scan(file, 0, username).Some?
  }

  function Register(file: string, username: string, hash: string): (string, Status) {
    if !ValidUsername(username) || hash == "" then (file, InvalidRequest)
    else if Scan(file, 0, username).Some? then (file, UserExists)
    else (file + Print(Entry(username, hash)), RegisterSuccess)
  }

  function Login(file: string, username: string, hash: string): Status {
    if !ValidUsername(username) || hash == "" then InvalidRequest
    else
      match Scan(file, 0, username)
      case None => UserNotFound
      case Some(stored) => if stored == hash then Ok else AuthFailed
  }

  // ---------------------------------------------------------------------
  // One line: printing then parsing.

  predicate GoodEntry(e: Entry) {
    ValidUsername(e.username) && e.hash != "" && Fits(e.username, e.hash)
  }

  lemma {:induction false} NotColonRunStops(s: string, pos: nat, limit: nat, end: nat)
    requires pos <= end < |s| && end - pos <= limit && s[end] == ':'
    requires forall i :: pos <= i < end ==> s[i] != ':'
    ensures NotColonRun(s, pos, limit) == end
    decreases end - pos
  {
    if pos < end {
      NotColonRunStops(s, pos + 1, limit - 1, end);
    }
  }

  lemma {:induction false} WordRunStops(s: string, pos: nat, limit: nat, end: nat)
    requires pos <= end <= |s| && end - pos <= limit
    requires end == |s| || end - pos == limit || IsSpace(s[end])
    requires forall i :: pos <= i < end ==> !IsSpace(s[i])
    ensures WordRun(s, pos, limit) == end
    decreases end - pos
  {
    if pos < end {
      WordRunStops(s, pos + 1, limit - 1, end);
    }
  }

  // What a word conversion read is a word.
  lemma {:induction false} WordRunIsWord(s: string, pos: nat, limit: nat)
    requires pos <= |s|
    ensures forall i :: pos <= i < WordRun(s, pos, limit) ==> !IsSpace(s[i])
    decreases limit
  {
    if pos < |s| && limit > 0 && !IsSpace(s[pos]) {
      WordRunIsWord(s, pos + 1, limit - 1);
    }
  }

  // A printed line parses to the entry it came from exactly when the hash holds
  // no white space.
  lemma ParseOfPrint(e: Entry)
    requires ValidUsername(e.username) && |e.username| < MaxUsername
    requires e.hash != "" && |e.hash| < MaxPassword
    ensures Parse(Print(e)) == Some(e) <==> NoSpace(e.hash)
  {
    var line := Print(e);
    var a := |e.username|;
    assert line[..a] == e.username && line[a] == ':';
    NotColonRunStops(line, 0, MaxUsername - 1, a);
    assert line[a + 1..a + 1 + |e.hash|] == e.hash;
    if NoSpace(e.hash) {
      assert line[a + 1] == e.hash[0];
      assert SkipSpace(line, a + 1) == a + 1;
      var end := a + 1 + |e.hash|;
      forall i | a + 1 <= i < end ensures !IsSpace(line[i]) {
        assert line[i] == e.hash[i - a - 1];
      }
      WordRunStops(line, a + 1, MaxPassword - 1, end);
    } else {
      ParsedHashIsWord(line);
    }
  }

  lemma ParsedHashIsWord(line: string)
    ensures Parse(line).Some? ==> NoSpace(Parse(line).value.hash)
  {
    var a := NotColonRun(line, 0, MaxUsername - 1);
    if Parse(line).Some? {
      var b := SkipSpace(line, a + 1);
      WordRunIsWord(line, b, MaxPassword - 1);
      var hash := Parse(line).value.hash;
      assert forall i :: 0 <= i < |hash| ==> hash[i] == line[b + i];
    }
  }

  // ---------------------------------------------------------------------
  // The whole file.

  function PrintAll(entries: seq<Entry>): string {
    if entries == [] then "" else Print(entries[0]) + PrintAll(entries[1..])
  }

  lemma {:induction false} LineEndAtNewline(file: string, pos: nat, room: nat, end: nat)
    requires pos < end <= |file| && end - pos <= room
    requires file[end - 1] == '\n' && forall i :: pos <= i < end - 1 ==> file[i] != '\n'
    ensures LineEnd(file, pos, room) == end
    decreases end - pos
  {
    if pos < end - 1 {
      LineEndAtNewline(file, pos + 1, room - 1, end);
    }
  }

  // Every printed line fits the fgets buffer, so fgets cuts the file exactly
  // where printing joined it.
  lemma FirstLine(e: Entry, rest: string, file: string, pos: nat)
    requires GoodEntry(e) && pos < |file| && file[pos..] == Print(e) + rest
    ensures Gets(file, pos) == pos + |Print(e)|
    ensures file[pos..Gets(file, pos)] == Print(e)
    ensures file[Gets(file, pos)..] == rest
  {
    var line := Print(e);
    var end := pos + |line|;
    forall i | pos <= i < end ensures file[i] == line[i - pos] {
      assert file[i] == file[pos..][i - pos];
    }
    LineEndAtNewline(file, pos, LineBuffer - 1, end);
    assert file[end..] == file[pos..][|line|..];
  }

  // Reading the whole file back, line by line.
  function ParseAll(file: string, pos: nat): seq<Entry>
    requires pos <= |file|
    decreases |file| - pos
  {
    if pos == |file| then []
    else
      var end := Gets(file, pos);
      var parsed := Parse(file[pos..end]);
      (if parsed.Some? then [parsed.value] else []) + ParseAll(file, end)
  }

  predicate AllGood(entries: seq<Entry>) {
    forall i :: 0 <= i < |entries| ==> GoodEntry(entries[i])
  }

  lemma {:induction false} ParseAllOfPrintAll(entries: seq<Entry>, file: string, pos: nat)
    requires AllGood(entries) && pos <= |file| && file[pos..] == PrintAll(entries)
    ensures ParseAll(file, pos) == entries
    decreases |entries|
  {
    if entries == [] {
      assert pos == |file|;
    } else {
      FirstLine(entries[0], PrintAll(entries[1..]), file, pos);
      ParseOfPrint(entries[0]);
      ParseAllOfPrintAll(entries[1..], file, Gets(file, pos));
      assert entries == [entries[0]] + entries[1..];
    }
  }

  // Lookup in the entry list.
  function Lookup(entries: seq<Entry>, username: string): Option<string> {
    if entries == [] then None
    else if entries[0].username == username then Some(entries[0].hash)
    else Lookup(entries[1..], username)
  }

  lemma {:induction false} ScanIsLookup(entries: seq<Entry>, file: string, pos: nat, username: string)
    requires AllGood(entries) && pos <= |file| && file[pos..] == PrintAll(entries)
    ensures Scan(file, pos, username) == Lookup(entries, username)
    decreases |entries|
  {
    if entries == [] {
      assert pos == |file|;
    } else {
      FirstLine(entries[0], PrintAll(entries[1..]), file, pos);
      ParseOfPrint(entries[0]);
      ScanIsLookup(entries[1..], file, Gets(file, pos), username);
    }
  }

  lemma {:induction false} ParsedHashesAreWords(file: string, pos: nat)
    requires pos <= |file|
    ensures forall i :: 0 <= i < |ParseAll(file, pos)| ==> NoSpace(ParseAll(file, pos)[i].hash)
    decreases |file| - pos
  {
    if pos < |file| {
      ParsedHashIsWord(file[pos..Gets(file, pos)]);
      ParsedHashesAreWords(file, Gets(file, pos));
    }
  }

  // What the line loop reads back of one registered entry: that entry, exactly if
  // its hash holds no white space, newlines included.
  lemma EntryReadsBackIff(e: Entry)
    requires ValidUsername(e.username) && |e.username| < MaxUsername
    requires e.hash != "" && |e.hash| < MaxPassword
    ensures ParseAll(Print(e), 0) == [e] <==> NoSpace(e.hash)
  {
    if NoSpace(e.hash) {
      assert PrintAll([e]) == Print(e) + PrintAll([e][1..]);
      assert Print(e)[0..] == PrintAll([e]);
      ParseAllOfPrintAll([e], Print(e), 0);
    } else {
      ParsedHashesAreWords(Print(e), 0);
      assert [e][0].hash == e.hash;
    }
  }

  lemma {:induction false} PrintAllAppend(entries: seq<Entry>, e: Entry)
    ensures PrintAll(entries + [e]) == PrintAll(entries) + Print(e)
  {
    if entries == [] {
      assert entries + [e] == [e];
    } else {
      assert (entries + [e])[1..] == entries[1..] + [e];
      PrintAllAppend(entries[1..], e);
    }
  }

  // ---------------------------------------------------------------------
  // Refinement: the accounts are a map.

  datatype Op = RegisterOp(username: string, hash: string) | LoginOp(username: string, hash: string)

  predicate OpFits(op: Op) {
    Fits(op.username, op.hash)
  }

  function FileStep(file: string, op: Op): (string, Status) {
    match op
    case RegisterOp(u, h) => Register(file, u, h)
    case LoginOp(u, h) => (file, Login(file, u, h))
  }

  function MapStep(accounts: map<string, string>, op: Op): (map<string, string>, Status) {
    if !ValidUsername(op.username) || op.hash == "" then (accounts, InvalidRequest)
    else match op
      case RegisterOp(u, h) =>
        if u in accounts then (accounts, UserExists) else (accounts[u := h], RegisterSuccess)
      case LoginOp(u, h) =>
        if u !in accounts then (accounts, UserNotFound)
        else (accounts, if accounts[u] == h then Ok else AuthFailed)
  }

  function FileRun(file: string, ops: seq<Op>): (string, seq<Status>)
    decreases |ops|
  {
    if ops == [] then (file, [])
    else
      var (next, status) := FileStep(file, ops[0]);
      var (last, rest) := FileRun(next, ops[1..]);
      (last, [status] + rest)
  }

  function MapRun(accounts: map<string, string>, ops: seq<Op>): (map<string, string>, seq<Status>)
    decreases |ops|
  {
    if ops == [] then (accounts, [])
    else
      var (next, status) := MapStep(accounts, ops[0]);
      var (last, rest) := MapRun(next, ops[1..]);
      (last, [status] + rest)
  }

  // The file is the printed list of the map's entries, each name once.
  ghost predicate Represents(file: string, entries: seq<Entry>, accounts: map<string, string>) {
    && file == PrintAll(entries) && AllGood(entries)
    && (forall i, j :: 0 <= i < j < |entries| ==> entries[i].username != entries[j].username)
    && (forall i :: 0 <= i < |entries| ==> entries[i].username in accounts && accounts[entries[i].username] == entries[i].hash)
    && (forall u :: u in accounts ==> Names(entries, u))
  }

  ghost predicate Names(entries: seq<Entry>, username: string) {
    exists i :: 0 <= i < |entries| && entries[i].username == username
  }

  lemma {:induction false} LookupIsMap(entries: seq<Entry>, username: string)
    ensures Lookup(entries, username).None? <==> forall i :: 0 <= i < |entries| ==> entries[i].username != username
    ensures Lookup(entries, username).Some? ==>
      exists i :: 0 <= i < |entries| && entries[i] == Entry(username, Lookup(entries, username).value)
  {
    if entries != [] {
      LookupIsMap(entries[1..], username);
      if entries[0].username == username {
        assert entries[0] == Entry(username, Lookup(entries, username).value);
      } else if Lookup(entries, username).Some? {
        var i :| 0 <= i < |entries[1..]| && entries[1..][i] == Entry(username, Lookup(entries, username).value);
        assert entries[i + 1] == Entry(username, Lookup(entries, username).value);
      } else {
        assert forall i :: 0 < i < |entries| ==> entries[i] == entries[1..][i - 1];
      }
    }
  }

  lemma ScanIsMap(file: string, entries: seq<Entry>, accounts: map<string, string>, username: string)
    requires Represents(file, entries, accounts)
    ensures Scan(file, 0, username) == if username in accounts then Some(accounts[username]) else None
  {
    assert file[0..] == file;
    ScanIsLookup(entries, file, 0, username);
    LookupIsMap(entries, username);
  }

  function EntriesAfter(entries: seq<Entry>, accounts: map<string, string>, op: Op): seq<Entry> {
    if MapStep(accounts, op).1 == RegisterSuccess then entries + [Entry(op.username, op.hash)] else entries
  }

  lemma StepRefines(file: string, entries: seq<Entry>, accounts: map<string, string>, op: Op)
    requires Represents(file, entries, accounts) && OpFits(op)
    ensures FileStep(file, op).1 == MapStep(accounts, op).1
    ensures Represents(FileStep(file, op).0, EntriesAfter(entries, accounts, op), MapStep(accounts, op).0)
  {
    ScanIsMap(file, entries, accounts, op.username);
    if MapStep(accounts, op).1 == RegisterSuccess {
      AppendRepresents(file, entries, accounts, Entry(op.username, op.hash));
    }
  }

  lemma AppendRepresents(file: string, entries: seq<Entry>, accounts: map<string, string>, e: Entry)
    requires Represents(file, entries, accounts) && GoodEntry(e) && e.username !in accounts
    ensures Represents(file + Print(e), entries + [e], accounts[e.username := e.hash])
  {
    PrintAllAppend(entries, e);
    var after := entries + [e];
    assert after[|entries|] == e && Names(after, e.username);
    forall u | u in accounts ensures Names(after, u) {
      NamesStay(entries, e, u);
    }
    NewNameIsDistinct(file, entries, accounts, e);
  }

  lemma NamesStay(entries: seq<Entry>, e: Entry, username: string)
    requires Names(entries, username)
    ensures Names(entries + [e], username)
  {
    var i :| 0 <= i < |entries| && entries[i].username == username;
    assert (entries + [e])[i].username == username;
  }

  lemma NewNameIsDistinct(file: string, entries: seq<Entry>, accounts: map<string, string>, e: Entry)
    requires Represents(file, entries, accounts) && e.username !in accounts
    ensures forall i :: 0 <= i < |entries| ==> entries[i].username != e.username
  {
  }

  // Over any run, every answer is the map's answer, the file reads back as the
  // entries, and no stored hash ever changes.
  lemma {:induction false} RunRefines(file: string, entries: seq<Entry>, accounts: map<string, string>, ops: seq<Op>)
    returns (last: seq<Entry>)
    requires Represents(file, entries, accounts)
    requires forall i :: 0 <= i < |ops| ==> OpFits(ops[i])
    ensures FileRun(file, ops).1 == MapRun(accounts, ops).1
    ensures Represents(FileRun(file, ops).0, last, MapRun(accounts, ops).0)
    ensures entries <= last
    ensures forall u :: u in accounts ==> u in MapRun(accounts, ops).0 && MapRun(accounts, ops).0[u] == accounts[u]
    decreases |ops|
  {
    if ops == [] {
      last := entries;
    } else {
      StepRefines(file, entries, accounts, ops[0]);
      last := RunRefines(FileStep(file, ops[0]).0, EntriesAfter(entries, accounts, ops[0]),
          MapStep(accounts, ops[0]).0, ops[1..]);
    }
  }

  // From an empty file.
  lemma EmptyFileRun(ops: seq<Op>) returns (last: seq<Entry>)
    requires forall i :: 0 <= i < |ops| ==> OpFits(ops[i])
    ensures FileRun("", ops).1 == MapRun(map[], ops).1
    ensures Represents(FileRun("", ops).0, last, MapRun(map[], ops).0)
    ensures ParseAll(FileRun("", ops).0, 0) == last
  {
    last := RunRefines("", [], map[], ops);
    var file := FileRun("", ops).0;
    assert file[0..] == file;
    ParseAllOfPrintAll(last, file, 0);
  }
}
