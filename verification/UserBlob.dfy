/** The packed list of online users: written by the server, parsed by the graphical client. */
module UserBlob {
  import opened Wire
  import opened Endian
  import opened Server
  import opened ServerLaws
  import opened ServerSteps
  import T = ServerTheorems
  import S = Storage

  const RECORD_FIXED_LEN := 13
  const BLOB_CAPACITY := MAX_CLIENTS * (8 + 2 + 2 + S.MAX_USERNAME_LEN + S.MAX_NICKNAME_LEN + 1)

  type Text = s: seq<byte> | |s| <= 0xFFFF

  datatype Record = Record(userId: u64, username: Text, nickname: Text, online: byte)

  function RecordBytes(r: Record): (s: seq<byte>)
    ensures |s| == RECORD_FIXED_LEN + |r.username| + |r.nickname|
  {
    BE64(r.userId) + BE16(|r.username|) + BE16(|r.nickname|) + r.username + r.nickname + [r.online]
  }

  /** The record's layout: user id, two lengths, two names, one byte. */
  lemma RecordLayout(r: Record)
    ensures var s, u, n := RecordBytes(r), |r.username|, |r.nickname|;
      && |s| == 8 + 2 + 2 + u + n + 1
      && s[0..8] == BE64(r.userId) && s[8..10] == BE16(u) && s[10..12] == BE16(n)
      && s[12..12 + u] == r.username && s[12 + u..12 + u + n] == r.nickname && s[12 + u + n] == r.online
  {
    hide BE64, BE16;
  }

  function Blob(records: seq<Record>): seq<byte>
  {
    if records == [] then [] else RecordBytes(records[0]) + Blob(records[1..])
  }

  lemma {:induction false} BlobSnoc(records: seq<Record>, r: Record)
    ensures Blob(records + [r]) == Blob(records) + RecordBytes(r)
  {
    hide RecordBytes;
    if records == [] {
      assert Blob([r]) == RecordBytes(r) + Blob([]);
    } else {
      BlobSnoc(records[1..], r);
      assert (records + [r])[1..] == records[1..] + [r];
    }
  }

  // ----- parsing -----

  predicate HasRecord(b: seq<byte>)
  {
    |b| >= RECORD_FIXED_LEN && RecordLen(b) <= |b|
  }

  function RecordLen(b: seq<byte>): nat
    requires |b| >= RECORD_FIXED_LEN
  {
    RECORD_FIXED_LEN + FromBE16(b[8..10]) + FromBE16(b[10..12])
  }

  function FirstRecord(b: seq<byte>): Record
    requires HasRecord(b)
  {
    var n := 12 + FromBE16(b[8..10]);
    Record(FromBE64(b[..8]), b[12..n], b[n..RecordLen(b) - 1], b[RecordLen(b) - 1])
  }

  /** The records up to the end, or up to the first that is cut short. */
  datatype Parsed = Parsed(users: seq<Record>, ok: bool)

  function Parse(b: seq<byte>): Parsed
    decreases |b|
  {
    if b == [] then Parsed([], true)
    else if !HasRecord(b) then Parsed([], false)
    else
      var rest := Parse(b[RecordLen(b)..]);
      Parsed([FirstRecord(b)] + rest.users, rest.ok)
  }

  lemma FirstOfWritten(r: Record, rest: seq<byte>)
    ensures var b := RecordBytes(r) + rest;
      HasRecord(b) && RecordLen(b) == |RecordBytes(r)| && FirstRecord(b) == r && b[RecordLen(b)..] == rest
  {
    hide BE64, BE16, FromBE64, FromBE16;
    var b := RecordBytes(r) + rest;
    assert b[..8] == BE64(r.userId);
    assert b[8..10] == BE16(|r.username|);
    assert b[10..12] == BE16(|r.nickname|);
    BE64Inverse(r.userId, b[..8]);
    BE16Inverse(|r.username|, b[8..10]);
    BE16Inverse(|r.nickname|, b[10..12]);
    var n := 12 + |r.username|;
    assert b[12..n] == r.username && b[n..n + |r.nickname|] == r.nickname;
  }

  lemma WrittenOfFirst(b: seq<byte>)
    requires HasRecord(b)
    ensures RecordBytes(FirstRecord(b)) == b[..RecordLen(b)]
  {
    BE64Inverse(0, b[..8]);
    BE16Inverse(0, b[8..10]);
    BE16Inverse(0, b[10..12]);
    var n, m := 12 + FromBE16(b[8..10]), RecordLen(b) - 1;
    calc {
      b[..RecordLen(b)];
      b[..8] + b[8..10] + b[10..12] + b[12..n] + b[n..m] + [b[m]];
    }
  }

  /** The parser accepts exactly what the writer produces, and gets back exactly what was written. */
  lemma {:induction false} ParsesExactlyWritten(b: seq<byte>, records: seq<Record>)
    ensures Parse(b) == Parsed(records, true) <==> b == Blob(records)
    decreases |b|
  {
    hide RecordBytes, HasRecord, RecordLen, FirstRecord;
    if b == [] {
      if records != [] { assert |RecordBytes(records[0])| > 0; }
    } else {
      if records != [] && b == Blob(records) { FirstOfWritten(records[0], Blob(records[1..])); }
      if HasRecord(b) {
        RecordLenPositive(b);
        WrittenOfFirst(b);
        assert b == b[..RecordLen(b)] + b[RecordLen(b)..];
        if records != [] { ParsesExactlyWritten(b[RecordLen(b)..], records[1..]); }
        if Parse(b) == Parsed(records, true) { assert records[1..] == Parse(b[RecordLen(b)..]).users; }
        if b == Blob(records) { assert records == [records[0]] + records[1..]; }
      }
    }
  }

  lemma RecordLenPositive(b: seq<byte>)
    requires HasRecord(b)
    ensures 0 < RecordLen(b) <= |b|
  {
  }

  /** The record at an offset, in terms of the integers read there. */
  lemma RecordAt(blob: seq<byte>, offset: nat, userId: u64, u: u16, n: u16)
    requires offset + RECORD_FIXED_LEN <= |blob|
    requires BE64(userId) == blob[offset..offset + 8]
    requires BE16(u) == blob[offset + 8..offset + 10] && BE16(n) == blob[offset + 10..offset + 12]
    ensures var b, end := blob[offset..], offset + RECORD_FIXED_LEN + u + n;
      && (HasRecord(b) <==> end <= |blob|)
      && (end <= |blob| ==>
            && b[RecordLen(b)..] == blob[end..]
            && FirstRecord(b) == Record(userId, blob[offset + 12..offset + 12 + u], blob[offset + 12 + u..end - 1],
                blob[end - 1]))
  {
    var b := blob[offset..];
    assert blob[offset..offset + 8] == b[..8] && blob[offset + 8..offset + 10] == b[8..10]
        && blob[offset + 10..offset + 12] == b[10..12];
    BE64Inverse(userId, b[..8]);
    BE16Inverse(u, b[8..10]);
    BE16Inverse(n, b[10..12]);
  }

  lemma ParseStep(blob: seq<byte>, offset: nat, end: nat, users: seq<Record>)
    requires offset < end <= |blob| && HasRecord(blob[offset..])
        && blob[offset..][RecordLen(blob[offset..])..] == blob[end..]
    ensures var p, rest := Parse(blob[offset..]), Parse(blob[end..]);
      Parsed(users + p.users, p.ok) == Parsed((users + [FirstRecord(blob[offset..])]) + rest.users, rest.ok)
  {
    hide HasRecord, RecordLen, FirstRecord;
  }

  /** A record that is cut short ends the parse. */
  lemma CutShort(blob: seq<byte>, offset: nat, users: seq<Record>)
    requires offset < |blob| && (|blob| - offset < RECORD_FIXED_LEN || !HasRecord(blob[offset..]))
    ensures var p := Parse(blob[offset..]); users + p.users == users && !p.ok
  {
  }

  /** A user as the client shows it; how name bytes become text is up to `fromUtf8`. */
  datatype ShownUser = ShownUser(userId: u64, username: string, nickname: string, online: bool)

  function ShownOf(r: Record, fromUtf8: seq<byte> -> string): ShownUser
  {
    ShownUser(r.userId, fromUtf8(r.username), fromUtf8(r.nickname), r.online != 0)
  }

  function Shown(records: seq<Record>, fromUtf8: seq<byte> -> string): (users: seq<ShownUser>)
    ensures |users| == |records| && forall k :: 0 <= k < |records| ==> users[k] == ShownOf(records[k], fromUtf8)
  {
    if records == [] then []
    else Shown(records[..|records| - 1], fromUtf8) + [ShownOf(records[|records| - 1], fromUtf8)]
  }

  /** The record at an offset and where the next one starts, or nothing when it is cut short. */
  method ReadRecord(blob: seq<byte>, offset: nat) returns (record: Option<Record>, next: nat)
    requires offset < |blob|
    ensures record.None? ==> !HasRecord(blob[offset..])
    ensures record.Some? ==>
      && offset < next <= |blob| && HasRecord(blob[offset..])
      && record.value == FirstRecord(blob[offset..]) && blob[offset..][RecordLen(blob[offset..])..] == blob[next..]
  {
    hide HasRecord, RecordLen, FirstRecord, BE64, BE16;
    next := offset;
    if |blob| - next < 13 {
      TooShort(blob[offset..]);
      return None, next;
    }
    var s0, userId := ReadU64(blob, next);
    var s1, usernameLen := ReadU16(blob, next + 8);
    var s2, nicknameLen := ReadU16(blob, next + 10);
    RecordAt(blob, offset, userId, usernameLen, nicknameLen);
    next := next + 12;
    if usernameLen > |blob| - next {
      return None, next;
    }
    var username := blob[next..next + usernameLen];
    next := next + usernameLen;
    if nicknameLen > |blob| - next {
      return None, next;
    }
    var nickname := blob[next..next + nicknameLen];
    next := next + nicknameLen;
    if |blob| - next < 1 {
      return None, next;
    }
    var online := blob[next];
    next := next + 1;
    record := Some(Record(userId, username, nickname, online));
  }

  lemma TooShort(b: seq<byte>)
    requires |b| < RECORD_FIXED_LEN
    ensures !HasRecord(b)
  {
  }

  method ParseUserBlob(blob: seq<byte>, fromUtf8: seq<byte> -> string) returns (ok: bool, users: seq<ShownUser>)
    ensures ok == Parse(blob).ok && users == Shown(Parse(blob).users, fromUtf8)
  {
    hide HasRecord, RecordLen, FirstRecord, Parse, Shown;
    var offset := 0;
    ghost var records := [];
    users := Shown([], fromUtf8);
    NothingParsed(blob);
    while offset < |blob|
      invariant offset <= |blob|
      invariant var rest := Parse(blob[offset..]); Parse(blob) == Parsed(records + rest.users, rest.ok)
      invariant users == Shown(records, fromUtf8)
      decreases |blob| - offset
    {
      var record, next := ReadRecord(blob, offset);
      if record.None? {
        CutShort(blob, offset, records);
        return false, users;
      }
      ParseStep(blob, offset, next, records);
      ShownSnoc(records, record.value, fromUtf8);
      users := users + [ShownOf(record.value, fromUtf8)];
      records := records + [record.value];
      offset := next;
    }
    NothingLeft(blob[offset..], records);
    return true, users;
  }

  lemma ShownSnoc(records: seq<Record>, r: Record, fromUtf8: seq<byte> -> string)
    ensures Shown(records + [r], fromUtf8) == Shown(records, fromUtf8) + [ShownOf(r, fromUtf8)]
  {
  }

  lemma NothingLeft(b: seq<byte>, users: seq<Record>)
    requires b == []
    ensures users + Parse(b).users == users && Parse(b).ok
  {
  }

  lemma NothingParsed(blob: seq<byte>)
    ensures blob[0..] == blob && [] + Parse(blob).users == Parse(blob).users
  {
  }

  // ----- writing -----

  /** At most 64 characters of a name, as the bytes they are stored in. */
  function NameBytes(name: string): (s: Text)
    ensures |s| == Min(|name|, S.MAX_USERNAME_LEN)
  {
    var n := Min(|name|, S.MAX_USERNAME_LEN);
    seq(n, i requires 0 <= i < n => (name[i] as int) % 0x100)
  }

  predicate IsWide(u: OnlineUser)
  {
    u.userId < 0x1_0000_0000_0000_0000
  }

  predicate HasWideIds(clients: seq<Client>)
  {
    forall k :: 0 <= k < |clients| && clients[k].authenticated ==> IsWide(UserOf(clients[k]))
  }

  function RecordOf(u: OnlineUser): Record
    requires IsWide(u)
  {
    Record(u.userId, NameBytes(u.username), [], 1)
  }

  function RecordsOf(users: seq<OnlineUser>): (records: seq<Record>)
    requires forall k :: 0 <= k < |users| ==> IsWide(users[k])
    ensures |records| == |users| && forall k :: 0 <= k < |users| ==> records[k] == RecordOf(users[k])
  {
    if users == [] then [] else RecordsOf(users[..|users| - 1]) + [RecordOf(users[|users| - 1])]
  }

  lemma {:induction false} OnlineAreWide(clients: seq<Client>, i: nat, k: nat)
    requires k <= |clients| && HasWideIds(clients)
    ensures forall n :: 0 <= n < |OnlineBelow(clients, i, k)| ==> IsWide(OnlineBelow(clients, i, k)[n])
  {
    if k == 0 {
    } else {
      OnlineAreWide(clients, i, k - 1);
    }
  }

  /** The records listed for slot `i`, up to slot `k`. */
  function Listed(clients: seq<Client>, i: nat, k: nat): (records: seq<Record>)
    requires k <= |clients| && HasWideIds(clients)
  {
    OnlineAreWide(clients, i, k);
    RecordsOf(OnlineBelow(clients, i, k))
  }

  /** One record, if it fits in what is left of the buffer. */
  method WriteUserRecord(buffer: array<byte>, offset: nat, client: Client) returns (status: Status, next: nat)
    requires IsWide(UserOf(client))
    modifies buffer
    ensures var n := |RecordBytes(RecordOf(UserOf(client)))|;
      && (status == OK <==> offset + n <= buffer.Length)
      && next == (if status == OK then offset + n else offset)
    ensures status == OK ==> buffer[..] == Splice(old(buffer[..]), offset, RecordBytes(RecordOf(UserOf(client))))
    ensures status != OK ==> buffer[..] == old(buffer[..])
    ensures status == OK ==> buffer[..next] == old(buffer[..])[..offset] + RecordBytes(RecordOf(UserOf(client)))
  {
    hide Splice, BE64, BE16, NameBytes;
    var name := NameBytes(client.username);
    if offset > buffer.Length || 8 + 2 + 2 + |name| + 1 > buffer.Length - offset {
      return BufferTooSmall, offset;
    }
    ghost var b0 := buffer[..];
    var s0 := WriteU64(buffer, offset, client.userId);
    var s1 := WriteU16(buffer, offset + 8, |name|);
    var s2 := WriteU16(buffer, offset + 10, 0);
    CopyInto(buffer, offset + 12, name);
    ghost var b4 := buffer[..];
    next := offset + 12 + |name|;
    buffer[next] := 1;
    assert buffer[..] == b4[next := 1];
    next := next + 1;
    WrittenInParts(b0, offset, RecordOf(UserOf(client)), buffer[..]);
    status := OK;
  }

  /** The five stores of a record, one after the other. */
  lemma WrittenInParts(b0: seq<byte>, offset: nat, r: Record, after: seq<byte>)
    requires r.nickname == [] && r.online == 1 && offset + |RecordBytes(r)| <= |b0|
    requires var b1 := Splice(b0, offset, BE64(r.userId));
      var b2 := Splice(b1, offset + 8, BE16(|r.username|));
      var b3 := Splice(b2, offset + 10, BE16(0));
      var b4 := Splice(b3, offset + 12, r.username);
      after == b4[offset + 12 + |r.username| := 1]
    ensures after == Splice(b0, offset, RecordBytes(r))
        && after[..offset + |RecordBytes(r)|] == b0[..offset] + RecordBytes(r)
  {
    hide Splice, BE64, BE16, RecordBytes;
    var n := |r.username|;
    var b1 := Splice(b0, offset, BE64(r.userId));
    var b2 := Splice(b1, offset + 8, BE16(n));
    var b3 := Splice(b2, offset + 10, BE16(0));
    var b4 := Splice(b3, offset + 12, r.username);
    SpliceEnds(b0, offset, BE64(r.userId));
    SpliceEnds(b1, offset + 8, BE16(n));
    SpliceEnds(b2, offset + 10, BE16(0));
    SpliceEnds(b3, offset + 12, r.username);
    assert after[..offset + 13 + n] == b4[..offset + 12 + n] + [1];
    RecordFromParts(b0[..offset], r, after[..offset + 13 + n]);
    RestKept(b0, b1, b2, b3, b4, offset, n);
    assert after[offset + 13 + n..] == b4[offset + 13 + n..];
    WholeBuffer(b0, after, offset, RecordBytes(r));
  }

  lemma RestKept(b0: seq<byte>, b1: seq<byte>, b2: seq<byte>, b3: seq<byte>, b4: seq<byte>, offset: nat, n: nat)
    requires |b0| == |b1| == |b2| == |b3| == |b4| && offset + 13 + n <= |b0|
    requires b1[offset + 8..] == b0[offset + 8..] && b2[offset + 10..] == b1[offset + 10..]
    requires b3[offset + 12..] == b2[offset + 12..] && b4[offset + 12 + n..] == b3[offset + 12 + n..]
    ensures b4[offset + 13 + n..] == b0[offset + 13 + n..]
  {
    var k := offset + 13 + n;
    assert b1[k..] == b1[offset + 8..][5 + n..] && b0[k..] == b0[offset + 8..][5 + n..];
    assert b2[k..] == b2[offset + 10..][3 + n..] && b1[k..] == b1[offset + 10..][3 + n..];
    assert b3[k..] == b3[offset + 12..][1 + n..] && b2[k..] == b2[offset + 12..][1 + n..];
    assert b4[k..] == b4[offset + 12 + n..][1..] && b3[k..] == b3[offset + 12 + n..][1..];
  }

  lemma WholeBuffer(before: seq<byte>, after: seq<byte>, at: nat, part: seq<byte>)
    requires |after| == |before| && at + |part| <= |before|
    requires after[..at + |part|] == before[..at] + part && after[at + |part|..] == before[at + |part|..]
    ensures after == Splice(before, at, part)
  {
    assert after == after[..at + |part|] + after[at + |part|..];
  }

  lemma RecordFromParts(before: seq<byte>, r: Record, after: seq<byte>)
    requires r.nickname == []
        && after == before + BE64(r.userId) + BE16(|r.username|) + BE16(0) + r.username + [r.online]
    ensures after == before + RecordBytes(r)
  {
    hide BE64, BE16;
  }

  lemma BlobStep(clients: seq<Client>, i: nat, k: nat)
    requires k < |clients| && HasWideIds(clients)
    ensures var c := clients[k];
      Blob(Listed(clients, i, k + 1))
        == Blob(Listed(clients, i, k))
            + (if k != i && c.isOpen && c.authenticated then RecordBytes(RecordOf(UserOf(c))) else [])
  {
    hide Blob, RecordBytes, RecordOf;
    var c, users := clients[k], OnlineBelow(clients, i, k);
    if k != i && c.isOpen && c.authenticated {
      BlobSnoc(Listed(clients, i, k), RecordOf(UserOf(c)));
      assert (users + [UserOf(c)])[..|users|] == users;
    } else {
      assert OnlineBelow(clients, i, k + 1) == users;
    }
  }

  lemma {:induction false} BlobFits(clients: seq<Client>, i: nat, k: nat)
    requires k <= |clients| && HasWideIds(clients)
    ensures |Blob(Listed(clients, i, k))| <= (RECORD_FIXED_LEN + S.MAX_USERNAME_LEN) * k
  {
    hide Blob, Listed, RecordBytes, NameBytes, HasWideIds, OnlineBelow;
    if k == 0 {
      NobodyListed(clients, i);
    } else {
      BlobFits(clients, i, k - 1);
      BlobStep(clients, i, k - 1);
    }
  }

  /** The response's user list: the buffer for it is always large enough. */
  method WriteUserBlob(clients: seq<Client>, i: nat, buffer: array<byte>) returns (status: Status, length: nat)
    requires |clients| == MAX_CLIENTS && HasWideIds(clients) && buffer.Length == BLOB_CAPACITY
    modifies buffer
    ensures status == OK && length <= buffer.Length
    ensures buffer[..length] == Blob(Listed(clients, i, MAX_CLIENTS))
  {
    hide RecordBytes, RecordOf, Listed;
    length := 0;
    NobodyListed(clients, i);
    for k := 0 to |clients|
      invariant length <= buffer.Length && buffer[..length] == Blob(Listed(clients, i, k))
    {
      BlobFits(clients, i, k + 1);
      BlobStep(clients, i, k);
      if k != i && clients[k].isOpen && clients[k].authenticated {
        status, length := WriteUserRecord(buffer, length, clients[k]);
      }
    }
    status := OK;
  }

  lemma NobodyListed(clients: seq<Client>, i: nat)
    requires HasWideIds(clients)
    ensures Blob(Listed(clients, i, 0)) == []
  {
  }

  // ----- what a client learns -----

  predicate Names(records: seq<Record>, user: nat)
  {
    exists n :: 0 <= n < |records| && records[n].userId == user
  }

  predicate OtherUser(clients: seq<Client>, i: nat, k: nat, user: nat)
    requires k <= |clients|
  {
    exists j :: 0 <= j < k && j != i && IsUser(clients[j], user)
  }

  lemma {:induction false} OnlineMembers(clients: seq<Client>, i: nat, k: nat, u: OnlineUser)
    requires k <= |clients|
    ensures u in OnlineBelow(clients, i, k) <==>
              exists j :: 0 <= j < k && j != i && IsUser(clients[j], u.userId) && clients[j].username == u.username
  {
    if k == 0 {
    } else {
      OnlineMembers(clients, i, k - 1, u);
      LastOnline(clients, i, k, u);
    }
  }

  lemma LastOnline(clients: seq<Client>, i: nat, k: nat, u: OnlineUser)
    requires 0 < k <= |clients|
    ensures u in OnlineBelow(clients, i, k) <==>
      u in OnlineBelow(clients, i, k - 1)
      || (k - 1 != i && IsUser(clients[k - 1], u.userId) && clients[k - 1].username == u.username)
  {
  }

  predicate DistinctUsers(users: seq<OnlineUser>)
  {
    forall m, n :: 0 <= m < n < |users| ==> users[m].userId != users[n].userId
  }

  lemma OneMoreUser(users: seq<OnlineUser>, u: OnlineUser)
    requires DistinctUsers(users) && forall m :: 0 <= m < |users| ==> users[m].userId != u.userId
    ensures DistinctUsers(users + [u])
  {
  }

  lemma {:induction false} OnlineDistinct(clients: seq<Client>, next: nat, i: nat, k: nat)
    requires k <= |clients| && ClientsOk(clients, next)
    ensures DistinctUsers(OnlineBelow(clients, i, k))
  {
    hide DistinctUsers;
    if k == 0 {
      NobodyTwice();
    } else {
      OnlineDistinct(clients, next, i, k - 1);
      var users, c := OnlineBelow(clients, i, k - 1), clients[k - 1];
      assert users + [] == users;
      if c.authenticated {
        forall m | 0 <= m < |users| ensures users[m].userId != c.userId {
          OnlineMembers(clients, i, k - 1, users[m]);
          var j :| 0 <= j < k - 1 && j != i && IsUser(clients[j], users[m].userId);
          assert Apart(clients[j], c);
        }
        OneMoreUser(users, UserOf(c));
      }
    }
  }

  lemma NobodyTwice()
    ensures DistinctUsers([])
  {
  }

  lemma ClientsAreWide(clients: seq<Client>, next: nat)
    requires ClientsOk(clients, next)
    ensures HasWideIds(clients)
  {
    forall k | 0 <= k < |clients| && clients[k].authenticated ensures IsWide(UserOf(clients[k])) {
      assert ClientOk(clients[k], next);
    }
  }

  /** In every reachable state, the bytes sent for an online list fit the buffer and parse to exactly the
      users logged in on other connections, each once, under their full names, marked online. */
  lemma OnlineListIsExact(events: seq<Event>, i: Slot)
    ensures var s := T.After(events);
      && HasWideIds(s.clients)
      && var records := Listed(s.clients, i, MAX_CLIENTS);
      && |Blob(records)| <= BLOB_CAPACITY && Parse(Blob(records)) == Parsed(records, true)
      && (forall user :: Names(records, user) <==> OtherUser(s.clients, i, MAX_CLIENTS, user))
      && (forall m, n :: 0 <= m < n < |records| ==> records[m].userId != records[n].userId)
      && (forall n :: 0 <= n < |records| ==> IsListing(s.clients, records[n]))
  {
    hide T.After, TablesOk, Blob, Parse, ClientsOk, IsListing, NameBytes;
    T.AfterOk(events);
    var s := T.After(events);
    ClientsAreWide(s.clients, s.nextSession);
    var users, records := OnlineBelow(s.clients, i, MAX_CLIENTS), Listed(s.clients, i, MAX_CLIENTS);
    BlobFits(s.clients, i, MAX_CLIENTS);
    ParsesExactlyWritten(Blob(records), records);
    OnlineDistinct(s.clients, s.nextSession, i, MAX_CLIENTS);
    forall user ensures Names(records, user) <==> OtherUser(s.clients, i, MAX_CLIENTS, user) {
      NamesMeans(s.clients, i, user);
    }
    forall n | 0 <= n < |records| ensures IsListing(s.clients, records[n]) {
      OnlineMembers(s.clients, i, MAX_CLIENTS, users[n]);
      var j :| 0 <= j < MAX_CLIENTS && j != i && IsUser(s.clients[j], users[n].userId)
          && s.clients[j].username == users[n].username;
      ListingOf(s.clients, s.nextSession, j);
      assert users[n] == UserOf(s.clients[j]);
    }
  }

  /** And that is what the client shows, however it decodes names: one online user for each user logged in on
      another connection, under the decoded bytes of its full name. */
  lemma OnlineListIsShown(events: seq<Event>, i: Slot, fromUtf8: seq<byte> -> string)
    ensures var s := T.After(events);
      && HasWideIds(s.clients)
      && var users := Shown(Parse(Blob(Listed(s.clients, i, MAX_CLIENTS))).users, fromUtf8);
      && (forall user: nat :: ShowsId(users, user) <==> OtherUser(s.clients, i, MAX_CLIENTS, user))
      && (forall m, n :: 0 <= m < n < |users| ==> users[m].userId != users[n].userId)
      && (forall n :: 0 <= n < |users| ==> IsShown(s.clients, users[n], fromUtf8))
  {
    hide T.After, Blob, Parse, IsListing, IsShown, OtherUser, HasWideIds, Shown, Listed;
    OnlineListIsExact(events, i);
    var s := T.After(events);
    var records := Listed(s.clients, i, MAX_CLIENTS);
    var users := Shown(records, fromUtf8);
    forall user: nat ensures ShowsId(users, user) <==> Names(records, user) {
      SameIds(records, fromUtf8, user);
    }
    forall n | 0 <= n < |users| ensures IsShown(s.clients, users[n], fromUtf8) {
      ListedIsShown(s.clients, records[n], fromUtf8);
    }
  }

  predicate ShowsId(users: seq<ShownUser>, user: nat)
  {
    exists n :: 0 <= n < |users| && users[n].userId == user
  }

  predicate IsShown(clients: seq<Client>, u: ShownUser, fromUtf8: seq<byte> -> string)
  {
    exists j :: 0 <= j < |clients| && IsUser(clients[j], u.userId)
             && u == ShownUser(u.userId, fromUtf8(NameBytes(clients[j].username)), fromUtf8([]), true)
  }

  lemma SameIds(records: seq<Record>, fromUtf8: seq<byte> -> string, user: nat)
    ensures ShowsId(Shown(records, fromUtf8), user) <==> Names(records, user)
  {
    hide Shown;
    var users := Shown(records, fromUtf8);
    if n :| 0 <= n < |users| && users[n].userId == user { assert records[n].userId == user; }
    if n :| 0 <= n < |records| && records[n].userId == user { assert users[n].userId == user; }
  }

  lemma ListedIsShown(clients: seq<Client>, r: Record, fromUtf8: seq<byte> -> string)
    requires IsListing(clients, r)
    ensures IsShown(clients, ShownOf(r, fromUtf8), fromUtf8)
  {
    hide NameBytes;
    var j :| 0 <= j < |clients| && IsUser(clients[j], r.userId)
        && r == Record(r.userId, NameBytes(clients[j].username), [], 1);
    assert IsUser(clients[j], ShownOf(r, fromUtf8).userId);
  }

  /** A record that shows a logged-in user as online under a name of full length. */
  predicate IsListing(clients: seq<Client>, r: Record)
  {
    exists j :: 0 <= j < |clients| && IsUser(clients[j], r.userId)
        && r == Record(r.userId, NameBytes(clients[j].username), [], 1)
             && |r.username| == |clients[j].username|
  }

  lemma ListingOf(clients: seq<Client>, next: nat, j: nat)
    requires ClientsOk(clients, next) && j < |clients| && clients[j].isOpen && clients[j].authenticated
    ensures IsWide(UserOf(clients[j])) && IsListing(clients, RecordOf(UserOf(clients[j])))
  {
    hide NameBytes;
    assert ClientOk(clients[j], next);
    var r := RecordOf(UserOf(clients[j]));
    assert IsUser(clients[j], r.userId);
  }

  lemma NamesMeans(clients: seq<Client>, i: nat, user: nat)
    requires HasWideIds(clients)
    ensures Names(Listed(clients, i, |clients|), user) <==> OtherUser(clients, i, |clients|, user)
  {
    var users, records := OnlineBelow(clients, i, |clients|), Listed(clients, i, |clients|);
    if Names(records, user) {
      var n :| 0 <= n < |records| && records[n].userId == user;
      OnlineMembers(clients, i, |clients|, users[n]);
    }
    if OtherUser(clients, i, |clients|, user) {
      var j :| 0 <= j < |clients| && j != i && IsUser(clients[j], user);
      OnlineMembers(clients, i, |clients|, UserOf(clients[j]));
      var n :| 0 <= n < |users| && users[n] == UserOf(clients[j]);
      assert records[n].userId == user;
    }
  }
}
