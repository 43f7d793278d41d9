/**
 The daemon's record of paired clients (crates/server/daemon-core/src/client_db.rs): two
 indexes over the same records, a set of revoked ids, the two files they are kept in, and the
 task that reloads the files when they change.
 */
module ClientDb {
  import opened Base

  type ClientId = nat
  type PublicKey = nat

  datatype Record = Record(id: ClientId, key: PublicKey, pairedAt: nat)

  datatype State = State(byId: map<ClientId, Record>, byPublic: map<PublicKey, ClientId>, revoked: set<ClientId>)

  const EMPTY := State(map[], map[], {})

  /** The two indexes are inverse to each other. */
  predicate Consistent(s: State) {
    && (forall id :: id in s.byId ==> s.byId[id].id == id
                                      && s.byId[id].key in s.byPublic && s.byPublic[s.byId[id].key] == id)
    && (forall key :: key in s.byPublic ==> s.byPublic[key] in s.byId && s.byId[s.byPublic[key]].key == key)
  }

  predicate IsNew(s: State, r: Record) {
    r.id !in s.byId && r.key !in s.byPublic
  }

  function Insert(s: State, r: Record): State {
    s.(byId := s.byId[r.id := r], byPublic := s.byPublic[r.key := r.id])
  }

  function WithAdded(s: State, r: Record): Option<State> {
    if IsNew(s, r) then Some(Insert(s, r)) else None
  }

  function WithRevoked(s: State, id: ClientId): Option<State> {
    if id in s.revoked then None else Some(s.(revoked := s.revoked + {id}))
  }

  function AsSet(ids: seq<ClientId>): set<ClientId> {
    set id | id in ids
  }

  /** Rebuilding the state from the files; a repeated id or key is refused. */
  function FromFiles(clients: seq<Record>, revoked: seq<ClientId>): Option<State> {
    if clients == [] then Some(EMPTY.(revoked := AsSet(revoked)))
    else
      match FromFiles(clients[..|clients| - 1], revoked)
      case None => None
      case Some(s) => WithAdded(s, clients[|clients| - 1])
  }

  method LoadFiles(clients: seq<Record>, revoked: seq<ClientId>) returns (r: Option<State>)
    ensures r == FromFiles(clients, revoked)
  {
    var s := EMPTY.(revoked := AsSet(revoked));
    for i := 0 to |clients|
      invariant FromFiles(clients[..i], revoked) == Some(s)
    {
      assert clients[..i + 1][..i] == clients[..i];
      if !IsNew(s, clients[i]) {
        StaysRefused(clients, i + 1, revoked);
        return None;
      }
      s := Insert(s, clients[i]);
    }
    assert clients[..|clients|] == clients;
    return Some(s);
  }

  lemma {:induction false} StaysRefused(clients: seq<Record>, n: nat, revoked: seq<ClientId>)
    requires n <= |clients| && FromFiles(clients[..n], revoked).None?
    ensures FromFiles(clients, revoked).None?
    decreases |clients|
  {
    if n < |clients| {
      assert clients[..|clients| - 1][..n] == clients[..n];
      StaysRefused(clients[..|clients| - 1], n, revoked);
    } else {
      assert clients[..n] == clients;
    }
  }

  // ----- The files: every record once, by pairing time and then id; every revoked id, in order

  predicate Before(a: Record, b: Record) {
    a.pairedAt < b.pairedAt || (a.pairedAt == b.pairedAt && a.id < b.id)
  }

  predicate SortedRecords(rs: seq<Record>) {
    forall i, j :: 0 <= i < j < |rs| ==> Before(rs[i], rs[j])
  }

  predicate Holds(rs: seq<Record>, id: ClientId) {
    exists i :: 0 <= i < |rs| && rs[i].id == id
  }

  /** A listing of the records, each under its own id. */
  predicate Lists(rs: seq<Record>, byId: map<ClientId, Record>) {
    && (forall i :: 0 <= i < |rs| ==> rs[i].id in byId && byId[rs[i].id] == rs[i])
    && (forall i, j :: 0 <= i < j < |rs| ==> rs[i].id != rs[j].id)
    && (forall id :: id in byId ==> Holds(rs, id))
  }

  predicate SortedIds(ids: seq<ClientId>) {
    forall i, j :: 0 <= i < j < |ids| ==> ids[i] < ids[j]
  }

  /** The place of a record in a sorted list. */
  method PlaceOf(rs: seq<Record>, r: Record) returns (k: nat)
    requires SortedRecords(rs) && forall i :: 0 <= i < |rs| ==> rs[i].id != r.id
    ensures k <= |rs|
    ensures SortedRecords(rs[..k] + [r] + rs[k..])
  {
    k := 0;
    while k < |rs| && Before(rs[k], r)
      invariant 0 <= k <= |rs|
      invariant forall i :: 0 <= i < k ==> Before(rs[i], r)
    {
      k := k + 1;
    }
    forall i | k <= i < |rs|
      ensures Before(r, rs[i])
    {
      assert Before(r, rs[k]);
    }
  }

  /** Any listing the map gives, put in order. */
  method ClientsFile(s: State) returns (rs: seq<Record>)
    requires Consistent(s)
    ensures SortedRecords(rs) && Lists(rs, s.byId)
  {
    rs := [];
    var left := s.byId.Keys;
    ghost var listed: map<ClientId, Record> := map[];
    while left != {}
      invariant left <= s.byId.Keys
      invariant SortedRecords(rs) && Lists(rs, listed)
      invariant listed.Keys == s.byId.Keys - left && forall id :: id in listed ==> listed[id] == s.byId[id]
      decreases left
    {
      var id :| id in left;
      var r := s.byId[id];
      var k := PlaceOf(rs, r);
      InsertLists(rs, listed, r, k);
      rs := rs[..k] + [r] + rs[k..];
      left := left - {id};
      listed := listed[id := r];
    }
    assert listed == s.byId;
  }

  lemma InsertLists(rs: seq<Record>, byId: map<ClientId, Record>, r: Record, k: nat)
    requires Lists(rs, byId) && r.id !in byId && k <= |rs|
    ensures Lists(rs[..k] + [r] + rs[k..], byId[r.id := r])
  {
    var longer := rs[..k] + [r] + rs[k..];
    var more := byId[r.id := r];
    InsertAt(rs, r, k);
    forall i | 0 <= i < |longer|
      ensures longer[i].id in more && more[longer[i].id] == longer[i]
      ensures longer[i].id == r.id ==> i == k
    {
    }
    forall id | id in more
      ensures Holds(longer, id)
    {
      if id == r.id {
        assert longer[k].id == id;
      } else {
        assert Holds(rs, id);
        var i :| 0 <= i < |rs| && rs[i].id == id;
        assert longer[if i < k then i else i + 1].id == id;
      }
    }
    forall i, j | 0 <= i < j < |longer|
      ensures longer[i].id != longer[j].id
    {
      if i != k && j != k {
        assert rs[if i < k then i else i - 1].id != rs[if j < k then j else j - 1].id;
      }
    }
  }

  lemma InsertAt<T>(s: seq<T>, x: T, k: nat)
    requires k <= |s|
    ensures var longer := s[..k] + [x] + s[k..];
            && |longer| == |s| + 1
            && (forall i :: 0 <= i < |longer| ==> longer[i] == if i < k then s[i] else if i == k then x else s[i - 1])
            && (forall i :: 0 <= i < |s| ==> s[i] == longer[if i < k then i else i + 1])
  {
  }

  /** An id put in its place. */
  method InsertId(ids: seq<ClientId>, id: ClientId) returns (more: seq<ClientId>)
    requires SortedIds(ids) && id !in ids
    ensures SortedIds(more) && AsSet(more) == AsSet(ids) + {id}
  {
    var k := 0;
    while k < |ids| && ids[k] < id
      invariant 0 <= k <= |ids|
      invariant forall i :: 0 <= i < k ==> ids[i] < id
    {
      k := k + 1;
    }
    more := ids[..k] + [id] + ids[k..];
    assert k < |ids| ==> ids[k] in ids;
    InsertedSorted(ids, id, k);
    InsertedElements(ids, id, k);
  }

  lemma InsertedSorted(ids: seq<ClientId>, id: ClientId, k: nat)
    requires SortedIds(ids) && k <= |ids|
    requires (forall i :: 0 <= i < k ==> ids[i] < id) && (k < |ids| ==> id < ids[k])
    ensures SortedIds(ids[..k] + [id] + ids[k..])
  {
    InsertAt(ids, id, k);
    forall i | k <= i < |ids|
      ensures id < ids[i]
    {
    }
  }

  lemma InsertedElements(ids: seq<ClientId>, id: ClientId, k: nat)
    requires k <= |ids|
    ensures AsSet(ids[..k] + [id] + ids[k..]) == AsSet(ids) + {id}
  {
    assert ids == ids[..k] + ids[k..];
    assert forall x :: x in ids <==> x in ids[..k] || x in ids[k..];
  }

  method RevokedFile(s: State) returns (ids: seq<ClientId>)
    ensures SortedIds(ids) && AsSet(ids) == s.revoked
  {
    ids := [];
    var left := s.revoked;
    while left != {}
      invariant left <= s.revoked
      invariant SortedIds(ids) && AsSet(ids) == s.revoked - left
      decreases left
    {
      var id :| id in left;
      assert id !in AsSet(ids);
      ids := InsertId(ids, id);
      left := left - {id};
    }
  }

  /** A file cannot be written two ways: its order is total. */
  lemma {:induction false} ListingIsUnique(a: seq<Record>, b: seq<Record>, byId: map<ClientId, Record>)
    requires SortedRecords(a) && SortedRecords(b) && Lists(a, byId) && Lists(b, byId)
    ensures a == b
    decreases |a|
  {
    hide Lists, SortedRecords;
    if a != [] {
      EmptyAlike(a, b, byId);
      SameLast(a, b, byId);
      var n, m := |a| - 1, |b| - 1;
      ListsFront(a, byId);
      ListsFront(b, byId);
      SortedFront(a);
      SortedFront(b);
      ListingIsUnique(a[..n], b[..m], byId - {a[n].id});
      assert a == a[..n] + [a[n]] && b == b[..m] + [b[m]];
    } else if b != [] {
      EmptyAlike(b, a, byId);
    }
  }

  lemma SameLast(a: seq<Record>, b: seq<Record>, byId: map<ClientId, Record>)
    requires a != [] && b != []
    requires SortedRecords(a) && SortedRecords(b) && Lists(a, byId) && Lists(b, byId)
    ensures a[|a| - 1] == b[|b| - 1]
  {
    LastIsNotBefore(a, b, byId);
    LastIsNotBefore(b, a, byId);
    hide Lists, SortedRecords;
  }

  lemma EmptyAlike(a: seq<Record>, b: seq<Record>, byId: map<ClientId, Record>)
    requires Lists(a, byId) && Lists(b, byId) && a != []
    ensures b != []
  {
    assert Holds(b, a[0].id);
  }

  lemma SortedFront(a: seq<Record>)
    requires a != [] && SortedRecords(a)
    ensures SortedRecords(a[..|a| - 1])
  {
  }

  /** Two sorted listings of the same records end alike. */
  lemma LastIsNotBefore(a: seq<Record>, b: seq<Record>, byId: map<ClientId, Record>)
    requires a != [] && b != [] && SortedRecords(b) && Lists(a, byId) && Lists(b, byId)
    ensures a[|a| - 1] == b[|b| - 1] || Before(a[|a| - 1], b[|b| - 1])
  {
    var last := a[|a| - 1];
    assert Holds(b, last.id);
    var j :| 0 <= j < |b| && b[j].id == last.id;
    assert b[j] == last;
  }

  lemma ListsFront(a: seq<Record>, byId: map<ClientId, Record>)
    requires a != [] && Lists(a, byId)
    ensures Lists(a[..|a| - 1], byId - {a[|a| - 1].id})
  {
    var n := |a| - 1;
    forall id | id in byId - {a[n].id}
      ensures Holds(a[..n], id)
    {
      assert Holds(a, id);
      var i :| 0 <= i < |a| && a[i].id == id;
      assert a[..n][i].id == id;
    }
  }

  // ----- Files and state are two forms of the same thing

  lemma InsertConsistent(s: State, r: Record)
    requires Consistent(s) && IsNew(s, r)
    ensures Consistent(Insert(s, r))
  {
  }

  /** Whatever the files hold, a state that loads is consistent. */
  lemma {:induction false} LoadedIsConsistent(clients: seq<Record>, revoked: seq<ClientId>)
    requires FromFiles(clients, revoked).Some?
    ensures Consistent(FromFiles(clients, revoked).value)
  {
    if clients != [] {
      LoadedIsConsistent(clients[..|clients| - 1], revoked);
      InsertConsistent(FromFiles(clients[..|clients| - 1], revoked).value, clients[|clients| - 1]);
    }
  }

  /** Loading any listing of a consistent state, in whatever order, gives the state back. */
  lemma {:induction false} LoadListing(rs: seq<Record>, ids: seq<ClientId>, s: State)
    requires Consistent(s) && Lists(rs, s.byId) && AsSet(ids) == s.revoked
    ensures FromFiles(rs, ids) == Some(s)
    decreases |rs|
  {
    if rs == [] {
      assert forall id :: id in s.byId ==> Holds(rs, id);
      assert s.byId == map[] && s.byPublic == map[];
    } else {
      var r := rs[|rs| - 1];
      ListsFront(rs, s.byId);
      RemoveConsistent(s, r);
      hide Lists, Consistent;
      LoadListing(rs[..|rs| - 1], ids, State(s.byId - {r.id}, s.byPublic - {r.key}, s.revoked));
    }
  }

  lemma RemoveConsistent(s: State, r: Record)
    requires Consistent(s) && r.id in s.byId && s.byId[r.id] == r
    ensures Consistent(State(s.byId - {r.id}, s.byPublic - {r.key}, s.revoked))
    ensures WithAdded(State(s.byId - {r.id}, s.byPublic - {r.key}, s.revoked), r) == Some(s)
  {
    var less := State(s.byId - {r.id}, s.byPublic - {r.key}, s.revoked);
    assert less.byId[r.id := r] == s.byId;
    assert less.byPublic[r.key := r.id] == s.byPublic;
  }

  /** Files that load list exactly what they load as. */
  lemma {:induction false} LoadedIsListed(clients: seq<Record>, revoked: seq<ClientId>)
    requires FromFiles(clients, revoked).Some?
    ensures Lists(clients, FromFiles(clients, revoked).value.byId)
    ensures FromFiles(clients, revoked).value.revoked == AsSet(revoked)
  {
    if clients != [] {
      var front, last := clients[..|clients| - 1], clients[|clients| - 1];
      LoadedIsListed(front, revoked);
      InsertLists(front, FromFiles(front, revoked).value.byId, last, |front|);
      assert front[..|front|] + [last] + front[|front|..] == clients;
    }
  }

  // ----- The database beside its files, which others may edit, and the task that reloads them

  /** A file as it reads: its entries, or nothing when it cannot be read or parsed. */
  function Load(clients: Option<seq<Record>>, revoked: Option<seq<ClientId>>): Option<State> {
    if clients.Some? && revoked.Some? then FromFiles(clients.value, revoked.value) else None
  }

  /** How far the reload task is with one poll: what it has noted, read and loaded so far. */
  datatype Poll =
    | Asleep
    | NotedClients(clientsText: Option<seq<Record>>)
    | Noted(clientsText: Option<seq<Record>>, revokedText: Option<seq<ClientId>>)
    | HalfRead(clientsText: Option<seq<Record>>, revokedText: Option<seq<ClientId>>, clients: seq<Record>)
    | Loaded(clientsText: Option<seq<Record>>, revokedText: Option<seq<ClientId>>, next: State)

  datatype Store = Store(state: State, clientsFile: Option<seq<Record>>, revokedFile: Option<seq<ClientId>>,
                         lastClients: Option<seq<Record>>, lastRevoked: Option<seq<ClientId>>, poll: Poll)

  /** Memory holds exactly what the files load as. */
  predicate Saved(s: Store) {
    Load(s.clientsFile, s.revokedFile) == Some(s.state)
  }

  /** Are the files as they were when the task last took them over? */
  predicate Unchanged(s: Store) {
    s.clientsFile == s.lastClients && s.revokedFile == s.lastRevoked
  }

  /** The next step of the reload task. It holds no lock, except while it replaces the state. */
  function PollStep(s: Store): Store {
    match s.poll
    case Asleep => s.(poll := NotedClients(s.clientsFile))
    case NotedClients(ct) =>
      if ct == s.lastClients && s.revokedFile == s.lastRevoked then s.(poll := Asleep)
      else s.(poll := Noted(ct, s.revokedFile))
    case Noted(ct, rt) =>
      if s.clientsFile.None? then s.(poll := Asleep) else s.(poll := HalfRead(ct, rt, s.clientsFile.value))
    case HalfRead(ct, rt, clients) =>
      var next := Load(Some(clients), s.revokedFile);
      if next.None? then s.(poll := Asleep) else s.(poll := Loaded(ct, rt, next.value))
    case Loaded(ct, rt, next) => s.(state := next, lastClients := ct, lastRevoked := rt, poll := Asleep)
  }

  function StepsLeft(p: Poll): nat {
    match p
    case Asleep => 0
    case NotedClients(_) => 4
    case Noted(_, _) => 3
    case HalfRead(_, _, _) => 2
    case Loaded(_, _, _) => 1
  }

  /** The poll under way, carried to its end with nothing in between. */
  function Finished(s: Store): Store
    decreases StepsLeft(s.poll)
  {
    if s.poll.Asleep? then s else Finished(PollStep(s))
  }

  function WholePoll(s: Store): Store {
    Finished(PollStep(s))
  }

  /**
   A poll nobody interrupts takes over files that load, unless they are as it last knew them.
   So memory and files agree afterwards exactly when the files load and were either changed
   or already agreed with.
   */
  lemma WholePollSaves(s: Store)
    requires s.poll.Asleep?
    ensures var after := WholePoll(s);
            && after.poll.Asleep? && after.clientsFile == s.clientsFile && after.revokedFile == s.revokedFile
            && after.state == (var next := Load(s.clientsFile, s.revokedFile);
                               if Unchanged(s) || next.None? then s.state else next.value)
            && (Saved(after) <==> Load(s.clientsFile, s.revokedFile).Some? && (!Unchanged(s) || Saved(s)))
  {
    WholePollIs(s);
  }

  lemma WholePollIs(s: Store)
    requires s.poll.Asleep?
    ensures WholePoll(s) == (var next := Load(s.clientsFile, s.revokedFile);
                             if Unchanged(s) || next.None? then s
                             else s.(state := next.value, lastClients := s.clientsFile, lastRevoked := s.revokedFile))
  {
    var one := PollStep(s);
    var two := PollStep(one);
    var three := PollStep(two);
    var four := PollStep(three);
    FinishedStep(one);
    FinishedStep(two);
    FinishedStep(three);
    FinishedStep(four);
    FinishedStep(PollStep(four));
  }

  lemma FinishedStep(s: Store)
    ensures Finished(s) == if s.poll.Asleep? then s else Finished(PollStep(s))
  {
  }

  /** An accepted update rewrites its file; `Edit` is somebody else writing the files. */
  datatype Event =
    | Added(record: Record, file: seq<Record>)
    | Revoked(id: ClientId, ids: seq<ClientId>)
    | Edited(clients: Option<seq<Record>>, revoked: Option<seq<ClientId>>)
    | Polled

  predicate Accepts(s: Store, e: Event) {
    match e
    case Added(r, file) => IsNew(s.state, r) && SortedRecords(file) && Lists(file, Insert(s.state, r).byId)
    case Revoked(id, ids) => id !in s.state.revoked && SortedIds(ids) && AsSet(ids) == s.state.revoked + {id}
    case Edited(_, _) => true
    case Polled => true
  }

  /** An update that is refused, or whose write fails, changes nothing. */
  function Next(s: Store, e: Event): Store {
    if !Accepts(s, e) then s
    else
      match e
      case Added(r, file) => s.(state := Insert(s.state, r), clientsFile := Some(file))
      case Revoked(id, ids) => s.(state := s.state.(revoked := s.state.revoked + {id}), revokedFile := Some(ids))
      case Edited(c, r) => s.(clientsFile := c, revokedFile := r)
      case Polled => PollStep(s)
  }

  function Run(s: Store, events: seq<Event>): Store
    decreases |events|
  {
    if events == [] then s else Next(Run(s, events[..|events| - 1]), events[|events| - 1])
  }

  /** The database with its files. */
  class Database {
    var state: State
    var clientsFile: Option<seq<Record>>
    var revokedFile: Option<seq<ClientId>>
    var lastClients: Option<seq<Record>>
    var lastRevoked: Option<seq<ClientId>>

    ghost predicate Valid()
      reads this
    {
      Consistent(state)
    }

    ghost function Value(): Store
      reads this
    {
      Store(state, clientsFile, revokedFile, lastClients, lastRevoked, Asleep)
    }

    constructor (state: State, clients: seq<Record>, revoked: seq<ClientId>)
      requires FromFiles(clients, revoked) == Some(state)
      ensures Valid() && Value() == Store(state, Some(clients), Some(revoked), Some(clients), Some(revoked), Asleep)
    {
      LoadedIsConsistent(clients, revoked);
      this.state := state;
      clientsFile, revokedFile := Some(clients), Some(revoked);
      lastClients, lastRevoked := Some(clients), Some(revoked);
    }

    method Add(r: Record, writeOk: bool) returns (ok: bool)
      requires Valid()
      modifies this
      ensures Valid()
      ensures ok <==> writeOk && IsNew(old(state), r)
      ensures ok ==> clientsFile.Some? && Accepts(old(Value()), Added(r, clientsFile.value))
                     && Value() == Next(old(Value()), Added(r, clientsFile.value))
      ensures !ok ==> Value() == old(Value())
    {
      if !IsNew(state, r) || !writeOk {
        return false;
      }
      InsertConsistent(state, r);
      var next := Insert(state, r);
      var file := ClientsFile(next);
      clientsFile := Some(file);
      state := next;
      return true;
    }

    /** One public key keeps the record it was first given. */
    method AddOrLookupByPublic(r: Record, writeOk: bool) returns (found: Option<Record>)
      requires Valid()
      modifies this
      ensures Valid()
      ensures r.key in old(state).byPublic ==>
                Value() == old(Value()) && found == Some(old(state).byId[old(state).byPublic[r.key]])
      ensures r.key !in old(state).byPublic ==>
                (found.Some? <==> writeOk && r.id !in old(state).byId) && (found.Some? ==> found.value == r)
      ensures found.Some? ==> found.value.key == r.key
                              && r.key in state.byPublic && state.byPublic[r.key] == found.value.id
                              && state.byId[found.value.id] == found.value
      ensures found.Some? && r.key !in old(state).byPublic ==>
                clientsFile.Some? && Value() == Next(old(Value()), Added(r, clientsFile.value))
      ensures found.None? ==> Value() == old(Value())
    {
      if r.key in state.byPublic && state.byPublic[r.key] in state.byId {
        return Some(state.byId[state.byPublic[r.key]]);
      }
      var ok := Add(r, writeOk);
      return if ok then Some(r) else None;
    }

    method Revoke(id: ClientId, writeOk: bool) returns (ok: bool)
      requires Valid()
      modifies this
      ensures Valid()
      ensures ok <==> writeOk || id in old(state).revoked
      ensures if ok && id !in old(state).revoked
              then revokedFile.Some? && Accepts(old(Value()), Revoked(id, revokedFile.value))
                   && Value() == Next(old(Value()), Revoked(id, revokedFile.value))
              else Value() == old(Value())
    {
      var next := WithRevoked(state, id);
      if next.None? {
        return true;
      }
      if !writeOk {
        return false;
      }
      var file := RevokedFile(next.value);
      revokedFile := Some(file);
      state := next.value;
      return true;
    }

    /** Someone else edits the files. */
    method Edit(clients: Option<seq<Record>>, revoked: Option<seq<ClientId>>)
      modifies this`clientsFile, this`revokedFile
      ensures Value() == Next(old(Value()), Edited(clients, revoked))
    {
      clientsFile, revokedFile := clients, revoked;
    }

    /** One turn of the reload task's loop. */
    method Reload()
      requires Valid()
      modifies this`state, this`lastClients, this`lastRevoked
      ensures Valid()
      ensures Value() == WholePoll(old(Value()))
    {
      WholePollIs(Value());
      if clientsFile == lastClients && revokedFile == lastRevoked {
        return;
      }
      if clientsFile.None? || revokedFile.None? {
        return;
      }
      var loaded := LoadFiles(clientsFile.value, revokedFile.value);
      if loaded.None? {
        return;
      }
      LoadedIsConsistent(clientsFile.value, revokedFile.value);
      state := loaded.value;
      lastClients, lastRevoked := clientsFile, revokedFile;
    }
  }

  /** The source's `open`: files that do not load are an error. */
  method OpenDatabase(clients: Option<seq<Record>>, revoked: Option<seq<ClientId>>) returns (r: Option<Database>)
    ensures r.Some? <==> Load(clients, revoked).Some?
    ensures r.Some? ==> fresh(r.value) && r.value.Valid() && Saved(r.value.Value()) && Unchanged(r.value.Value())
                        && r.value.clientsFile == clients && r.value.revokedFile == revoked
  {
    if clients.None? || revoked.None? {
      return None;
    }
    var loaded := LoadFiles(clients.value, revoked.value);
    if loaded.None? {
      return None;
    }
    var db := new Database(loaded.value, clients.value, revoked.value);
    return Some(db);
  }

  // ----- Whole runs

  predicate Start(s: Store) {
    Saved(s) && Unchanged(s) && s.poll.Asleep?
  }

  /** Whatever the interleaving and whatever the files are edited to, the indexes stay inverse. */
  lemma {:induction false} RunKeepsConsistent(s: Store, events: seq<Event>)
    requires Start(s)
    ensures var now := Run(s, events);
            Consistent(now.state) && (now.poll.Loaded? ==> Consistent(now.poll.next))
  {
    if events == [] {
      LoadedIsConsistent(s.clientsFile.value, s.revokedFile.value);
    } else {
      RunKeepsConsistent(s, events[..|events| - 1]);
      NextKeepsConsistent(Run(s, events[..|events| - 1]), events[|events| - 1]);
    }
  }

  lemma NextKeepsConsistent(s: Store, e: Event)
    requires Consistent(s.state) && (s.poll.Loaded? ==> Consistent(s.poll.next))
    ensures var s' := Next(s, e); Consistent(s'.state) && (s'.poll.Loaded? ==> Consistent(s'.poll.next))
  {
    if e.Added? && IsNew(s.state, e.record) {
      InsertConsistent(s.state, e.record);
    }
    if s.poll.HalfRead? && s.revokedFile.Some? && FromFiles(s.poll.clients, s.revokedFile.value).Some? {
      LoadedIsConsistent(s.poll.clients, s.revokedFile.value);
    }
  }

  /** Each accepted update leaves memory and files in agreement, if they were. */
  lemma UpdateKeepsSaved(s: Store, e: Event)
    requires Consistent(s.state) && Saved(s) && (e.Added? || e.Revoked?)
    ensures Saved(Next(s, e))
  {
    if Accepts(s, e) {
      LoadedIsListed(s.clientsFile.value, s.revokedFile.value);
      match e
      case Added(r, file) =>
        InsertConsistent(s.state, r);
        LoadListing(file, s.revokedFile.value, Insert(s.state, r));
      case Revoked(id, ids) =>
        LoadListing(s.clientsFile.value, ids, s.state.(revoked := s.state.revoked + {id}));
    }
  }

  predicate NoEdits(events: seq<Event>) {
    forall i :: 0 <= i < |events| ==> !events[i].Edited?
  }

  /**
   The update is accepted after the running poll has read the file it goes to: a client once
   the clients are read, a revocation once the revoked ids are read too.
   */
  predicate ComesTooLate(s: Store, e: Event) {
    Accepts(s, e) && ((e.Added? && (s.poll.HalfRead? || s.poll.Loaded?)) || (e.Revoked? && s.poll.Loaded?))
  }

  predicate NoneTooLate(s: Store, events: seq<Event>) {
    forall i :: 0 <= i < |events| ==> !ComesTooLate(Run(s, events[..i]), events[i])
  }

  function Updates(events: seq<Event>): seq<Event> {
    if events == [] then []
    else
      var last := events[|events| - 1];
      Updates(events[..|events| - 1]) + (if last.Polled? then [] else [last])
  }

  /** Memory and files are those of the updates alone, and stay so when the running poll finishes. */
  predicate PollInvisible(s: Store, events: seq<Event>) {
    var now, without := Run(s, events), Run(s, Updates(events));
    && now.clientsFile == without.clientsFile && now.revokedFile == without.revokedFile
    && now.state == without.state && Finished(now).state == without.state
  }

  predicate AlwaysInvisible(s: Store, events: seq<Event>) {
    forall n :: 0 <= n <= |events| ==> PollInvisible(s, events[..n])
  }

  /** What a poll has read so far is what memory holds. */
  predicate Harmless(s: Store) {
    && Saved(s) && Consistent(s.state)
    && (s.poll.HalfRead? ==> Some(s.poll.clients) == s.clientsFile)
    && (s.poll.Loaded? ==> s.poll.next == s.state)
  }

  /**
   When nobody else edits the files, the reload task never undoes an accepted update if and
   only if none comes too late for a running poll.
   */
  lemma PollsAreInvisibleIff(s: Store, events: seq<Event>)
    requires Start(s) && NoEdits(events)
    ensures AlwaysInvisible(s, events) <==> NoneTooLate(s, events)
  {
    if NoneTooLate(s, events) {
      forall n | 0 <= n <= |events|
        ensures PollInvisible(s, events[..n])
      {
        FrontsToo(s, events, n);
        PollsAreInvisible(s, events[..n]);
      }
    }
    if !NoneTooLate(s, events) {
      var n := FirstTooLate(s, events, |events|);
      FrontsToo(s, events, n);
      PollsAreInvisible(s, events[..n]);
      var before := Run(s, events[..n]);
      TooLateIsLost(before, events[n]);
      assert events[..n + 1][..n] == events[..n] && events[..n + 1][n] == events[n];
      assert Updates(events[..n + 1]) == Updates(events[..n]) + [events[n]];
      RunSnoc(s, Updates(events[..n]), events[n]);
      SameAnswer(before, Run(s, Updates(events[..n])), events[n]);
      assert !PollInvisible(s, events[..n + 1]);
    }
  }

  lemma RunSnoc(s: Store, events: seq<Event>, e: Event)
    ensures Run(s, events + [e]) == Next(Run(s, events), e)
  {
    assert (events + [e])[..|events|] == events;
  }

  lemma FrontsToo(s: Store, events: seq<Event>, n: nat)
    requires n <= |events| && NoEdits(events)
    requires forall i :: 0 <= i < n ==> !ComesTooLate(Run(s, events[..i]), events[i])
    ensures NoEdits(events[..n]) && NoneTooLate(s, events[..n])
  {
    forall i | 0 <= i < n
      ensures !ComesTooLate(Run(s, events[..n][..i]), events[..n][i])
    {
      assert events[..n][..i] == events[..i];
    }
  }

  lemma {:induction false} FirstTooLate(s: Store, events: seq<Event>, m: nat) returns (n: nat)
    requires m <= |events| && exists i :: 0 <= i < m && ComesTooLate(Run(s, events[..i]), events[i])
    ensures n < m && ComesTooLate(Run(s, events[..n]), events[n])
    ensures forall i :: 0 <= i < n ==> !ComesTooLate(Run(s, events[..i]), events[i])
  {
    hide ComesTooLate, Run;
    n := m - 1;
    if exists i :: 0 <= i < n && ComesTooLate(Run(s, events[..i]), events[i]) {
      n := FirstTooLate(s, events, n);
    }
  }

  lemma {:induction false} PollsAreInvisible(s: Store, events: seq<Event>)
    requires Start(s) && NoEdits(events) && NoneTooLate(s, events)
    ensures PollInvisible(s, events) && Harmless(Run(s, events))
  {
    hide Harmless, Start, Run, Updates, Finished, ComesTooLate, PollInvisible;
    if events == [] {
      NothingYet(s);
    } else {
      var front, last := events[..|events| - 1], events[|events| - 1];
      FrontsToo(s, events, |events| - 1);
      PollsAreInvisible(s, front);
      assert !ComesTooLate(Run(s, front), last);
      InvisibleStep(s, front, last);
      assert front + [last] == events;
    }
  }

  lemma NothingYet(s: Store)
    requires Start(s)
    ensures PollInvisible(s, []) && Harmless(Run(s, []))
  {
    LoadedIsConsistent(s.clientsFile.value, s.revokedFile.value);
    hide Consistent;
  }

  lemma InvisibleStep(s: Store, front: seq<Event>, last: Event)
    requires PollInvisible(s, front) && Harmless(Run(s, front)) && !last.Edited? && !ComesTooLate(Run(s, front), last)
    ensures PollInvisible(s, front + [last]) && Harmless(Run(s, front + [last]))
  {
    var events := front + [last];
    var before := Run(s, front);
    RunSnoc(s, front, last);
    assert events[..|front|] == front;
    if last.Polled? {
      assert Updates(events) == Updates(front);
      HarmlessPoll(before);
    } else {
      assert Updates(events) == Updates(front) + [last];
      RunSnoc(s, Updates(front), last);
      HarmlessUpdate(before, last);
      SameAnswer(before, Run(s, Updates(front)), last);
    }
    hide Harmless, Finished, ComesTooLate, Accepts, Run, Updates;
    HarmlessFinish(Run(s, events));
  }

  lemma HarmlessUpdate(s: Store, e: Event)
    requires Harmless(s) && (e.Added? || e.Revoked?) && !ComesTooLate(s, e)
    ensures Harmless(Next(s, e))
  {
    UpdateKeepsSaved(s, e);
    NextKeepsConsistent(s, e);
    hide Consistent, Saved, Lists, SortedRecords, SortedIds;
  }

  lemma HarmlessPoll(s: Store)
    requires Harmless(s)
    ensures Harmless(PollStep(s)) && PollStep(s).state == s.state
    ensures PollStep(s).clientsFile == s.clientsFile && PollStep(s).revokedFile == s.revokedFile
  {
    hide Consistent;
  }

  lemma {:induction false} HarmlessFinish(s: Store)
    requires Harmless(s)
    ensures Finished(s).state == s.state
    decreases StepsLeft(s.poll)
  {
    HarmlessPoll(s);
    hide Harmless;
    if !s.poll.Asleep? {
      HarmlessFinish(PollStep(s));
    }
  }

  /** An update that comes too late is gone from memory as soon as the running poll finishes. */
  lemma TooLateIsLost(s: Store, e: Event)
    requires Harmless(s) && ComesTooLate(s, e)
    ensures var after := Finished(Next(s, e));
            && after.state == s.state != Next(s, e).state
            && (e.Added? ==> e.record.id !in after.state.byId && e.record.key !in after.state.byPublic)
            && (e.Revoked? ==> e.id !in after.state.revoked)
  {
    var one := Next(s, e);
    var two := PollStep(one);
    FinishedStep(one);
    FinishedStep(two);
    FinishedStep(PollStep(two));
    hide Consistent;
  }

  /** Nothing that is recorded goes away again: records, keys with their ids, and revocations. */
  predicate Extends(a: State, b: State) {
    && (forall id :: id in a.byId ==> id in b.byId && b.byId[id] == a.byId[id])
    && (forall key :: key in a.byPublic ==> key in b.byPublic && b.byPublic[key] == a.byPublic[key])
    && a.revoked <= b.revoked
  }

  /** So in every such run a key keeps its id, a record stays as it was added, a revoked id stays revoked. */
  lemma {:induction false} KeysKeepTheirIds(s: Store, events: seq<Event>, n: nat)
    requires Start(s) && NoEdits(events) && NoneTooLate(s, events) && n <= |events|
    ensures Extends(Run(s, events[..n]).state, Run(s, events).state)
  {
    hide Harmless, ComesTooLate, PollInvisible, Start, Extends;
    if n == |events| {
      assert events[..n] == events;
      ExtendsItself(Run(s, events).state);
    } else {
      var front, last := events[..|events| - 1], events[|events| - 1];
      FrontsToo(s, events, |events| - 1);
      KeysKeepTheirIds(s, front, n);
      assert front[..n] == events[..n];
      PollsAreInvisible(s, front);
      assert !ComesTooLate(Run(s, front), last);
      hide NoneTooLate, Next;
      NextExtends(Run(s, front), last);
      ExtendsOnwards(Run(s, events[..n]).state, Run(s, front).state, Run(s, events).state);
    }
  }

  lemma ExtendsItself(a: State)
    ensures Extends(a, a)
  {
  }

  lemma ExtendsOnwards(a: State, b: State, c: State)
    requires Extends(a, b) && Extends(b, c)
    ensures Extends(a, c)
  {
  }

  lemma NextExtends(s: Store, e: Event)
    requires Harmless(s) && !e.Edited?
    ensures Extends(s.state, Next(s, e).state)
  {
    if e.Polled? {
      HarmlessPoll(s);
    }
    hide Harmless, Lists, PollStep, SortedRecords;
  }

  lemma SameAnswer(a: Store, b: Store, e: Event)
    requires a.state == b.state && a.clientsFile == b.clientsFile && a.revokedFile == b.revokedFile && !e.Polled?
    ensures var a', b' := Next(a, e), Next(b, e);
            a'.state == b'.state && a'.clientsFile == b'.clientsFile && a'.revokedFile == b'.revokedFile
            && a'.poll == a.poll
  {
  }

  /**
   An update inside a poll can be undone for good, without anybody editing the files: the poll
   puts back what it read before, and the next update writes that out.
   */
  lemma UpdateInsidePollIsLost() returns (s: Store, events: seq<Event>)
    ensures Start(s) && forall i :: 0 <= i < |events| ==> !events[i].Edited? && Accepts(Run(s, events[..i]), events[i])
    ensures exists i :: 0 <= i < |events| && events[i] == Revoked(2, [1, 2])
    ensures var now := Run(s, events);
            Saved(now) && now.poll.Asleep? && 2 !in now.state.revoked && 1 in now.state.revoked && 3 in now.state.revoked
  {
    s, events := With({}, [], [], Asleep), InsidePoll();
    var states := AroundPoll();
    InsidePollSteps();
    forall i | 0 <= i < |events|
      ensures states[i + 1] == Next(states[i], events[i])
    {
      assert IsStep(i);
    }
    StepsAreRun(events, states, 8);
    assert AsSet([]) == {} && AsSet([1, 3]) == {1, 3};
    assert events[5] == Revoked(2, [1, 2]);
    assert states[8] == With({1, 3}, [1, 3], [1], Asleep);
    assert events[..8] == events;
    hide Run, Next, InsidePoll, AroundPoll;
    forall i | 0 <= i < |events|
      ensures !events[i].Edited? && Accepts(Run(s, events[..i]), events[i])
    {
      assert Run(s, events[..i]) == states[i] && IsStep(i);
    }
  }

  /** Revoke 1; the poll reads; revoke 2; the poll installs; revoke 3. */
  function InsidePoll(): seq<Event> {
    [Revoked(1, [1]), Polled, Polled, Polled, Polled, Revoked(2, [1, 2]), Polled, Revoked(3, [1, 3])]
  }

  function AroundPoll(): seq<Store> {
    var ct, rt, read := Some([]), Some([1]), EMPTY.(revoked := {1});
    [With({}, [], [], Asleep),
     With({1}, [1], [], Asleep),
     With({1}, [1], [], NotedClients(ct)),
     With({1}, [1], [], Noted(ct, rt)),
     With({1}, [1], [], HalfRead(ct, rt, [])),
     With({1}, [1], [], Loaded(ct, rt, read)),
     With({1, 2}, [1, 2], [], Loaded(ct, rt, read)),
     With({1}, [1, 2], [1], Asleep),
     With({1, 3}, [1, 3], [1], Asleep)]
  }

  /** One store of the example leads to the next. */
  predicate IsStep(i: nat)
    requires i < 8
  {
    var s, e := AroundPoll()[i], InsidePoll()[i];
    !e.Edited? && Accepts(s, e) && AroundPoll()[i + 1] == Next(s, e)
  }

  lemma InsidePollSteps()
    ensures forall i :: 0 <= i < 8 ==> IsStep(i)
  {
    var read := Loaded(Some([]), Some([1]), EMPTY.(revoked := {1}));
    PollSteps();
    hide With, PollStep, AsSet;
    forall i | 0 <= i < 8
      ensures IsStep(i)
    {
      if i == 0 {
        RevokeStep({}, [], [], Asleep, 1, [1]);
        assert {} + {1} == {1};
      } else if i == 5 {
        RevokeStep({1}, [1], [], read, 2, [1, 2]);
        assert {1} + {2} == {1, 2};
      } else if i == 7 {
        RevokeStep({1}, [1, 2], [1], Asleep, 3, [1, 3]);
        assert {1} + {3} == {1, 3};
      } else {
        assert InsidePoll()[i] == Polled;
      }
    }
  }

  lemma PollSteps()
    ensures var ct, rt, read := Some([]), Some([1]), EMPTY.(revoked := {1});
            && PollStep(With({1}, [1], [], Asleep)) == With({1}, [1], [], NotedClients(ct))
            && PollStep(With({1}, [1], [], NotedClients(ct))) == With({1}, [1], [], Noted(ct, rt))
            && PollStep(With({1}, [1], [], Noted(ct, rt))) == With({1}, [1], [], HalfRead(ct, rt, []))
            && PollStep(With({1}, [1], [], HalfRead(ct, rt, []))) == With({1}, [1], [], Loaded(ct, rt, read))
            && PollStep(With({1, 2}, [1, 2], [], Loaded(ct, rt, read))) == With({1}, [1, 2], [1], Asleep)
  {
    assert AsSet([1]) == {1};
  }

  /** A store without clients, given its revoked ids, their file and the text last taken over. */
  function With(revoked: set<ClientId>, file: seq<ClientId>, last: seq<ClientId>, poll: Poll): Store {
    Store(EMPTY.(revoked := revoked), Some([]), Some(file), Some([]), Some(last), poll)
  }

  lemma RevokeStep(revoked: set<ClientId>, file: seq<ClientId>, last: seq<ClientId>, poll: Poll, id: ClientId, ids: seq<ClientId>)
    requires id !in revoked && SortedIds(ids) && (forall x :: x in ids <==> x in revoked || x == id)
    ensures var s := With(revoked, file, last, poll);
            Accepts(s, Revoked(id, ids)) && Next(s, Revoked(id, ids)) == With(revoked + {id}, ids, last, poll)
  {
    assert AsSet(ids) == revoked + {id};
  }

  lemma {:induction false} StepsAreRun(events: seq<Event>, states: seq<Store>, n: nat)
    requires n <= |events| && |states| == |events| + 1
    requires forall i :: 0 <= i < |events| ==> states[i + 1] == Next(states[i], events[i])
    ensures forall i :: 0 <= i <= n ==> Run(states[0], events[..i]) == states[i]
  {
    if n > 0 {
      StepsAreRun(events, states, n - 1);
      assert events[..n][..n - 1] == events[..n - 1];
    }
  }

  /** Saving and loading is the identity on consistent states. */
  lemma SaveThenLoad(s: State, rs: seq<Record>, ids: seq<ClientId>)
    requires Consistent(s) && SortedRecords(rs) && Lists(rs, s.byId) && SortedIds(ids) && AsSet(ids) == s.revoked
    ensures FromFiles(rs, ids) == Some(s)
    ensures forall other :: SortedRecords(other) && Lists(other, s.byId) ==> other == rs
  {
    LoadListing(rs, ids, s);
    forall other | SortedRecords(other) && Lists(other, s.byId)
      ensures other == rs
    {
      ListingIsUnique(other, rs, s.byId);
    }
  }

  /** No key has two ids: two ids with one key are one id. */
  lemma KeysHaveOneId(s: State, a: ClientId, b: ClientId)
    requires Consistent(s) && a in s.byId && b in s.byId && s.byId[a].key == s.byId[b].key
    ensures a == b
  {
    assert s.byPublic[s.byId[a].key] == a;
  }
}
