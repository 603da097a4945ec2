/** Pending payments awaiting confirmation
    (Mute.Moe/Services/Payment/DatabasePendingTransactions.cs). The two SQLite tables
    are maps keyed by row id; instants are Unix seconds; amounts are exact rationals
    standing for `decimal`. */
module PendingTransactions {
  import opened Common

  datatype PendingState = Pending | Confirmed | Denied

  /** A row of `IOU2_PendingTransactions`. */
  datatype PendingRecord = PendingRecord(
    fromId: nat,
    toId: nat,
    amount: real,
    unit: string,
    note: string,
    instant: int,
    state: PendingState)

  /** A row of `IOU2_Transactions`. */
  datatype TransactionRow = TransactionRow(fromId: nat, toId: nat, amount: real, unit: string, note: string, instant: int)

  /** The exception the constructor throws when it is paired with another kind of
      transactions service. */
  datatype ConstructError = TransactionsNotDatabase

  /** The exceptions `CreatePending` throws before touching the database. */
  datatype CreateError = NegativeAmount | NullUnit | SelfTransaction

  datatype ConfirmResult = Confirmed | AlreadyConfirmed | AlreadyDenied | IdNotFound
  datatype DenyResult = Denied | AlreadyConfirmed | AlreadyDenied | IdNotFound

  /** Which of the two update scripts `UpdatePending` runs. */
  datatype Update = ConfirmUpdate | DenyUpdate

  /** The parameters of `Get`; `None` is a null argument, which matches anything. */
  datatype Filter = Filter(
    debtId: Option<nat>,
    state: Option<PendingState>,
    fromId: Option<nat>,
    toId: Option<nat>,
    unit: Option<string>,
    after: Option<int>,
    before: Option<int>)

  /** The columns copied into `IOU2_Transactions` by a confirmation. */
  function AsTransaction(r: PendingRecord): TransactionRow
  {
    TransactionRow(r.fromId, r.toId, r.amount, r.unit, r.note, r.instant)
  }

  /** The state an update sets: only a Pending record changes, to the update's target. */
  function Transition(s: PendingState, u: Update): (t: PendingState)
    ensures s != PendingState.Pending ==> t == s
    ensures s == PendingState.Pending && u == ConfirmUpdate ==> t == PendingState.Confirmed
    ensures s == PendingState.Pending && u == DenyUpdate ==> t == PendingState.Denied
  {
    if s != PendingState.Pending then s
    else if u == ConfirmUpdate then PendingState.Confirmed
    else PendingState.Denied
  }

  function TransitionAll(s: PendingState, us: seq<Update>): PendingState
    decreases |us|
  {
    if us == [] then s else TransitionAll(Transition(s, us[0]), us[1..])
  }

  /** Whatever updates follow one another, the first decides the final state: a record
      leaves Pending once and never changes again. */
  lemma {:induction false} FirstUpdateDecides(s: PendingState, us: seq<Update>)
    ensures us == [] || s != PendingState.Pending ==> TransitionAll(s, us) == s
    ensures us != [] && s == PendingState.Pending ==> TransitionAll(s, us) == Transition(s, us[0]) != PendingState.Pending
    decreases |us|
  {
    if us != [] {
      FirstUpdateDecides(Transition(s, us[0]), us[1..]);
    }
  }

  /** `ConfirmPending`'s result code, from the state read before the update. */
  function ConfirmCode(before: Option<PendingState>): (r: ConfirmResult)
    ensures r == ConfirmResult.IdNotFound <==> before.None?
    ensures r == ConfirmResult.Confirmed <==> before == Some(PendingState.Pending)
    ensures r == ConfirmResult.AlreadyConfirmed <==> before == Some(PendingState.Confirmed)
    ensures r == ConfirmResult.AlreadyDenied <==> before == Some(PendingState.Denied)
  {
    if before.None? then ConfirmResult.IdNotFound
    else if before.value.Confirmed? then ConfirmResult.AlreadyConfirmed
    else if before.value.Denied? then ConfirmResult.AlreadyDenied
    else ConfirmResult.Confirmed
  }

  /** `DenyPending`'s result code, from the state read before the update. */
  function DenyCode(before: Option<PendingState>): (r: DenyResult)
    ensures r == DenyResult.IdNotFound <==> before.None?
    ensures r == DenyResult.Denied <==> before == Some(PendingState.Pending)
    ensures r == DenyResult.AlreadyConfirmed <==> before == Some(PendingState.Confirmed)
    ensures r == DenyResult.AlreadyDenied <==> before == Some(PendingState.Denied)
  {
    if before.None? then DenyResult.IdNotFound
    else if before.value.Confirmed? then DenyResult.AlreadyConfirmed
    else if before.value.Denied? then DenyResult.AlreadyDenied
    else DenyResult.Denied
  }

  /** The `WHERE` clause of the filtered query: every supplied filter holds; the time
      bounds are strict and the unit is compared lower-cased. */
  predicate Matches(id: nat, r: PendingRecord, f: Filter)
  {
    && (f.fromId.None? || r.fromId == f.fromId.value)
    && (f.toId.None? || r.toId == f.toId.value)
    && (f.unit.None? || r.unit == ToLower(f.unit.value))
    && (f.before.None? || r.instant < f.before.value)
    && (f.after.None? || r.instant > f.after.value)
    && (f.state.None? || r.state == f.state.value)
    && (f.debtId.None? || id == f.debtId.value)
  }

  predicate SortedByInstant(rows: seq<(nat, PendingRecord)>)
  {
    forall i, j :: 0 <= i < j < |rows| ==> rows[i].1.instant <= rows[j].1.instant
  }

  /** Where a row goes in rows sorted by instant: after every row with an instant not later. */
  function InsertPosition(rows: seq<(nat, PendingRecord)>, x: (nat, PendingRecord)): (k: nat)
    requires SortedByInstant(rows)
    ensures k <= |rows|
    ensures forall i :: 0 <= i < k ==> rows[i].1.instant <= x.1.instant
    ensures forall i :: k <= i < |rows| ==> rows[i].1.instant > x.1.instant
  {
    if rows == [] || rows[|rows| - 1].1.instant <= x.1.instant then |rows|
    else InsertPosition(rows[..|rows| - 1], x)
  }

  /** The ids of the rows. */
  function RowIds(rows: seq<(nat, PendingRecord)>): set<nat>
  {
    set e | e in rows :: e.0
  }

  predicate DistinctIds(rows: seq<(nat, PendingRecord)>)
  {
    forall i, j :: 0 <= i < j < |rows| ==> rows[i].0 != rows[j].0
  }

  /** Inserting a row into rows sorted by instant keeps them sorted, adds exactly that
      row, and keeps the ids distinct when its id is new. */
  function Insert(rows: seq<(nat, PendingRecord)>, x: (nat, PendingRecord)): (g: seq<(nat, PendingRecord)>)
    requires SortedByInstant(rows)
    ensures SortedByInstant(g)
    ensures forall e :: e in g <==> e in rows || e == x
    ensures RowIds(g) == RowIds(rows) + {x.0}
    ensures DistinctIds(rows) && x.0 !in RowIds(rows) ==> DistinctIds(g)
  {
    var k := InsertPosition(rows, x);
    var g := rows[..k] + [x] + rows[k..];
    InsertFacts(rows, x, k, g);
    g
  }

  lemma InsertFacts(rows: seq<(nat, PendingRecord)>, x: (nat, PendingRecord), k: nat, g: seq<(nat, PendingRecord)>)
    requires SortedByInstant(rows) && k <= |rows|
    requires forall i :: 0 <= i < k ==> rows[i].1.instant <= x.1.instant
    requires forall i :: k <= i < |rows| ==> rows[i].1.instant > x.1.instant
    requires g == rows[..k] + [x] + rows[k..]
    ensures SortedByInstant(g)
    ensures forall e :: e in g <==> e in rows || e == x
    ensures RowIds(g) == RowIds(rows) + {x.0}
    ensures DistinctIds(rows) && x.0 !in RowIds(rows) ==> DistinctIds(g)
  {
    InsertedAt(rows, x, k, g);
    InsertSorted(rows, x, k, g);
    InsertMembers(rows, x, k, g);
    if DistinctIds(rows) && x.0 !in RowIds(rows) {
      InsertDistinct(rows, x, k, g);
    }
  }

  lemma InsertedAt(rows: seq<(nat, PendingRecord)>, x: (nat, PendingRecord), k: nat, g: seq<(nat, PendingRecord)>)
    requires k <= |rows| && g == rows[..k] + [x] + rows[k..]
    ensures |g| == |rows| + 1
    ensures forall i :: 0 <= i < k ==> g[i] == rows[i]
    ensures g[k] == x
    ensures forall i :: k < i < |g| ==> g[i] == rows[i - 1]
  {
  }

  lemma InsertSorted(rows: seq<(nat, PendingRecord)>, x: (nat, PendingRecord), k: nat, g: seq<(nat, PendingRecord)>)
    requires SortedByInstant(rows) && k <= |rows|
    requires forall i :: 0 <= i < k ==> rows[i].1.instant <= x.1.instant
    requires forall i :: k <= i < |rows| ==> rows[i].1.instant > x.1.instant
    requires |g| == |rows| + 1 && g[k] == x
    requires forall i :: 0 <= i < k ==> g[i] == rows[i]
    requires forall i :: k < i < |g| ==> g[i] == rows[i - 1]
    ensures SortedByInstant(g)
  {
    forall i, j | 0 <= i < j < |g| ensures g[i].1.instant <= g[j].1.instant {
      if j < k {
      } else if j == k {
      } else if i < k {
        assert rows[i].1.instant <= rows[j - 1].1.instant;
      } else if i == k {
      } else {
        assert rows[i - 1].1.instant <= rows[j - 1].1.instant;
      }
    }
  }

  lemma InsertMembers(rows: seq<(nat, PendingRecord)>, x: (nat, PendingRecord), k: nat, g: seq<(nat, PendingRecord)>)
    requires k <= |rows| && g == rows[..k] + [x] + rows[k..]
    ensures forall e :: e in g <==> e in rows || e == x
    ensures RowIds(g) == RowIds(rows) + {x.0}
  {
    assert rows == rows[..k] + rows[k..];
    assert forall e :: e in g <==> e in rows[..k] || e == x || e in rows[k..];
  }

  lemma InsertDistinct(rows: seq<(nat, PendingRecord)>, x: (nat, PendingRecord), k: nat, g: seq<(nat, PendingRecord)>)
    requires DistinctIds(rows) && x.0 !in RowIds(rows) && k <= |rows|
    requires |g| == |rows| + 1 && g[k] == x
    requires forall i :: 0 <= i < k ==> g[i] == rows[i]
    requires forall i :: k < i < |g| ==> g[i] == rows[i - 1]
    ensures DistinctIds(g)
  {
    forall i | 0 <= i < |rows| ensures rows[i].0 != x.0 {
      assert rows[i] in rows;
    }
  }

  /** The largest of a non-empty set of row ids. */
  ghost function MaxOf(s: set<nat>): (m: nat)
    requires s != {}
    ensures m in s && forall k :: k in s ==> k <= m
  {
    var x :| x in s;
    if s - {x} == {} then
      assert forall k :: k in s ==> k in s - {x} || k == x;
      x
    else
      var y := MaxOf(s - {x});
      assert forall k :: k in s ==> k in s - {x} || k == x;
      if x >= y then x else y
  }

  /** The row id SQLite gives a new row of a table without `AUTOINCREMENT`: one more than
      the largest row id in use, or 1 in an empty table. */
  ghost function NextRow(keys: set<nat>): (r: nat)
    ensures r >= 1 && r !in keys && forall k :: k in keys ==> k < r
    ensures keys == {} ==> r == 1
    ensures keys != {} ==> r - 1 in keys
  {
    if keys == {} then 1 else MaxOf(keys) + 1
  }

  /** The conditions of `NextRow` decide it. */
  lemma NextRowUnique(keys: set<nat>, r: nat)
    requires r >= 1 && forall k :: k in keys ==> k < r
    requires keys == {} ==> r == 1
    requires keys != {} ==> r - 1 in keys
    ensures r == NextRow(keys)
  {
    var n := NextRow(keys);
    if keys != {} {
      assert r - 1 < n && n - 1 < r;
    }
  }

  /** The new row id, found by scanning the ids in use. */
  method NewRowId(keys: set<nat>) returns (r: nat)
    ensures r == NextRow(keys)
  {
    var remaining := keys;
    ghost var scanned: set<nat> := {};
    r := 1;
    while remaining != {}
      invariant scanned + remaining == keys
      invariant r >= 1 && forall k :: k in scanned ==> k < r
      invariant scanned == {} ==> r == 1
      invariant scanned != {} ==> r - 1 in scanned
      decreases remaining
    {
      var k :| k in remaining;
      remaining := remaining - {k};
      scanned := scanned + {k};
      if k + 1 > r {
        r := k + 1;
      }
    }
    NextRowUnique(keys, r);
  }

  class DatabasePendingTransactions {
    var pending: map<nat, PendingRecord>
    var transactions: map<nat, TransactionRow>
    /** For each record this object confirmed, the row of `IOU2_Transactions` holding its
        copy. */
    ghost var copiedTo: map<nat, nat>

    /** Every record confirmed here is still Confirmed and has its own copy. */
    ghost predicate Valid()
      reads this
    {
      && (forall id :: id in copiedTo ==>
            && id in pending && pending[id].state == PendingState.Confirmed
            && copiedTo[id] in transactions && transactions[copiedTo[id]] == AsTransaction(pending[id]))
      && (forall a, b :: a in copiedTo && b in copiedTo && a != b ==> copiedTo[a] != copiedTo[b])
    }

    /** The table is created only if it does not exist: whatever rows the database
        already holds stay. */
    constructor (existingPending: map<nat, PendingRecord>, existingTransactions: map<nat, TransactionRow>)
      ensures Valid() && pending == existingPending && transactions == existingTransactions
    {
      pending := existingPending;
      transactions := existingTransactions;
      copiedTo := map[];
    }

    /** The constructor's argument check: it throws unless the transactions service it is
        paired with is `DatabaseTransactions`, and otherwise opens the existing tables. */
    static method Construct(existingPending: map<nat, PendingRecord>, existingTransactions: map<nat, TransactionRow>,
                            transactionsIsDatabase: bool)
      returns (r: Result<DatabasePendingTransactions, ConstructError>)
      ensures r.Failure? <==> !transactionsIsDatabase
      ensures r.Failure? ==> r.error == TransactionsNotDatabase
      ensures r.Success? ==>
        fresh(r.value) && r.value.Valid() && r.value.pending == existingPending && r.value.transactions == existingTransactions
    {
      if !transactionsIsDatabase {
        return Failure(TransactionsNotDatabase);
      }
      var t := new DatabasePendingTransactions(existingPending, existingTransactions);
      r := Success(t);
    }

    /** `CreatePending`: invalid arguments throw and write nothing; otherwise a Pending row
        with the unit lower-cased and a null note stored as "" is inserted under the next
        row id. */
    method CreatePending(fromId: nat, toId: nat, amount: real, unit: Option<string>, note: Option<string>, instant: int)
      returns (r: Result<nat, CreateError>)
      requires Valid()
      modifies this
      ensures Valid()
      ensures amount < 0.0 ==> r == Failure(NegativeAmount)
      ensures amount >= 0.0 && unit.None? ==> r == Failure(NullUnit)
      ensures amount >= 0.0 && unit.Some? && fromId == toId ==> r == Failure(SelfTransaction)
      ensures r.Failure? ==> pending == old(pending) && transactions == old(transactions)
      ensures r.Success? <==> amount >= 0.0 && unit.Some? && fromId != toId
      ensures r.Success? ==>
        && r.value == NextRow(old(pending).Keys)
        && pending == old(pending)[r.value := PendingRecord(fromId, toId, amount, ToLower(unit.value),
                                                            if note.Some? then note.value else "", instant, PendingState.Pending)]
        && transactions == old(transactions)
    {
      if amount < 0.0 {
        return Failure(NegativeAmount);
      }
      if unit.None? {
        return Failure(NullUnit);
      }
      if fromId == toId {
        return Failure(SelfTransaction);
      }
      var id := NewRowId(pending.Keys);
      pending := pending[id := PendingRecord(fromId, toId, amount, ToLower(unit.value),
                                             if note.Some? then note.value else "", instant, PendingState.Pending)];
      r := Success(id);
    }
    /** `Get`: exactly the records that match every supplied filter, each once, ordered by
        their instant. */
    method Get(f: Filter) returns (rows: seq<(nat, PendingRecord)>)
      ensures forall e :: e in rows ==> e.0 in pending && e.1 == pending[e.0] && Matches(e.0, e.1, f)
      ensures forall id :: id in pending && Matches(id, pending[id], f) ==> id in RowIds(rows)
      ensures DistinctIds(rows)
      ensures SortedByInstant(rows)
    {
      var remaining := pending.Keys;
      rows := [];
      while remaining != {}
        invariant remaining <= pending.Keys
        invariant forall e :: e in rows ==>
          e.0 in pending && e.1 == pending[e.0] && Matches(e.0, e.1, f) && e.0 !in remaining
        invariant forall id :: id in pending && id !in remaining && Matches(id, pending[id], f) ==> id in RowIds(rows)
        invariant DistinctIds(rows)
        invariant SortedByInstant(rows)
        decreases remaining
      {
        var id :| id in remaining;
        remaining := remaining - {id};
        if Matches(id, pending[id], f) {
          rows := Insert(rows, (id, pending[id]));
        }
      }
    }

    /** `UpdatePending`: the state read before the update, or none for an unknown id. A
        Pending record takes the update's target state, and a confirmation copies it into
        `IOU2_Transactions`; any other record is left as it is. The query reads one row per
        id, so its "more than one row" error cannot arise here. */
    method UpdatePending(id: nat, u: Update) returns (before: Option<PendingState>)
      requires Valid()
      modifies this
      ensures Valid()
      ensures id !in old(pending) ==> before.None? && pending == old(pending) && transactions == old(transactions)
      ensures id in old(pending) ==> before == Some(old(pending[id].state))
      ensures id in old(pending) ==>
        pending == old(pending)[id := old(pending[id]).(state := Transition(old(pending[id].state), u))]
      ensures id in old(pending) && old(pending[id].state) == PendingState.Pending && u == ConfirmUpdate ==>
        transactions == old(transactions)[NextRow(old(transactions).Keys) := AsTransaction(old(pending[id]))]
      ensures !(id in old(pending) && old(pending[id].state) == PendingState.Pending && u == ConfirmUpdate) ==>
        transactions == old(transactions)
    {
      if id !in pending {
        return None;
      }
      var record := pending[id];
      before := Some(record.state);
      if record.state == PendingState.Pending {
        if u == ConfirmUpdate {
          var row := NewRowId(transactions.Keys);
          transactions := transactions[row := AsTransaction(record)];
          copiedTo := copiedTo[id := row];
        }
        pending := pending[id := record.(state := Transition(record.state, u))];
      } else {
        pending := pending[id := record.(state := Transition(record.state, u))];
        assert pending == old(pending);
      }
    }

    /** `ConfirmPending`: the result code of the state read first; only a Pending record
        becomes Confirmed, and only then is it copied into the transactions table. */
    method ConfirmPending(id: nat) returns (r: ConfirmResult)
      requires Valid()
      modifies this
      ensures Valid()
      ensures r == ConfirmCode(if id in old(pending) then Some(old(pending[id].state)) else None)
      ensures r != ConfirmResult.Confirmed ==> pending == old(pending) && transactions == old(transactions)
      ensures r == ConfirmResult.Confirmed ==>
        && pending == old(pending)[id := old(pending[id]).(state := PendingState.Confirmed)]
        && transactions == old(transactions)[NextRow(old(transactions).Keys) := AsTransaction(old(pending[id]))]
    {
      var before := UpdatePending(id, ConfirmUpdate);
      r := ConfirmCode(before);
    }

    /** `DenyPending`: the result code of the state read first; only a Pending record
        becomes Denied, and nothing is added to the transactions table. */
    method DenyPending(id: nat) returns (r: DenyResult)
      requires Valid()
      modifies this
      ensures Valid()
      ensures r == DenyCode(if id in old(pending) then Some(old(pending[id].state)) else None)
      ensures transactions == old(transactions)
      ensures r != DenyResult.Denied ==> pending == old(pending)
      ensures r == DenyResult.Denied ==> pending == old(pending)[id := old(pending[id]).(state := PendingState.Denied)]
    {
      var before := UpdatePending(id, DenyUpdate);
      r := DenyCode(before);
    }
  }
}
