/**
  The account pricing snapshot: which accounts the priced rows cover, and the
  merge with rows recovered from retained events. Nothing is assumed of what
  the recovery returns.
 */
module AccountCoverage {
  import opened CoverageTotals

  datatype Option<T> = None | Some(value: T)

  const METRICS: nat := 15

  datatype AccountKey = AccountKey(account: string, modelName: string, billing: string, tier: string)

  type AccountRow = Row<AccountKey>

  /** What is compared for one key: fifteen totals, the first and the last time. */
  datatype Entry = Entry(totals: seq<int>, firstSeen: int, lastSeen: int)

  function Max(a: int, b: int): int {
    if a >= b then a else b
  }

  /** The earliest time of a key's rows. */
  ghost function FirstSeen(rows: seq<AccountRow>, key: AccountKey): Option<int> {
    if |rows| == 0 then None
    else
      var before, last := FirstSeen(rows[..|rows| - 1], key), rows[|rows| - 1];
      if last.key == key && (before.None? || last.firstSeen < before.value) then Some(last.firstSeen) else before
  }

  /** The latest time of a key's rows, and no earlier than zero. */
  ghost function LastSeen(rows: seq<AccountRow>, key: AccountKey): int {
    if |rows| == 0 then 0
    else
      var before, last := LastSeen(rows[..|rows| - 1], key), rows[|rows| - 1];
      if last.key == key then Max(before, last.lastSeen) else before
  }

  ghost function EntryOf(rows: seq<AccountRow>, key: AccountKey): Option<Entry> {
    match FirstSeen(rows, key)
    case None => None
    case Some(first) => Some(Entry(Totals(rows, key, METRICS), first, LastSeen(rows, key)))
  }

  /** The first time is the least of the key's rows. */
  lemma {:induction false} FirstSeenIsLeast(rows: seq<AccountRow>, key: AccountKey)
    ensures FirstSeen(rows, key).Some? <==> Present(rows, key)
    ensures forall i | 0 <= i < |rows| && rows[i].key == key :: FirstSeen(rows, key).value <= rows[i].firstSeen
    ensures Present(rows, key) ==> exists i :: 0 <= i < |rows| && rows[i].key == key && rows[i].firstSeen == FirstSeen(rows, key).value
  {
    if |rows| > 0 {
      var n := |rows| - 1;
      var rest := rows[..n];
      FirstSeenIsLeast(rest, key);
      assert forall i | 0 <= i < n :: rest[i] == rows[i];
      if Present(rest, key) {
        var i :| 0 <= i < n && rest[i].key == key && rest[i].firstSeen == FirstSeen(rest, key).value;
        assert rows[i].key == key;
      }
      assert rows[n].key == key ==> Present(rows, key);
    }
  }

  /** The last time is the greatest of the key's rows, and no less than zero. */
  lemma {:induction false} LastSeenIsGreatest(rows: seq<AccountRow>, key: AccountKey)
    ensures forall i | 0 <= i < |rows| && rows[i].key == key :: rows[i].lastSeen <= LastSeen(rows, key)
    ensures LastSeen(rows, key) == 0 || exists i :: 0 <= i < |rows| && rows[i].key == key && rows[i].lastSeen == LastSeen(rows, key)
    ensures LastSeen(rows, key) >= 0
  {
    if |rows| > 0 {
      var n := |rows| - 1;
      var rest := rows[..n];
      LastSeenIsGreatest(rest, key);
      assert forall i | 0 <= i < n :: rest[i] == rows[i];
      if LastSeen(rest, key) != 0 {
        var i :| 0 <= i < n && rest[i].key == key && rest[i].lastSeen == LastSeen(rest, key);
        assert rows[i].key == key;
      }
    }
  }

  // ----- Grouping -----

  function Added(entry: Option<Entry>, values: seq<int>, first: int, last: int): Entry
    requires |values| == METRICS && (entry.Some? ==> |entry.value.totals| == METRICS)
  {
    match entry
    case None => Entry(Plus(Zeros(METRICS), values), first, Max(0, last))
    case Some(e) => Entry(Plus(e.totals, values), if first < e.firstSeen then first else e.firstSeen, Max(e.lastSeen, last))
  }

  lemma {:induction false} LastSeenAbsent(rows: seq<AccountRow>, key: AccountKey)
    requires FirstSeen(rows, key).None?
    ensures LastSeen(rows, key) == 0 && !Present(rows, key)
  {
    FirstSeenIsLeast(rows, key);
    if |rows| > 0 { LastSeenAbsent(rows[..|rows| - 1], key); }
  }

  lemma EntryNext(rows: seq<AccountRow>, row: AccountRow, key: AccountKey)
    requires |row.values| == METRICS
    ensures EntryOf(rows, key).Some? ==> |EntryOf(rows, key).value.totals| == METRICS
    ensures EntryOf(rows + [row], key)
      == if row.key == key then Some(Added(EntryOf(rows, key), row.values, row.firstSeen, row.lastSeen)) else EntryOf(rows, key)
  {
    hide Totals, Plus, Zeros;
    var all := rows + [row];
    assert all[..|rows|] == rows && all[|rows|] == row;
    TotalsNext(rows, row, key, METRICS);
    if FirstSeen(rows, key).None? {
      LastSeenAbsent(rows, key);
      TotalsAbsent(rows, key, METRICS);
    }
  }

  ghost predicate Grouped(m: map<AccountKey, Entry>, rows: seq<AccountRow>) {
    forall key :: EntryOf(rows, key) == if key in m then Some(m[key]) else None
  }

  /** addAccountPricingCoverage. */
  method AddAccountPricingCoverage(grouped: map<AccountKey, Entry>, row: AccountRow, ghost rows: seq<AccountRow>)
    returns (r: map<AccountKey, Entry>)
    requires Grouped(grouped, rows) && |row.values| == METRICS
    ensures Grouped(r, rows + [row])
  {
    hide EntryOf, Plus, Zeros;
    forall key
      ensures EntryOf(rows, key).Some? ==> |EntryOf(rows, key).value.totals| == METRICS
      ensures EntryOf(rows + [row], key)
        == if row.key == key then Some(Added(EntryOf(rows, key), row.values, row.firstSeen, row.lastSeen)) else EntryOf(rows, key)
    {
      EntryNext(rows, row, key);
    }
    assert EntryOf(rows, row.key) == if row.key in grouped then Some(grouped[row.key]) else None;
    var known := row.key in grouped;
    var entry := if known then grouped[row.key] else Entry(Zeros(METRICS), 0, 0);
    var totals := AddValues(entry.totals, row.values);
    var first := if !known || row.firstSeen < entry.firstSeen then row.firstSeen else entry.firstSeen;
    r := grouped[row.key := Entry(totals, first, Max(entry.lastSeen, row.lastSeen))];
  }

  method GroupRows(rows: seq<AccountRow>) returns (grouped: map<AccountKey, Entry>)
    requires Wide(rows, METRICS)
    ensures Grouped(grouped, rows)
  {
    hide EntryOf;
    grouped := map[];
    NothingGrouped();
    for n := 0 to |rows|
      invariant Grouped(grouped, rows[..n])
    {
      assert rows[..n + 1] == rows[..n] + [rows[n]];
      grouped := AddAccountPricingCoverage(grouped, rows[n], rows[..n]);
    }
    assert rows[..|rows|] == rows;
  }

  lemma NothingGrouped()
    ensures Grouped(map[], [])
  {
  }

  // ----- accountPricingCoverageIncompleteKeys -----

  /** Some key of the account differs: only one side has it, or a total or a time is not the same. */
  ghost predicate Incomplete(core: seq<AccountRow>, prices: seq<AccountRow>, account: string) {
    exists key: AccountKey :: key.account == account && EntryOf(core, key) != EntryOf(prices, key)
  }

  method IncompleteKeys(core: seq<AccountRow>, prices: seq<AccountRow>) returns (incomplete: set<string>)
    requires Wide(core, METRICS) && Wide(prices, METRICS)
    ensures forall account :: account in incomplete <==> Incomplete(core, prices, account)
  {
    hide EntryOf;
    var coreTotals := GroupRows(core);
    var priceTotals := GroupRows(prices);
    incomplete := {};
    var keys := coreTotals.Keys;
    while keys != {}
      invariant keys <= coreTotals.Keys
      invariant forall account | account in incomplete :: Incomplete(core, prices, account)
      invariant forall key | key in coreTotals && key !in keys && EntryOf(core, key) != EntryOf(prices, key) :: key.account in incomplete
    {
      var key :| key in keys;
      if key !in priceTotals || priceTotals[key] != coreTotals[key] {
        assert EntryOf(core, key) != EntryOf(prices, key);
        incomplete := incomplete + {key.account};
      }
      keys := keys - {key};
    }
    keys := priceTotals.Keys;
    while keys != {}
      invariant keys <= priceTotals.Keys
      invariant forall account | account in incomplete :: Incomplete(core, prices, account)
      invariant forall key | key in coreTotals && EntryOf(core, key) != EntryOf(prices, key) :: key.account in incomplete
      invariant forall key | key in priceTotals && key !in keys && key !in coreTotals :: key.account in incomplete
    {
      var key :| key in keys;
      if key !in coreTotals {
        assert EntryOf(core, key) != EntryOf(prices, key);
        incomplete := incomplete + {key.account};
      }
      keys := keys - {key};
    }
    forall account | Incomplete(core, prices, account) ensures account in incomplete {
      var key: AccountKey :| key.account == account && EntryOf(core, key) != EntryOf(prices, key);
      assert key in coreTotals || key in priceTotals;
    }
  }

  // ----- The merge -----

  /** The rows of the accounts in a set, or of the others. */
  function Filtered(rows: seq<AccountRow>, accounts: set<string>, inside: bool): (r: seq<AccountRow>)
    ensures forall i | 0 <= i < |r| :: r[i] in rows && (r[i].key.account in accounts) == inside
  {
    if |rows| == 0 then []
    else
      var rest, last := Filtered(rows[..|rows| - 1], accounts, inside), rows[|rows| - 1];
      if (last.key.account in accounts) == inside then rest + [last] else rest
  }

  method Keep(rows: seq<AccountRow>, accounts: set<string>, inside: bool) returns (r: seq<AccountRow>)
    ensures r == Filtered(rows, accounts, inside)
  {
    r := [];
    for i := 0 to |rows|
      invariant r == Filtered(rows[..i], accounts, inside)
    {
      assert rows[..i + 1][..i] == rows[..i];
      if (rows[i].key.account in accounts) == inside {
        r := r + [rows[i]];
      }
    }
    assert rows[..|rows|] == rows;
  }

  lemma {:induction false} FilteredEntry(rows: seq<AccountRow>, accounts: set<string>, inside: bool, key: AccountKey)
    requires Wide(rows, METRICS)
    ensures EntryOf(Filtered(rows, accounts, inside), key)
      == if (key.account in accounts) == inside then EntryOf(rows, key) else None
    ensures Wide(Filtered(rows, accounts, inside), METRICS)
  {
    hide EntryOf, Added;
    if |rows| > 0 {
      var n := |rows| - 1;
      FilteredEntry(rows[..n], accounts, inside, key);
      assert rows == rows[..n] + [rows[n]];
      EntryNext(rows[..n], rows[n], key);
      EntryNext(Filtered(rows[..n], accounts, inside), rows[n], key);
    } else {
      NothingGrouped();
      assert EntryOf([], key) == None;
    }
  }

  lemma {:induction false} JoinedEntry(a: seq<AccountRow>, b: seq<AccountRow>, key: AccountKey)
    requires Wide(a, METRICS) && Wide(b, METRICS)
    ensures EntryOf(a, key) == None ==> EntryOf(a + b, key) == EntryOf(b, key)
    ensures EntryOf(b, key) == None ==> EntryOf(a + b, key) == EntryOf(a, key)
  {
    hide EntryOf, Added;
    if |b| > 0 {
      var n := |b| - 1;
      JoinedEntry(a, b[..n], key);
      assert b == b[..n] + [b[n]] && a + b == (a + b[..n]) + [b[n]];
      EntryNext(b[..n], b[n], key);
      EntryNext(a + b[..n], b[n], key);
    } else {
      assert a + b == a;
      NothingGrouped();
      assert EntryOf(b, key) == None;
    }
  }

  datatype Snapshot = Snapshot(core: seq<AccountRow>, rows: seq<AccountRow>, available: bool, incomplete: set<string>)

  /** LoadUsagePricingAccountSnapshot, once the tables were read; recovery is None when its query fails. */
  method LoadAccountSnapshot(core: seq<AccountRow>, loaded: seq<AccountRow>, loadedAvailable: bool, recovery: Option<seq<AccountRow>>)
    returns (r: Option<Snapshot>)
    requires Wide(core, METRICS) && Wide(loaded, METRICS) && (recovery.Some? ==> Wide(recovery.value, METRICS))
    ensures r.Some? ==> r.value.core == core && (r.value.available <==> r.value.incomplete == {})
    ensures r.Some? ==> forall key: AccountKey | key.account !in r.value.incomplete :: EntryOf(r.value.rows, key) == EntryOf(core, key)
    ensures r.Some? ==> forall account | account in r.value.incomplete :: Unresolved(core, loaded, loadedAvailable, recovery, account)
    ensures r.Some? ==> forall row: AccountRow | row in r.value.rows && row.key.account in r.value.incomplete ::
      !Incomplete(core, Usable(loaded, loadedAvailable), row.key.account)
    ensures r.None? ==> recovery.None? && exists account :: Incomplete(core, Usable(loaded, loadedAvailable), account)
  {
    hide EntryOf;
    var rows := if loadedAvailable then loaded else [];
    var incomplete := IncompleteKeys(core, rows);
    if incomplete != {} {
      if recovery.None? {
        var account :| account in incomplete;
        assert Incomplete(core, Usable(loaded, loadedAvailable), account);
        return None;
      }
      var recovered := recovery.value;
      var recoveryCore := Keep(core, incomplete, true);
      forall key ensures EntryOf(recoveryCore, key) == (if key.account in incomplete then EntryOf(core, key) else None) && Wide(recoveryCore, METRICS) {
        FilteredEntry(core, incomplete, true, key);
      }
      assert Wide(recoveryCore, METRICS) by { FilteredEntry(core, incomplete, true, AccountKey("", "", "", "")); }
      var stillIncomplete := IncompleteKeys(recoveryCore, recovered);
      var completeRows := Keep(rows, incomplete, false);
      var resolved := Keep(recovered, stillIncomplete, false);
      forall key: AccountKey | key.account !in stillIncomplete
        ensures EntryOf(completeRows + resolved, key) == EntryOf(core, key)
      {
        Repaired(core, rows, recovered, recoveryCore, incomplete, stillIncomplete, key);
      }
      forall account | account in stillIncomplete ensures Unresolved(core, loaded, loadedAvailable, recovery, account) {
        var key: AccountKey :| key.account == account && EntryOf(recoveryCore, key) != EntryOf(recovered, key);
        if account !in incomplete { assert EntryOf(recovered, key) != None; }
      }
      var merged := completeRows + resolved;
      forall row: AccountRow | row in merged && row.key.account in stillIncomplete
        ensures !Incomplete(core, Usable(loaded, loadedAvailable), row.key.account)
      {
        assert row in completeRows || row in resolved;
      }
      rows := merged;
      incomplete := stillIncomplete;
    }
    r := Some(Snapshot(core, rows, incomplete == {}, incomplete));
  }

  function Usable(loaded: seq<AccountRow>, available: bool): seq<AccountRow> {
    if available then loaded else []
  }

  /** Why an account is listed: the recovery did not repair it, or brought rows nobody asked for. */
  ghost predicate Unresolved(core: seq<AccountRow>, loaded: seq<AccountRow>, available: bool, recovery: Option<seq<AccountRow>>, account: string) {
    recovery.Some? &&
    if Incomplete(core, Usable(loaded, available), account) then Incomplete(core, recovery.value, account)
    else exists key: AccountKey :: key.account == account && EntryOf(recovery.value, key) != None
  }

  /** An account that is not listed has exactly the core totals and times, whatever the recovery returned. */
  lemma Repaired(core: seq<AccountRow>, rows: seq<AccountRow>, recovered: seq<AccountRow>, recoveryCore: seq<AccountRow>,
                 incomplete: set<string>, stillIncomplete: set<string>, key: AccountKey)
    requires Wide(core, METRICS) && Wide(rows, METRICS) && Wide(recovered, METRICS)
    requires recoveryCore == Filtered(core, incomplete, true)
    requires forall account :: account in incomplete <==> Incomplete(core, rows, account)
    requires forall account :: account in stillIncomplete <==> Incomplete(recoveryCore, recovered, account)
    requires key.account !in stillIncomplete
    ensures EntryOf(Filtered(rows, incomplete, false) + Filtered(recovered, stillIncomplete, false), key) == EntryOf(core, key)
  {
    hide EntryOf, Filtered;
    FilteredEntry(core, incomplete, true, key);
    FilteredEntry(rows, incomplete, false, key);
    FilteredEntry(recovered, stillIncomplete, false, key);
    JoinedEntry(Filtered(rows, incomplete, false), Filtered(recovered, stillIncomplete, false), key);
    assert EntryOf(recoveryCore, key) == EntryOf(recovered, key);
    if key.account !in incomplete { assert EntryOf(core, key) == EntryOf(rows, key); }
  }
}
