/** The application shell's own state changes: the transaction list with
    its pending deletion, the settings screen's member list, the list's type
    filter, the load-time id repair and the backup file's shape check. */
module Store {
  import opened Optional
  import opened Seqs
  import opened Text
  import opened Calendar
  import opened Types
  import opened TimeRange

  /** The stored transactions, newest first, and the id whose deletion
      awaits confirmation. */
  datatype Ledger = Ledger(transactions: seq<Transaction>, pendingDelete: Option<string>)

  /** A new transaction goes to the front; nothing else changes. */
  function AddTransaction(l: Ledger, t: Transaction): (r: Ledger)
    ensures |r.transactions| == |l.transactions| + 1
    ensures r.transactions[0] == t && r.transactions[1..] == l.transactions
    ensures r.pendingDelete == l.pendingDelete
  {
    l.(transactions := [t] + l.transactions)
  }

  /** The trash button: remember which transaction to delete. */
  function RequestDelete(l: Ledger, id: string): (r: Ledger)
    ensures r.transactions == l.transactions && r.pendingDelete == Some(id)
  {
    l.(pendingDelete := Some(id))
  }

  /** The dialog's cancel button. */
  function CancelDelete(l: Ledger): (r: Ledger)
    ensures r.transactions == l.transactions && r.pendingDelete == None
  {
    l.(pendingDelete := None)
  }

  /** A pending id that is a non-empty string (JavaScript truthiness). */
  predicate HasPending(l: Ledger) {
    l.pendingDelete.Some? && l.pendingDelete.value != ""
  }

  /** The dialog's confirm button: with a pending id, every transaction
      carrying it goes and the pending id is cleared; otherwise nothing
      happens. */
  function ConfirmDelete(l: Ledger): (r: Ledger)
    ensures HasPending(l) ==>
      && r.pendingDelete == None
      && IsSubsequence(r.transactions, l.transactions)
      && (forall t :: t in r.transactions <==> t in l.transactions && t.id != l.pendingDelete.value)
      && (forall t :: multiset(r.transactions)[t] ==
            if t.id != l.pendingDelete.value then multiset(l.transactions)[t] else 0)
    ensures !HasPending(l) ==> r == l
  {
    if HasPending(l) then
      var id := l.pendingDelete.value;
      FilterCounts(l.transactions, (t: Transaction) => t.id != id);
      Ledger(Filter(l.transactions, (t: Transaction) => t.id != id), None)
    else l
  }

  /** Deleting a just-added transaction whose id is new and non-empty gives
      back the list as it was. */
  lemma AddThenDelete(l: Ledger, t: Transaction)
    requires t.id != ""
    requires forall u :: u in l.transactions ==> u.id != t.id
    ensures ConfirmDelete(RequestDelete(AddTransaction(l, t), t.id)).transactions == l.transactions
  {
    var p := (u: Transaction) => u.id != t.id;
    FilterKeepsAll(l.transactions, p);
    FilterAppend([t], l.transactions, p);
    assert [t] + l.transactions == AddTransaction(l, t).transactions;
  }

  /** A second confirmation does nothing. */
  lemma ConfirmDeleteOnce(l: Ledger)
    ensures ConfirmDelete(ConfirmDelete(l)) == ConfirmDelete(l)
  {
  }

  /** The settings screen: the family profile, if one is registered, and the
      text of the new-member field. */
  datatype Settings = Settings(profile: Option<FamilyProfile>, newMember: string)

  /** Submitting the new-member field: with a profile and a non-blank entry,
      the trimmed name is appended and the field cleared; otherwise nothing
      happens. */
  function AddMember(s: Settings): (r: Settings)
    ensures s.profile.Some? && Trim(s.newMember) != "" ==>
      && r.newMember == ""
      && r.profile.Some?
      && r.profile.value.members == s.profile.value.members + [Trim(s.newMember)]
      && r.profile.value.familyName == s.profile.value.familyName
      && r.profile.value.pin == s.profile.value.pin
    ensures s.profile.None? || Trim(s.newMember) == "" ==> r == s
  {
    match s.profile
    case None => s
    case Some(p) =>
      var name := Trim(s.newMember);
      if name == "" then s
      else Settings(Some(p.(members := p.members + [name])), "")
  }

  /** A member's remove button; `confirmed` is the answer to the
      confirmation dialog. Every member equal to `name` goes, in one step;
      the rest keep their order. */
  function RemoveMember(s: Settings, name: string, confirmed: bool): (r: Settings)
    ensures r.newMember == s.newMember
    ensures s.profile.None? || !confirmed ==> r == s
    ensures s.profile.Some? && confirmed ==>
      && r.profile.Some?
      && IsSubsequence(r.profile.value.members, s.profile.value.members)
      && (forall m :: m in r.profile.value.members <==> m in s.profile.value.members && m != name)
      && (forall m :: multiset(r.profile.value.members)[m] ==
            if m != name then multiset(s.profile.value.members)[m] else 0)
      && r.profile.value.familyName == s.profile.value.familyName
      && r.profile.value.pin == s.profile.value.pin
  {
    match s.profile
    case None => s
    case Some(p) =>
      if !confirmed then s
      else
        FilterCounts(p.members, (m: string) => m != name);
        s.(profile := Some(p.(members := Filter(p.members, (m: string) => m != name))))
  }

  /** Removing a name that was just added, and was not there before, gives
      back the profile as it was. */
  lemma AddThenRemoveMember(s: Settings)
    requires s.profile.Some? && Trim(s.newMember) != ""
    requires Trim(s.newMember) !in s.profile.value.members
    ensures RemoveMember(AddMember(s), Trim(s.newMember), true).profile == s.profile
  {
    var name := Trim(s.newMember);
    var ms := s.profile.value.members;
    var p := (m: string) => m != name;
    var added := AddMember(s).profile.value;
    assert added.members == ms + [name];
    FilterAppend(ms, [name], p);
    FilterKeepsAll(ms, p);
    assert Filter([name], p) == [];
    assert Filter(added.members, p) == ms;
    assert added.(members := ms) == s.profile.value;
  }

  /** The list's type tabs: everything, or one kind. */
  datatype TypeFilter = AllTypes | Only(kind: TxType)

  predicate Shows(f: TypeFilter, t: Transaction) {
    match f
    case AllTypes => true
    case Only(k) => t.kind == k
  }

  /** The transactions the list shows under the type tab `f`. */
  function FilterByType(ts: seq<Transaction>, f: TypeFilter): (r: seq<Transaction>)
    ensures IsSubsequence(r, ts)
    ensures forall t :: t in r <==> t in ts && (f.Only? ==> t.kind == f.kind)
    ensures forall t :: multiset(r)[t] == if Shows(f, t) then multiset(ts)[t] else 0
    ensures f == AllTypes ==> r == ts
  {
    FilterAllTypes(ts, f);
    FilterCounts(ts, (t: Transaction) => Shows(f, t));
    Filter(ts, (t: Transaction) => Shows(f, t))
  }

  lemma FilterAllTypes(ts: seq<Transaction>, f: TypeFilter)
    ensures f == AllTypes ==> Filter(ts, (t: Transaction) => Shows(f, t)) == ts
  {
    if f == AllTypes {
      FilterKeepsAll(ts, t => Shows(f, t));
    }
  }

  /** The type tab and the time range select independently: applying them
      in either order shows the same list. */
  lemma TypeAndRangeCommute(ts: seq<Transaction>, f: TypeFilter, r: Range, now: DateTime)
    requires ValidDateTime(now)
    ensures FilterByType(FilterByRange(ts, r, now), f) == FilterByRange(FilterByType(ts, f), r, now)
  {
    FilterCommute(ts, t => Keeps(r, now, t), t => Shows(f, t));
  }

  /** One transaction through the repair: kept when its id is truthy,
      otherwise given the load time's digits followed by `suffix`. */
  function Repair(t: Transaction, now: nat, suffix: string): Transaction {
    if t.id != "" then t else t.(id := NatToString(now) + suffix)
  }

  /** The load-time repair: a transaction without a (truthy) id gets one made
      of the load time's decimal digits and a random suffix; the others are
      kept as they are. `now` and `suffixes` stand for `Date.now()` and the
      `Math.random()` text of each transaction. */
  function RepairIds(ts: seq<Transaction>, now: nat, suffixes: seq<string>): (r: seq<Transaction>)
    requires |suffixes| == |ts|
    ensures |r| == |ts|
    ensures forall i :: 0 <= i < |r| ==> r[i].id != ""
    ensures forall i :: 0 <= i < |r| ==> ts[i].id != "" ==> r[i] == ts[i]
    ensures forall i :: 0 <= i < |r| ==> r[i] == ts[i].(id := r[i].id)
  {
    seq(|ts|, i requires 0 <= i < |ts| => Repair(ts[i], now, suffixes[i]))
  }

  /** Repairing repaired transactions changes nothing. */
  lemma RepairIdsIdempotent(ts: seq<Transaction>, now: nat, suffixes: seq<string>, later: nat, more: seq<string>)
    requires |suffixes| == |ts| && |more| == |ts|
    ensures RepairIds(RepairIds(ts, now, suffixes), later, more) == RepairIds(ts, now, suffixes)
  {
    var r := RepairIds(ts, now, suffixes);
    var r2 := RepairIds(r, later, more);
    assert forall i :: 0 <= i < |r| ==> r2[i] == r[i];
  }

  /** A parsed JSON value. Object members are kept in text order. */
  datatype Json =
    | JNull
    | JBool(b: bool)
    | JNumber(n: real)
    | JString(s: string)
    | JArray(items: seq<Json>)
    | JObject(members: seq<(string, Json)>)

  /** Property `key` of `v`: the last member of that name (`JSON.parse`
      keeps the last of duplicates); absent keys and non-objects give `None`,
      JavaScript's `undefined`. */
  function Get(v: Json, key: string): (r: Option<Json>)
    ensures r.Some? ==> v.JObject? && exists i :: 0 <= i < |v.members| && v.members[i] == (key, r.value)
    ensures r.None? && v.JObject? ==> forall i :: 0 <= i < |v.members| ==> v.members[i].0 != key
  {
    if v.JObject? then LastMember(v.members, key) else None
  }

  function LastMember(ms: seq<(string, Json)>, key: string): (r: Option<Json>)
    ensures r.Some? ==> exists i :: 0 <= i < |ms| && ms[i] == (key, r.value)
    ensures r.None? ==> forall i :: 0 <= i < |ms| ==> ms[i].0 != key
    decreases |ms|
  {
    if ms == [] then None
    else if ms[|ms| - 1].0 == key then Some(ms[|ms| - 1].1)
    else LastMember(ms[..|ms| - 1], key)
  }

  /** JavaScript truthiness of a property value. */
  predicate Truthy(v: Option<Json>) {
    match v
    case None => false
    case Some(j) =>
      match j
      case JNull => false
      case JBool(b) => b
      case JNumber(n) => n != 0.0
      case JString(s) => s != ""
      case JArray(_) => true
      case JObject(_) => true
  }

  /** What reading a backup file leads to. */
  datatype ImportOutcome =
    | ReadError
    | NotABackup
    | Declined
    | Restored(family: Json, transactions: seq<Json>)

  /** The shape check on a parsed backup: a truthy `family` and an array of
      `transactions`. */
  predicate IsBackupShape(v: Json) {
    && Truthy(Get(v, "family"))
    && Get(v, "transactions").Some? && Get(v, "transactions").value.JArray?
  }

  /** The backup import. `parsed` is `JSON.parse` of the file (`None` when it
      throws); `confirmed` is the answer to the overwrite warning. A file
      whose top value is `null` fails like unreadable text, because reading
      a property of `null` throws. */
  function Import(parsed: Option<Json>, confirmed: bool): (r: ImportOutcome)
    ensures r.Restored? <==> parsed.Some? && IsBackupShape(parsed.value) && confirmed
    ensures r.Restored? ==>
      && Get(parsed.value, "family") == Some(r.family)
      && Get(parsed.value, "transactions") == Some(JArray(r.transactions))
    ensures r == Declined <==> parsed.Some? && IsBackupShape(parsed.value) && !confirmed
    ensures r == NotABackup <==> parsed.Some? && parsed.value != JNull && !IsBackupShape(parsed.value)
    ensures r == ReadError <==> parsed.None? || parsed == Some(JNull)
  {
    match parsed
    case None => ReadError
    case Some(v) =>
      if v == JNull then ReadError
      else
        var family := Get(v, "family");
        var txs := Get(v, "transactions");
        if IsBackupShape(v) then
          if confirmed then Restored(family.value, txs.value.items) else Declined
        else NotABackup
  }

  function ProfileJson(p: FamilyProfile): Json {
    JObject([
      ("familyName", JString(p.familyName)),
      ("members", JArray(seq(|p.members|, i requires 0 <= i < |p.members| => JString(p.members[i])))),
      ("pin", JString(p.pin))])
  }

  function KindJson(k: TxType): Json {
    match k
    case Income => JString("income")
    case Expense => JString("expense")
  }

  /** A transaction as `JSON.stringify` writes it; `isoDate` stands for the
      stored date text. An absent company is written as the empty string. */
  function TransactionJson(t: Transaction, isoDate: DateTime -> string): Json {
    JObject([
      ("id", JString(t.id)),
      ("date", JString(isoDate(t.date))),
      ("amount", JNumber(t.amount)),
      ("category", JString(CategoryName(t.category))),
      ("description", JString(t.description)),
      ("type", KindJson(t.kind)),
      ("createdBy", JString(t.createdBy)),
      ("company", JString(t.company))])
  }

  /** The backup document; there is none without a registered family. */
  function Export(profile: Option<FamilyProfile>, ts: seq<Transaction>, isoDate: DateTime -> string, exportDate: string): (r: Option<Json>)
    ensures r.Some? <==> profile.Some?
  {
    match profile
    case None => None
    case Some(p) =>
      Some(JObject([
        ("family", ProfileJson(p)),
        ("transactions", JArray(seq(|ts|, i requires 0 <= i < |ts| => TransactionJson(ts[i], isoDate)))),
        ("exportDate", JString(exportDate))]))
  }

  /** A file the application exported passes the import check: confirmed,
      it restores the exported family and one entry per transaction, in
      order; declined, it changes nothing. */
  lemma ExportThenImport(p: FamilyProfile, ts: seq<Transaction>, isoDate: DateTime -> string, exportDate: string)
    ensures var doc := Export(Some(p), ts, isoDate, exportDate);
      && Import(doc, true) == Restored(ProfileJson(p), seq(|ts|, i requires 0 <= i < |ts| => TransactionJson(ts[i], isoDate)))
      && Import(doc, false) == Declined
  {
    var doc := Export(Some(p), ts, isoDate, exportDate).value;
    var ms := doc.members;
    assert LastMember(ms, "family") == Some(ProfileJson(p)) by {
      assert LastMember(ms[..2], "family") == LastMember(ms[..1], "family");
    }
    assert LastMember(ms, "transactions") == Some(ms[1].1) by {
      assert LastMember(ms[..2], "transactions") == Some(ms[1].1);
    }
  }
}
