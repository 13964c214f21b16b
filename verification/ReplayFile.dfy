/** The signer's replay state and the file it is kept in: what was written is what a restart reads. */
module ReplayFile {
  import opened Common

  type Account = (Bytes, nat)

  datatype Replay = Replay(used: set<Uuid>, next: map<Account, nat>)

  const DEFAULT: Replay := Replay({}, map[])

  datatype Entry = Entry(account: Account, next: nat)

  /** The document: sorted decision nonces and one sorted entry per wallet and chain. */
  datatype File = File(schema: string, used: seq<Uuid>, nonces: seq<Entry>)

  const SCHEMA: string := "aegisledger.signer_replay.v1"

  // ---------- sorting ----------

  ghost predicate TotalOrder<T(!new)>(leq: (T, T) -> bool) {
    && (forall x, y :: leq(x, y) || leq(y, x))
    && (forall x, y :: leq(x, y) && leq(y, x) ==> x == y)
    && (forall x, y, z :: leq(x, y) && leq(y, z) ==> leq(x, z))
  }

  lemma {:induction false} LeastExists<T(!new)>(s: set<T>, leq: (T, T) -> bool) returns (least: T)
    requires TotalOrder(leq) && s != {}
    ensures least in s && forall y | y in s :: leq(least, y)
    decreases |s|
  {
    var x :| x in s;
    if s == {x} {
      return x;
    }
    var rest := s - {x};
    assert s == rest + {x};
    var m := LeastExists(rest, leq);
    return if leq(x, m) then x else m;
  }

  /** The elements of the set in ascending order. */
  function Sorted<T(!new)>(s: set<T>, leq: (T, T) -> bool): (r: seq<T>)
    requires TotalOrder(leq)
    ensures |r| == |s| && forall x :: x in r <==> x in s
    ensures forall i, j | 0 <= i < j < |r| :: leq(r[i], r[j]) && r[i] != r[j]
    decreases |s|
  {
    if s == {} then []
    else
      assert exists x :: x in s && forall y | y in s :: leq(x, y) by {
        var least := LeastExists(s, leq);
      }
      var x :| x in s && forall y | y in s :: leq(x, y);
      [x] + Sorted(s - {x}, leq)
  }

  predicate BytesLeq(a: Bytes, b: Bytes) {
    if a == [] then true
    else if b == [] then false
    else if a[0] != b[0] then a[0] < b[0]
    else BytesLeq(a[1..], b[1..])
  }

  lemma {:induction false} BytesTotal(a: Bytes, b: Bytes)
    ensures BytesLeq(a, b) || BytesLeq(b, a)
    ensures BytesLeq(a, b) && BytesLeq(b, a) ==> a == b
  {
    if a != [] && b != [] && a[0] == b[0] {
      BytesTotal(a[1..], b[1..]);
      assert a == [a[0]] + a[1..] && b == [b[0]] + b[1..];
    }
  }

  lemma {:induction false} BytesTransitive(a: Bytes, b: Bytes, c: Bytes)
    requires BytesLeq(a, b) && BytesLeq(b, c)
    ensures BytesLeq(a, c)
  {
    if a != [] && b != [] && c != [] && a[0] == b[0] == c[0] {
      BytesTransitive(a[1..], b[1..], c[1..]);
    }
  }

  predicate AccountLeq(a: Account, b: Account) {
    if a.0 == b.0 then a.1 <= b.1 else BytesLeq(a.0, b.0)
  }

  lemma {:induction false} AccountsOrdered()
    ensures TotalOrder(AccountLeq)
  {
    forall a: Account, b: Account
      ensures AccountLeq(a, b) || AccountLeq(b, a)
      ensures AccountLeq(a, b) && AccountLeq(b, a) ==> a == b
    {
      BytesTotal(a.0, b.0);
    }
    forall a: Account, b: Account, c: Account | AccountLeq(a, b) && AccountLeq(b, c)
      ensures AccountLeq(a, c)
    {
      BytesTotal(a.0, b.0);
      BytesTotal(b.0, a.0);
      if a.0 != b.0 && b.0 != c.0 {
        BytesTransitive(a.0, b.0, c.0);
      }
    }
  }

  // ---------- writing ----------

  predicate UuidLeq(a: Uuid, b: Uuid) {
    a <= b
  }

  function Entries(next: map<Account, nat>, accounts: seq<Account>): (r: seq<Entry>)
    requires forall a | a in accounts :: a in next
  {
    seq(|accounts|, i requires 0 <= i < |accounts| => Entry(accounts[i], next[accounts[i]]))
  }

  function Persist(r: Replay): File {
    AccountsOrdered();
    File(SCHEMA, Sorted(r.used, UuidLeq), Entries(r.next, Sorted(r.next.Keys, AccountLeq)))
  }

  // ---------- the size of the document ----------

  /** A restart refuses a larger file. */
  const SIZE_LIMIT: nat := 16 * 1024 * 1024

  function Digits(n: nat): (r: nat)
    ensures r > 0
  {
    if n < 10 then 1 else Digits(n / 10) + 1
  }

  /** One account: braces, quotes, names, the wallet in hexadecimal and two numbers. */
  function EntrySize(e: Entry): nat {
    11 + 2 + 2 * |e.account.0| + 13 + Digits(e.account.1) + 14 + Digits(e.next) + 1
  }

  function EntriesSize(entries: seq<Entry>, n: nat): nat
    requires n <= |entries|
  {
    if n == 0 then 0 else EntriesSize(entries, n - 1) + EntrySize(entries[n - 1]) + if n > 1 then 1 else 0
  }

  /** The bytes of the JSON document with its final newline; a decision nonce is 36 characters in quotes. */
  function Size(f: File): nat {
    19 + |f.schema| + 20 + (if f.used == [] then 0 else 39 * |f.used| - 1) + 19 + EntriesSize(f.nonces, |f.nonces|) + 3
  }

  function Decimal(n: nat): string {
    if n < 10 then ["0123456789"[n]] else Decimal(n / 10) + ["0123456789"[n % 10]]
  }

  function Hex(b: Bytes): string {
    if b == [] then "" else ["0123456789abcdef"[b[0] / 16], "0123456789abcdef"[b[0] % 16]] + Hex(b[1..])
  }

  function EntryText(e: Entry): string {
    "{\"wallet\":\"0x" + Hex(e.account.0) + "\",\"chain_id\":" + Decimal(e.account.1)
    + ",\"next_nonce\":" + Decimal(e.next) + "}"
  }

  /** The first n texts, separated by commas. */
  function Commas(texts: seq<string>, n: nat): string
    requires n <= |texts|
  {
    if n == 0 then "" else Commas(texts, n - 1) + (if n > 1 then "," else "") + texts[n - 1]
  }

  function Quoted(ids: seq<Uuid>, name: Uuid -> string): (r: seq<string>) {
    seq(|ids|, i requires 0 <= i < |ids| => "\"" + name(ids[i]) + "\"")
  }

  function EntryTexts(entries: seq<Entry>): (r: seq<string>) {
    seq(|entries|, i requires 0 <= i < |entries| => EntryText(entries[i]))
  }

  /** The document as it is written, given the text of a decision nonce. */
  function Text(f: File, name: Uuid -> string): string {
    "{\"schema_version\":\"" + f.schema + "\",\"used_decisions\":[" + Commas(Quoted(f.used, name), |f.used|)
    + "],\"wallet_nonces\":[" + Commas(EntryTexts(f.nonces), |f.nonces|) + "]}\n"
  }

  lemma {:induction false} DecimalSize(n: nat)
    ensures |Decimal(n)| == Digits(n)
  {
    if n >= 10 {
      DecimalSize(n / 10);
    }
  }

  lemma {:induction false} HexSize(b: Bytes)
    ensures |Hex(b)| == 2 * |b|
  {
    if b != [] {
      HexSize(b[1..]);
    }
  }

  lemma {:induction false} EntryTextSize(e: Entry)
    ensures |EntryText(e)| == EntrySize(e)
  {
    HexSize(e.account.0);
    DecimalSize(e.account.1);
    DecimalSize(e.next);
    hide Hex, Decimal, Digits;
  }

  lemma {:induction false} CommasSize(texts: seq<string>, n: nat)
    requires n <= |texts|
    ensures |Commas(texts, n)| == if n == 0 then 0 else |Commas(texts, n - 1)| + (if n > 1 then 1 else 0) + |texts[n - 1]|
  {}

  lemma {:induction false} NamesSize(ids: seq<Uuid>, name: Uuid -> string, n: nat)
    requires n <= |ids| && forall id :: |name(id)| == 36
    ensures |Commas(Quoted(ids, name), n)| == if n == 0 then 0 else 39 * n - 1
  {
    hide Commas;
    CommasSize(Quoted(ids, name), n);
    if n > 0 {
      NamesSize(ids, name, n - 1);
    }
  }

  lemma {:induction false} EntryTextsSize(entries: seq<Entry>, n: nat)
    requires n <= |entries|
    ensures |Commas(EntryTexts(entries), n)| == EntriesSize(entries, n)
  {
    hide EntryText, EntrySize, Commas;
    CommasSize(EntryTexts(entries), n);
    if n > 0 {
      EntryTextsSize(entries, n - 1);
      EntryTextSize(entries[n - 1]);
    }
  }

  /** The size is the number of characters written, decision nonces being 36 long. */
  lemma {:induction false} SizeIsWritten(f: File, name: Uuid -> string)
    requires forall id :: |name(id)| == 36
    ensures |Text(f, name)| == Size(f)
  {
    NamesSize(f.used, name, |f.used|);
    EntryTextsSize(f.nonces, |f.nonces|);
    hide Commas, Quoted, EntryTexts, EntriesSize;
  }

  // ---------- reading ----------

  function LoadEntries(entries: seq<Entry>, n: nat): Option<map<Account, nat>>
    requires n <= |entries|
  {
    if n == 0 then Some(map[])
    else
      var before := LoadEntries(entries, n - 1);
      if before.None? || entries[n - 1].account in before.value then None
      else Some(before.value[entries[n - 1].account := entries[n - 1].next])
  }

  function AsSet(ids: seq<Uuid>): set<Uuid> {
    set id | id in ids
  }

  /** No file is the default state; too large a file, an unknown schema or a repeated account keeps the
      signer from starting. */
  function Load(file: Option<File>): Option<Replay> {
    match file
    case None => Some(DEFAULT)
    case Some(f) =>
      if Size(f) > SIZE_LIMIT || f.schema != SCHEMA then None
      else
        var next := LoadEntries(f.nonces, |f.nonces|);
        if next.None? then None else Some(Replay(AsSet(f.used), next.value))
  }

  method LoadReplayState(file: Option<File>) returns (r: Option<Replay>)
    ensures r == Load(file)
  {
    if file.None? {
      return Some(DEFAULT);
    }
    var f := file.value;
    if Size(f) > SIZE_LIMIT {
      return None;
    }
    if f.schema != SCHEMA {
      return None;
    }
    var next: map<Account, nat> := map[];
    for i := 0 to |f.nonces|
      invariant LoadEntries(f.nonces, i) == Some(next)
    {
      if f.nonces[i].account in next {
        LoadFails(f.nonces, i + 1, |f.nonces|);
        return None;
      }
      next := next[f.nonces[i].account := f.nonces[i].next];
    }
    return Some(Replay(AsSet(f.used), next));
  }

  lemma {:induction false} LoadFails(entries: seq<Entry>, m: nat, n: nat)
    requires m <= n <= |entries| && LoadEntries(entries, m).None?
    ensures LoadEntries(entries, n).None?
  {
    if m < n {
      LoadFails(entries, m, n - 1);
    }
  }

  // ---------- the round trip ----------

  /** The entries list the map: every key once, with its value. */
  ghost predicate Lists(entries: seq<Entry>, n: nat, m: map<Account, nat>)
    requires n <= |entries|
  {
    && (forall i, j | 0 <= i < j < n :: entries[i].account != entries[j].account)
    && (forall i | 0 <= i < n :: entries[i].account in m && m[entries[i].account] == entries[i].next)
    && (forall k | k in m :: exists i :: 0 <= i < n && entries[i].account == k)
  }

  lemma {:induction false} LoadIsListed(entries: seq<Entry>, n: nat)
    requires n <= |entries| && LoadEntries(entries, n).Some?
    ensures Lists(entries, n, LoadEntries(entries, n).value)
  {
    if n > 0 {
      LoadIsListed(entries, n - 1);
      LoadListed(entries, n, LoadEntries(entries, n).value);
    }
  }

  lemma {:induction false} LoadListed(entries: seq<Entry>, n: nat, m: map<Account, nat>)
    requires 0 < n <= |entries| && LoadEntries(entries, n) == Some(m)
    requires Lists(entries, n - 1, LoadEntries(entries, n - 1).value)
    ensures Lists(entries, n, m)
  {
    forall k | k in m
      ensures exists i :: 0 <= i < n && entries[i].account == k
    {
      if k != entries[n - 1].account {
        var i :| 0 <= i < n - 1 && entries[i].account == k;
      }
    }
  }

  /** Entries without a repeated account load. */
  lemma {:induction false} DistinctLoads(entries: seq<Entry>, n: nat)
    requires n <= |entries| && forall i, j | 0 <= i < j < n :: entries[i].account != entries[j].account
    ensures LoadEntries(entries, n).Some?
  {
    if n > 0 {
      DistinctLoads(entries, n - 1);
      LoadIsListed(entries, n - 1);
    }
  }

  lemma {:induction false} ListedOnce(entries: seq<Entry>, n: nat, m: map<Account, nat>, m': map<Account, nat>)
    requires n <= |entries| && Lists(entries, n, m) && Lists(entries, n, m')
    ensures m == m'
  {
    forall k | k in m
      ensures k in m' && m'[k] == m[k]
    {
      var i :| 0 <= i < n && entries[i].account == k;
    }
    forall k | k in m'
      ensures k in m
    {
      var i :| 0 <= i < n && entries[i].account == k;
    }
  }

  lemma {:induction false} EntriesLoadExactly(entries: seq<Entry>, m: map<Account, nat>)
    ensures LoadEntries(entries, |entries|) == Some(m) <==> Lists(entries, |entries|, m)
  {
    if LoadEntries(entries, |entries|) == Some(m) {
      LoadIsListed(entries, |entries|);
    }
    if Lists(entries, |entries|, m) {
      DistinctLoads(entries, |entries|);
      LoadIsListed(entries, |entries|);
      ListedOnce(entries, |entries|, m, LoadEntries(entries, |entries|).value);
    }
  }

  ghost predicate SameIds(ids: seq<Uuid>, s: set<Uuid>) {
    forall id :: id in ids <==> id in s
  }

  lemma {:induction false} SetOfIds(ids: seq<Uuid>, s: set<Uuid>)
    ensures SameIds(ids, s) <==> AsSet(ids) == s
  {}

  /** A file loads as a state exactly when it is small enough, has the schema and lists that state, each account once. */
  lemma {:induction false} LoadsExactly(f: File, r: Replay)
    ensures Load(Some(f)) == Some(r) <==>
            && Size(f) <= 16_777_216 && f.schema == "aegisledger.signer_replay.v1"
            && SameIds(f.used, r.used) && Lists(f.nonces, |f.nonces|, r.next)
  {
    EntriesLoadExactly(f.nonces, r.next);
    SetOfIds(f.used, r.used);
    hide Lists, LoadEntries, SameIds, AsSet, Size;
  }

  lemma {:induction false} EntriesList(next: map<Account, nat>, accounts: seq<Account>)
    requires forall a :: a in accounts <==> a in next
    requires forall i, j | 0 <= i < j < |accounts| :: accounts[i] != accounts[j]
    ensures Lists(Entries(next, accounts), |accounts|, next)
  {
    forall k | k in next
      ensures exists i :: 0 <= i < |accounts| && Entries(next, accounts)[i].account == k
    {
      var i :| 0 <= i < |accounts| && accounts[i] == k;
      assert Entries(next, accounts)[i].account == k;
    }
  }

  /** What is persisted loads as exactly the same state, unless it has outgrown the limit. */
  lemma {:induction false} LoadUndoesPersist(r: Replay)
    ensures Load(Some(Persist(r))) == if Size(Persist(r)) <= SIZE_LIMIT then Some(r) else None
  {
    AccountsOrdered();
    EntriesList(r.next, Sorted(r.next.Keys, AccountLeq));
    LoadsExactly(Persist(r), r);
    hide Size, Lists;
  }

  /** It happens: used decisions are never dropped, and a signer that has seen 430,186 of them writes a file
      it refuses to start from. */
  lemma {:induction false} OutgrownFileIsRefused(r: Replay)
    requires |r.used| > SIZE_LIMIT / 39
    ensures Load(Some(Persist(r))) == None && SIZE_LIMIT / 39 == 430185
  {
    LoadUndoesPersist(r);
    assert |Persist(r).used| == |r.used|;
    hide EntriesSize;
  }
}
