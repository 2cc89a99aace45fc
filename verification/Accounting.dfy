/** Balance rows, ledger rows and their totals (src/balances, src/ledger and the transaction
    helpers at the end of src/settlement/engine.rs). */
module Accounting {
  import opened Prelude
  import opened Sums
  import opened Auction

  datatype Asset = USDC | ETH | BTC | SOL

  /** A UUID; ids of every table are drawn from one source of fresh values. */
  type Id = nat
  type Account = Id

  const PLATFORM: Account := 1

  // ---------------------------------------------------------------
  // Machine integers
  // ---------------------------------------------------------------

  /** How sums computed in Rust are stored: exactly, or as a wrapped i64. */
  datatype Width = Exact | Bits64

  function Wrap64(x: int): (r: int)
    ensures I64_MIN <= r <= I64_MAX
    ensures I64_MIN <= x <= I64_MAX ==> r == x
  {
    (x - I64_MIN) % 0x1_0000_0000_0000_0000 + I64_MIN
  }

  function Fit(w: Width, x: int): int { if w.Exact? then x else Wrap64(x) }

  /** SQL arithmetic on a BIGINT column raises an error instead of wrapping. */
  predicate Storable(w: Width, x: int) { w.Exact? || I64_MIN <= x <= I64_MAX }

  /** `x as i64` for a u64. */
  function AsI64(x: nat): int { Wrap64(x) }

  // ---------------------------------------------------------------
  // Balances
  // ---------------------------------------------------------------

  datatype Balance = Balance(available: int, locked: int)
  type Key = (Account, Asset)
  type Balances = map<Key, Balance>

  /** The row a read sees; `find_or_create` inserts this row of zeros when there is none. */
  function Row(b: Balances, acct: Account, asset: Asset): Balance {
    if (acct, asset) in b then b[(acct, asset)] else Balance(0, 0)
  }

  function Touch(b: Balances, acct: Account, asset: Asset): Balances {
    b[(acct, asset) := Row(b, acct, asset)]
  }

  function Credit(w: Width, b: Balances, acct: Account, asset: Asset, amount: int): Balances {
    var row := Row(b, acct, asset);
    b[(acct, asset) := row.(available := Fit(w, row.available + amount))]
  }

  function Debit(w: Width, b: Balances, acct: Account, asset: Asset, amount: int): Option<Balances> {
    var row := Row(b, acct, asset);
    if row.available < amount then None
    else Some(b[(acct, asset) := row.(available := Fit(w, row.available - amount))])
  }

  /** An SQL UPDATE of one row: nothing happens when the row does not exist. */
  function Shift(w: Width, b: Balances, acct: Account, asset: Asset, dAvailable: int, dLocked: int): Option<Balances> {
    if (acct, asset) !in b then Some(b)
    else
      var row := b[(acct, asset)];
      if Storable(w, row.available + dAvailable) && Storable(w, row.locked + dLocked) then
        Some(b[(acct, asset) := Balance(row.available + dAvailable, row.locked + dLocked)])
      else None
  }

  function UnlockAndDebit(w: Width, b: Balances, acct: Account, asset: Asset, amount: int): Option<Balances> {
    if (acct, asset) in b && b[(acct, asset)].locked >= amount then Shift(w, b, acct, asset, 0, -amount)
    else None
  }

  /** What the accounts of `S` own of one asset, locked funds included. */
  ghost function Holding(S: iset<Account>, a: Asset): (Key, Balance) -> int {
    (k: Key, r: Balance) => if k.0 in S && k.1 == a then r.available + r.locked else 0
  }

  ghost function Held(b: Balances, S: iset<Account>, a: Asset): int { SumMap(b, Holding(S, a)) }

  ghost const EVERYONE: iset<Account> := iset x: Account | true

  /** `amount` if the movement concerns the accounts and asset being totalled. */
  ghost function Part(S: iset<Account>, a: Asset, acct: Account, asset: Asset, amount: int): int {
    if acct in S && asset == a then amount else 0
  }

  lemma PutHeld(b: Balances, acct: Account, asset: Asset, row: Balance, S: iset<Account>, a: Asset)
    ensures var was := Row(b, acct, asset);
            Held(b[(acct, asset) := row], S, a) ==
            Held(b, S, a) + Part(S, a, acct, asset, row.available + row.locked - was.available - was.locked)
  {
    SumChange(b, b[(acct, asset) := row], Holding(S, a), Holding(S, a), (acct, asset));
  }

  lemma CreditHeld(b: Balances, acct: Account, asset: Asset, amount: int, S: iset<Account>, a: Asset)
    ensures Held(Credit(Exact, b, acct, asset, amount), S, a) == Held(b, S, a) + Part(S, a, acct, asset, amount)
  {
    var row := Row(b, acct, asset);
    PutHeld(b, acct, asset, row.(available := row.available + amount), S, a);
  }

  lemma DebitHeld(b: Balances, acct: Account, asset: Asset, amount: int, S: iset<Account>, a: Asset)
    ensures var r := Debit(Exact, b, acct, asset, amount);
            r.Some? ==> Held(r.value, S, a) == Held(b, S, a) - Part(S, a, acct, asset, amount)
  {
    var row := Row(b, acct, asset);
    PutHeld(b, acct, asset, row.(available := row.available - amount), S, a);
  }

  lemma ShiftHeld(b: Balances, acct: Account, asset: Asset, dAvailable: int, dLocked: int, S: iset<Account>, a: Asset)
    ensures var r := Shift(Exact, b, acct, asset, dAvailable, dLocked);
            && r.Some?
            && Held(r.value, S, a) == Held(b, S, a)
                 + if (acct, asset) in b then Part(S, a, acct, asset, dAvailable + dLocked) else 0
  {
    if (acct, asset) in b {
      var row := b[(acct, asset)];
      PutHeld(b, acct, asset, Balance(row.available + dAvailable, row.locked + dLocked), S, a);
    }
  }

  // ---------------------------------------------------------------
  // Ledger
  // ---------------------------------------------------------------

  datatype EntryType = DEBIT | CREDIT
  datatype ReferenceType = TRADE | DEPOSIT | WITHDRAWAL | FEE
  datatype Entry = Entry(account: Account, asset: Asset, amount: int, entryType: EntryType,
                         referenceType: ReferenceType, reference: Id)

  /** `compute_balance` counts a DEBIT up and a CREDIT down. */
  function Signed(e: Entry): int { if e.entryType.DEBIT? then e.amount else -e.amount }

  function Post(l: seq<Entry>, e: Entry): seq<Entry> { l + [e] }

  ghost function Posted(l: seq<Entry>, S: iset<Account>, a: Asset): int {
    if l == [] then 0
    else
      var e := l[|l| - 1];
      Posted(l[..|l| - 1], S, a) + Part(S, a, e.account, e.asset, Signed(e))
  }

  lemma PostPosted(l: seq<Entry>, e: Entry, S: iset<Account>, a: Asset)
    ensures Posted(Post(l, e), S, a) == Posted(l, S, a) + Part(S, a, e.account, e.asset, Signed(e))
  {
    assert Post(l, e)[..|l|] == l;
  }

  /** The signed total of one account and asset, row by row. */
  method ComputeBalance(l: seq<Entry>, acct: Account, asset: Asset) returns (sum: int)
    ensures sum == Posted(l, iset{acct}, asset)
  {
    sum := 0;
    for i := 0 to |l|
      invariant sum == Posted(l[..i], iset{acct}, asset)
    {
      PostPosted(l[..i], l[i], iset{acct}, asset);
      assert l[..i + 1] == Post(l[..i], l[i]);
      if l[i].account == acct && l[i].asset == asset {
        sum := sum + if l[i].entryType.DEBIT? then l[i].amount else -l[i].amount;
      }
    }
    assert l[..|l|] == l;
  }
}
