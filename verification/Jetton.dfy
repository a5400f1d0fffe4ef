/** The token ledger of internal/jetton/jetton.go: decimal texts in tables, and the numbers they stand for. */
module Jetton {
  import opened Wrappers
  import opened Sums
  import opened Decimal

  datatype Error =
    | JettonNotFound | InsufficientBalance | NotMinter | MintingDisabled | BurnDisabled | TransferDisabled
    | InvalidAmount | NotOwner | WalletFrozen | RecipientRequired | ExceedsMaxSupply | NotFreezable

  datatype Row = Row(
    owner: nat,
    totalSupply: string,
    maxSupply: Option<string>,
    freezable: bool,
    minting: bool,
    burning: bool,
    transfers: bool)

  datatype Wallet = Wallet(balance: string, frozen: bool)

  // ----- The ledger in numbers -----

  /** One token: `initial`, `minted`, `burned` and `selfSent` are the history of its supply. */
  datatype Ledger = Ledger(
    supply: int,
    cap: Option<int>,
    balances: map<nat, int>,
    initial: int,
    minted: int,
    burned: int,
    selfSent: int)

  datatype Op =
    | Open(user: nat)
    | Send(from: nat, to: nat, amount: int)
    | MintTo(to: nat, amount: int)
    | BurnFrom(from: nat, amount: int)

  function Opened(l: Ledger, user: nat): Ledger {
    if user in l.balances then l else l.(balances := l.balances[user := 0])
  }

  predicate Allowed(l: Ledger, op: Op) {
    match op
    case Open(_) => true
    case Send(from, to, amount) => amount > 0 && from in l.balances && to in l.balances && l.balances[from] >= amount
    case MintTo(to, amount) => amount > 0 && to in l.balances && (l.cap.Some? ==> l.supply + amount <= l.cap.value)
    case BurnFrom(from, amount) => amount > 0 && from in l.balances && l.balances[from] >= amount
  }

  /** A transfer reads both balances, then writes the sender's and then the recipient's. */
  function Step(l: Ledger, op: Op): Ledger
    requires Allowed(l, op)
  {
    match op
    case Open(user) => Opened(l, user)
    case Send(from, to, amount) =>
      var credited := l.balances[to] + amount;
      l.(balances := l.balances[from := l.balances[from] - amount][to := credited],
         selfSent := if from == to then l.selfSent + amount else l.selfSent)
    case MintTo(to, amount) =>
      l.(balances := l.balances[to := l.balances[to] + amount], supply := l.supply + amount, minted := l.minted + amount)
    case BurnFrom(from, amount) =>
      l.(balances := l.balances[from := l.balances[from] - amount], supply := l.supply - amount, burned := l.burned + amount)
  }

  ghost predicate Runs(l: Ledger, ops: seq<Op>, end: Ledger)
    decreases |ops|
  {
    if ops == [] then l == end else Allowed(l, ops[0]) && Runs(Step(l, ops[0]), ops[1..], end)
  }

  /** A token as created: all of its initial supply is in somebody's hands, and nothing has happened since. */
  ghost predicate Issued(l: Ledger) {
    && l.supply == l.initial == Sum(l.balances)
    && l.minted == l.burned == l.selfSent == 0
    && (forall u :: u in l.balances ==> l.balances[u] >= 0)
    && (l.cap.Some? ==> l.initial <= l.cap.value)
  }

  /** The supply is accounted for; what self-transfers have added is all that separates it from the balances. */
  ghost predicate Balanced(l: Ledger) {
    && Sum(l.balances) == l.supply + l.selfSent
    && l.supply == l.initial + l.minted - l.burned
    && (forall u :: u in l.balances ==> l.balances[u] >= 0)
    && (l.cap.Some? ==> l.supply <= l.cap.value)
    && l.selfSent >= 0 && l.minted >= 0 && l.burned >= 0
  }

  lemma SendIsBalanced(l: Ledger, from: nat, to: nat, amount: int)
    requires Balanced(l) && Allowed(l, Send(from, to, amount))
    ensures Balanced(Step(l, Send(from, to, amount)))
  {
    var debited := l.balances[from := l.balances[from] - amount];
    SumUpdate(l.balances, from, l.balances[from] - amount);
    SumUpdate(debited, to, l.balances[to] + amount);
  }

  lemma StepIsBalanced(l: Ledger, op: Op)
    requires Balanced(l) && Allowed(l, op)
    ensures Balanced(Step(l, op))
  {
    match op
    case Open(user) =>
      if user !in l.balances { SumUpdate(l.balances, user, 0); }
    case Send(from, to, amount) => SendIsBalanced(l, from, to, amount);
    case MintTo(to, amount) => SumUpdate(l.balances, to, l.balances[to] + amount);
    case BurnFrom(from, amount) => SumUpdate(l.balances, from, l.balances[from] - amount);
  }

  lemma {:induction false} RunsAreBalanced(l: Ledger, ops: seq<Op>, end: Ledger)
    requires Balanced(l) && Runs(l, ops, end)
    ensures Balanced(end) && end.selfSent >= l.selfSent
    decreases |ops|
  {
    if ops != [] {
      StepIsBalanced(l, ops[0]);
      hide Balanced;
      RunsAreBalanced(Step(l, ops[0]), ops[1..], end);
    }
  }

  /**
   * Over any run, the balances add up to the supply if and only if no transfer went from a user to himself; then the
   * supply is not negative either. In every case the supply is what was issued less what was burned, within its cap.
   */
  lemma Conservation(l: Ledger, ops: seq<Op>, end: Ledger)
    requires Issued(l) && Runs(l, ops, end)
    ensures Sum(end.balances) == end.supply <==> forall i :: 0 <= i < |ops| && ops[i].Send? ==> ops[i].from != ops[i].to
    ensures Sum(end.balances) == end.supply ==> end.supply >= 0
    ensures Sum(end.balances) >= end.supply == l.initial + end.minted - end.burned
    ensures l.cap.Some? ==> end.supply <= l.cap.value
    ensures forall u :: u in end.balances ==> end.balances[u] >= 0
  {
    RunsAreBalanced(l, ops, end);
    SelfSentIff(l, ops, end);
    SumOfNaturals(end.balances);
  }

  lemma {:induction false} SelfSentIff(l: Ledger, ops: seq<Op>, end: Ledger)
    requires Runs(l, ops, end)
    ensures end.cap == l.cap && end.initial == l.initial && end.selfSent >= l.selfSent
    ensures end.selfSent == l.selfSent <==> forall i :: 0 <= i < |ops| && ops[i].Send? ==> ops[i].from != ops[i].to
    decreases |ops|
  {
    if ops != [] {
      var m := Step(l, ops[0]);
      SelfSentIff(m, ops[1..], end);
      assert forall i :: 1 <= i < |ops| ==> ops[i] == ops[1..][i - 1];
      assert forall i :: 0 <= i < |ops[1..]| ==> ops[1..][i] == ops[i + 1];
    }
  }

  /**
   * A transfer between two users moves exactly its amount and touches nobody else; one to oneself adds its amount to the
   * balance, out of nothing.
   */
  lemma SendMoves(l: Ledger, from: nat, to: nat, amount: int)
    requires Allowed(l, Send(from, to, amount))
    ensures var m := Step(l, Send(from, to, amount));
      && m == l.(balances := m.balances, selfSent := if from == to then l.selfSent + amount else l.selfSent)
      && m.balances.Keys == l.balances.Keys
      && m.balances[from] == (if from == to then l.balances[from] + amount else l.balances[from] - amount)
      && m.balances[to] == l.balances[to] + amount
      && (forall u :: u in l.balances && u != from && u != to ==> m.balances[u] == l.balances[u])
  {
  }

  /** Minting and burning move one balance and the supply by the same amount, and nothing else. */
  lemma SupplyMoves(l: Ledger, user: nat, amount: int)
    ensures Allowed(l, MintTo(user, amount)) ==>
      Step(l, MintTo(user, amount)) == Ledger(l.supply + amount, l.cap, l.balances[user := l.balances[user] + amount],
                                              l.initial, l.minted + amount, l.burned, l.selfSent)
    ensures Allowed(l, BurnFrom(user, amount)) ==>
      Step(l, BurnFrom(user, amount)) == Ledger(l.supply - amount, l.cap, l.balances[user := l.balances[user] - amount],
                                                l.initial, l.minted, l.burned + amount, l.selfSent)
    ensures user in l.balances ==>
      && (Allowed(l, BurnFrom(user, amount)) <==> 0 < amount <= l.balances[user])
      && (Allowed(l, MintTo(user, amount)) <==> amount > 0 && !(l.cap.Some? && l.supply + amount > l.cap.value))
  {
  }

  // ----- Texts and the numbers they denote -----

  function Num(text: string): int {
    var n := Parse(text);
    if n.Some? then n.value else 0
  }

  /** A stored balance reads as a number that is not negative, and as zero only when it is the text "0". */
  predicate BalanceText(text: string) {
    Parse(text).Some? && Parse(text).value >= 0 && (Parse(text).value == 0 <==> text == "0")
  }

  lemma PrintedBalance(n: int)
    requires n >= 0
    ensures BalanceText(Print(n)) && Num(Print(n)) == n
  {
    ParseOfPrint(n);
    PrintsZeroIff(n);
  }

  lemma ZeroBalance()
    ensures BalanceText("0") && Num("0") == 0
  {
    PrintedBalance(0);
    assert Print(0) == "0";
  }

  function Amounts(ws: map<nat, Wallet>): map<nat, int> {
    map u | u in ws :: Num(ws[u].balance)
  }

  predicate WalletsOk(ws: map<nat, Wallet>) {
    forall u :: u in ws ==> BalanceText(ws[u].balance)
  }

  /** The texts of a token and of its wallets denote the ledger. */
  ghost predicate Denotes(row: Row, ws: map<nat, Wallet>, l: Ledger) {
    && Parse(row.totalSupply) == Some(l.supply)
    && (row.maxSupply.None? <==> l.cap.None?)
    && (row.maxSupply.Some? ==> Parse(row.maxSupply.value) == l.cap)
    && WalletsOk(ws) && Amounts(ws) == l.balances && Balanced(l)
  }

  /** The rows that `balance != '0'` selects. */
  function Holders(ws: map<nat, Wallet>): set<nat> {
    set u | u in ws && ws[u].balance != "0"
  }

  /** The textual holder filter finds exactly the users whose balance is not zero. */
  lemma HoldersHaveBalance(row: Row, ws: map<nat, Wallet>, l: Ledger)
    requires Denotes(row, ws, l)
    ensures Holders(ws) == set u | u in l.balances && l.balances[u] != 0
  {
    forall u | u in ws ensures ws[u].balance != "0" <==> l.balances[u] != 0 {
      assert BalanceText(ws[u].balance) && Amounts(ws)[u] == Num(ws[u].balance);
    }
  }

  // ----- What the statements of a call leave in a token's wallets -----

  function Sent(ws: map<nat, Wallet>, from: nat, to: nat, amount: int): map<nat, Wallet>
    requires from in ws && to in ws
  {
    var debit, credit := Print(Num(ws[from].balance) - amount), Print(Num(ws[to].balance) + amount);
    var ws1 := ws[from := ws[from].(balance := debit)];
    ws1[to := ws1[to].(balance := credit)]
  }

  function Added(ws: map<nat, Wallet>, user: nat, amount: int): map<nat, Wallet>
    requires user in ws
  {
    ws[user := ws[user].(balance := Print(Num(ws[user].balance) + amount))]
  }

  lemma AmountOf(ws: map<nat, Wallet>, user: nat)
    requires WalletsOk(ws) && user in ws
    ensures user in Amounts(ws) && Amounts(ws)[user] == Num(ws[user].balance) >= 0
  {
  }

  lemma SentDenotes(row: Row, ws: map<nat, Wallet>, l: Ledger, from: nat, to: nat, amount: int)
    requires Denotes(row, ws, l) && from in ws && to in ws && 0 < amount <= Num(ws[from].balance)
    ensures Allowed(l, Send(from, to, amount))
    ensures Denotes(row, Sent(ws, from, to, amount), Step(l, Send(from, to, amount)))
  {
    hide Balanced, Parse, WalletsOk, Amounts, Num, Print;
    AmountOf(ws, from);
    AmountOf(ws, to);
    var debit, credit := Num(ws[from].balance) - amount, Num(ws[to].balance) + amount;
    StoreBalance(ws, from, debit);
    StoreBalance(ws[from := ws[from].(balance := Print(debit))], to, credit);
    SetBalances(row, ws, l, Send(from, to, amount), row.totalSupply, Sent(ws, from, to, amount));
  }

  lemma MintDenotes(row: Row, ws: map<nat, Wallet>, l: Ledger, to: nat, amount: int)
    requires Denotes(row, ws, l) && to in ws && amount > 0 && (l.cap.Some? ==> l.supply + amount <= l.cap.value)
    ensures Allowed(l, MintTo(to, amount))
    ensures Denotes(row.(totalSupply := Print(l.supply + amount)), Added(ws, to, amount), Step(l, MintTo(to, amount)))
  {
    hide Balanced, Parse, WalletsOk, Amounts, Num, Print;
    AmountOf(ws, to);
    StoreBalance(ws, to, Num(ws[to].balance) + amount);
    ParseOfPrint(l.supply + amount);
    SetBalances(row, ws, l, MintTo(to, amount), Print(l.supply + amount), Added(ws, to, amount));
  }

  lemma BurnDenotes(row: Row, ws: map<nat, Wallet>, l: Ledger, from: nat, amount: int)
    requires Denotes(row, ws, l) && from in ws && 0 < amount <= Num(ws[from].balance)
    ensures Allowed(l, BurnFrom(from, amount))
    ensures Denotes(row.(totalSupply := Print(l.supply - amount)), Added(ws, from, -amount), Step(l, BurnFrom(from, amount)))
  {
    hide Balanced, Parse, WalletsOk, Amounts, Num, Print;
    AmountOf(ws, from);
    StoreBalance(ws, from, Num(ws[from].balance) + -amount);
    ParseOfPrint(l.supply - amount);
    SetBalances(row, ws, l, BurnFrom(from, amount), Print(l.supply - amount), Added(ws, from, -amount));
  }

  lemma FrozenDenotes(row: Row, ws: map<nat, Wallet>, l: Ledger, user: nat, frozen: bool)
    requires Denotes(row, ws, l) && user in ws
    ensures Denotes(row, ws[user := ws[user].(frozen := frozen)], l)
  {
    hide Balanced, Parse, BalanceText;
    assert Amounts(ws[user := ws[user].(frozen := frozen)]) == Amounts(ws);
  }

  predicate SupplyAccepted(initial: string, max: Option<string>) {
    && Parse(initial).Some? && Parse(initial).value >= 0
    && (max.Some? ==> Parse(max.value).Some? && Parse(initial).value <= Parse(max.value).value)
  }

  /** A new token over wallets that were looked up beforehand. */
  function Funded(ws: map<nat, Wallet>, owner: nat, initial: string): map<nat, Wallet>
  {
    var ws1 := WithWallet(ws, owner);
    if Num(initial) > 0 then ws1[owner := ws1[owner].(balance := initial)] else ws1
  }

  lemma {:induction false} SumOfZeros(m: map<nat, int>)
    requires forall k :: k in m ==> m[k] == 0
    ensures Sum(m) == 0
    decreases |m|
  {
    if m != map[] {
      var k :| k in m;
      SumRemove(m, k);
      SumOfZeros(m - {k});
    }
  }

  lemma FundedAmounts(ws: map<nat, Wallet>, owner: nat, initial: string)
    requires Blank(ws) && Parse(initial).Some? && Num(initial) >= 0
    ensures var ws1, ws2 := WithWallet(ws, owner), Funded(ws, owner, initial);
      && WalletsOk(ws2)
      && (forall u :: u in Amounts(ws1) ==> Amounts(ws1)[u] == 0)
      && owner in Amounts(ws1) && Amounts(ws2) == Amounts(ws1)[owner := Num(initial)]
  {
    ZeroBalance();
    hide Parse;
    assert Num(initial) > 0 ==> BalanceText(initial);
  }

  lemma FundedDenotes(row: Row, ws: map<nat, Wallet>, owner: nat, initial: int, cap: Option<int>)
    requires Blank(ws) && initial >= 0 && Parse(row.totalSupply) == Some(initial)
    requires (row.maxSupply.None? <==> cap.None?) && (row.maxSupply.Some? ==> Parse(row.maxSupply.value) == cap)
    requires cap.Some? ==> initial <= cap.value
    ensures var l := Ledger(initial, cap, Amounts(Funded(ws, owner, row.totalSupply)), initial, 0, 0, 0);
      && Issued(l) && Denotes(row, Funded(ws, owner, row.totalSupply), l)
      && owner in l.balances && l.balances[owner] == initial
  {
    var ws1, ws2 := WithWallet(ws, owner), Funded(ws, owner, row.totalSupply);
    FundedAmounts(ws, owner, row.totalSupply);
    hide Parse, WalletsOk, Num, Funded, Amounts, Blank, WithWallet;
    SumOfZeros(Amounts(ws1));
    SumUpdate(Amounts(ws1), owner, initial);
  }

  // ----- The manager -----

  function Of(wallets: map<nat, map<nat, Wallet>>, id: nat): map<nat, Wallet> {
    if id in wallets then wallets[id] else map[]
  }

  function WithWallet(ws: map<nat, Wallet>, user: nat): map<nat, Wallet> {
    if user in ws then ws else ws[user := Wallet("0", false)]
  }

  lemma OpenedAmounts(ws: map<nat, Wallet>, user: nat)
    requires WalletsOk(ws)
    ensures WalletsOk(WithWallet(ws, user))
    ensures Amounts(WithWallet(ws, user)) == if user in ws then Amounts(ws) else Amounts(ws)[user := 0]
    ensures Amounts(ws).Keys == ws.Keys
  {
    ZeroBalance();
    hide BalanceText, Num;
  }

  lemma WithWalletOpens(row: Row, ws: map<nat, Wallet>, l: Ledger, user: nat)
    requires Denotes(row, ws, l)
    ensures Denotes(row, WithWallet(ws, user), Opened(l, user))
  {
    OpenedAmounts(ws, user);
    StepIsBalanced(l, Open(user));
    hide Balanced, Parse, WalletsOk, Amounts, WithWallet;
    assert Opened(l, user) == Step(l, Open(user));
  }

  lemma SetBalances(row: Row, ws: map<nat, Wallet>, l: Ledger, op: Op, supply: string, ws': map<nat, Wallet>)
    requires Denotes(row, ws, l) && Allowed(l, op)
    requires Parse(supply) == Some(Step(l, op).supply)
    requires WalletsOk(ws') && Amounts(ws') == Step(l, op).balances
    ensures Denotes(row.(totalSupply := supply), ws', Step(l, op))
  {
    StepIsBalanced(l, op);
    hide Balanced, Parse;
  }

  /** Storing a printed balance keeps every text a balance and changes one amount. */
  lemma StoreBalance(ws: map<nat, Wallet>, user: nat, n: int)
    requires WalletsOk(ws) && user in ws && n >= 0
    ensures WalletsOk(ws[user := ws[user].(balance := Print(n))])
    ensures Amounts(ws[user := ws[user].(balance := Print(n))]) == Amounts(ws)[user := n]
  {
    PrintedBalance(n);
  }

  /** Wallets looked up before their token exists. */
  predicate Blank(ws: map<nat, Wallet>) {
    forall u :: u in ws ==> ws[u] == Wallet("0", false)
  }

  ghost predicate TablesOk(jettons: map<nat, Row>, wallets: map<nat, map<nat, Wallet>>, ledgers: map<nat, Ledger>, nextId: nat) {
    && jettons.Keys == ledgers.Keys
    && (forall id :: id in jettons ==> id < nextId && Denotes(jettons[id], Of(wallets, id), ledgers[id]))
    && (forall id :: id in wallets && id !in jettons ==> Blank(wallets[id]))
  }

  lemma PutKeepsTables(jettons: map<nat, Row>, wallets: map<nat, map<nat, Wallet>>, ledgers: map<nat, Ledger>, nextId: nat,
                       id: nat, row: Row, ws: map<nat, Wallet>, l: Ledger)
    requires TablesOk(jettons, wallets, ledgers, nextId) && id < nextId && Denotes(row, ws, l)
    ensures TablesOk(jettons[id := row], wallets[id := ws], ledgers[id := l], nextId)
  {
    hide Denotes, Blank;
  }

  lemma OpenedParts(l: Ledger, user: nat)
    ensures Opened(l, user).supply == l.supply && Opened(l, user).cap == l.cap
  {
  }

  lemma KeepsWallet(ws: map<nat, Wallet>, user: nat, other: nat)
    requires user in ws
    ensures user in WithWallet(ws, other) && WithWallet(ws, other)[user] == ws[user]
  {
  }

  /** What the stored supplies of a token read as. */
  lemma SupplyRead(row: Row, ws: map<nat, Wallet>, l: Ledger)
    requires Denotes(row, ws, l)
    ensures Num(row.totalSupply) == l.supply
    ensures row.maxSupply.Some? <==> l.cap.Some?
    ensures row.maxSupply.Some? ==> Num(row.maxSupply.value) == l.cap.value
  {
    hide Balanced, WalletsOk, Amounts;
  }

  /** A transfer between wallets opened first, in numbers and in texts. */
  ghost predicate SendEffect(id: nat, from: nat, to: nat, amount: int, ledgers: map<nat, Ledger>, ledgers': map<nat, Ledger>,
                             wallets: map<nat, map<nat, Wallet>>, wallets': map<nat, map<nat, Wallet>>) {
    && id in ledgers
    && Allowed(Opened(Opened(ledgers[id], from), to), Send(from, to, amount))
    && ledgers' == ledgers[id := Step(Opened(Opened(ledgers[id], from), to), Send(from, to, amount))]
    && wallets' == wallets[id := Sent(WithWallet(WithWallet(Of(wallets, id), from), to), from, to, amount)]
  }

  ghost predicate MintEffect(id: nat, user: nat, amount: int, ledgers: map<nat, Ledger>, ledgers': map<nat, Ledger>,
                             wallets: map<nat, map<nat, Wallet>>, wallets': map<nat, map<nat, Wallet>>,
                             jettons: map<nat, Row>, jettons': map<nat, Row>) {
    && id in ledgers && id in jettons
    && Allowed(Opened(ledgers[id], user), MintTo(user, amount))
    && ledgers' == ledgers[id := Step(Opened(ledgers[id], user), MintTo(user, amount))]
    && wallets' == wallets[id := Added(WithWallet(Of(wallets, id), user), user, amount)]
    && jettons' == jettons[id := jettons[id].(totalSupply := Print(ledgers[id].supply + amount))]
  }

  ghost predicate BurnEffect(id: nat, user: nat, amount: int, ledgers: map<nat, Ledger>, ledgers': map<nat, Ledger>,
                             wallets: map<nat, map<nat, Wallet>>, wallets': map<nat, map<nat, Wallet>>,
                             jettons: map<nat, Row>, jettons': map<nat, Row>) {
    && id in ledgers && id in jettons
    && Allowed(Opened(ledgers[id], user), BurnFrom(user, amount))
    && ledgers' == ledgers[id := Step(Opened(ledgers[id], user), BurnFrom(user, amount))]
    && wallets' == wallets[id := Added(WithWallet(Of(wallets, id), user), user, -amount)]
    && jettons' == jettons[id := jettons[id].(totalSupply := Print(ledgers[id].supply - amount))]
  }

  class Manager {
    var jettons: map<nat, Row>
    var wallets: map<nat, map<nat, Wallet>>
    var nextId: nat
    ghost var ledgers: map<nat, Ledger>

    ghost predicate Valid()
      reads this
    {
      TablesOk(jettons, wallets, ledgers, nextId)
    }

    constructor ()
      ensures Valid() && jettons == map[] && wallets == map[]
    {
      jettons, wallets, nextId, ledgers := map[], map[], 0, map[];
    }

    method OpenWallet(id: nat, user: nat) returns (w: Wallet)
      requires Valid()
      modifies this`wallets, this`ledgers
      ensures Valid()
      ensures wallets == old(wallets)[id := WithWallet(Of(old(wallets), id), user)]
      ensures ledgers == if id in old(ledgers) then old(ledgers)[id := Opened(old(ledgers)[id], user)] else old(ledgers)
      ensures user in Of(wallets, id) && w == Of(wallets, id)[user]
      ensures w == if user in Of(old(wallets), id) then Of(old(wallets), id)[user] else Wallet("0", false)
    {
      OpenKeepsTables(jettons, wallets, ledgers, nextId, id, user);
      hide TablesOk;
      var ws := Of(wallets, id);
      if user !in ws {
        ws := ws[user := Wallet("0", false)];
      }
      wallets := wallets[id := ws];
      if id in ledgers {
        ledgers := ledgers[id := Opened(ledgers[id], user)];
      }
      w := ws[user];
    }

    /** Writes one existing token's row and wallets. */
    method Put(id: nat, row: Row, ws: map<nat, Wallet>, ghost l: Ledger)
      requires Valid() && id < nextId && Denotes(row, ws, l)
      modifies this`jettons, this`wallets, this`ledgers
      ensures Valid()
      ensures jettons == old(jettons)[id := row] && wallets == old(wallets)[id := ws] && ledgers == old(ledgers)[id := l]
    {
      PutKeepsTables(jettons, wallets, ledgers, nextId, id, row, ws, l);
      hide TablesOk;
      jettons, wallets, ledgers := jettons[id := row], wallets[id := ws], ledgers[id := l];
    }

    method Create(user: nat, initial: string, max: Option<string>, freezable: bool, minting: bool, burning: bool)
      returns (r: Result<nat, Error>)
      requires Valid()
      modifies this
      ensures Valid()
      ensures r.Ok? <==> SupplyAccepted(initial, max)
      ensures r.Err? ==> jettons == old(jettons) && wallets == old(wallets) && ledgers == old(ledgers)
      ensures r == Err(ExceedsMaxSupply) <==>
        && Parse(initial).Some? && Parse(initial).value >= 0
        && max.Some? && Parse(max.value).Some? && 0 <= Parse(max.value).value < Parse(initial).value
      ensures r.Err? ==> r.error in {InvalidAmount, ExceedsMaxSupply}
      ensures r.Ok? ==>
        && r.value !in old(jettons)
        && jettons == old(jettons)[r.value := Row(user, initial, max, freezable, minting, burning, true)]
        && wallets == old(wallets)[r.value := Funded(Of(old(wallets), r.value), user, initial)]
        && r.value in ledgers && Issued(ledgers[r.value]) && ledgers == old(ledgers)[r.value := ledgers[r.value]]
        && ledgers[r.value].supply == Parse(initial).value
        && user in ledgers[r.value].balances && ledgers[r.value].balances[user] == ledgers[r.value].supply
    {
      hide Issued, Denotes, Funded;
      var amount := Parse(initial);
      if amount.None? || amount.value < 0 {
        return Err(InvalidAmount);
      }
      var cap := None;
      if max.Some? {
        cap := Parse(max.value);
        if cap.None? || cap.value < 0 {
          return Err(InvalidAmount);
        }
        if amount.value > cap.value {
          return Err(ExceedsMaxSupply);
        }
      }
      var id := nextId;
      var row := Row(user, initial, max, freezable, minting, burning, true);
      var ws := Funded(Of(wallets, id), user, initial);
      FundedDenotes(row, Of(wallets, id), user, amount.value, cap);
      nextId := nextId + 1;
      Put(id, row, ws, Ledger(amount.value, cap, Amounts(ws), amount.value, 0, 0, 0));
      return Ok(id);
    }

    method Transfer(from: nat, id: nat, to: Option<nat>, text: string) returns (r: Result<(), Error>)
      requires Valid()
      modifies this`jettons, this`wallets, this`ledgers
      ensures Valid() && jettons == old(jettons)
      ensures id !in old(jettons) ==> r == Err(JettonNotFound) && wallets == old(wallets) && ledgers == old(ledgers)
      ensures id in old(jettons) ==> r == TransferAnswer(old(jettons)[id], Of(old(wallets), id), from, to, text)
      ensures r.Err? ==> wallets == old(wallets) || wallets == old(wallets)[id := WithWallet(Of(old(wallets), id), from)]
      ensures r.Err? ==> OnlyOpened(old(ledgers), ledgers, id, from)
      ensures r.Ok? ==>
        to.Some? && SendEffect(id, from, to.value, Num(text), old(ledgers), ledgers, old(wallets), wallets)
    {
      hide TablesOk, Denotes, Sent, Parse;
      if id !in jettons {
        return Err(JettonNotFound);
      }
      if !jettons[id].transfers {
        return Err(TransferDisabled);
      }
      var amount := Parse(text);
      if amount.None? || amount.value <= 0 {
        return Err(InvalidAmount);
      }
      TableRow(jettons, wallets, ledgers, nextId, id);
      var sender := OpenWallet(id, from);
      if sender.frozen {
        return Err(WalletFrozen);
      }
      var balance := Num(sender.balance);
      if balance < amount.value {
        return Err(InsufficientBalance);
      }
      if to.None? {
        return Err(RecipientRequired);
      }
      Move(id, from, to.value, balance, amount.value, old(ledgers), old(wallets));
      return Ok(());
    }

    /** The part of `Transfer` that follows its checks; the sender's wallet is open. */
    method Move(id: nat, from: nat, to: nat, fromBalance: int, amount: int,
                ghost ledgers0: map<nat, Ledger>, ghost wallets0: map<nat, map<nat, Wallet>>)
      requires Valid() && id in jettons && id in ledgers && from in Of(wallets, id) && id in ledgers0
      requires fromBalance == Num(Of(wallets, id)[from].balance) && 0 < amount <= fromBalance
      requires ledgers == ledgers0[id := Opened(ledgers0[id], from)]
      requires wallets == wallets0[id := WithWallet(Of(wallets0, id), from)]
      modifies this`jettons, this`wallets, this`ledgers
      ensures Valid() && jettons == old(jettons)
      ensures SendEffect(id, from, to, amount, ledgers0, ledgers, wallets0, wallets)
    {
      hide TablesOk, Denotes, Sent, Parse, Step, Allowed, Num, Print, WithWallet, Opened;
      KeepsWallet(Of(wallets, id), from, to);
      var recipient := OpenWallet(id, to);
      TableRow(jettons, wallets, ledgers, nextId, id);
      var ws := wallets[id];
      SentDenotes(jettons[id], ws, ledgers[id], from, to, amount);
      SentAsWritten(ws, from, to, amount);
      Put(id, jettons[id], SentTexts(ws, from, to, fromBalance, Num(recipient.balance), amount),
          Step(ledgers[id], Send(from, to, amount)));
      assert jettons == old(jettons);
    }

    method Mint(minter: nat, id: nat, to: Option<nat>, text: string) returns (r: Result<(), Error>)
      requires Valid()
      modifies this`jettons, this`wallets, this`ledgers
      ensures Valid()
      ensures id !in old(jettons) ==> r == Err(JettonNotFound)
      ensures id in old(jettons) ==> r == MintAnswer(old(jettons)[id], minter, text)
      ensures r.Err? ==> jettons == old(jettons) && wallets == old(wallets) && ledgers == old(ledgers)
      ensures r.Ok? ==> MintEffect(id, if to.Some? then to.value else minter, Num(text),
                                   old(ledgers), ledgers, old(wallets), wallets, old(jettons), jettons)
    {
      hide TablesOk, Added, Parse;
      if id !in jettons {
        return Err(JettonNotFound);
      }
      var row := jettons[id];
      if row.owner != minter {
        return Err(NotMinter);
      }
      if !row.minting {
        return Err(MintingDisabled);
      }
      var amount := Parse(text);
      if amount.None? || amount.value <= 0 {
        return Err(InvalidAmount);
      }
      if row.maxSupply.Some? && Num(row.totalSupply) + amount.value > Num(row.maxSupply.value) {
        return Err(ExceedsMaxSupply);
      }
      TableRow(jettons, wallets, ledgers, nextId, id);
      SupplyRead(row, Of(wallets, id), ledgers[id]);
      hide MintEffect, Denotes;
      Issue(id, if to.Some? then to.value else minter, amount.value);
      return Ok(());
    }

    /** The part of `Mint` that follows its checks. */
    method Issue(id: nat, user: nat, amount: int)
      requires Valid() && id in jettons && amount > 0
      requires id in ledgers && (ledgers[id].cap.Some? ==> ledgers[id].supply + amount <= ledgers[id].cap.value)
      modifies this`jettons, this`wallets, this`ledgers
      ensures Valid()
      ensures MintEffect(id, user, amount, old(ledgers), ledgers, old(wallets), wallets, old(jettons), jettons)
    {
      hide TablesOk, Added, Parse, Denotes, Num, Print, Step, Allowed, WithWallet, Opened;
      TableRow(jettons, wallets, ledgers, nextId, id);
      var row := jettons[id];
      SupplyRead(row, Of(wallets, id), ledgers[id]);
      var recipient := OpenWallet(id, user);
      TableRow(jettons, wallets, ledgers, nextId, id);
      OpenedParts(old(ledgers)[id], user);
      MintDenotes(row, wallets[id], ledgers[id], user, amount);
      Put(id, row.(totalSupply := Print(Num(row.totalSupply) + amount)), Added(wallets[id], user, amount),
          Step(ledgers[id], MintTo(user, amount)));
    }

    method Burn(burner: nat, id: nat, text: string) returns (r: Result<(), Error>)
      requires Valid()
      modifies this`jettons, this`wallets, this`ledgers
      ensures Valid()
      ensures id !in old(jettons) ==> r == Err(JettonNotFound)
      ensures id in old(jettons) ==> r == BurnAnswer(old(jettons)[id], Of(old(wallets), id), burner, text)
      ensures r.Err? ==> jettons == old(jettons) && OnlyOpened(old(ledgers), ledgers, id, burner)
      ensures r.Err? ==> wallets == old(wallets) || wallets == old(wallets)[id := WithWallet(Of(old(wallets), id), burner)]
      ensures r.Ok? ==> BurnEffect(id, burner, Num(text), old(ledgers), ledgers, old(wallets), wallets, old(jettons), jettons)
    {
      hide TablesOk, Added, Parse, Denotes, BurnEffect, WithWallet, Opened;
      if id !in jettons {
        return Err(JettonNotFound);
      }
      var row := jettons[id];
      if !row.burning {
        return Err(BurnDisabled);
      }
      var amount := Parse(text);
      if amount.None? || amount.value <= 0 {
        return Err(InvalidAmount);
      }
      TableRow(jettons, wallets, ledgers, nextId, id);
      var wallet := OpenWallet(id, burner);
      var balance := Num(wallet.balance);
      if balance < amount.value {
        return Err(InsufficientBalance);
      }
      Destroy(id, row, burner, balance, amount.value, old(ledgers), old(wallets));
      return Ok(());
    }

    /** The part of `Burn` that follows its checks; the burner's wallet is open. */
    method Destroy(id: nat, row: Row, user: nat, balance: int, amount: int,
                   ghost ledgers0: map<nat, Ledger>, ghost wallets0: map<nat, map<nat, Wallet>>)
      requires Valid() && id in jettons && row == jettons[id] && user in Of(wallets, id) && id in ledgers0
      requires balance == Num(Of(wallets, id)[user].balance) && 0 < amount <= balance
      requires ledgers == ledgers0[id := Opened(ledgers0[id], user)]
      requires wallets == wallets0[id := WithWallet(Of(wallets0, id), user)]
      modifies this`jettons, this`wallets, this`ledgers
      ensures Valid()
      ensures BurnEffect(id, user, amount, ledgers0, ledgers, wallets0, wallets, old(jettons), jettons)
    {
      hide TablesOk, Parse, Denotes, Num, Print, Step, Allowed, WithWallet, Opened;
      TableRow(jettons, wallets, ledgers, nextId, id);
      SupplyRead(row, wallets[id], ledgers[id]);
      OpenedParts(ledgers0[id], user);
      BurnDenotes(row, wallets[id], ledgers[id], user, amount);
      var texts := wallets[id][user := wallets[id][user].(balance := Print(balance - amount))];
      assert texts == Added(wallets[id], user, -amount);
      Put(id, row.(totalSupply := Print(Num(row.totalSupply) - amount)), texts, Step(ledgers[id], BurnFrom(user, amount)));
    }

    /** Freezing needs a freezable token, unfreezing does not; neither touches a balance. */
    method SetFrozen(admin: nat, id: nat, user: nat, frozen: bool) returns (r: Result<(), Error>)
      requires Valid()
      modifies this`wallets
      ensures Valid()
      ensures id !in jettons ==> r == Err(JettonNotFound)
      ensures id in jettons && jettons[id].owner != admin ==> r == Err(NotOwner)
      ensures id in jettons && jettons[id].owner == admin ==>
        r == if frozen && !jettons[id].freezable then Err(NotFreezable) else Ok(())
      ensures r.Err? || user !in Of(old(wallets), id) ==> wallets == old(wallets)
      ensures r.Ok? && user in Of(old(wallets), id) ==>
        var w := old(wallets)[id][user];
        wallets == old(wallets)[id := old(wallets)[id][user := w.(frozen := frozen)]]
    {
      hide TablesOk, Denotes;
      if id !in jettons {
        return Err(JettonNotFound);
      }
      if jettons[id].owner != admin {
        return Err(NotOwner);
      }
      if frozen && !jettons[id].freezable {
        return Err(NotFreezable);
      }
      if user in Of(wallets, id) {
        var ws := wallets[id][user := wallets[id][user].(frozen := frozen)];
        TableRow(jettons, wallets, ledgers, nextId, id);
        FrozenDenotes(jettons[id], wallets[id], ledgers[id], user, frozen);
        PutKeepsTables(jettons, wallets, ledgers, nextId, id, jettons[id], ws, ledgers[id]);
        assert jettons[id := jettons[id]] == jettons && ledgers[id := ledgers[id]] == ledgers;
        wallets := wallets[id := ws];
      }
      return Ok(());
    }

    method GetHolders(id: nat) returns (users: set<nat>)
      requires Valid()
      ensures id in jettons ==> users == set u | u in ledgers[id].balances && ledgers[id].balances[u] != 0
    {
      users := Holders(Of(wallets, id));
      if id in jettons {
        TableRow(jettons, wallets, ledgers, nextId, id);
        HoldersHaveBalance(jettons[id], Of(wallets, id), ledgers[id]);
      }
    }
  }

  /** The answer of `Transfer` for an existing token; a missing sender's wallet counts as empty. */
  function TransferAnswer(row: Row, ws: map<nat, Wallet>, from: nat, to: Option<nat>, text: string): Result<(), Error> {
    var wallet := WithWallet(ws, from)[from];
    if !row.transfers then Err(TransferDisabled)
    else if Num(text) <= 0 then Err(InvalidAmount)
    else if wallet.frozen then Err(WalletFrozen)
    else if Num(wallet.balance) < Num(text) then Err(InsufficientBalance)
    else if to.None? then Err(RecipientRequired) else Ok(())
  }

  function MintAnswer(row: Row, minter: nat, text: string): Result<(), Error> {
    if row.owner != minter then Err(NotMinter)
    else if !row.minting then Err(MintingDisabled)
    else if Num(text) <= 0 then Err(InvalidAmount)
    else if row.maxSupply.Some? && Num(row.totalSupply) + Num(text) > Num(row.maxSupply.value) then Err(ExceedsMaxSupply)
    else Ok(())
  }

  function BurnAnswer(row: Row, ws: map<nat, Wallet>, burner: nat, text: string): Result<(), Error> {
    if !row.burning then Err(BurnDisabled)
    else if Num(text) <= 0 then Err(InvalidAmount)
    else if Num(WithWallet(ws, burner)[burner].balance) < Num(text) then Err(InsufficientBalance)
    else Ok(())
  }

  /**
   * Which transfers of an existing token are accepted, in numbers: transfers are on, the amount is positive, the sender has
   * a wallet that is not frozen with at least that amount, and there is a recipient. A refused one names the first of these
   * that fails.
   */
  lemma TransferAcceptedIff(row: Row, ws: map<nat, Wallet>, l: Ledger, from: nat, to: Option<nat>, text: string)
    requires Denotes(row, ws, l)
    ensures var r, valid := TransferAnswer(row, ws, from, to, text), row.transfers && Parse(text).Some? && Parse(text).value > 0;
      var frozen := from in ws && ws[from].frozen;
      var enough := from in l.balances && l.balances[from] >= Num(text);
      && (r.Ok? <==> valid && !frozen && enough && to.Some?)
      && (r == Err(TransferDisabled) <==> !row.transfers)
      && (r == Err(InvalidAmount) <==> row.transfers && !valid)
      && (r == Err(WalletFrozen) <==> valid && frozen)
      && (r == Err(InsufficientBalance) <==> valid && !frozen && !enough)
      && (r == Err(RecipientRequired) <==> valid && !frozen && enough && to.None?)
  {
    ZeroBalance();
    if from in ws {
      AmountOf(ws, from);
    }
    hide Balanced, Parse, WalletsOk;
  }

  /** Which mints are accepted: the owner's, while minting is on, of a positive amount that the cap leaves room for. */
  lemma MintAcceptedIff(row: Row, ws: map<nat, Wallet>, l: Ledger, minter: nat, text: string)
    requires Denotes(row, ws, l)
    ensures var r, valid := MintAnswer(row, minter, text), Parse(text).Some? && Parse(text).value > 0;
      var room := l.cap.Some? ==> l.supply + Num(text) <= l.cap.value;
      && (r.Ok? <==> minter == row.owner && row.minting && valid && room)
      && (r == Err(NotMinter) <==> minter != row.owner)
      && (r == Err(MintingDisabled) <==> minter == row.owner && !row.minting)
      && (r == Err(InvalidAmount) <==> minter == row.owner && row.minting && !valid)
      && (r == Err(ExceedsMaxSupply) <==> minter == row.owner && row.minting && valid && !room)
  {
    SupplyRead(row, ws, l);
    hide Denotes, Parse;
  }

  /** Which burns are accepted: while burning is on, of a positive amount that the user has; a frozen wallet may burn. */
  lemma BurnAcceptedIff(row: Row, ws: map<nat, Wallet>, l: Ledger, user: nat, text: string)
    requires Denotes(row, ws, l)
    ensures var r, valid := BurnAnswer(row, ws, user, text), Parse(text).Some? && Parse(text).value > 0;
      var enough := user in l.balances && l.balances[user] >= Num(text);
      && (r.Ok? <==> row.burning && valid && enough)
      && (r == Err(BurnDisabled) <==> !row.burning)
      && (r == Err(InvalidAmount) <==> row.burning && !valid)
      && (r == Err(InsufficientBalance) <==> row.burning && valid && !enough)
  {
    ZeroBalance();
    if user in ws {
      AmountOf(ws, user);
    }
    hide Balanced, Parse, WalletsOk;
  }

  /** A refused call leaves at most a new empty wallet behind. */
  ghost predicate OnlyOpened(before: map<nat, Ledger>, after: map<nat, Ledger>, id: nat, user: nat) {
    after == before || (id in before && after == before[id := Opened(before[id], user)])
  }

  /** The two updates of a transfer, from the balances read before them. */
  function SentTexts(ws: map<nat, Wallet>, from: nat, to: nat, fromBalance: int, toBalance: int, amount: int): map<nat, Wallet>
    requires from in ws && to in ws
  {
    var ws1 := ws[from := ws[from].(balance := Print(fromBalance - amount))];
    ws1[to := ws1[to].(balance := Print(toBalance + amount))]
  }

  lemma SentAsWritten(ws: map<nat, Wallet>, from: nat, to: nat, amount: int)
    requires from in ws && to in ws
    ensures Sent(ws, from, to, amount) == SentTexts(ws, from, to, Num(ws[from].balance), Num(ws[to].balance), amount)
  {
  }

  lemma TableRow(jettons: map<nat, Row>, wallets: map<nat, map<nat, Wallet>>, ledgers: map<nat, Ledger>, nextId: nat, id: nat)
    requires TablesOk(jettons, wallets, ledgers, nextId) && id in jettons
    ensures id in ledgers && id < nextId && Denotes(jettons[id], Of(wallets, id), ledgers[id])
  {
  }

  lemma OpenKeepsTables(jettons: map<nat, Row>, wallets: map<nat, map<nat, Wallet>>, ledgers: map<nat, Ledger>, nextId: nat,
                        id: nat, user: nat)
    requires TablesOk(jettons, wallets, ledgers, nextId)
    ensures TablesOk(jettons, wallets[id := WithWallet(Of(wallets, id), user)],
                     if id in ledgers then ledgers[id := Opened(ledgers[id], user)] else ledgers, nextId)
  {
    if id in jettons {
      WithWalletOpens(jettons[id], Of(wallets, id), ledgers[id], user);
      hide Denotes, WithWallet;
      PutKeepsTables(jettons, wallets, ledgers, nextId, id, jettons[id], WithWallet(Of(wallets, id), user), Opened(ledgers[id], user));
      assert jettons[id := jettons[id]] == jettons;
    } else {
      hide Denotes;
    }
  }
}
