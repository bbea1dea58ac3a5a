/** `BalanceService`: the balances of a trip and the payment instructions
    that settle them. The reported balances are objects, and the settlement
    loop lowers the creditors' balances through the very objects the
    summary returns as `rawBalances`. */
module BalanceService {
  import opened Wrappers
  import opened Seqs
  import opened Money
  import opened UserModel
  import opened Store
  import opened BalanceLedger
  import opened Settlement

  const TRIP_NOT_FOUND := "Trip not found"

  /** `UserBalance`: positive receives, negative owes. */
  class UserBalance {
    const userId: UserId
    const userName: string
    var balance: real

    constructor (userId: UserId, userName: string, balance: real)
      ensures this.userId == userId && this.userName == userName && this.balance == balance
    {
      this.userId := userId;
      this.userName := userName;
      this.balance := balance;
    }
  }

  /** The current values of a list of balance objects. */
  function Snapshot(bs: seq<UserBalance>): (r: seq<Entry>)
    reads bs
    ensures |r| == |bs|
    ensures forall i {:trigger r[i]} :: 0 <= i < |bs| ==> r[i] == Entry(bs[i].userId, bs[i].userName, bs[i].balance)
  {
    seq(|bs|, i requires 0 <= i < |bs| reads bs => Entry(bs[i].userId, bs[i].userName, bs[i].balance))
  }

  predicate Distinct(bs: seq<UserBalance>)
  {
    forall i, j :: 0 <= i < j < |bs| ==> bs[i] != bs[j]
  }

  // ---- calculateBalances on values ----

  /** The stream over the ledger's entries in iteration order `order`: each
      key needs a stored user, whose display name is taken, and its balance
      is rounded to two decimals; the first failure ends the stream. */
  function ReportEntries(ledger: Ledger, users: map<UserId, User>, order: seq<UserId>): (r: Result<seq<Entry>, string>)
    ensures r.Ok? ==> |r.value| == |order|
  {
    if order == [] then Ok([])
    else
      var k := order[0];
      if k !in users then Err("User not found: " + k)
      else
        var name := GetName(users[k]);
        if name.Err? then Err(name.error)
        else
          var rest := ReportEntries(ledger, users, order[1..]);
          if rest.Err? then rest else Ok([Entry(k, name.value, Round2(Get(ledger, k)))] + rest.value)
  }

  /** `calculateBalances` as a value. */
  function TripBalances(trips: map<TripId, Trip>, users: map<UserId, User>, expenses: seq<Expense>,
                        tripId: TripId, order: seq<UserId>): (r: Result<seq<Entry>, string>)
    ensures tripId !in trips ==> r == Err(TRIP_NOT_FOUND)
    ensures r.Ok? ==> |r.value| == |order| && forall i :: 0 <= i < |order| ==> r.value[i].userId == order[i]
  {
    if tripId !in trips then Err(TRIP_NOT_FOUND)
    else
      var ledger := TripLedger(trips[tripId].members, ExpensesOf(expenses, tripId));
      ReportEntriesSpec(ledger, users, order);
      ReportEntries(ledger, users, order)
  }

  /** The report lists each key once, in iteration order, with its owner's
      name and its balance rounded to two decimals; it fails exactly when
      some key has no stored user or a name that cannot be derived. */
  lemma {:induction false} ReportEntriesSpec(ledger: Ledger, users: map<UserId, User>, order: seq<UserId>)
    ensures ReportEntries(ledger, users, order).Ok? <==>
              forall i :: 0 <= i < |order| ==> order[i] in users && GetName(users[order[i]]).Ok?
    ensures ReportEntries(ledger, users, order).Ok? ==>
              var es := ReportEntries(ledger, users, order).value;
              && |es| == |order|
              && forall i :: 0 <= i < |order| ==>
                   && order[i] in users && GetName(users[order[i]]).Ok?
                   && es[i] == Entry(order[i], GetName(users[order[i]]).value, Round2(Get(ledger, order[i])))
  {
    if order != [] {
      ReportEntriesSpec(ledger, users, order[1..]);
      assert forall i :: 1 <= i < |order| ==> order[i] == order[1..][i - 1];
      if ReportEntries(ledger, users, order).Ok? {
        var es := ReportEntries(ledger, users, order).value;
        assert forall i :: 1 <= i < |order| ==> es[i] == ReportEntries(ledger, users, order[1..]).value[i - 1];
      }
    }
  }

  /** The report's first failure: the first key, in iteration order, with no
      stored user or an underivable name decides the message. */
  lemma {:induction false} ReportEntriesError(ledger: Ledger, users: map<UserId, User>, order: seq<UserId>, i: nat)
    requires i < |order|
    requires forall j :: 0 <= j < i ==> order[j] in users && GetName(users[order[j]]).Ok?
    ensures order[i] !in users ==> ReportEntries(ledger, users, order) == Err("User not found: " + order[i])
    ensures order[i] in users && GetName(users[order[i]]).Err? ==>
              ReportEntries(ledger, users, order) == Err(GetName(users[order[i]]).error)
  {
    if i > 0 {
      assert forall j :: 0 <= j < i - 1 ==> order[1..][j] == order[j + 1];
      ReportEntriesError(ledger, users, order[1..], i - 1);
    }
  }

  /** A result with entries `p` in front of it. */
  function Prefixed(p: seq<Entry>, r: Result<seq<Entry>, string>): Result<seq<Entry>, string>
  {
    if r.Err? then r else Ok(p + r.value)
  }

  /** The member loop: every member's balance starts at zero. */
  method SeedBalances(members: seq<UserId>) returns (balances: map<UserId, real>)
    ensures balances == Seed(members)
  {
    balances := map[];
    for i := 0 to |members|
      invariant balances == Seed(members[..i])
    {
      assert members[..i + 1] == members[..i] + [members[i]];
      balances := balances[members[i] := 0.0];
    }
    assert members[..|members|] == members;
  }

  /** The body of the expense loop: credit the payer, then debit each split
      entry its share. */
  method ApplyExpenseTo(balances0: map<UserId, real>, expense: Expense) returns (balances: map<UserId, real>)
    ensures balances == ApplyExpense(balances0, expense)
  {
    var amountRupees := if expense.amount.None? then 0.0 else expense.amount.value / 100.0;
    assert amountRupees == Rupees(expense);
    balances := balances0[expense.paidBy := Get(balances0, expense.paidBy) + amountRupees];
    var splitCount := |expense.splitBetween|;
    var sharePerPerson := if splitCount > 0 then amountRupees / splitCount as real else 0.0;
    assert sharePerPerson == Share(expense);
    ghost var target := DebitEach(balances, expense.splitBetween, sharePerPerson);
    assert target == ApplyExpense(balances0, expense);
    for j := 0 to |expense.splitBetween|
      invariant DebitEach(balances, expense.splitBetween[j..], sharePerPerson) == target
    {
      var userId := expense.splitBetween[j];
      DebitEachStep(balances, expense.splitBetween[j..], sharePerPerson);
      assert expense.splitBetween[j..][1..] == expense.splitBetween[j + 1..];
      balances := balances[userId := Get(balances, userId) - sharePerPerson];
    }
  }

  lemma DebitEachStep(m: Ledger, split: seq<UserId>, share: real)
    requires split != []
    ensures DebitEach(m, split, share) == DebitEach(m[split[0] := Get(m, split[0]) - share], split[1..], share)
  {
  }

  /** The stream of the balance map's entries, in iteration order `order`,
      into new `UserBalance` objects. */
  method Report(balances: map<UserId, real>, users: map<UserId, User>, order: seq<UserId>)
    returns (r: Result<seq<UserBalance>, string>)
    requires forall k :: k in order ==> k in balances
    ensures r.Err? <==> ReportEntries(balances, users, order).Err?
    ensures r.Err? ==> r.error == ReportEntries(balances, users, order).error
    ensures r.Ok? ==> Snapshot(r.value) == ReportEntries(balances, users, order).value
    ensures r.Ok? ==> Distinct(r.value) && forall b :: b in r.value ==> fresh(b)
  {
    var out: seq<UserBalance> := [];
    assert order[0..] == order;
    ghost var all := ReportEntries(balances, users, order);
    assert all.Ok? ==> [] + all.value == all.value;
    for i := 0 to |order|
      invariant Prefixed(Snapshot(out), ReportEntries(balances, users, order[i..])) == ReportEntries(balances, users, order)
      invariant |out| == i && Distinct(out) && forall b :: b in out ==> fresh(b)
    {
      var key := order[i];
      assert order[i..][1..] == order[i + 1..];
      if key !in users {
        return Err("User not found: " + key);
      }
      var name := GetName(users[key]);
      if name.Err? {
        return Err(name.error);
      }
      var entry := new UserBalance(key, name.value, Round2(balances[key]));
      assert Snapshot(out + [entry]) == Snapshot(out) + [Entry(key, name.value, Round2(Get(balances, key)))];
      PrefixedStep(Snapshot(out), Entry(key, name.value, Round2(Get(balances, key))),
                   ReportEntries(balances, users, order[i + 1..]));
      out := out + [entry];
    }
    r := Ok(out);
  }

  lemma PrefixedStep(p: seq<Entry>, e: Entry, r: Result<seq<Entry>, string>)
    ensures Prefixed(p + [e], r) == Prefixed(p, if r.Err? then r else Ok([e] + r.value))
  {
    if r.Ok? {
      assert (p + [e]) + r.value == p + ([e] + r.value);
    }
  }

  /** `calculateBalances`: the trip must exist; the member seed, the
      expense fold and the report stream, where `order` is the balance
      map's iteration order. Each returned object is new. */
  method CalculateBalances(db: Database, tripId: TripId, order: seq<UserId>)
    returns (r: Result<seq<UserBalance>, string>)
    requires tripId in db.trips ==>
               IsEnumeration(order, TripLedger(db.trips[tripId].members, ExpensesOf(db.expenses, tripId)).Keys)
    ensures r.Err? <==> TripBalances(db.trips, db.users, db.expenses, tripId, order).Err?
    ensures r.Err? ==> r.error == TripBalances(db.trips, db.users, db.expenses, tripId, order).error
    ensures r.Ok? ==> Snapshot(r.value) == TripBalances(db.trips, db.users, db.expenses, tripId, order).value
    ensures r.Ok? ==> Distinct(r.value) && forall b :: b in r.value ==> fresh(b)
  {
    if tripId !in db.trips {
      return Err(TRIP_NOT_FOUND);
    }
    var trip := db.trips[tripId];
    var expenses := ExpensesOf(db.expenses, tripId);
    var balances := SeedBalances(trip.members);
    for i := 0 to |expenses|
      invariant ApplyAll(balances, expenses[i..]) == TripLedger(trip.members, expenses)
    {
      assert expenses[i..][1..] == expenses[i + 1..];
      balances := ApplyExpenseTo(balances, expenses[i]);
    }
    assert expenses[|expenses|..] == [];
    r := Report(balances, db.users, order);
  }

  // ---- calculateBalanceSummary ----

  datatype BalanceSummary = BalanceSummary(
    tripId: TripId,
    tripName: string,
    rawBalances: seq<UserBalance>,
    instructions: seq<Instruction>)

  function CreditorIds(es: seq<Entry>): set<UserId>
  {
    set e | e in es && IsCreditor(e) :: e.userId
  }

  function DebtorIds(es: seq<Entry>): set<UserId>
  {
    set e | e in es && IsDebtor(e) :: e.userId
  }

  /** The first entry for `id`, or a zero entry when there is none. */
  function Lookup(es: seq<Entry>, id: UserId): (e: Entry)
    ensures e.userId == id
    ensures e in es || e == Entry(id, "", 0.0)
  {
    if es == [] then Entry(id, "", 0.0)
    else if es[0].userId == id then es[0]
    else Lookup(es[1..], id)
  }

  lemma {:induction false} LookupUnique(es: seq<Entry>, i: nat)
    requires i < |es| && NoDup(Ids(es))
    ensures Lookup(es, es[i].userId) == es[i]
  {
    if i > 0 {
      assert Ids(es)[0] != Ids(es)[i];
      assert NoDup(Ids(es[1..])) by {
        assert forall a :: 0 <= a < |es[1..]| ==> Ids(es[1..])[a] == Ids(es)[a + 1];
      }
      assert es[1..][i - 1] == es[i];
      LookupUnique(es[1..], i - 1);
    }
  }

  /** The entries of the users `ids`, in that order. */
  function Select(es: seq<Entry>, ids: seq<UserId>): seq<Entry>
  {
    seq(|ids|, k requires 0 <= k < |ids| => Lookup(es, ids[k]))
  }

  /** The instructions, in the iteration orders of the creditor and debtor maps. */
  function SummaryPlan(es: seq<Entry>, creditorOrder: seq<UserId>, debtorOrder: seq<UserId>): Plan
  {
    SettleAll(Select(es, debtorOrder), Select(es, creditorOrder))
  }

  /** The reported balances after the settlement loop: a creditor's entry
      shows what is left of its balance, every other entry is unchanged. */
  function AfterSettlement(es: seq<Entry>, creditorOrder: seq<UserId>, finals: seq<Entry>): seq<Entry>
  {
    seq(|es|, i requires 0 <= i < |es| => if es[i].userId in creditorOrder then Lookup(finals, es[i].userId) else es[i])
  }

  /** The partition loop: balances above one paisa are creditors, below
      minus one paisa debtors, keyed by user. */
  method Partition(bs: seq<UserBalance>) returns (creditors: map<UserId, UserBalance>, debtors: map<UserId, UserBalance>)
    requires NoDup(Ids(Snapshot(bs)))
    ensures creditors.Keys == CreditorIds(Snapshot(bs)) && debtors.Keys == DebtorIds(Snapshot(bs))
    ensures forall k :: k in creditors ==> creditors[k] in bs && creditors[k].userId == k && creditors[k].balance > PAISA
    ensures forall k :: k in debtors ==> debtors[k] in bs && debtors[k].userId == k && debtors[k].balance < -PAISA
  {
    creditors, debtors := map[], map[];
    for i := 0 to |bs|
      invariant creditors.Keys == CreditorIds(Snapshot(bs)[..i]) && debtors.Keys == DebtorIds(Snapshot(bs)[..i])
      invariant forall k :: k in creditors ==> creditors[k] in bs && creditors[k].userId == k && creditors[k].balance > PAISA
      invariant forall k :: k in debtors ==> debtors[k] in bs && debtors[k].userId == k && debtors[k].balance < -PAISA
    {
      var balance := bs[i];
      assert Snapshot(bs)[..i + 1] == Snapshot(bs)[..i] + [Snapshot(bs)[i]];
      if balance.balance > PAISA {
        creditors := creditors[balance.userId := balance];
      } else if balance.balance < -PAISA {
        debtors := debtors[balance.userId := balance];
      }
    }
    assert Snapshot(bs)[..|bs|] == Snapshot(bs);
  }

  /** `target` is what is left to do when `instrs` are already out and the
      debtor, owing `owed`, reaches creditor `j` of `snap`. */
  predicate Tracks(target: Step, instrs: seq<Instruction>, d: Entry, owed: real, snap: seq<Entry>, j: nat)
    requires j <= |snap|
  {
    var cur := SettleDebtor(d, owed, snap, j);
    target.instrs == instrs + cur.instrs && target.creditors == cur.creditors
  }

  lemma TracksSkip(target: Step, instrs: seq<Instruction>, d: Entry, owed: real, snap: seq<Entry>, j: nat)
    requires j < |snap| && owed >= PAISA && snap[j].balance < PAISA
    requires Tracks(target, instrs, d, owed, snap, j)
    ensures Tracks(target, instrs, d, owed, snap, j + 1)
  {
  }

  lemma TracksPay(target: Step, instrs: seq<Instruction>, d: Entry, owed: real, snap: seq<Entry>, j: nat, amount: real)
    requires j < |snap| && owed >= PAISA && snap[j].balance >= PAISA
    requires amount == Round2(Min(owed, snap[j].balance))
    requires Tracks(target, instrs, d, owed, snap, j)
    ensures Tracks(target, instrs + [Pay(d, snap[j], amount)], d, owed - amount,
                   snap[j := snap[j].(balance := snap[j].balance - amount)], j + 1)
  {
    var rest := SettleDebtor(d, owed - amount, snap[j := snap[j].(balance := snap[j].balance - amount)], j + 1);
    assert SettleDebtor(d, owed, snap, j) == Step([Pay(d, snap[j], amount)] + rest.instrs, rest.creditors, rest.owed);
    assert instrs + ([Pay(d, snap[j], amount)] + rest.instrs) == (instrs + [Pay(d, snap[j], amount)]) + rest.instrs;
  }

  lemma TracksDone(target: Step, instrs: seq<Instruction>, d: Entry, owed: real, snap: seq<Entry>, j: nat)
    requires j <= |snap| && (j == |snap| || owed < PAISA)
    requires Tracks(target, instrs, d, owed, snap, j)
    ensures target.instrs == instrs && target.creditors == snap
  {
  }

  /** `creditor.setBalance(creditor.getBalance() - amount)` on the `j`-th creditor. */
  method Lower(cs: seq<UserBalance>, j: nat, amount: real)
    requires j < |cs| && Distinct(cs)
    modifies cs[j]
    ensures var before := old(Snapshot(cs));
            Snapshot(cs) == before[j := before[j].(balance := before[j].balance - amount)]
  {
    ghost var before := Snapshot(cs);
    cs[j].balance := cs[j].balance - amount;
    forall i | 0 <= i < |cs|
      ensures Snapshot(cs)[i] == before[j := before[j].(balance := before[j].balance - amount)][i]
    {
      if i != j {
        assert cs[i] != cs[j];
      }
    }
  }

  /** One payment of the inner loop: the debtor pays the `j`-th creditor the
      smaller of what is owed and what the creditor is owed, rounded to two
      decimals, and the creditor's balance is lowered by that amount; the
      instruction and the new balance are the next step of `SettleDebtor`. */
  method PayCreditor(debtor: UserBalance, cs: seq<UserBalance>, j: nat, amountOwed: real, instrs: seq<Instruction>,
                     ghost target: Step, ghost snap: seq<Entry>)
    returns (owed: real, instrs': seq<Instruction>, ghost snap': seq<Entry>)
    requires j < |cs| && Distinct(cs) && snap == Snapshot(cs)
    requires amountOwed >= PAISA && cs[j].balance >= PAISA
    requires Tracks(target, instrs, Entry(debtor.userId, debtor.userName, debtor.balance), amountOwed, snap, j)
    modifies cs[j]
    ensures snap' == Snapshot(cs)
    ensures Tracks(target, instrs', Entry(debtor.userId, debtor.userName, old(debtor.balance)), owed, snap', j + 1)
  {
    ghost var d := Entry(debtor.userId, debtor.userName, debtor.balance);
    var creditor := cs[j];
    var amountToSettle := Round2(Min(amountOwed, creditor.balance));
    var instruction := Instruction(debtor.userId, debtor.userName, creditor.userId, creditor.userName, amountToSettle);
    assert instruction == Pay(d, snap[j], amountToSettle);
    TracksPay(target, instrs, d, amountOwed, snap, j, amountToSettle);
    instrs' := instrs + [instruction];
    owed := amountOwed - amountToSettle;
    Lower(cs, j, amountToSettle);
    snap' := snap[j := snap[j].(balance := snap[j].balance - amountToSettle)];
  }

  /** One pass of the inner loop for one debtor: pay the creditors in turn,
      stopping once less than a paisa is owed and skipping creditors owed
      less than a paisa. */
  method SettleDebtorWith(debtor: UserBalance, cs: seq<UserBalance>) returns (instrs: seq<Instruction>)
    requires Distinct(cs) && debtor !in cs
    modifies cs
    ensures var s := SettleDebtor(Entry(debtor.userId, debtor.userName, debtor.balance),
                                  Abs(debtor.balance), old(Snapshot(cs)), 0);
            instrs == s.instrs && Snapshot(cs) == s.creditors
  {
    ghost var d := Entry(debtor.userId, debtor.userName, debtor.balance);
    ghost var snap := Snapshot(cs);
    ghost var target := SettleDebtor(d, Abs(d.balance), snap, 0);
    var amountOwed := Abs(debtor.balance);
    instrs := [];
    var j := 0;
    while j < |cs| && amountOwed >= PAISA
      invariant j <= |cs|
      invariant d == Entry(debtor.userId, debtor.userName, debtor.balance)
      invariant snap == Snapshot(cs)
      invariant Tracks(target, instrs, d, amountOwed, snap, j)
    {
      var creditor := cs[j];
      if creditor.balance < PAISA {
        TracksSkip(target, instrs, d, amountOwed, snap, j);
      } else {
        amountOwed, instrs, snap := PayCreditor(debtor, cs, j, amountOwed, instrs, target, snap);
      }
      j := j + 1;
    }
    TracksDone(target, instrs, d, amountOwed, snap, j);
  }

  /** The outer loop: each debtor in the debtor map's iteration order. */
  method SettleAllWith(ds: seq<UserBalance>, cs: seq<UserBalance>) returns (instructions: seq<Instruction>)
    requires Distinct(cs) && forall a, k :: 0 <= a < |ds| && 0 <= k < |cs| ==> ds[a] != cs[k]
    modifies cs
    ensures var plan := SettleAll(Snapshot(ds), old(Snapshot(cs)));
            instructions == plan.instrs && Snapshot(cs) == plan.creditors
    ensures Snapshot(ds) == old(Snapshot(ds))
  {
    ghost var target := SettleAll(Snapshot(ds), Snapshot(cs));
    ghost var debts := Snapshot(ds);
    instructions := [];
    assert debts[0..] == debts;
    for a := 0 to |ds|
      invariant Snapshot(ds) == debts
      invariant var cur := SettleAll(debts[a..], Snapshot(cs));
                target.instrs == instructions + cur.instrs && target.creditors == cur.creditors
    {
      assert debts[a..][1..] == debts[a + 1..];
      assert ds[a] !in cs;
      var more := SettleDebtorWith(ds[a], cs);
      assert Snapshot(ds) == debts;
      instructions := instructions + more;
    }
  }

  /** `creditors.values()` or `debtors.values()`, in the map's iteration order `keys`. */
  method Gather(m: map<UserId, UserBalance>, keys: seq<UserId>) returns (bs: seq<UserBalance>)
    requires forall k :: k in keys ==> k in m
    ensures |bs| == |keys| && forall i :: 0 <= i < |keys| ==> bs[i] == m[keys[i]]
  {
    bs := [];
    for i := 0 to |keys|
      invariant |bs| == i && forall a :: 0 <= a < i ==> bs[a] == m[keys[a]]
    {
      bs := bs + [m[keys[i]]];
    }
  }

  /** The gathered objects show the report's entries of the gathered users. */
  lemma GatheredSnapshot(raw: seq<UserBalance>, m: map<UserId, UserBalance>, ids: seq<UserId>, bs: seq<UserBalance>)
    requires NoDup(Ids(Snapshot(raw)))
    requires forall k :: k in m ==> m[k] in raw && m[k].userId == k
    requires |bs| == |ids| && forall i :: 0 <= i < |ids| ==> ids[i] in m && bs[i] == m[ids[i]]
    ensures Snapshot(bs) == Select(Snapshot(raw), ids)
  {
    var es := Snapshot(raw);
    forall i | 0 <= i < |ids|
      ensures Snapshot(bs)[i] == Select(es, ids)[i]
    {
      var idx :| 0 <= idx < |raw| && raw[idx] == bs[i];
      LookupUnique(es, idx);
    }
  }

  lemma GatheredDistinct(m: map<UserId, UserBalance>, ids: seq<UserId>, bs: seq<UserBalance>)
    requires NoDup(ids)
    requires forall k :: k in m ==> m[k].userId == k
    requires |bs| == |ids| && forall i :: 0 <= i < |ids| ==> ids[i] in m && bs[i] == m[ids[i]]
    ensures Distinct(bs)
  {
    forall i, j | 0 <= i < j < |bs|
      ensures bs[i] != bs[j]
    {
      assert bs[i].userId == ids[i] && bs[j].userId == ids[j];
    }
  }

  /** The reported entries list the users of the iteration order, once each. */
  lemma ReportIds(ledger: Ledger, users: map<UserId, User>, order: seq<UserId>)
    requires NoDup(order) && ReportEntries(ledger, users, order).Ok?
    ensures Ids(ReportEntries(ledger, users, order).value) == order
    ensures NoDup(Ids(ReportEntries(ledger, users, order).value))
  {
    ReportEntriesSpec(ledger, users, order);
  }

  /** After the settlement loop the reported objects show `AfterSettlement`:
      the creditors' objects hold their final balances, the others are as
      reported. */
  lemma AfterSettlementShows(raw: seq<UserBalance>, es: seq<Entry>, cs: seq<UserBalance>, co: seq<UserId>, finals: seq<Entry>)
    requires |raw| == |es| && NoDup(Ids(es)) && forall i :: 0 <= i < |raw| ==> raw[i].userId == es[i].userId
    requires NoDup(co) && |cs| == |co| && forall k :: 0 <= k < |co| ==> cs[k] in raw && cs[k].userId == co[k]
    requires Snapshot(cs) == finals
    requires forall i :: 0 <= i < |raw| && raw[i] !in cs ==> Snapshot(raw)[i] == es[i]
    ensures Snapshot(raw) == AfterSettlement(es, co, finals)
  {
    assert Ids(finals) == co;
    forall i | 0 <= i < |raw|
      ensures Snapshot(raw)[i] == AfterSettlement(es, co, finals)[i]
    {
      ShowsAt(raw, es, cs, co, finals, i);
    }
  }

  /** One position of `AfterSettlementShows`. */
  lemma ShowsAt(raw: seq<UserBalance>, es: seq<Entry>, cs: seq<UserBalance>, co: seq<UserId>, finals: seq<Entry>, i: nat)
    requires |raw| == |es| && NoDup(Ids(es)) && forall j :: 0 <= j < |raw| ==> raw[j].userId == es[j].userId
    requires NoDup(co) && |cs| == |co| && forall k :: 0 <= k < |co| ==> cs[k] in raw && cs[k].userId == co[k]
    requires Snapshot(cs) == finals && Ids(finals) == co
    requires forall j :: 0 <= j < |raw| && raw[j] !in cs ==> Snapshot(raw)[j] == es[j]
    requires i < |raw|
    ensures Snapshot(raw)[i] == AfterSettlement(es, co, finals)[i]
  {
    if es[i].userId in co {
      var k :| 0 <= k < |co| && co[k] == es[i].userId;
      var idx :| 0 <= idx < |raw| && raw[idx] == cs[k];
      assert Ids(es)[idx] == Ids(es)[i];
      LookupUnique(finals, k);
    } else {
      assert raw[i] !in cs;
    }
  }

  /** The partition loop followed by `values()` of both maps: the creditor
      and debtor objects in the maps' iteration orders. */
  method PartitionReported(rawBalances: seq<UserBalance>, ghost es: seq<Entry>, creditorOrder: seq<UserId>, debtorOrder: seq<UserId>)
    returns (cs: seq<UserBalance>, ds: seq<UserBalance>)
    requires Snapshot(rawBalances) == es && NoDup(Ids(es))
    requires IsEnumeration(creditorOrder, CreditorIds(es)) && IsEnumeration(debtorOrder, DebtorIds(es))
    ensures Snapshot(cs) == Select(es, creditorOrder) && Snapshot(ds) == Select(es, debtorOrder)
    ensures |cs| == |creditorOrder| && forall k :: 0 <= k < |cs| ==> cs[k] in rawBalances && cs[k].userId == creditorOrder[k]
    ensures Distinct(cs) && forall a, k :: 0 <= a < |ds| && 0 <= k < |cs| ==> ds[a] != cs[k]
  {
    var creditors, debtors := Partition(rawBalances);
    cs := Gather(creditors, creditorOrder);
    ds := Gather(debtors, debtorOrder);
    GatheredSnapshot(rawBalances, creditors, creditorOrder, cs);
    GatheredSnapshot(rawBalances, debtors, debtorOrder, ds);
    GatheredDistinct(creditors, creditorOrder, cs);
    forall a, k | 0 <= a < |ds| && 0 <= k < |cs|
      ensures ds[a] != cs[k]
    {
      assert ds[a].balance < -PAISA && cs[k].balance > PAISA;
    }
  }

  /** The partition and settlement loops on the reported objects. */
  method SettleReported(rawBalances: seq<UserBalance>, ghost es: seq<Entry>, creditorOrder: seq<UserId>, debtorOrder: seq<UserId>)
    returns (instructions: seq<Instruction>)
    requires Snapshot(rawBalances) == es && NoDup(Ids(es))
    requires IsEnumeration(creditorOrder, CreditorIds(es)) && IsEnumeration(debtorOrder, DebtorIds(es))
    modifies rawBalances
    ensures var plan := SummaryPlan(es, creditorOrder, debtorOrder);
            instructions == plan.instrs && Snapshot(rawBalances) == AfterSettlement(es, creditorOrder, plan.creditors)
  {
    var cs, ds := PartitionReported(rawBalances, es, creditorOrder, debtorOrder);
    ghost var plan := SummaryPlan(es, creditorOrder, debtorOrder);
    instructions := SettleAllWith(ds, cs);
    forall i | 0 <= i < |rawBalances| && rawBalances[i] !in cs
      ensures Snapshot(rawBalances)[i] == es[i]
    {
    }
    AfterSettlementShows(rawBalances, es, cs, creditorOrder, plan.creditors);
  }

  /** `calculateBalanceSummary`: the trip must exist and its balances be
      reported; positive balances above a paisa are creditors and negative
      ones below minus a paisa debtors; each debtor, in the debtor map's
      iteration order, pays the creditors in the creditor map's iteration
      order. The returned `rawBalances` are the very objects the loop
      lowered: a creditor's entry shows what is left of its balance. */
  method CalculateBalanceSummary(db: Database, tripId: TripId, order: seq<UserId>,
                                 creditorOrder: seq<UserId>, debtorOrder: seq<UserId>)
    returns (r: Result<BalanceSummary, string>)
    requires tripId in db.trips ==>
               IsEnumeration(order, TripLedger(db.trips[tripId].members, ExpensesOf(db.expenses, tripId)).Keys)
    requires TripBalances(db.trips, db.users, db.expenses, tripId, order).Ok? ==>
               var es := TripBalances(db.trips, db.users, db.expenses, tripId, order).value;
               IsEnumeration(creditorOrder, CreditorIds(es)) && IsEnumeration(debtorOrder, DebtorIds(es))
    ensures var tb := TripBalances(db.trips, db.users, db.expenses, tripId, order);
            && (r.Err? <==> tb.Err?)
            && (r.Err? ==> r.error == tb.error)
            && (r.Ok? ==>
                  var plan := SummaryPlan(tb.value, creditorOrder, debtorOrder);
                  && r.value.tripId == tripId
                  && r.value.tripName == db.trips[tripId].name
                  && r.value.instructions == plan.instrs
                  && Snapshot(r.value.rawBalances) == AfterSettlement(tb.value, creditorOrder, plan.creditors))
  {
    ghost var tb := TripBalances(db.trips, db.users, db.expenses, tripId, order);
    if tripId !in db.trips {
      return Err(TRIP_NOT_FOUND);
    }
    var trip := db.trips[tripId];
    ghost var ledger := TripLedger(trip.members, ExpensesOf(db.expenses, tripId));
    assert tb == ReportEntries(ledger, db.users, order);
    var raw := CalculateBalances(db, tripId, order);
    if raw.Err? {
      return Err(raw.error);
    }
    var rawBalances := raw.value;
    forall i | 0 <= i < |rawBalances|
      ensures fresh(rawBalances[i])
    {
      assert rawBalances[i] in raw.value;
    }
    ghost var es := Snapshot(rawBalances);
    assert es == tb.value;
    ReportIds(ledger, db.users, order);
    var instructions := SettleReported(rawBalances, es, creditorOrder, debtorOrder);
    r := Ok(BalanceSummary(tripId, trip.name, rawBalances, instructions));
  }

  // ---- what the summary promises ----

  /** A reported entry is what `Lookup` finds for its user. */
  lemma LookupMember(es: seq<Entry>, e: Entry)
    requires NoDup(Ids(es)) && e in es
    ensures Lookup(es, e.userId) == e
  {
    var i :| 0 <= i < |es| && es[i] == e;
    LookupUnique(es, i);
  }

  /** The reported balances of a trip list each user once and are in whole paise. */
  lemma TripBalancesWellFormed(trips: map<TripId, Trip>, users: map<UserId, User>, expenses: seq<Expense>,
                               tripId: TripId, order: seq<UserId>)
    requires NoDup(order) && TripBalances(trips, users, expenses, tripId, order).Ok?
    ensures var es := TripBalances(trips, users, expenses, tripId, order).value;
            Ids(es) == order && NoDup(Ids(es)) && AllCents(es)
  {
    var ledger := TripLedger(trips[tripId].members, ExpensesOf(expenses, tripId));
    ReportEntriesSpec(ledger, users, order);
  }

  /** The creditors and debtors handed to the settlement: whole paise,
      creditors owed a positive amount, each user once, and nobody both. */
  lemma SidesWellFormed(es: seq<Entry>, creditorOrder: seq<UserId>, debtorOrder: seq<UserId>)
    requires NoDup(Ids(es)) && AllCents(es)
    requires IsEnumeration(creditorOrder, CreditorIds(es)) && IsEnumeration(debtorOrder, DebtorIds(es))
    ensures var cs, ds := Select(es, creditorOrder), Select(es, debtorOrder);
            && Ids(cs) == creditorOrder && Ids(ds) == debtorOrder
            && CentsNonNeg(cs) && AllCents(ds)
            && (forall k :: 0 <= k < |cs| ==> IsCreditor(cs[k]))
            && (forall a :: 0 <= a < |ds| ==> IsDebtor(ds[a]))
            && (forall a, k :: 0 <= a < |ds| && 0 <= k < |cs| ==> ds[a].userId != cs[k].userId)
  {
    var cs, ds := Select(es, creditorOrder), Select(es, debtorOrder);
    forall k | 0 <= k < |cs|
      ensures cs[k] in es && IsCreditor(cs[k])
    {
      assert creditorOrder[k] in creditorOrder;
      var e :| e in es && IsCreditor(e) && e.userId == creditorOrder[k];
      LookupMember(es, e);
    }
    forall a | 0 <= a < |ds|
      ensures ds[a] in es && IsDebtor(ds[a])
    {
      assert debtorOrder[a] in debtorOrder;
      var e :| e in es && IsDebtor(e) && e.userId == debtorOrder[a];
      LookupMember(es, e);
    }
    forall k | 0 <= k < |cs|
      ensures IsCents(cs[k].balance)
    {
      var i :| 0 <= i < |es| && es[i] == cs[k];
    }
    forall a | 0 <= a < |ds|
      ensures IsCents(ds[a].balance)
    {
      var i :| 0 <= i < |es| && es[i] == ds[a];
    }
    forall a, k | 0 <= a < |ds| && 0 <= k < |cs|
      ensures ds[a].userId != cs[k].userId
    {
      if ds[a].userId == cs[k].userId {
        LookupMember(es, ds[a]);
        LookupMember(es, cs[k]);
      }
    }
  }

  /** Every payment of a summary goes from a debtor to a creditor, never to
      oneself, and is at least one paisa. */
  lemma SummaryPayments(es: seq<Entry>, creditorOrder: seq<UserId>, debtorOrder: seq<UserId>)
    requires NoDup(Ids(es)) && AllCents(es)
    requires IsEnumeration(creditorOrder, CreditorIds(es)) && IsEnumeration(debtorOrder, DebtorIds(es))
    ensures var plan := SummaryPlan(es, creditorOrder, debtorOrder);
            forall i :: 0 <= i < |plan.instrs| ==>
              && plan.instrs[i].fromUserId in debtorOrder
              && plan.instrs[i].toUserId in creditorOrder
              && plan.instrs[i].fromUserId != plan.instrs[i].toUserId
              && plan.instrs[i].amount >= PAISA
  {
    var cs, ds := Select(es, creditorOrder), Select(es, debtorOrder);
    SidesWellFormed(es, creditorOrder, debtorOrder);
    SettleAllShape(ds, cs);
    SettleAllCents(ds, cs);
    var plan := SettleAll(ds, cs);
    forall i | 0 <= i < |plan.instrs|
      ensures plan.instrs[i].fromUserId in debtorOrder && plan.instrs[i].toUserId in creditorOrder
      ensures plan.instrs[i].fromUserId != plan.instrs[i].toUserId
    {
      var a :| 0 <= a < |ds| && plan.instrs[i].fromUserId == ds[a].userId && plan.instrs[i].fromUserName == ds[a].userName;
      assert Ids(ds)[a] == ds[a].userId;
      var k :| 0 <= k < |cs| && plan.instrs[i].toUserId == cs[k].userId && plan.instrs[i].toUserName == cs[k].userName;
      assert Ids(cs)[k] == cs[k].userId;
    }
  }

  /** What each creditor of a summary is paid is exactly what its balance
      went down by, and no creditor ends below zero. */
  lemma SummaryCreditors(es: seq<Entry>, creditorOrder: seq<UserId>, debtorOrder: seq<UserId>)
    requires NoDup(Ids(es)) && AllCents(es)
    requires IsEnumeration(creditorOrder, CreditorIds(es)) && IsEnumeration(debtorOrder, DebtorIds(es))
    ensures var plan := SummaryPlan(es, creditorOrder, debtorOrder);
            forall k :: 0 <= k < |creditorOrder| ==>
              && plan.creditors[k].balance >= 0.0
              && plan.creditors[k].balance + PaidTo(plan.instrs, creditorOrder[k]) == Lookup(es, creditorOrder[k]).balance
  {
    var cs, ds := Select(es, creditorOrder), Select(es, debtorOrder);
    SidesWellFormed(es, creditorOrder, debtorOrder);
    SettleAllConservation(ds, cs);
    SettleAllCents(ds, cs);
    assert forall k :: 0 <= k < |cs| ==> Ids(cs)[k] == cs[k].userId;
  }

  /** No debtor of a summary pays more than they owe; when the creditors
      are owed at least what the debtors owe, every debtor pays exactly
      their debt. */
  lemma SummaryDebtors(es: seq<Entry>, creditorOrder: seq<UserId>, debtorOrder: seq<UserId>)
    requires NoDup(Ids(es)) && AllCents(es)
    requires IsEnumeration(creditorOrder, CreditorIds(es)) && IsEnumeration(debtorOrder, DebtorIds(es))
    ensures var plan := SummaryPlan(es, creditorOrder, debtorOrder);
            && (forall a :: 0 <= a < |debtorOrder| ==>
                  PaidFrom(plan.instrs, debtorOrder[a]) <= Abs(Lookup(es, debtorOrder[a]).balance))
            && (SumOwed(Select(es, debtorOrder)) <= SumBalances(Select(es, creditorOrder)) ==>
                  forall a :: 0 <= a < |debtorOrder| ==>
                    PaidFrom(plan.instrs, debtorOrder[a]) == Abs(Lookup(es, debtorOrder[a]).balance))
  {
    var cs, ds := Select(es, creditorOrder), Select(es, debtorOrder);
    SidesWellFormed(es, creditorOrder, debtorOrder);
    SettleAllCents(ds, cs);
    assert forall a :: 0 <= a < |ds| ==> Ids(ds)[a] == ds[a].userId;
    if SumOwed(ds) <= SumBalances(cs) {
      SettleAllComplete(ds, cs);
    }
  }
}
