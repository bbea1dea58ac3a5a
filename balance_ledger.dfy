/** The balance ledger that `calculateBalances` builds, as a fold over the
    trip's expenses: payers are credited the amount in rupees and every
    entry of the split is debited an equal share. */
module BalanceLedger {
  import opened Wrappers
  import opened Seqs
  import opened UserModel
  import opened Store

  type Ledger = map<UserId, real>

  /** Every trip member starts at zero. */
  function Seed(members: seq<UserId>): (m: Ledger)
    ensures m.Keys == set u | u in members
    ensures forall u :: u in m ==> m[u] == 0.0
  {
    map u | u in members :: 0.0
  }

  /** `getOrDefault(k, 0.0)`. */
  function Get(m: Ledger, k: UserId): real
  {
    if k in m then m[k] else 0.0
  }

  /** The amount is stored in paise and counted in rupees; a null amount counts as 0. */
  function Rupees(e: Expense): real
  {
    if e.amount.None? then 0.0 else e.amount.value / 100.0
  }

  /** The share of each split entry; an empty split has share 0. */
  function Share(e: Expense): real
  {
    if |e.splitBetween| > 0 then Rupees(e) / |e.splitBetween| as real else 0.0
  }

  function Credit(m: Ledger, k: UserId, x: real): Ledger
  {
    m[k := Get(m, k) + x]
  }

  /** Debits `share` from each entry of `split`, in order; a repeated entry
      is debited once per occurrence. */
  function DebitEach(m: Ledger, split: seq<UserId>, share: real): Ledger
    decreases split
  {
    if split == [] then m else DebitEach(Credit(m, split[0], -share), split[1..], share)
  }

  /** One expense: the payer is credited the amount, then each split entry
      is debited a share; the payer and every split user become keys. */
  function ApplyExpense(m: Ledger, e: Expense): (r: Ledger)
    ensures r.Keys == m.Keys + {e.paidBy} + set v | v in e.splitBetween
  {
    DebitEachKeys(Credit(m, e.paidBy, Rupees(e)), e.splitBetween, Share(e));
    DebitEach(Credit(m, e.paidBy, Rupees(e)), e.splitBetween, Share(e))
  }

  /** The expenses applied in list order; no key is ever removed. */
  function ApplyAll(m: Ledger, es: seq<Expense>): (r: Ledger)
    ensures m.Keys <= r.Keys
    decreases es
  {
    if es == [] then m else ApplyAll(ApplyExpense(m, es[0]), es[1..])
  }

  /** The unrounded balances of a trip with these members and expenses. */
  function TripLedger(members: seq<UserId>, es: seq<Expense>): (r: Ledger)
    ensures r.Keys == (set u | u in members) + Participants(es)
  {
    ApplyAllKeys(Seed(members), es);
    ApplyAll(Seed(members), es)
  }

  // ---- an independent closed form ----

  /** `n` copies of `x`, added up: `n * x` without a product for the solver. */
  function Times(n: nat, x: real): (r: real)
  {
    if n == 0 then 0.0 else x + Times(n - 1, x)
  }

  lemma {:induction false} TimesIsProduct(n: nat, x: real)
    ensures Times(n, x) == n as real * x
  {
    if n > 0 {
      TimesIsProduct(n - 1, x);
      assert n as real * x == x + (n - 1) as real * x;
    }
  }

  /** What one user gains from one expense: what they paid, less one share
      per occurrence in its split. */
  function Effect(u: UserId, e: Expense): real
  {
    (if e.paidBy == u then Rupees(e) else 0.0) - Times(Count(u, e.splitBetween), Share(e))
  }

  /** What one user gains from a list of expenses. */
  function NetOf(u: UserId, es: seq<Expense>): real
  {
    if es == [] then 0.0 else Effect(u, es[0]) + NetOf(u, es[1..])
  }

  /** Everyone who pays or shares in some expense. */
  function Participants(es: seq<Expense>): set<UserId>
  {
    if es == [] then {}
    else {es[0].paidBy} + (set u | u in es[0].splitBetween) + Participants(es[1..])
  }

  lemma GetCredit(m: Ledger, k: UserId, x: real, u: UserId)
    ensures Get(Credit(m, k, x), u) == Get(m, u) + (if k == u then x else 0.0)
  {
  }

  /** What `DebitEach` takes from one user: one share per occurrence. */
  function Debited(u: UserId, split: seq<UserId>, share: real): real
    decreases split
  {
    if split == [] then 0.0 else (if split[0] == u then share else 0.0) + Debited(u, split[1..], share)
  }

  lemma {:induction false} DebitedCount(u: UserId, split: seq<UserId>, share: real)
    ensures Debited(u, split, share) == Times(Count(u, split), share)
    decreases split
  {
    if split != [] {
      DebitedCount(u, split[1..], share);
    }
  }

  lemma {:induction false} DebitEachValue(m: Ledger, split: seq<UserId>, share: real, u: UserId)
    ensures Get(DebitEach(m, split, share), u) == Get(m, u) - Debited(u, split, share)
    decreases split
  {
    if split != [] {
      var m' := Credit(m, split[0], -share);
      DebitEachValue(m', split[1..], share, u);
      GetCredit(m, split[0], -share, u);
    }
  }

  lemma {:induction false} DebitEachKeys(m: Ledger, split: seq<UserId>, share: real)
    ensures DebitEach(m, split, share).Keys == m.Keys + set v | v in split
    decreases split
  {
    if split != [] {
      DebitEachKeys(Credit(m, split[0], -share), split[1..], share);
      assert (set v | v in split) == {split[0]} + set v | v in split[1..];
    }
  }

  /** Each balance is the starting value plus the user's net over the expenses. */
  lemma ApplyExpenseValue(m: Ledger, e: Expense, u: UserId)
    ensures Get(ApplyExpense(m, e), u) == Get(m, u) + Effect(u, e)
  {
    var share := Share(e);
    var paid := Credit(m, e.paidBy, Rupees(e));
    assert ApplyExpense(m, e) == DebitEach(paid, e.splitBetween, share);
    DebitEachValue(paid, e.splitBetween, share, u);
    DebitedCount(u, e.splitBetween, share);
    GetCredit(m, e.paidBy, Rupees(e), u);

  }

  lemma {:induction false} ApplyAllValue(m: Ledger, es: seq<Expense>, u: UserId)
    ensures Get(ApplyAll(m, es), u) == Get(m, u) + NetOf(u, es)
    decreases es
  {
    if es != [] {
      ApplyExpenseValue(m, es[0], u);
      ApplyAllValue(ApplyExpense(m, es[0]), es[1..], u);
    }
  }

  /** The keys are the starting keys and every payer and split entry, member or not. */
  lemma {:induction false} ApplyAllKeys(m: Ledger, es: seq<Expense>)
    ensures ApplyAll(m, es).Keys == m.Keys + Participants(es)
    decreases es
  {
    if es != [] {
      var e := es[0];
      ApplyAllKeys(ApplyExpense(m, e), es[1..]);
    }
  }

  lemma {:induction false} NetOfNonParticipant(u: UserId, es: seq<Expense>)
    requires u !in Participants(es)
    ensures NetOf(u, es) == 0.0
  {
    if es != [] {
      CountAbsent(u, es[0].splitBetween);
      NetOfNonParticipant(u, es[1..]);
    }
  }

  /** The trip ledger: its keys are the members and the participants; a
      member's balance is their net; a member who neither pays nor shares
      is reported with balance 0. */
  lemma TripLedgerSpec(members: seq<UserId>, es: seq<Expense>, u: UserId)
    ensures TripLedger(members, es).Keys == (set v | v in members) + Participants(es)
    ensures u in members ==> TripLedger(members, es)[u] == NetOf(u, es)
    ensures u in members && u !in Participants(es) ==> TripLedger(members, es)[u] == 0.0
  {
    ApplyAllKeys(Seed(members), es);
    ApplyAllValue(Seed(members), es, u);
    if u !in Participants(es) {
      NetOfNonParticipant(u, es);
    }
  }

  /** For the stored expenses of a trip, every participant is a member, so
      the ledger has exactly one entry per member. */
  lemma {:induction false} ParticipantsAreMembers(es: seq<Expense>, members: seq<UserId>)
    requires forall i :: 0 <= i < |es| ==> es[i].paidBy in members && forall v :: v in es[i].splitBetween ==> v in members
    ensures Participants(es) <= set v | v in members
  {
    if es != [] {
      ParticipantsAreMembers(es[1..], members);
    }
  }

  lemma ValidLedgerKeys(db: DbState, tripId: TripId)
    requires ExpensesValid(db.expenses, db.trips, db.users) && tripId in db.trips
    ensures TripLedger(db.trips[tripId].members, ExpensesOf(db.expenses, tripId)).Keys
            == set v | v in db.trips[tripId].members
  {
    var es := ExpensesOf(db.expenses, tripId);
    var members := db.trips[tripId].members;
    ExpensesOfMembers(db.expenses, tripId);
    forall i | 0 <= i < |es|
      ensures es[i].paidBy in members && forall v :: v in es[i].splitBetween ==> v in members
    {
      assert es[i] in es;
    }
    ParticipantsAreMembers(es, members);
    ApplyAllKeys(Seed(members), es);
  }

  // ---- conservation ----

  /** The sum of the balances listed in `ks`, absent keys counting 0. */
  function SumOf(m: Ledger, ks: seq<UserId>): real
  {
    if ks == [] then 0.0 else Get(m, ks[0]) + SumOf(m, ks[1..])
  }

  lemma {:induction false} SumOfCredit(m: Ledger, ks: seq<UserId>, k: UserId, x: real)
    requires NoDup(ks)
    ensures SumOf(Credit(m, k, x), ks) == SumOf(m, ks) + (if k in ks then x else 0.0)
  {
    if ks != [] {
      assert NoDup(ks[1..]) by {
        assert forall i, j :: 0 <= i < j < |ks[1..]| ==> ks[1..][i] == ks[i + 1] && ks[1..][j] == ks[j + 1];
      }
      assert ks[0] !in ks[1..] by {
        assert forall j :: 0 <= j < |ks[1..]| ==> ks[1..][j] == ks[j + 1];
      }
      SumOfCredit(m, ks[1..], k, x);
    }
  }

  lemma {:induction false} SumOfDebitEach(m: Ledger, ks: seq<UserId>, split: seq<UserId>, share: real)
    requires NoDup(ks) && forall v :: v in split ==> v in ks
    ensures SumOf(DebitEach(m, split, share), ks) == SumOf(m, ks) - Times(|split|, share)
    decreases split
  {
    if split != [] {
      assert split[0] in ks;
      assert forall v :: v in split[1..] ==> v in ks;
      SumOfCredit(m, ks, split[0], -share);
      SumOfDebitEach(Credit(m, split[0], -share), ks, split[1..], share);
    }
  }

  /** An expense with a non-empty split adds to one balance exactly what it
      takes from the others. */
  lemma ShareTimesCount(e: Expense)
    requires |e.splitBetween| > 0
    ensures Times(|e.splitBetween|, Share(e)) == Rupees(e)
  {
    TimesIsProduct(|e.splitBetween|, Share(e));
  }

  lemma {:induction false} SumOfApplyAll(m: Ledger, es: seq<Expense>, ks: seq<UserId>)
    requires NoDup(ks) && Participants(es) <= set v | v in ks
    requires forall i :: 0 <= i < |es| ==> |es[i].splitBetween| > 0
    ensures SumOf(ApplyAll(m, es), ks) == SumOf(m, ks)
    decreases es
  {
    if es != [] {
      var e := es[0];
      assert forall v :: v in e.splitBetween ==> v in Participants(es);
      SumOfCredit(m, ks, e.paidBy, Rupees(e));
      SumOfDebitEach(Credit(m, e.paidBy, Rupees(e)), ks, e.splitBetween, Share(e));
      ShareTimesCount(e);
      SumOfApplyAll(ApplyExpense(m, e), es[1..], ks);
    }
  }

  lemma {:induction false} SumOfSeed(members: seq<UserId>, ks: seq<UserId>)
    ensures SumOf(Seed(members), ks) == 0.0
  {
    if ks != [] {
      SumOfSeed(members, ks[1..]);
    }
  }

  /** Money is conserved: when every expense has a non-empty split, the
      unrounded balances, listed in any iteration order of the ledger's
      keys, sum to zero. */
  lemma TripLedgerConserves(members: seq<UserId>, es: seq<Expense>, order: seq<UserId>)
    requires forall i :: 0 <= i < |es| ==> |es[i].splitBetween| > 0
    requires IsEnumeration(order, TripLedger(members, es).Keys)
    ensures SumOf(TripLedger(members, es), order) == 0.0
  {
    ApplyAllKeys(Seed(members), es);
    SumOfApplyAll(Seed(members), es, order);
    SumOfSeed(members, order);
  }
}
