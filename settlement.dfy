/** The greedy settlement of `calculateBalanceSummary` on values: each
    debtor, in turn, pays the creditors one after another until the debt is
    below one paisa, every payment being the smaller of what is still owed
    and what the creditor is still owed, rounded to two decimals. */
module Settlement {
  import opened Seqs
  import opened Money
  import opened Decimal
  import opened UserModel

  /** One rounded balance as `calculateBalances` reports it. */
  datatype Entry = Entry(userId: UserId, userName: string, balance: real)

  /** `BalanceSummary.BalanceInstruction`. Its `message` is built from the
      other fields, so it is the function `MessageOf` below rather than a
      stored field. */
  datatype Instruction = Instruction(
    fromUserId: UserId,
    fromUserName: string,
    toUserId: UserId,
    toUserName: string,
    amount: real)

  /** The threshold under which a balance or a debt counts as settled. */
  const PAISA: real := 0.01

  predicate IsCreditor(e: Entry) { e.balance > PAISA }
  predicate IsDebtor(e: Entry) { e.balance < -PAISA }

  // ---- the message ----

  /** `%.2f` of an amount: the integer part, a point and two digits; a
      negative amount is printed with a leading minus. */
  function FormatAmount(x: real): (s: string)
    ensures |s| >= 4 && s[|s| - 3] == '.' && AllDigits(s[|s| - 2..])
    ensures s[0] == '-' <==> x < 0.0
  {
    if x < 0.0 then "-" + FormatMagnitude(-x) else FormatMagnitude(x)
  }

  function FormatMagnitude(x: real): string
    requires x >= 0.0
  {
    var n := RoundHalfUp(100.0 * x);
    NatToString(n / 100) + "." + ZeroPad(n % 100, 2)
  }

  /** The amount printed in a message reads back as the amount, for any
      non-negative amount of whole paise. */
  lemma FormatAmountRoundTrip(x: real)
    requires IsCents(x) && x >= 0.0
    ensures var s := FormatAmount(x);
            && |s| >= 4 && s[|s| - 3] == '.'
            && AllDigits(s[..|s| - 3]) && AllDigits(s[|s| - 2..])
            && (100 * ValueOf(s[..|s| - 3]) + ValueOf(s[|s| - 2..])) as real == 100.0 * x
  {
    var n := RoundHalfUp(100.0 * x);
    Round2OfCents(x);
    assert n as real == 100.0 * x;
    var ip, fp := NatToString(n / 100), ZeroPad(n % 100, 2);
    var s := FormatAmount(x);
    assert s == ip + "." + fp;
    assert s[..|s| - 3] == ip;
    assert s[|s| - 2..] == fp;
    NatToStringRoundTrip(n / 100);
    ZeroPadRoundTrip(n % 100, 2);
  }

  /** The `message` of an instruction: "<from> has to pay \U{20B9}<amount> to <to>". */
  function MessageOf(i: Instruction): (s: string)
    ensures |s| > |i.fromUserName| + |i.toUserName|
    ensures s[..|i.fromUserName|] == i.fromUserName
    ensures s[|s| - |i.toUserName|..] == i.toUserName
  {
    i.fromUserName + " has to pay \U{20B9}" + FormatAmount(i.amount) + " to " + i.toUserName
  }

  function Pay(d: Entry, c: Entry, amount: real): Instruction
  {
    Instruction(d.userId, d.userName, c.userId, c.userName, amount)
  }

  // ---- the greedy loops ----

  /** The state after one debtor: the instructions issued, the creditors'
      remaining balances and what the debtor still owes. */
  datatype Step = Step(instrs: seq<Instruction>, creditors: seq<Entry>, owed: real)

  /** The inner loop over the creditors from position `j`, for debtor `d`
      who still owes `owed`. */
  function SettleDebtor(d: Entry, owed: real, cs: seq<Entry>, j: nat): (r: Step)
    requires j <= |cs|
    ensures |r.creditors| == |cs|
    decreases |cs| - j
  {
    if j == |cs| || owed < PAISA then Step([], cs, owed)
    else if cs[j].balance < PAISA then SettleDebtor(d, owed, cs, j + 1)
    else
      var amount := Round2(Min(owed, cs[j].balance));
      var rest := SettleDebtor(d, owed - amount, cs[j := cs[j].(balance := cs[j].balance - amount)], j + 1);
      Step([Pay(d, cs[j], amount)] + rest.instrs, rest.creditors, rest.owed)
  }

  /** One payment step of the inner loop, unfolded. */
  lemma SettleDebtorPays(d: Entry, owed: real, cs: seq<Entry>, j: nat)
    requires j < |cs| && owed >= PAISA && cs[j].balance >= PAISA
    ensures var amount := Round2(Min(owed, cs[j].balance));
            var rest := SettleDebtor(d, owed - amount, cs[j := cs[j].(balance := cs[j].balance - amount)], j + 1);
            SettleDebtor(d, owed, cs, j) == Step([Pay(d, cs[j], amount)] + rest.instrs, rest.creditors, rest.owed)
  {
  }

  /** The inner loop keeps every creditor's id and name, and leaves the
      creditors before position `j` untouched. */
  lemma {:induction false} SettleDebtorKeepsUsers(d: Entry, owed: real, cs: seq<Entry>, j: nat)
    requires j <= |cs|
    ensures var r := SettleDebtor(d, owed, cs, j);
            && (forall k :: 0 <= k < |cs| ==> r.creditors[k].userId == cs[k].userId && r.creditors[k].userName == cs[k].userName)
            && (forall k :: 0 <= k < j ==> r.creditors[k] == cs[k])
    decreases |cs| - j
  {
    if j == |cs| || owed < PAISA {
    } else if cs[j].balance < PAISA {
      SettleDebtorKeepsUsers(d, owed, cs, j + 1);
    } else {
      var amount := Round2(Min(owed, cs[j].balance));
      SettleDebtorPays(d, owed, cs, j);
      SettleDebtorKeepsUsers(d, owed - amount, cs[j := cs[j].(balance := cs[j].balance - amount)], j + 1);
    }
  }

  datatype Plan = Plan(instrs: seq<Instruction>, creditors: seq<Entry>)

  /** The outer loop over the debtors, each starting with `|balance|` owed. */
  function SettleAll(ds: seq<Entry>, cs: seq<Entry>): (r: Plan)
    ensures |r.creditors| == |cs|
    ensures forall k :: 0 <= k < |cs| ==> r.creditors[k].userId == cs[k].userId && r.creditors[k].userName == cs[k].userName
  {
    if ds == [] then Plan([], cs)
    else
      SettleDebtorKeepsUsers(ds[0], Abs(ds[0].balance), cs, 0);
      var s := SettleDebtor(ds[0], Abs(ds[0].balance), cs, 0);
      var rest := SettleAll(ds[1..], s.creditors);
      Plan(s.instrs + rest.instrs, rest.creditors)
  }

  // ---- sums ----

  function Ids(es: seq<Entry>): seq<UserId>
  {
    seq(|es|, i requires 0 <= i < |es| => es[i].userId)
  }

  function Total(instrs: seq<Instruction>): real
  {
    if instrs == [] then 0.0 else instrs[0].amount + Total(instrs[1..])
  }

  /** What the instructions pay to `id`. */
  function PaidTo(instrs: seq<Instruction>, id: UserId): real
  {
    if instrs == [] then 0.0
    else (if instrs[0].toUserId == id then instrs[0].amount else 0.0) + PaidTo(instrs[1..], id)
  }

  /** What the instructions make `id` pay. */
  function PaidFrom(instrs: seq<Instruction>, id: UserId): real
  {
    if instrs == [] then 0.0
    else (if instrs[0].fromUserId == id then instrs[0].amount else 0.0) + PaidFrom(instrs[1..], id)
  }

  function SumBalances(cs: seq<Entry>): real
  {
    if cs == [] then 0.0 else cs[0].balance + SumBalances(cs[1..])
  }

  function SumOwed(ds: seq<Entry>): real
  {
    if ds == [] then 0.0 else Abs(ds[0].balance) + SumOwed(ds[1..])
  }

  predicate CentsNonNeg(cs: seq<Entry>)
  {
    forall k :: 0 <= k < |cs| ==> IsCents(cs[k].balance) && cs[k].balance >= 0.0
  }

  // ---- one debtor ----

  lemma {:induction false} SumBalancesUpdate(cs: seq<Entry>, j: nat, c: Entry)
    requires j < |cs|
    ensures SumBalances(cs[j := c]) == SumBalances(cs) - cs[j].balance + c.balance
  {
    if j > 0 {
      assert cs[j := c][1..] == cs[1..][j - 1 := c];
      SumBalancesUpdate(cs[1..], j - 1, c);
    }
  }

  lemma ConsSlice(x: Instruction, rest: seq<Instruction>)
    ensures ([x] + rest)[0] == x && ([x] + rest)[1..] == rest
  {
  }

  /** Every instruction of one debtor's loop runs from that debtor to a
      creditor at or after position `j`, at most one per creditor. */
  lemma {:induction false} SettleDebtorShape(d: Entry, owed: real, cs: seq<Entry>, j: nat)
    requires j <= |cs|
    ensures var r := SettleDebtor(d, owed, cs, j);
            && |r.instrs| <= |cs| - j
            && (forall i :: 0 <= i < |r.instrs| ==>
                  && r.instrs[i].fromUserId == d.userId && r.instrs[i].fromUserName == d.userName
                  && exists k :: j <= k < |cs| && r.instrs[i].toUserId == cs[k].userId
                                 && r.instrs[i].toUserName == cs[k].userName)
    decreases |cs| - j
  {
    if j == |cs| || owed < PAISA {
    } else if cs[j].balance < PAISA {
      SettleDebtorShape(d, owed, cs, j + 1);
    } else {
      var amount := Round2(Min(owed, cs[j].balance));
      var cs' := cs[j := cs[j].(balance := cs[j].balance - amount)];
      SettleDebtorShape(d, owed - amount, cs', j + 1);
      var rest := SettleDebtor(d, owed - amount, cs', j + 1);
      var head := Pay(d, cs[j], amount);
      assert head.fromUserId == d.userId && head.fromUserName == d.userName
             && head.toUserId == cs[j].userId && head.toUserName == cs[j].userName;
      var r := SettleDebtor(d, owed, cs, j);
      assert r.instrs == [head] + rest.instrs;
      forall i | 0 <= i < |r.instrs|
        ensures r.instrs[i].fromUserId == d.userId && r.instrs[i].fromUserName == d.userName
        ensures exists k :: j <= k < |cs| && r.instrs[i].toUserId == cs[k].userId
                            && r.instrs[i].toUserName == cs[k].userName
      {
        if i > 0 {
          assert r.instrs[i] == rest.instrs[i - 1];
          var k :| j + 1 <= k < |cs| && rest.instrs[i - 1].toUserId == cs'[k].userId
                   && rest.instrs[i - 1].toUserName == cs'[k].userName;
          assert cs'[k].userId == cs[k].userId && cs'[k].userName == cs[k].userName;
        }
      }
    }
  }

  /** What the debtor pays is what their debt went down by. */
  lemma {:induction false} SettleDebtorPaid(d: Entry, owed: real, cs: seq<Entry>, j: nat)
    requires j <= |cs|
    ensures Total(SettleDebtor(d, owed, cs, j).instrs) == owed - SettleDebtor(d, owed, cs, j).owed
    decreases |cs| - j
  {
    if j == |cs| || owed < PAISA {
    } else if cs[j].balance < PAISA {
      SettleDebtorPaid(d, owed, cs, j + 1);
    } else {
      var amount := Round2(Min(owed, cs[j].balance));
      var cs' := cs[j := cs[j].(balance := cs[j].balance - amount)];
      SettleDebtorPaid(d, owed - amount, cs', j + 1);
      var rest := SettleDebtor(d, owed - amount, cs', j + 1);
      ConsSlice(Pay(d, cs[j], amount), rest.instrs);
      assert SettleDebtor(d, owed, cs, j).instrs == [Pay(d, cs[j], amount)] + rest.instrs;
    }
  }

  /** What the creditors are owed in total went down by what the debtor's
      debt went down by. */
  lemma {:induction false} SettleDebtorCredited(d: Entry, owed: real, cs: seq<Entry>, j: nat)
    requires j <= |cs|
    ensures SumBalances(SettleDebtor(d, owed, cs, j).creditors)
            == SumBalances(cs) - (owed - SettleDebtor(d, owed, cs, j).owed)
    decreases |cs| - j
  {
    if j == |cs| || owed < PAISA {
    } else if cs[j].balance < PAISA {
      SettleDebtorCredited(d, owed, cs, j + 1);
    } else {
      var amount := Round2(Min(owed, cs[j].balance));
      var cs' := cs[j := cs[j].(balance := cs[j].balance - amount)];
      SettleDebtorPays(d, owed, cs, j);
      SettleDebtorCredited(d, owed - amount, cs', j + 1);
      SumBalancesUpdate(cs, j, cs'[j]);
    }
  }

  /** What the debtor pays is what their debt went down by, and what the
      creditors are owed in total went down by the same. */
  lemma SettleDebtorTotals(d: Entry, owed: real, cs: seq<Entry>, j: nat)
    requires j <= |cs|
    ensures var r := SettleDebtor(d, owed, cs, j);
            && Total(r.instrs) == owed - r.owed
            && SumBalances(r.creditors) == SumBalances(cs) - Total(r.instrs)
  {
    SettleDebtorPaid(d, owed, cs, j);
    SettleDebtorCredited(d, owed, cs, j);
  }

  /** Each creditor ends with what they were owed, less what the debtor
      paid them: nothing is paid to a creditor without being taken off. */
  lemma {:induction false} SettleDebtorConservation(d: Entry, owed: real, cs: seq<Entry>, j: nat)
    requires j <= |cs| && NoDup(Ids(cs))
    ensures var r := SettleDebtor(d, owed, cs, j);
            forall k :: 0 <= k < |cs| ==> r.creditors[k].balance + PaidTo(r.instrs, cs[k].userId) == cs[k].balance
    decreases |cs| - j
  {
    if j == |cs| || owed < PAISA {
    } else if cs[j].balance < PAISA {
      SettleDebtorConservation(d, owed, cs, j + 1);
    } else {
      var amount := Round2(Min(owed, cs[j].balance));
      var cs' := cs[j := cs[j].(balance := cs[j].balance - amount)];
      assert Ids(cs') == Ids(cs);
      SettleDebtorConservation(d, owed - amount, cs', j + 1);
      var rest := SettleDebtor(d, owed - amount, cs', j + 1);
      ConsSlice(Pay(d, cs[j], amount), rest.instrs);
      var r := SettleDebtor(d, owed, cs, j);
      forall k | 0 <= k < |cs|
        ensures r.creditors[k].balance + PaidTo(r.instrs, cs[k].userId) == cs[k].balance
      {
        assert PaidTo(r.instrs, cs[k].userId)
               == (if cs[j].userId == cs[k].userId then amount else 0.0) + PaidTo(rest.instrs, cs[k].userId);
        if k != j {
          assert Ids(cs)[k] != Ids(cs)[j];
        }
      }
    }
  }

  /** The step of one payment with balances in whole paise: the payment is
      exactly the smaller amount, at least one paisa, and leaves both sides
      in whole paise and not below zero. */
  lemma PaymentCents(owed: real, balance: real)
    requires IsCents(owed) && IsCents(balance) && owed >= PAISA && balance >= PAISA
    ensures Round2(Min(owed, balance)) == Min(owed, balance) >= PAISA
    ensures IsCents(owed - Min(owed, balance)) && owed - Min(owed, balance) >= 0.0
    ensures IsCents(balance - Min(owed, balance)) && balance - Min(owed, balance) >= 0.0
  {
    CentsClosed(owed, balance);
    Round2OfCents(Min(owed, balance));
    CentsClosed(owed, Min(owed, balance));
    CentsClosed(balance, Min(owed, balance));
  }

  /** Below one paisa, an amount in whole paise that is not negative is zero. */
  lemma BelowPaisa(x: real)
    requires IsCents(x) && 0.0 <= x < PAISA
    ensures x == 0.0
  {
    if x > 0.0 {
      assert IsCents(0.0);
      CentsGap(0.0, x);
    }
  }

  /** With balances in whole paise, every payment is at least one paisa, and
      nobody is driven below zero. */
  lemma {:induction false} SettleDebtorCents(d: Entry, owed: real, cs: seq<Entry>, j: nat)
    requires j <= |cs| && CentsNonNeg(cs) && IsCents(owed) && owed >= 0.0
    ensures var r := SettleDebtor(d, owed, cs, j);
            && CentsNonNeg(r.creditors) && IsCents(r.owed) && r.owed >= 0.0
            && (forall i :: 0 <= i < |r.instrs| ==> r.instrs[i].amount >= PAISA)
    decreases |cs| - j
  {
    if j == |cs| || owed < PAISA {
    } else if cs[j].balance < PAISA {
      SettleDebtorCents(d, owed, cs, j + 1);
    } else {
      PaymentCents(owed, cs[j].balance);
      var amount := Round2(Min(owed, cs[j].balance));
      var cs' := cs[j := cs[j].(balance := cs[j].balance - amount)];
      SettleDebtorCents(d, owed - amount, cs', j + 1);
      var rest := SettleDebtor(d, owed - amount, cs', j + 1);
      var r := SettleDebtor(d, owed, cs, j);
      assert r == Step([Pay(d, cs[j], amount)] + rest.instrs, rest.creditors, rest.owed);
      assert forall i :: 1 <= i < |r.instrs| ==> r.instrs[i] == rest.instrs[i - 1];
    }
  }

  /** With balances in whole paise, one debtor's loop ends with the debt
      settled or with every creditor from position `j` on paid in full. */
  lemma {:induction false} SettleDebtorExhausts(d: Entry, owed: real, cs: seq<Entry>, j: nat)
    requires j <= |cs| && CentsNonNeg(cs) && IsCents(owed) && owed >= 0.0
    ensures var r := SettleDebtor(d, owed, cs, j);
            r.owed == 0.0 || forall k :: j <= k < |cs| ==> r.creditors[k].balance == 0.0
    decreases |cs| - j
  {
    if j == |cs| || owed < PAISA {
      if owed < PAISA {
        BelowPaisa(owed);
      }
    } else if cs[j].balance < PAISA {
      BelowPaisa(cs[j].balance);
      SettleDebtorExhausts(d, owed, cs, j + 1);
      SettleDebtorKeepsUsers(d, owed, cs, j + 1);
    } else {
      PaymentCents(owed, cs[j].balance);
      var amount := Round2(Min(owed, cs[j].balance));
      var cs' := cs[j := cs[j].(balance := cs[j].balance - amount)];
      SettleDebtorExhausts(d, owed - amount, cs', j + 1);
      SettleDebtorKeepsUsers(d, owed - amount, cs', j + 1);
      var rest := SettleDebtor(d, owed - amount, cs', j + 1);
      var r := SettleDebtor(d, owed, cs, j);
      assert r == Step([Pay(d, cs[j], amount)] + rest.instrs, rest.creditors, rest.owed);
      if amount == owed {
        BelowPaisa(owed - amount);
        assert rest.owed == 0.0;
      } else {
        assert amount == cs[j].balance;
        assert r.creditors[j] == cs'[j] && cs'[j].balance == 0.0;
        if rest.owed != 0.0 {
          assert forall k :: j < k < |cs| ==> r.creditors[k].balance == 0.0;
        }
      }
    }
  }

  // ---- all debtors ----

  predicate AllCents(ds: seq<Entry>)
  {
    forall a :: 0 <= a < |ds| ==> IsCents(ds[a].balance)
  }

  lemma {:induction false} SumsAppend(x: seq<Instruction>, y: seq<Instruction>, id: UserId)
    ensures Total(x + y) == Total(x) + Total(y)
    ensures PaidTo(x + y, id) == PaidTo(x, id) + PaidTo(y, id)
    ensures PaidFrom(x + y, id) == PaidFrom(x, id) + PaidFrom(y, id)
  {
    if x == [] {
      assert x + y == y;
    } else {
      assert (x + y)[1..] == x[1..] + y;
      SumsAppend(x[1..], y, id);
    }
  }

  /** Instructions all from `id` make `id` pay their total; instructions
      none of which is from `id` make it pay nothing. */
  lemma {:induction false} PaidFromUniform(instrs: seq<Instruction>, id: UserId)
    ensures (forall i :: 0 <= i < |instrs| ==> instrs[i].fromUserId == id) ==> PaidFrom(instrs, id) == Total(instrs)
    ensures (forall i :: 0 <= i < |instrs| ==> instrs[i].fromUserId != id) ==> PaidFrom(instrs, id) == 0.0
  {
    if instrs != [] {
      PaidFromUniform(instrs[1..], id);
    }
  }

  lemma NoDupTail(ds: seq<Entry>)
    requires |ds| > 0 && NoDup(Ids(ds))
    ensures NoDup(Ids(ds[1..])) && forall a :: 0 <= a < |ds[1..]| ==> ds[1..][a].userId != ds[0].userId
  {
    assert Ids(ds)[0] == ds[0].userId;
    assert forall a :: 0 <= a < |ds[1..]| ==> ds[1..][a] == ds[a + 1] && Ids(ds)[a + 1] == ds[a + 1].userId;
  }

  /** Every instruction runs from a debtor to a creditor, and there are at
      most |debtors| * |creditors| of them. */
  lemma {:induction false} SettleAllShape(ds: seq<Entry>, cs: seq<Entry>)
    ensures var r := SettleAll(ds, cs);
            && |r.instrs| <= |ds| * |cs|
            && forall i :: 0 <= i < |r.instrs| ==>
                 && (exists a :: 0 <= a < |ds| && r.instrs[i].fromUserId == ds[a].userId
                                && r.instrs[i].fromUserName == ds[a].userName)
                 && (exists k :: 0 <= k < |cs| && r.instrs[i].toUserId == cs[k].userId
                                && r.instrs[i].toUserName == cs[k].userName)
  {
    if ds != [] {
      var s := SettleDebtor(ds[0], Abs(ds[0].balance), cs, 0);
      SettleDebtorShape(ds[0], Abs(ds[0].balance), cs, 0);
      SettleAllShape(ds[1..], s.creditors);
      var rest := SettleAll(ds[1..], s.creditors);
      var r := SettleAll(ds, cs);
      assert r.instrs == s.instrs + rest.instrs;
      assert |ds| * |cs| == |cs| + |ds[1..]| * |cs|;
      forall i | 0 <= i < |r.instrs|
        ensures exists a :: 0 <= a < |ds| && r.instrs[i].fromUserId == ds[a].userId
                            && r.instrs[i].fromUserName == ds[a].userName
        ensures exists k :: 0 <= k < |cs| && r.instrs[i].toUserId == cs[k].userId
                            && r.instrs[i].toUserName == cs[k].userName
      {
        if i < |s.instrs| {
          assert r.instrs[i] == s.instrs[i];
        } else {
          var x := rest.instrs[i - |s.instrs|];
          assert r.instrs[i] == x;
          var a :| 0 <= a < |ds[1..]| && x.fromUserId == ds[1..][a].userId && x.fromUserName == ds[1..][a].userName;
          assert ds[1..][a] == ds[a + 1];
          var k :| 0 <= k < |s.creditors| && x.toUserId == s.creditors[k].userId && x.toUserName == s.creditors[k].userName;
        }
      }
    }
  }

  /** When no user is both a debtor and a creditor, nobody is told to pay
      themselves. */
  lemma NoSelfPayment(ds: seq<Entry>, cs: seq<Entry>)
    requires forall a, k :: 0 <= a < |ds| && 0 <= k < |cs| ==> ds[a].userId != cs[k].userId
    ensures forall x :: x in SettleAll(ds, cs).instrs ==> x.fromUserId != x.toUserId
  {
    SettleAllShape(ds, cs);
  }

  /** Each creditor ends with what they were owed less everything paid to them. */
  lemma {:induction false} SettleAllConservation(ds: seq<Entry>, cs: seq<Entry>)
    requires NoDup(Ids(cs))
    ensures var r := SettleAll(ds, cs);
            forall k :: 0 <= k < |cs| ==> r.creditors[k].balance + PaidTo(r.instrs, cs[k].userId) == cs[k].balance
  {
    if ds != [] {
      var s := SettleDebtor(ds[0], Abs(ds[0].balance), cs, 0);
      SettleDebtorConservation(ds[0], Abs(ds[0].balance), cs, 0);
      SettleDebtorKeepsUsers(ds[0], Abs(ds[0].balance), cs, 0);
      assert Ids(s.creditors) == Ids(cs);
      SettleAllConservation(ds[1..], s.creditors);
      var rest := SettleAll(ds[1..], s.creditors);
      forall k | 0 <= k < |cs|
        ensures SettleAll(ds, cs).creditors[k].balance + PaidTo(SettleAll(ds, cs).instrs, cs[k].userId) == cs[k].balance
      {
        SumsAppend(s.instrs, rest.instrs, cs[k].userId);
      }
    }
  }

  /** With balances in whole paise, every payment is at least one paisa,
      every creditor ends at zero or above, and no debtor pays more than
      they owe. */
  lemma {:induction false} SettleAllCents(ds: seq<Entry>, cs: seq<Entry>)
    requires CentsNonNeg(cs) && AllCents(ds) && NoDup(Ids(ds))
    ensures var r := SettleAll(ds, cs);
            && CentsNonNeg(r.creditors)
            && (forall i :: 0 <= i < |r.instrs| ==> r.instrs[i].amount >= PAISA)
            && (forall a :: 0 <= a < |ds| ==> PaidFrom(r.instrs, ds[a].userId) <= Abs(ds[a].balance))
  {
    if ds != [] {
      var owed := Abs(ds[0].balance);
      CentsClosed(ds[0].balance, ds[0].balance);
      var s := SettleDebtor(ds[0], owed, cs, 0);
      SettleDebtorCents(ds[0], owed, cs, 0);
      SettleDebtorShape(ds[0], owed, cs, 0);
      SettleDebtorTotals(ds[0], owed, cs, 0);
      NoDupTail(ds);
      SettleAllCents(ds[1..], s.creditors);
      SettleAllShape(ds[1..], s.creditors);
      var rest := SettleAll(ds[1..], s.creditors);
      var r := SettleAll(ds, cs);
      assert r.instrs == s.instrs + rest.instrs;
      forall a | 0 <= a < |ds|
        ensures PaidFrom(r.instrs, ds[a].userId) <= Abs(ds[a].balance)
      {
        var id := ds[a].userId;
        SumsAppend(s.instrs, rest.instrs, id);
        PaidFromUniform(s.instrs, id);
        PaidFromUniform(rest.instrs, id);
        if a == 0 {
          assert forall i :: 0 <= i < |rest.instrs| ==> rest.instrs[i].fromUserId != id;
        } else {
          assert ds[a] == ds[1..][a - 1];
          assert ds[0].userId != id;
        }
      }
    }
  }

  lemma {:induction false} SumOwedNonNeg(ds: seq<Entry>)
    ensures SumOwed(ds) >= 0.0
  {
    if ds != [] {
      SumOwedNonNeg(ds[1..]);
    }
  }

  lemma {:induction false} SumBalancesZero(cs: seq<Entry>)
    requires forall k :: 0 <= k < |cs| ==> cs[k].balance == 0.0
    ensures SumBalances(cs) == 0.0
  {
    if cs != [] {
      SumBalancesZero(cs[1..]);
    }
  }

  /** With balances in whole paise, when the creditors are owed at least
      what the debtors owe, every debtor pays exactly their debt. */
  lemma {:induction false} SettleAllComplete(ds: seq<Entry>, cs: seq<Entry>)
    requires CentsNonNeg(cs) && AllCents(ds) && NoDup(Ids(ds))
    requires SumOwed(ds) <= SumBalances(cs)
    ensures var r := SettleAll(ds, cs);
            forall a :: 0 <= a < |ds| ==> PaidFrom(r.instrs, ds[a].userId) == Abs(ds[a].balance)
  {
    if ds != [] {
      var owed := Abs(ds[0].balance);
      CentsClosed(ds[0].balance, ds[0].balance);
      var s := SettleDebtor(ds[0], owed, cs, 0);
      SettleDebtorCents(ds[0], owed, cs, 0);
      SettleDebtorExhausts(ds[0], owed, cs, 0);
      SettleDebtorShape(ds[0], owed, cs, 0);
      SettleDebtorTotals(ds[0], owed, cs, 0);
      SumOwedNonNeg(ds[1..]);
      if s.owed != 0.0 {
        SumBalancesZero(s.creditors);
      }
      NoDupTail(ds);
      SettleAllComplete(ds[1..], s.creditors);
      SettleAllShape(ds[1..], s.creditors);
      var rest := SettleAll(ds[1..], s.creditors);
      var r := SettleAll(ds, cs);
      assert r.instrs == s.instrs + rest.instrs;
      forall a | 0 <= a < |ds|
        ensures PaidFrom(r.instrs, ds[a].userId) == Abs(ds[a].balance)
      {
        var id := ds[a].userId;
        SumsAppend(s.instrs, rest.instrs, id);
        PaidFromUniform(s.instrs, id);
        PaidFromUniform(rest.instrs, id);
        if a == 0 {
          assert forall i :: 0 <= i < |rest.instrs| ==> rest.instrs[i].fromUserId != id;
        } else {
          assert ds[a] == ds[1..][a - 1];
          assert ds[0].userId != id;
        }
      }
    }
  }
}
