/** The investment-account store: the defaults of a new account and the
    per-user portfolio summary. */
module Investments {
  import opened Common

  datatype Account = Account(investmentType: string, amount: real, currentValue: real)

  /** Which of an account's two figures a sum is over. */
  datatype Column = Invested | Current

  function Figure(a: Account, col: Column): real
  {
    match col
    case Invested => a.amount
    case Current => a.currentValue
  }

  /** Every account's figure in the column is at least 0. */
  predicate NonNegative(accounts: seq<Account>, col: Column)
  {
    forall i :: 0 <= i < |accounts| ==> Figure(accounts[i], col) >= 0.0
  }

  /** The column's total over the accounts, added up first to last. */
  function Total(accounts: seq<Account>, col: Column): (total: real)
    ensures NonNegative(accounts, col) ==> total >= 0.0
    decreases |accounts|
  {
    if accounts == [] then 0.0
    else Total(accounts[..|accounts| - 1], col) + Figure(accounts[|accounts| - 1], col)
  }

  /** The column's total over the accounts of one type. */
  function TypeTotal(accounts: seq<Account>, t: string, col: Column): (sum: real)
    ensures NonNegative(accounts, col) ==> 0.0 <= sum <= Total(accounts, col)
    decreases |accounts|
  {
    if accounts == [] then 0.0
    else
      var last := accounts[|accounts| - 1];
      TypeTotal(accounts[..|accounts| - 1], t, col) + (if last.investmentType == t then Figure(last, col) else 0.0)
  }

  /** Some account is of type `t`. */
  predicate HasType(accounts: seq<Account>, t: string)
  {
    exists i :: 0 <= i < |accounts| && accounts[i].investmentType == t
  }

  /** The types present, each once, in order of first appearance: the order
      in which the summary's keys are created. */
  function TypeOrder(accounts: seq<Account>): (ts: seq<string>)
    ensures forall t :: t in ts <==> HasType(accounts, t)
    ensures forall i, j :: 0 <= i < j < |ts| ==> ts[i] != ts[j]
    decreases |accounts|
  {
    if accounts == [] then []
    else
      var init := accounts[..|accounts| - 1];
      var t := accounts[|accounts| - 1].investmentType;
      var ts := TypeOrder(init);
      assert forall u :: HasType(accounts, u) <==> HasType(init, u) || u == t by {
        forall u | HasType(init, u) ensures HasType(accounts, u) {
          var i :| 0 <= i < |init| && init[i].investmentType == u;
          assert accounts[i] == init[i];
        }
        forall u | HasType(accounts, u) && u != t ensures HasType(init, u) {
          var i :| 0 <= i < |accounts| && accounts[i].investmentType == u;
          assert init[i] == accounts[i];
        }
        assert HasType(accounts, t) by { assert accounts[|accounts| - 1].investmentType == t; }
      }
      if t in ts then ts else ts + [t]
  }

  function AverageReturn(invested: real, current: real): (r: real)
    ensures invested <= 0.0 ==> r == 0.0
    ensures invested > 0.0 ==> r * invested == (current - invested) * 100.0
    ensures invested > 0.0 ==> (r >= 0.0 <==> current >= invested)
  {
    if invested > 0.0 then (current - invested) / invested * 100.0 else 0.0
  }

  datatype TypeTotals = TypeTotals(amount: real, currentValue: real)

  datatype Summary = Summary(totalInvested: real, totalCurrentValue: real, averageReturn: real,
                             byType: map<string, TypeTotals>)

  /** The summary loop: running totals and a per-type record that is
      created at a type's first account and added to at every account. */
  method Summarize(accounts: seq<Account>) returns (s: Summary)
    ensures s.totalInvested == Total(accounts, Invested)
    ensures s.totalCurrentValue == Total(accounts, Current)
    ensures s.byType.Keys == set i | 0 <= i < |accounts| :: accounts[i].investmentType
    ensures TracksTypes(accounts, s.byType)
    ensures s.averageReturn == AverageReturn(s.totalInvested, s.totalCurrentValue)
  {
    var totalInvested := 0.0;
    var totalCurrentValue := 0.0;
    var byType: map<string, TypeTotals> := map[];
    var i := 0;
    while i < |accounts|
      invariant 0 <= i <= |accounts|
      invariant totalInvested == Total(accounts[..i], Invested)
      invariant totalCurrentValue == Total(accounts[..i], Current)
      invariant byType.Keys == TypesUpTo(accounts, i)
      invariant TracksTypes(accounts[..i], byType)
    {
      var a := accounts[i];
      TotalStep(accounts, i, Invested);
      TotalStep(accounts, i, Current);
      totalInvested := totalInvested + a.amount;
      totalCurrentValue := totalCurrentValue + a.currentValue;
      ghost var before := byType;
      if a.investmentType !in byType {
        byType := byType[a.investmentType := TypeTotals(0.0, 0.0)];
      }
      var prev := byType[a.investmentType];
      byType := byType[a.investmentType := TypeTotals(prev.amount + a.amount,
                                                       prev.currentValue + a.currentValue)];
      TracksTypesStep(accounts, i, before, byType);
      i := i + 1;
    }
    assert accounts[..i] == accounts;
    s := Summary(totalInvested, totalCurrentValue,
                 AverageReturn(totalInvested, totalCurrentValue), byType);
  }

  /** The types of the first n accounts. */
  function TypesUpTo(accounts: seq<Account>, n: nat): set<string>
    requires n <= |accounts|
  {
    set k | 0 <= k < n :: accounts[k].investmentType
  }

  lemma TypesStep(accounts: seq<Account>, i: nat)
    requires i < |accounts|
    ensures TypesUpTo(accounts, i + 1) == TypesUpTo(accounts, i) + {accounts[i].investmentType}
  {
  }

  /** Each type's record holds that type's totals over the accounts. */
  predicate TracksTypes(accounts: seq<Account>, byType: map<string, TypeTotals>)
  {
    forall t :: t in byType ==>
      byType[t] == TypeTotals(TypeTotal(accounts, t, Invested), TypeTotal(accounts, t, Current))
  }

  /** Creating the record of the account at index i when its type is new,
      then adding the account to it, keeps every record exact. */
  lemma TracksTypesStep(accounts: seq<Account>, i: nat, before: map<string, TypeTotals>,
                        after: map<string, TypeTotals>)
    requires i < |accounts|
    requires TracksTypes(accounts[..i], before)
    requires before.Keys == TypesUpTo(accounts, i)
    requires var a := accounts[i];
             var prev := if a.investmentType in before then before[a.investmentType] else TypeTotals(0.0, 0.0);
             after == before[a.investmentType := TypeTotals(prev.amount + a.amount, prev.currentValue + a.currentValue)]
    ensures TracksTypes(accounts[..i + 1], after)
    ensures after.Keys == TypesUpTo(accounts, i + 1)
  {
    TypesStep(accounts, i);
    var a := accounts[i];
    if a.investmentType !in before {
      NoAccountsNoTotal(accounts[..i], a.investmentType, Invested);
      NoAccountsNoTotal(accounts[..i], a.investmentType, Current);
    }
    forall t | t in after
      ensures after[t] == TypeTotals(TypeTotal(accounts[..i + 1], t, Invested),
                                     TypeTotal(accounts[..i + 1], t, Current))
    {
      TypeTotalStep(accounts, i, t, Invested);
      TypeTotalStep(accounts, i, t, Current);
    }
  }

  /** Adding the account at index i to the first i accounts' total. */
  lemma TotalStep(accounts: seq<Account>, i: nat, col: Column)
    requires i < |accounts|
    ensures Total(accounts[..i + 1], col) == Total(accounts[..i], col) + Figure(accounts[i], col)
  {
    assert accounts[..i + 1][..i] == accounts[..i];
  }

  /** Adding the account at index i to the first i accounts' total for type t. */
  lemma TypeTotalStep(accounts: seq<Account>, i: nat, t: string, col: Column)
    requires i < |accounts|
    ensures TypeTotal(accounts[..i + 1], t, col) ==
            TypeTotal(accounts[..i], t, col) + (if accounts[i].investmentType == t then Figure(accounts[i], col) else 0.0)
  {
    assert accounts[..i + 1][..i] == accounts[..i];
  }

  lemma {:induction false} NoAccountsNoTotal(accounts: seq<Account>, t: string, col: Column)
    requires forall k :: 0 <= k < |accounts| ==> accounts[k].investmentType != t
    ensures TypeTotal(accounts, t, col) == 0.0
    decreases |accounts|
  {
    if accounts != [] {
      NoAccountsNoTotal(accounts[..|accounts| - 1], t, col);
    }
  }

  /** The column's per-type totals over the types `ts`, added up. */
  function SumOverTypes(ts: seq<string>, accounts: seq<Account>, col: Column): real
    decreases |ts|
  {
    if ts == [] then 0.0 else TypeTotal(accounts, ts[0], col) + SumOverTypes(ts[1..], accounts, col)
  }

  /** The per-type totals of the summary add up to its overall totals. */
  lemma {:induction false} TypeTotalsAddUp(accounts: seq<Account>, col: Column)
    ensures SumOverTypes(TypeOrder(accounts), accounts, col) == Total(accounts, col)
    decreases |accounts|
  {
    if accounts != [] {
      var init := accounts[..|accounts| - 1];
      var last := accounts[|accounts| - 1];
      var ts := TypeOrder(init);
      TypeTotalsAddUp(init, col);
      SumOverTypesAppendAccount(ts, init, last, col);
      assert init + [last] == accounts;
      if last.investmentType !in ts {
        SumOverTypesAppendType(ts, last.investmentType, accounts, col);
        NoAccountsNoTotal(init, last.investmentType, col);
      }
    }
  }

  /** One more account adds its figure to the sum exactly when its type is
      among the (distinct) types summed. */
  lemma {:induction false} SumOverTypesAppendAccount(ts: seq<string>, accounts: seq<Account>,
                                                    a: Account, col: Column)
    requires forall i, j :: 0 <= i < j < |ts| ==> ts[i] != ts[j]
    ensures SumOverTypes(ts, accounts + [a], col)
            == SumOverTypes(ts, accounts, col) + (if a.investmentType in ts then Figure(a, col) else 0.0)
    decreases |ts|
  {
    if ts != [] {
      SumOverTypesAppendAccount(ts[1..], accounts, a, col);
      assert (accounts + [a])[..|accounts + [a]| - 1] == accounts;
      assert a.investmentType == ts[0] ==> a.investmentType !in ts[1..];
      assert a.investmentType in ts <==> a.investmentType == ts[0] || a.investmentType in ts[1..];
    }
  }

  lemma {:induction false} SumOverTypesAppendType(ts: seq<string>, t: string,
                                                 accounts: seq<Account>, col: Column)
    ensures SumOverTypes(ts + [t], accounts, col) == SumOverTypes(ts, accounts, col) + TypeTotal(accounts, t, col)
    decreases |ts|
  {
    if ts == [] {
      assert [t][1..] == [];
    } else {
      SumOverTypesAppendType(ts[1..], t, accounts, col);
      assert (ts + [t])[1..] == ts[1..] + [t];
    }
  }

  /** What a client passes to create an account. */
  datatype AccountInput = AccountInput(userId: string, investmentType: string, amount: real,
                                       profitRate: Option<real>, halalCertified: Option<bool>,
                                       riskRating: Option<real>)

  /** The seven values a new account is inserted with. */
  datatype AccountRow = AccountRow(userId: string, investmentType: string, amount: real,
                                   currentValue: real, profitRate: Option<real>,
                                   halalCertified: bool, riskRating: Option<real>)

  /** A new account starts at its invested amount; a missing or zero profit
      rate or risk rating is stored as null (`|| null`); halal certification
      defaults to true only when it is not given. */
  function NewAccountRow(a: AccountInput): (row: AccountRow)
    ensures row.currentValue == row.amount == a.amount
    ensures row.profitRate.None? <==> a.profitRate.None? || a.profitRate == Some(0.0)
    ensures row.profitRate.Some? ==> row.profitRate == a.profitRate
    ensures row.riskRating.None? <==> a.riskRating.None? || a.riskRating == Some(0.0)
    ensures row.riskRating.Some? ==> row.riskRating == a.riskRating
    ensures row.halalCertified == (a.halalCertified.None? || a.halalCertified.value)
    ensures row.userId == a.userId && row.investmentType == a.investmentType
  {
    AccountRow(a.userId, a.investmentType, a.amount, a.amount,
               if a.profitRate.Some? && a.profitRate.value != 0.0 then a.profitRate else None,
               match a.halalCertified case None => true case Some(h) => h,
               if a.riskRating.Some? && a.riskRating.value != 0.0 then a.riskRating else None)
  }
}
