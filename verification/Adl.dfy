/** Auto-deleveraging: rank the winners, then haircut them in order until the
    deficit is absorbed. */
module Adl {
  import opened Machine
  import opened Clob
  import opened Clearing
  import opened Margin
  import opened Scanner
  import Sorting
  import opened Sums

  /** Score of a profitable, funded position; others are not eligible. */
  function AdlScore(a: AccountSnapshot, mark: U64): Option<I64> {
    var pnl := UnrealizedPnl(a, mark);
    var equity := AccountEquity(a, mark);
    if a.positionSize == 0 || pnl <= 0 || a.collateral <= 0 || equity <= 0 then None
    else
      var pnlPct := TruncDiv(SatI128(pnl * MARGIN_SCALE), a.collateral);
      var leverage := TruncDiv(SatI128(NotionalValue(a, mark) * MARGIN_SCALE), equity);
      Some(SatI64(TruncDiv(SatI128(pnlPct * leverage), MARGIN_SCALE)))
  }

  predicate Eligible(a: AccountSnapshot, mark: U64) { AdlScore(a, mark).Some? }

  datatype Candidate = Candidate(snapshot: AccountSnapshot, score: I64, pnl: I64)

  function Candidates(accounts: seq<AccountSnapshot>, mark: U64): seq<Candidate> {
    if accounts == [] then []
    else
      var a := accounts[0];
      (if Eligible(a, mark) then [Candidate(a, AdlScore(a, mark).value, UnrealizedPnl(a, mark))] else [])
      + Candidates(accounts[1..], mark)
  }

  /** Higher score first, lower account id on ties. */
  predicate RanksBefore(x: Candidate, y: Candidate) {
    x.score > y.score || (x.score == y.score && x.snapshot.account <= y.snapshot.account)
  }

  function Ranked(accounts: seq<AccountSnapshot>, mark: U64): seq<Candidate> {
    Sorting.Sort(Candidates(accounts, mark), RanksBefore)
  }

  datatype AdlRecord = AdlRecord(
    account: AccountId, closeOrder: CloseOrderSpec, pnlGross: I64, haircut: I64, pnlPaid: I64, score: I64)

  datatype AdlReport = AdlReport(records: seq<AdlRecord>, deficitAbsorbed: I64, deficitRemaining: I64)

  function Haircut(c: Candidate, remaining: I64): AdlRecord {
    var haircut := Min(remaining, c.pnl);
    AdlRecord(c.snapshot.account, CloseOrder(c.snapshot), c.pnl, haircut, SatI64(c.pnl - haircut), c.score)
  }

  function CutOne(r: AdlReport, c: Candidate): AdlReport {
    var record := Haircut(c, r.deficitRemaining);
    AdlReport(r.records + [record],
      SatI64(r.deficitAbsorbed + record.haircut), SatI64(r.deficitRemaining - record.haircut))
  }

  /** The waterfall from a given point. */
  function Waterfall(ranked: seq<Candidate>, r: AdlReport): AdlReport
    decreases |ranked|
  {
    if ranked == [] || r.deficitRemaining <= 0 then r else Waterfall(ranked[1..], CutOne(r, ranked[0]))
  }

  function AdlOutcome(accounts: seq<AccountSnapshot>, mark: U64, deficit: I64): AdlReport {
    if deficit <= 0 then AdlReport([], 0, 0) else Waterfall(Ranked(accounts, mark), AdlReport([], 0, deficit))
  }

  method ExecuteAdl(accounts: seq<AccountSnapshot>, mark: U64, deficit: I64) returns (report: AdlReport)
    ensures report == AdlOutcome(accounts, mark, deficit)
  {
    if deficit <= 0 {
      return AdlReport([], 0, Max(deficit, 0));
    }
    var ranked := Ranked(accounts, mark);
    var remaining: I64 := deficit;
    report := AdlReport([], 0, 0);
    var i := 0;
    while i < |ranked| && remaining > 0
      invariant i <= |ranked|
      invariant Waterfall(ranked[i..], report.(deficitRemaining := remaining)) == AdlOutcome(accounts, mark, deficit)
    {
      assert ranked[i..][0] == ranked[i] && ranked[i..][1..] == ranked[i + 1..];
      ghost var before := report.(deficitRemaining := remaining);
      var c := ranked[i];
      var haircut: I64 := Min(remaining, c.pnl);
      var pnlPaid := SatI64(c.pnl - haircut);
      var record := AdlRecord(c.snapshot.account, CloseOrder(c.snapshot), c.pnl, haircut, pnlPaid, c.score);
      report := report.(records := report.records + [record],
                         deficitAbsorbed := SatI64(report.deficitAbsorbed + haircut));
      remaining := SatI64(remaining - haircut);
      assert report.(deficitRemaining := remaining) == CutOne(before, c);
      i := i + 1;
    }
    report := report.(deficitRemaining := remaining);
  }

  // ------------------------------------------------------- the waterfall

  function PnlOf(c: Candidate): int { c.pnl }

  function Profit(cs: seq<Candidate>): int { Sum(cs, PnlOf) }

  ghost predicate Profitable(cs: seq<Candidate>) { forall i :: 0 <= i < |cs| ==> cs[i].pnl > 0 }

  /** A record that takes the whole profit, or the whole of what is left. */
  ghost predicate CutsFrom(r: AdlRecord, c: Candidate, remaining: int) {
    && r.account == c.snapshot.account && r.closeOrder == CloseOrder(c.snapshot) && r.score == c.score
    && r.pnlGross == c.pnl && r.haircut == Min(remaining, c.pnl) && r.pnlPaid == c.pnl - r.haircut && r.pnlPaid >= 0
  }

  /** The records follow the ranking and stop at the first prefix that covers
      the deficit, or at the end: record i is cut from what the profits ranked
      before it left of the deficit. */
  ghost predicate ShortestPrefix(ranked: seq<Candidate>, deficit: int, records: seq<AdlRecord>) {
    && |records| <= |ranked|
    && (forall i :: 0 <= i < |records| ==>
          Profit(ranked[..i]) < deficit && CutsFrom(records[i], ranked[i], deficit - Profit(ranked[..i])))
    && (|records| < |ranked| ==> Profit(ranked[..|records|]) >= deficit)
  }

  lemma ProfitAppend(cs: seq<Candidate>, c: Candidate)
    ensures Profit(cs + [c]) == Profit(cs) + c.pnl
  {
    SumAppend(cs, [c], PnlOf);
    assert Sum([c], PnlOf) == PnlOf([c][0]) + Sum([c][1..], PnlOf);
  }

  lemma ProfitOfPrefix(cs: seq<Candidate>, n: nat)
    requires Profitable(cs) && n <= |cs|
    ensures 0 <= Profit(cs[..n]) <= Profit(cs)
  {
    assert cs == cs[..n] + cs[n..];
    SumAppend(cs[..n], cs[n..], PnlOf);
    SumBounds(cs[..n], PnlOf, 0, I64_MAX);
    SumBounds(cs[n..], PnlOf, 0, I64_MAX);
  }

  /** The report after the first k candidates were cut, while any deficit was left. */
  ghost predicate CutSoFar(ranked: seq<Candidate>, k: nat, deficit: int, r: AdlReport) {
    && k <= |ranked| && |r.records| == k
    && (forall i :: 0 <= i < k ==>
          Profit(ranked[..i]) < deficit && CutsFrom(r.records[i], ranked[i], deficit - Profit(ranked[..i])))
    && r.deficitAbsorbed == Min(deficit, Profit(ranked[..k])) && r.deficitRemaining == deficit - r.deficitAbsorbed
  }

  lemma CutExtends(ranked: seq<Candidate>, k: nat, deficit: I64, r: AdlReport)
    requires Profitable(ranked) && CutSoFar(ranked, k, deficit, r) && k < |ranked| && r.deficitRemaining > 0
    ensures CutSoFar(ranked, k + 1, deficit, CutOne(r, ranked[k]))
  {
    assert ranked[..k + 1] == ranked[..k] + [ranked[k]];
    ProfitAppend(ranked[..k], ranked[k]);
    ProfitOfPrefix(ranked, k);
  }

  /** Where a waterfall that consumed the first k candidates ends. */
  lemma {:induction false} WaterfallEnds(ranked: seq<Candidate>, k: nat, deficit: I64, r: AdlReport)
    requires Profitable(ranked) && CutSoFar(ranked, k, deficit, r) && deficit > 0
    ensures var t := Waterfall(ranked[k..], r);
            && ShortestPrefix(ranked, deficit, t.records)
            && t.deficitAbsorbed == Min(deficit, Profit(ranked))
            && t.deficitRemaining == deficit - t.deficitAbsorbed
    decreases |ranked| - k
  {
    if k == |ranked| {
      assert ranked[..k] == ranked;
    } else if r.deficitRemaining > 0 {
      CutExtends(ranked, k, deficit, r);
      assert ranked[k..][0] == ranked[k] && ranked[k..][1..] == ranked[k + 1..];
      WaterfallEnds(ranked, k + 1, deficit, CutOne(r, ranked[k]));
    } else {
      ProfitOfPrefix(ranked, k);
    }
  }

  lemma {:induction false} CandidatesProfitable(accounts: seq<AccountSnapshot>, mark: U64)
    ensures Profitable(Candidates(accounts, mark))
  {
    if accounts != [] {
      CandidatesProfitable(accounts[1..], mark);
    }
  }

  lemma RankingIsTotal()
    ensures Sorting.TotalPreorder(RanksBefore)
  {
  }

  lemma RankedProfitable(accounts: seq<AccountSnapshot>, mark: U64)
    ensures Profitable(Ranked(accounts, mark)) && Sorting.Sorted(Ranked(accounts, mark), RanksBefore)
    ensures multiset(Ranked(accounts, mark)) == multiset(Candidates(accounts, mark))
  {
    var cs := Candidates(accounts, mark);
    RankingIsTotal();
    Sorting.SortCorrect(cs, RanksBefore);
    CandidatesProfitable(accounts, mark);
    forall i | 0 <= i < |Ranked(accounts, mark)|
      ensures Ranked(accounts, mark)[i].pnl > 0
    {
      assert Ranked(accounts, mark)[i] in multiset(cs);
    }
  }

  /** A positive deficit is absorbed up to the total eligible profit, by the
      shortest prefix of the ranking that reaches it. */
  lemma {:induction false} AdlAbsorbs(accounts: seq<AccountSnapshot>, mark: U64, deficit: I64)
    requires deficit > 0
    ensures var r := AdlOutcome(accounts, mark, deficit);
            && r.deficitAbsorbed == Min(deficit, Profit(Candidates(accounts, mark)))
            && r.deficitAbsorbed + r.deficitRemaining == deficit
            && ShortestPrefix(Ranked(accounts, mark), deficit, r.records)
  {
    var ranked := Ranked(accounts, mark);
    RankedProfitable(accounts, mark);
    SumOfMultiset(ranked, Candidates(accounts, mark), PnlOf);
    assert ranked[..0] == [] && ranked[0..] == ranked;
    WaterfallEnds(ranked, 0, deficit, AdlReport([], 0, deficit));
  }

  /** Every record but the last is haircut in full. */
  lemma AllButLastCutInFull(ranked: seq<Candidate>, deficit: int, records: seq<AdlRecord>, i: nat)
    requires Profitable(ranked) && ShortestPrefix(ranked, deficit, records) && i + 1 < |records|
    ensures records[i].haircut == records[i].pnlGross && records[i].pnlPaid == 0
  {
    assert ranked[..i + 1] == ranked[..i] + [ranked[i]];
    ProfitAppend(ranked[..i], ranked[i]);
    assert CutsFrom(records[i], ranked[i], deficit - Profit(ranked[..i]));
    assert Profit(ranked[..i + 1]) < deficit;
  }

  // ---------------------------------------------------------- input order

  ghost predicate DistinctIds(accounts: seq<AccountSnapshot>) {
    forall a, b :: a in accounts && b in accounts && a.account == b.account ==> a == b
  }

  function EntryOf(a: AccountSnapshot, mark: U64): Candidate
    requires Eligible(a, mark)
  {
    Candidate(a, AdlScore(a, mark).value, UnrealizedPnl(a, mark))
  }

  lemma {:induction false} CandidateCounts(accounts: seq<AccountSnapshot>, mark: U64, c: Candidate)
    ensures multiset(Candidates(accounts, mark))[c]
            == if Eligible(c.snapshot, mark) && c == EntryOf(c.snapshot, mark)
               then multiset(accounts)[c.snapshot] else 0
  {
    if accounts != [] {
      CandidateCounts(accounts[1..], mark, c);
      assert accounts == [accounts[0]] + accounts[1..];
    }
  }

  lemma CandidatesOfMultiset(xs: seq<AccountSnapshot>, ys: seq<AccountSnapshot>, mark: U64)
    requires multiset(xs) == multiset(ys)
    ensures multiset(Candidates(xs, mark)) == multiset(Candidates(ys, mark))
  {
    forall c: Candidate
      ensures multiset(Candidates(xs, mark))[c] == multiset(Candidates(ys, mark))[c]
    {
      CandidateCounts(xs, mark, c);
      CandidateCounts(ys, mark, c);
    }
  }

  lemma CandidateIsEntry(accounts: seq<AccountSnapshot>, mark: U64, c: Candidate)
    requires c in Candidates(accounts, mark)
    ensures c.snapshot in accounts && Eligible(c.snapshot, mark) && c == EntryOf(c.snapshot, mark)
  {
    assert multiset(Candidates(accounts, mark))[c] > 0;
    CandidateCounts(accounts, mark, c);
    assert c.snapshot in multiset(accounts);
  }

  /** With distinct account ids the ranking, and so the report, does not depend
      on the order in which the candidates are handed over. */
  lemma {:induction false} AdlIgnoresOrder(xs: seq<AccountSnapshot>, ys: seq<AccountSnapshot>, mark: U64, deficit: I64)
    requires multiset(xs) == multiset(ys) && DistinctIds(xs)
    ensures Ranked(xs, mark) == Ranked(ys, mark)
    ensures AdlOutcome(xs, mark, deficit) == AdlOutcome(ys, mark, deficit)
  {
    var cs := Candidates(xs, mark);
    CandidatesOfMultiset(xs, ys, mark);
    forall a, b | a in cs && b in cs && RanksBefore(a, b) && RanksBefore(b, a)
      ensures a == b
    {
      CandidateIsEntry(xs, mark, a);
      CandidateIsEntry(xs, mark, b);
    }
    RankingIsTotal();
    Sorting.SortIgnoresOrder(cs, Candidates(ys, mark), RanksBefore);
  }

  // ------------------------------------------------------------ who is hit

  /** The waterfall goes on exactly while the profits ranked so far leave some of
      the deficit. */
  lemma {:induction false} RecordsExactly(accounts: seq<AccountSnapshot>, mark: U64, deficit: I64, n: nat)
    requires deficit > 0
    ensures n < |AdlOutcome(accounts, mark, deficit).records|
            <==> n < |Ranked(accounts, mark)| && Profit(Ranked(accounts, mark)[..n]) < deficit
  {
    var ranked, records := Ranked(accounts, mark), AdlOutcome(accounts, mark, deficit).records;
    AdlAbsorbs(accounts, mark, deficit);
    RankedProfitable(accounts, mark);
    if |records| <= n < |ranked| {
      assert ranked[..n][..|records|] == ranked[..|records|];
      ProfitOfPrefix(ranked[..n], |records|);
    }
  }

  predicate Deleveraged(r: AdlReport, id: AccountId) {
    exists i :: 0 <= i < |r.records| && r.records[i].account == id
  }

  /** The profit of a candidate that ranks before x, and of no other. */
  function AheadOf(x: Candidate): Candidate -> int {
    (c: Candidate) => if RanksBefore(c, x) && c != x then c.pnl else 0
  }

  /** The profits that stand between an account and the waterfall. */
  function AheadProfit(accounts: seq<AccountSnapshot>, a: AccountSnapshot, mark: U64): int
    requires Eligible(a, mark)
  {
    Sum(Candidates(accounts, mark), AheadOf(EntryOf(a, mark)))
  }

  lemma {:induction false} IdDeterminesAccount(accounts: seq<AccountSnapshot>, a: AccountSnapshot, b: AccountSnapshot)
    requires UniqueIds(accounts) && a in accounts && b in accounts && a.account == b.account
    ensures a == b
  {
    assert a in multiset(accounts) && b in multiset(accounts);
    var i := Sorting.IndexOf(accounts, a);
    var j := Sorting.IndexOf(accounts, b);
    assert i == j;
  }

  lemma {:induction false} CountedOnce(accounts: seq<AccountSnapshot>, a: AccountSnapshot)
    requires UniqueIds(accounts)
    ensures multiset(accounts)[a] <= 1
  {
    if a in multiset(accounts) {
      var i := Sorting.IndexOf(accounts, a);
      var rest := accounts[..i] + accounts[i + 1..];
      Sorting.MultisetWithout(accounts, i);
      forall k | 0 <= k < |rest|
        ensures rest[k] != a
      {
        assert rest[k] == accounts[if k < i then k else k + 1];
      }
      assert a !in multiset(rest);
    }
  }

  lemma {:induction false} RankedIdsUnique(accounts: seq<AccountSnapshot>, mark: U64, i: nat, j: nat)
    requires UniqueIds(accounts) && i < j < |Ranked(accounts, mark)|
    ensures Ranked(accounts, mark)[i].snapshot.account != Ranked(accounts, mark)[j].snapshot.account
  {
    var ranked := Ranked(accounts, mark);
    var x, y := ranked[i], ranked[j];
    RankedProfitable(accounts, mark);
    assert x in multiset(ranked) && y in multiset(ranked);
    CandidateIsEntry(accounts, mark, x);
    CandidateIsEntry(accounts, mark, y);
    if x.snapshot.account == y.snapshot.account {
      IdDeterminesAccount(accounts, x.snapshot, y.snapshot);
      CountedOnce(accounts, x.snapshot);
      Sorting.CountedTwice(ranked, i, j);
      CandidateCounts(accounts, mark, x);
    }
  }

  lemma {:induction false} AllAheadOf(accounts: seq<AccountSnapshot>, mark: U64, n: nat)
    requires UniqueIds(accounts) && n < |Ranked(accounts, mark)|
    ensures Sum(Ranked(accounts, mark)[..n], AheadOf(Ranked(accounts, mark)[n])) == Profit(Ranked(accounts, mark)[..n])
  {
    var ranked := Ranked(accounts, mark);
    var f, front := AheadOf(ranked[n]), ranked[..n];
    RankedProfitable(accounts, mark);
    forall i | 0 <= i < |front|
      ensures f(front[i]) == PnlOf(front[i])
    {
      assert RanksBefore(ranked[i], ranked[n]);
      RankedIdsUnique(accounts, mark, i, n);
    }
    SumSame(front, f, PnlOf);
  }

  lemma {:induction false} NoneAheadOf(accounts: seq<AccountSnapshot>, mark: U64, n: nat)
    requires UniqueIds(accounts) && n < |Ranked(accounts, mark)|
    ensures Sum(Ranked(accounts, mark)[n..], AheadOf(Ranked(accounts, mark)[n])) == 0
  {
    var ranked := Ranked(accounts, mark);
    var f, back := AheadOf(ranked[n]), ranked[n..];
    RankedProfitable(accounts, mark);
    forall i | 0 <= i < |back|
      ensures 0 <= f(back[i]) <= 0
    {
      if i > 0 {
        assert RanksBefore(ranked[n], ranked[n + i]);
        RankedIdsUnique(accounts, mark, n, n + i);
      }
    }
    SumBounds(back, f, 0, 0);
  }

  /** What precedes a candidate in the ranking is what ranks before it. */
  lemma {:induction false} PrefixIsAhead(accounts: seq<AccountSnapshot>, mark: U64, n: nat)
    requires UniqueIds(accounts) && n < |Ranked(accounts, mark)|
    ensures Profit(Ranked(accounts, mark)[..n]) == Sum(Candidates(accounts, mark), AheadOf(Ranked(accounts, mark)[n]))
  {
    var ranked := Ranked(accounts, mark);
    var f := AheadOf(ranked[n]);
    RankedProfitable(accounts, mark);
    SumOfMultiset(ranked, Candidates(accounts, mark), f);
    assert ranked == ranked[..n] + ranked[n..];
    SumAppend(ranked[..n], ranked[n..], f);
    AllAheadOf(accounts, mark, n);
    NoneAheadOf(accounts, mark, n);
  }

  /** An account is deleveraged exactly when it is eligible and the profits of the
      candidates ranked before it do not cover the deficit. */
  lemma {:induction false} DeleveragedExactly(
      accounts: seq<AccountSnapshot>, mark: U64, deficit: I64, a: AccountSnapshot)
    requires deficit > 0 && UniqueIds(accounts) && a in accounts
    ensures Deleveraged(AdlOutcome(accounts, mark, deficit), a.account)
            <==> Eligible(a, mark) && AheadProfit(accounts, a, mark) < deficit
  {
    var ranked, r := Ranked(accounts, mark), AdlOutcome(accounts, mark, deficit);
    AdlAbsorbs(accounts, mark, deficit);
    RankedProfitable(accounts, mark);
    if Deleveraged(r, a.account) {
      var i :| 0 <= i < |r.records| && r.records[i].account == a.account;
      assert ranked[i] in multiset(ranked);
      CandidateIsEntry(accounts, mark, ranked[i]);
      IdDeterminesAccount(accounts, ranked[i].snapshot, a);
      PrefixIsAhead(accounts, mark, i);
    }
    if Eligible(a, mark) && AheadProfit(accounts, a, mark) < deficit {
      CandidateCounts(accounts, mark, EntryOf(a, mark));
      assert EntryOf(a, mark) in multiset(ranked);
      var n := Sorting.IndexOf(ranked, EntryOf(a, mark));
      PrefixIsAhead(accounts, mark, n);
      RecordsExactly(accounts, mark, deficit, n);
      assert r.records[n].account == a.account;
    }
  }

  // ----------------------------------------------------- what the score means

  /** Who is eligible: an open position in profit, on funded equity. */
  lemma EligibleExactly(a: AccountSnapshot, mark: U64)
    ensures Eligible(a, mark)
            <==> a.positionSize != 0 && UnrealizedPnl(a, mark) > 0 && a.collateral > 0 && AccountEquity(a, mark) > 0
  {
  }

  /** The truncated percentages of profit on collateral and of notional on equity,
      and the truncated product of them that is the score, up to the i64 ceiling. */
  lemma {:induction false} ScoreParts(a: AccountSnapshot, mark: U64) returns (p: nat, l: nat, raw: nat)
    requires Eligible(a, mark)
    ensures var c, e := a.collateral, AccountEquity(a, mark);
            && p * c <= UnrealizedPnl(a, mark) * MARGIN_SCALE < p * c + c
            && l * e <= NotionalValue(a, mark) * MARGIN_SCALE < l * e + e
    ensures raw * MARGIN_SCALE <= p * l < raw * MARGIN_SCALE + MARGIN_SCALE
    ensures AdlScore(a, mark) == Some(Min(raw, I64_MAX))
  {
    p := TruncDivBounds(UnrealizedPnl(a, mark) * MARGIN_SCALE, a.collateral);
    l := TruncDivBounds(NotionalValue(a, mark) * MARGIN_SCALE, AccountEquity(a, mark));
    NonNegative(p, l);
    raw := TruncDivBounds(p * l, MARGIN_SCALE);
    if p * l > I128_MAX {
      DivMono(I128_MAX, p * l, MARGIN_SCALE);
    }
  }

  lemma {:induction false} FourProduct(a: int, b: int, c: int, d: int)
    ensures (a * b) * (c * d) == (a * c) * (b * d)
  {
    assert (a * b) * (c * d) == a * (b * (c * d)) == a * (c * (b * d)) == (a * c) * (b * d);
  }

  lemma {:induction false} Cancel(x: int, y: int, k: int)
    requires k > 0
    ensures x * k <= y * k ==> x <= y
    ensures x * k < y * k ==> x < y
  {
    if x > y {
      MulMono(y + 1, x, k);
      assert (y + 1) * k == y * k + k;
    }
  }

  lemma {:induction false} ScoreUpper(p: nat, l: nat, raw: nat, x: nat, y: nat, c: nat, e: nat)
    requires p * c <= x * MARGIN_SCALE && l * e <= y * MARGIN_SCALE && raw * MARGIN_SCALE <= p * l
    ensures raw * (c * e) <= x * y * MARGIN_SCALE
  {
    var k := MARGIN_SCALE;
    NonNegative(c, e);
    NonNegative(l, e);
    NonNegative(x, k);
    calc {
      raw * (c * e) * k;
      (raw * k) * (c * e);
    <= { MulMono(raw * k, p * l, c * e); }
      (p * l) * (c * e);
      { FourProduct(p, l, c, e); }
      (p * c) * (l * e);
    <= { MulMono(p * c, x * k, l * e); }
      (x * k) * (l * e);
      (l * e) * (x * k);
    <= { MulMono(l * e, y * k, x * k); }
      (y * k) * (x * k);
      (x * y * k) * k;
    }
    Cancel(raw * (c * e), x * y * k, k);
  }

  /** Two quantities a and b, cut down to multiples p * c and l * e. */
  lemma {:induction false} CutProduct(p: nat, l: nat, a: nat, b: nat, c: nat, e: nat)
    requires p * c <= a < p * c + c && l * e <= b < l * e + e
    ensures a * b <= (p * l) * (c * e) + e * a + c * b
  {
    var u, v := a - p * c, b - l * e;
    NonNegative(l, e);
    Products(p * c, u, l * e, v);
    FourProduct(p, c, l, e);
    MulMono(v, e, a);
    MulMono(u, c, l * e);
    MulMono(l * e, b, c);
    CutSum(a * b, (p * c) * (l * e), v * a, u * (l * e), e * a, c * (l * e), (l * e) * c, b * c, c * b);
  }

  lemma {:induction false} CutSum(ab: int, pl: int, va: int, ul: int, ea: int, cl: int, lc: int, bc: int, cb: int)
    requires ab == pl + va + ul && va <= ea && ul <= cl && cl == lc && lc <= bc && bc == cb
    ensures ab <= pl + ea + cb
  {
  }

  lemma {:induction false} ScoreLower(p: nat, l: nat, raw: nat, x: nat, y: nat, c: nat, e: nat)
    requires p * c <= x * MARGIN_SCALE < p * c + c && l * e <= y * MARGIN_SCALE < l * e + e
    requires p * l < raw * MARGIN_SCALE + MARGIN_SCALE && c > 0 && e > 0
    ensures x * y * MARGIN_SCALE < (raw + 1) * (c * e) + x * e + y * c
  {
    var k := MARGIN_SCALE;
    PositiveProduct(c, e);
    CutProduct(p, l, x * k, y * k, c, e);
    WholeScore(p * l, raw, k, c * e);
    Scaled(x, y, (raw + 1) * (c * e), e, c, k);
    LowerSum((x * k) * (y * k), (p * l) * (c * e), (raw + 1) * (c * e) * k, c * e, e * (x * k), c * (y * k),
             x * y * k * k, ((raw + 1) * (c * e) + x * e + y * c) * k);
    Cancel(x * y * k, (raw + 1) * (c * e) + x * e + y * c, k);
  }

  lemma {:induction false} WholeScore(m: nat, raw: nat, k: nat, d: nat)
    requires m < raw * k + k
    ensures m * d + d <= (raw + 1) * d * k
  {
    MulMono(m + 1, (raw + 1) * k, d);
    assert (raw + 1) * k * d == (raw + 1) * d * k;
  }

  lemma {:induction false} LowerSum(ab: int, m: int, w: int, d: int, ea: int, cb: int, left: int, right: int)
    requires ab <= m + ea + cb && m + d <= w && d > 0 && left == ab && right == w + ea + cb
    ensures left < right
  {
  }

  lemma {:induction false} PositiveProduct(c: int, e: int)
    requires c > 0 && e > 0
    ensures c * e > 0
  {
  }

  lemma {:induction false} Products(a: int, u: int, b: int, v: int)
    ensures (a + u) * (b + v) == a * b + v * (a + u) + u * b
  {
    assert (a + u) * (b + v) == (a + u) * b + (a + u) * v;
    assert (a + u) * b == a * b + u * b;
  }

  lemma {:induction false} Scaled(x: int, y: int, z: int, e: int, c: int, k: int)
    ensures (x * k) * (y * k) == x * y * k * k
    ensures z * k + e * (x * k) + c * (y * k) == (z + x * e + y * c) * k
  {
    assert e * (x * k) == (x * e) * k && c * (y * k) == (y * c) * k;
  }

  /** The score of an eligible account in terms of profit, notional, collateral and
      equity: it never exceeds profit times notional over collateral times equity, in
      basis points, and below the i64 ceiling falls short of it by less than the three
      truncations. */
  lemma {:induction false} ScoreMeaning(a: AccountSnapshot, mark: U64)
    requires Eligible(a, mark)
    ensures var score, x, y := AdlScore(a, mark).value, UnrealizedPnl(a, mark), NotionalValue(a, mark);
            var c, e := a.collateral, AccountEquity(a, mark);
            && score >= 0 && score * (c * e) <= x * y * MARGIN_SCALE
            && (score < I64_MAX ==> x * y * MARGIN_SCALE < (score + 1) * (c * e) + x * e + y * c)
  {
    var p, l, raw := ScoreParts(a, mark);
    var x, y, c, e := UnrealizedPnl(a, mark), NotionalValue(a, mark), a.collateral, AccountEquity(a, mark);
    ScoreBounds(AdlScore(a, mark).value, p, l, raw, x, y, c, e);
  }

  lemma {:induction false} ScoreBounds(score: nat, p: nat, l: nat, raw: nat, x: nat, y: nat, c: nat, e: nat)
    requires p * c <= x * MARGIN_SCALE < p * c + c && l * e <= y * MARGIN_SCALE < l * e + e
    requires raw * MARGIN_SCALE <= p * l < raw * MARGIN_SCALE + MARGIN_SCALE && c > 0 && e > 0
    requires score == Min(raw, I64_MAX)
    ensures score * (c * e) <= x * y * MARGIN_SCALE
    ensures score < I64_MAX ==> x * y * MARGIN_SCALE < (score + 1) * (c * e) + x * e + y * c
  {
    NonNegative(c, e);
    assert score * (c * e) <= x * y * MARGIN_SCALE by {
      ScoreUpper(p, l, raw, x, y, c, e);
      MulMono(score, raw, c * e);
    }
    if score < I64_MAX {
      ScoreLower(p, l, raw, x, y, c, e);
    }
  }

  /** By more than the rounding, the profit times notional over collateral times
      equity of one account exceeds that of another, whose own is below the ceiling. */
  predicate Outscores(a: AccountSnapshot, b: AccountSnapshot, mark: U64) {
    var x, y, c, e := UnrealizedPnl(a, mark), NotionalValue(a, mark), a.collateral, AccountEquity(a, mark);
    var x', y', c', e' := UnrealizedPnl(b, mark), NotionalValue(b, mark), b.collateral, AccountEquity(b, mark);
    && (x * y * MARGIN_SCALE - c * e - x * e - y * c) * (c' * e') >= x' * y' * MARGIN_SCALE * (c * e)
    && x' * y' * MARGIN_SCALE < I64_MAX * (c' * e')
  }

  lemma {:induction false} OutscoresByScore(a: AccountSnapshot, b: AccountSnapshot, mark: U64)
    requires Eligible(a, mark) && Eligible(b, mark) && Outscores(a, b, mark)
    ensures AdlScore(a, mark).value > AdlScore(b, mark).value
  {
    ScoreMeaning(a, mark);
    ScoreMeaning(b, mark);
    ScoresApart(AdlScore(a, mark).value, AdlScore(b, mark).value,
                UnrealizedPnl(a, mark), NotionalValue(a, mark), a.collateral, AccountEquity(a, mark),
                UnrealizedPnl(b, mark), NotionalValue(b, mark), b.collateral, AccountEquity(b, mark));
  }

  lemma {:induction false} ScoresApart(
      s: nat, t: nat, x: nat, y: nat, c: nat, e: nat, x': nat, y': nat, c': nat, e': nat)
    requires c > 0 && e > 0 && c' > 0 && e' > 0 && s <= I64_MAX
    requires s < I64_MAX ==> x * y * MARGIN_SCALE < (s + 1) * (c * e) + x * e + y * c
    requires t * (c' * e') <= x' * y' * MARGIN_SCALE < I64_MAX * (c' * e')
    requires (x * y * MARGIN_SCALE - c * e - x * e - y * c) * (c' * e') >= x' * y' * MARGIN_SCALE * (c * e)
    ensures s > t
  {
    PositiveProduct(c, e);
    PositiveProduct(c', e');
    Cancel(t, I64_MAX, c' * e');
    if s < I64_MAX {
      assert (s + 1) * (c * e) == s * (c * e) + c * e;
      Separated(s, t, x * y * MARGIN_SCALE - c * e - x * e - y * c, c * e, x' * y' * MARGIN_SCALE, c' * e');
    }
  }

  lemma {:induction false} Separated(s: int, t: int, w: int, d: int, w': int, d': int)
    requires d > 0 && d' > 0 && w < s * d && t * d' <= w' && w * d' >= w' * d
    ensures t < s
  {
    MulMono(t * d', w', d);
    MulMono(w + 1, s * d, d');
    assert (w + 1) * d' == w * d' + d';
    assert t * d' * d == t * (d * d') && s * d * d' == s * (d * d');
    PositiveProduct(d, d');
    Cancel(t, s, d * d');
  }

  /** Records come by falling score, and by rising id where scores are equal. */
  lemma {:induction false} RecordsByScore(accounts: seq<AccountSnapshot>, mark: U64, deficit: I64, i: nat, j: nat)
    requires UniqueIds(accounts) && i < j < |AdlOutcome(accounts, mark, deficit).records|
    ensures var r := AdlOutcome(accounts, mark, deficit).records;
            r[i].score > r[j].score || (r[i].score == r[j].score && r[i].account < r[j].account)
  {
    var ranked, r := Ranked(accounts, mark), AdlOutcome(accounts, mark, deficit).records;
    AdlAbsorbs(accounts, mark, deficit);
    RankedProfitable(accounts, mark);
    assert CutsFrom(r[i], ranked[i], deficit - Profit(ranked[..i]));
    assert CutsFrom(r[j], ranked[j], deficit - Profit(ranked[..j]));
    assert RanksBefore(ranked[i], ranked[j]);
    RankedIdsUnique(accounts, mark, i, j);
  }

  /** Every record is that of an eligible account with its own score and profit. */
  lemma {:induction false} RecordIsOf(accounts: seq<AccountSnapshot>, mark: U64, deficit: I64, i: nat)
      returns (a: AccountSnapshot)
    requires i < |AdlOutcome(accounts, mark, deficit).records|
    ensures a in accounts && Eligible(a, mark)
    ensures var r := AdlOutcome(accounts, mark, deficit).records[i];
            && r.account == a.account && r.closeOrder == CloseOrder(a)
            && r.score == AdlScore(a, mark).value && r.pnlGross == UnrealizedPnl(a, mark)
    ensures i < |Ranked(accounts, mark)| && Ranked(accounts, mark)[i] == EntryOf(a, mark)
  {
    var ranked := Ranked(accounts, mark);
    AdlAbsorbs(accounts, mark, deficit);
    RankedProfitable(accounts, mark);
    assert ranked[i] in multiset(ranked);
    CandidateIsEntry(accounts, mark, ranked[i]);
    a := ranked[i].snapshot;
    assert CutsFrom(AdlOutcome(accounts, mark, deficit).records[i], ranked[i], deficit - Profit(ranked[..i]));
  }

  /** An account that outscores another by more than the rounding is deleveraged before
      it: where the other has a record, it has an earlier one. */
  lemma {:induction false} OutscoringPaysFirst(
      accounts: seq<AccountSnapshot>, mark: U64, deficit: I64, a: AccountSnapshot, b: AccountSnapshot, i: nat)
      returns (j: nat)
    requires UniqueIds(accounts) && a in accounts && b in accounts && Eligible(a, mark) && Eligible(b, mark)
    requires Outscores(a, b, mark)
    requires var r := AdlOutcome(accounts, mark, deficit).records; i < |r| && r[i].account == b.account
    ensures j < i && AdlOutcome(accounts, mark, deficit).records[j].account == a.account
  {
    var ranked, r := Ranked(accounts, mark), AdlOutcome(accounts, mark, deficit).records;
    var x := RecordIsOf(accounts, mark, deficit, i);
    IdDeterminesAccount(accounts, x, b);
    j := RankOf(accounts, mark, a);
    OutscoresByScore(a, b, mark);
    assert j < i by {
      RankedProfitable(accounts, mark);
      assert i < j ==> RanksBefore(ranked[i], ranked[j]);
    }
    var y := RecordIsOf(accounts, mark, deficit, j);
  }

  /** Where an eligible account stands in the ranking. */
  lemma {:induction false} RankOf(accounts: seq<AccountSnapshot>, mark: U64, a: AccountSnapshot) returns (n: nat)
    requires a in accounts && Eligible(a, mark)
    ensures n < |Ranked(accounts, mark)| && Ranked(accounts, mark)[n] == EntryOf(a, mark)
  {
    RankedProfitable(accounts, mark);
    CandidateCounts(accounts, mark, EntryOf(a, mark));
    assert EntryOf(a, mark) in multiset(Ranked(accounts, mark));
    n := Sorting.IndexOf(Ranked(accounts, mark), EntryOf(a, mark));
  }
}
