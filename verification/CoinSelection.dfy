/** Largest-first coin selection, and what it is optimal for. */
module CoinSelection {
  import opened Basics
  import opened Bitcoin

  const MAX_SELECTED_INPUTS: nat := 100

  datatype SpendPath = Primary | Recovery

  datatype VaultUtxo = VaultUtxo(
    outpoint: OutPoint,
    txout: TxOut,
    confirmations: U32,
    spendablePrimary: bool,
    spendableRecovery: bool)

  datatype SpendError =
    | InvalidVault | InvalidAmount | FeeCap | FeeAboveAmount | AmountOverflow
    | InvalidDestination | DestinationDust | ChangeDust
    | InputOverflow | TooManyInputs | InsufficientFunds
    | Unsatisfied | UnexpectedScriptSig | FeeRate
    | RequestLimits | MetadataMismatch | Undecodable | TxidMismatch
    | NoInputs | VersionOrLockTime
    | DuplicateInput | UnknownInput | NotVaultInput | NotSpendable | WrongSequence | MissingWitness
    | UnexpectedOutputs | DestinationMismatch | ChangeMismatch | OutputOverflow
    | OutputsExceedInputs | FeeMismatch | InputsBelowTarget | ReportedChangeMismatch

  type SpendResult<+T> = Result<T, SpendError>

  predicate Spendable(u: VaultUtxo, path: SpendPath) {
    match path
    case Primary => u.spendablePrimary
    case Recovery => u.spendableRecovery
  }

  function CoinOf(u: VaultUtxo): nat { u.txout.value }

  function Candidates(utxos: seq<VaultUtxo>, path: SpendPath): (r: seq<VaultUtxo>)
    ensures forall u :: u in r <==> u in utxos && Spendable(u, path)
  {
    if utxos == [] then []
    else
      var before, last := Candidates(utxos[..|utxos| - 1], path), utxos[|utxos| - 1];
      assert utxos == utxos[..|utxos| - 1] + [last];
      if Spendable(last, path) then before + [last] else before
  }

  // ----- Sorting -----

  predicate Descending(s: seq<VaultUtxo>) {
    forall i, j :: 0 <= i < j < |s| ==> CoinOf(s[i]) >= CoinOf(s[j])
  }

  /** After the coins worth at least as much. */
  function InsertDescending(s: seq<VaultUtxo>, u: VaultUtxo): (r: seq<VaultUtxo>)
    ensures multiset(r) == multiset(s) + multiset{u}
  {
    if s == [] then [u]
    else
      var n := |s| - 1;
      assert s == s[..n] + [s[n]];
      if CoinOf(s[n]) >= CoinOf(u) then s + [u] else InsertDescending(s[..n], u) + [s[n]]
  }

  predicate AtLeast(s: seq<VaultUtxo>, floor: nat) {
    forall i :: 0 <= i < |s| ==> CoinOf(s[i]) >= floor
  }

  lemma {:induction false} AppendKeepsDescending(s: seq<VaultUtxo>, u: VaultUtxo)
    requires Descending(s) && AtLeast(s, CoinOf(u))
    ensures Descending(s + [u])
  {
  }

  lemma {:induction false} InsertKeepsFloor(s: seq<VaultUtxo>, u: VaultUtxo, floor: nat)
    requires AtLeast(s, floor) && CoinOf(u) >= floor
    ensures AtLeast(InsertDescending(s, u), floor)
  {
    if s != [] {
      InsertKeepsFloor(s[..|s| - 1], u, floor);
    }
  }

  lemma {:induction false} InsertKeepsDescending(s: seq<VaultUtxo>, u: VaultUtxo)
    requires Descending(s)
    ensures Descending(InsertDescending(s, u))
  {
    if s == [] {
    } else {
      var n := |s| - 1;
      if CoinOf(s[n]) >= CoinOf(u) {
        AppendKeepsDescending(s, u);
      } else {
        InsertKeepsDescending(s[..n], u);
        InsertKeepsFloor(s[..n], u, CoinOf(s[n]));
        AppendKeepsDescending(InsertDescending(s[..n], u), s[n]);
      }
    }
  }

  /** The library's stable sort by value, largest first. */
  function SortDescending(s: seq<VaultUtxo>): (r: seq<VaultUtxo>)
    ensures Descending(r) && multiset(r) == multiset(s)
  {
    if s == [] then []
    else
      var before := SortDescending(s[..|s| - 1]);
      assert s == s[..|s| - 1] + [s[|s| - 1]];
      InsertKeepsDescending(before, s[|s| - 1]);
      InsertDescending(before, s[|s| - 1])
  }

  /** The coins of one value, in order. */
  function WithValue(s: seq<VaultUtxo>, v: nat): seq<VaultUtxo> {
    if s == [] then []
    else
      var before, last := WithValue(s[..|s| - 1], v), s[|s| - 1];
      if CoinOf(last) == v then before + [last] else before
  }

  lemma {:induction false} WithValueAppend(s: seq<VaultUtxo>, u: VaultUtxo, v: nat)
    ensures WithValue(s + [u], v) == if CoinOf(u) == v then WithValue(s, v) + [u] else WithValue(s, v)
  {
    assert (s + [u])[..|s|] == s;
  }

  /** Insertion puts a coin after all coins of its own value. */
  lemma {:induction false} InsertIsStable(s: seq<VaultUtxo>, u: VaultUtxo, v: nat)
    ensures WithValue(InsertDescending(s, u), v)
         == if CoinOf(u) == v then WithValue(s, v) + [u] else WithValue(s, v)
  {
    WithValueAppend(s, u, v);
    if s == [] {
      assert s + [u] == [u];
    } else {
      var n := |s| - 1;
      if CoinOf(s[n]) < CoinOf(u) {
        InsertIsStable(s[..n], u, v);
        WithValueAppend(InsertDescending(s[..n], u), s[n], v);
      }
    }
  }

  /** The sort is stable: coins of one value keep their order. */
  lemma {:induction false} SortIsStable(s: seq<VaultUtxo>, v: nat)
    ensures WithValue(SortDescending(s), v) == WithValue(s, v)
  {
    if s == [] {
    } else {
      var n := |s| - 1;
      SortIsStable(s[..n], v);
      InsertIsStable(SortDescending(s[..n]), s[n], v);
    }
  }

  // ----- Selection -----

  /** The loop from its n-th candidate on. */
  function SelectFrom(sorted: seq<VaultUtxo>, need: U64, n: nat): SpendResult<seq<VaultUtxo>>
    requires n <= |sorted|
    decreases |sorted| - n
  {
    if n == |sorted| then Err(InsufficientFunds)
    else if SumBy(CoinOf, sorted[..n + 1]) > U64_MAX then Err(InputOverflow)
    else if n + 1 > MAX_SELECTED_INPUTS then Err(TooManyInputs)
    else if SumBy(CoinOf, sorted[..n + 1]) >= need then Ok(sorted[..n + 1])
    else SelectFrom(sorted, need, n + 1)
  }

  function Sorted(utxos: seq<VaultUtxo>, path: SpendPath): seq<VaultUtxo> {
    SortDescending(Candidates(utxos, path))
  }

  function Selection(utxos: seq<VaultUtxo>, need: U64, path: SpendPath): SpendResult<seq<VaultUtxo>> {
    SelectFrom(Sorted(utxos, path), need, 0)
  }

  method SelectCoins(utxos: seq<VaultUtxo>, need: U64, path: SpendPath) returns (r: SpendResult<seq<VaultUtxo>>)
    ensures r == Selection(utxos, need, path)
  {
    var candidates := FilterSpendable(utxos, path);
    r := TakeUntilReached(SortDescending(candidates), need);
  }

  method FilterSpendable(utxos: seq<VaultUtxo>, path: SpendPath) returns (candidates: seq<VaultUtxo>)
    ensures candidates == Candidates(utxos, path)
  {
    candidates := [];
    for i := 0 to |utxos|
      invariant candidates == Candidates(utxos[..i], path)
    {
      assert utxos[..i + 1][..i] == utxos[..i];
      if Spendable(utxos[i], path) {
        candidates := candidates + [utxos[i]];
      }
    }
    assert utxos[..|utxos|] == utxos;
  }

  method TakeUntilReached(candidates: seq<VaultUtxo>, need: U64) returns (r: SpendResult<seq<VaultUtxo>>)
    ensures r == SelectFrom(candidates, need, 0)
  {
    var selected: seq<VaultUtxo> := [];
    var total: U64 := 0;
    for i := 0 to |candidates|
      invariant selected == candidates[..i] && total == SumBy(CoinOf, selected)
      invariant SelectFrom(candidates, need, i) == SelectFrom(candidates, need, 0)
    {
      var u := candidates[i];
      assert candidates[..i + 1] == selected + [u];
      SumAppend(CoinOf, selected, u);
      if total + u.txout.value > U64_MAX {
        return Err(InputOverflow);
      }
      total := total + u.txout.value;
      selected := selected + [u];
      if |selected| > MAX_SELECTED_INPUTS {
        return Err(TooManyInputs);
      }
      if total >= need {
        return Ok(selected);
      }
    }
    return Err(InsufficientFunds);
  }

  /** n is the least number of leading coins that reach the need. */
  ghost predicate ReachesAt(sorted: seq<VaultUtxo>, need: nat, n: nat) {
    && n <= |sorted|
    && SumBy(CoinOf, sorted[..n]) >= need
    && forall m :: 0 <= m < n ==> SumBy(CoinOf, sorted[..m]) < need
  }

  /** The loop returns the shortest prefix that reaches the need, if that is short and small enough. */
  lemma {:induction false} SelectFromMeans(sorted: seq<VaultUtxo>, need: U64, n: nat, k: nat)
    requires n < k && n <= |sorted|
    requires forall m :: 0 <= m <= n ==> SumBy(CoinOf, sorted[..m]) < need
    ensures ReachesAt(sorted, need, k) && k <= MAX_SELECTED_INPUTS && SumBy(CoinOf, sorted[..k]) <= U64_MAX
       ==> SelectFrom(sorted, need, n) == Ok(sorted[..k])
    ensures SelectFrom(sorted, need, n).Ok? && ReachesAt(sorted, need, k)
       ==> k <= MAX_SELECTED_INPUTS && SumBy(CoinOf, sorted[..k]) <= U64_MAX
    decreases |sorted| - n
  {
    if n == |sorted| {
    } else {
      if n + 1 == k {
      } else if SumBy(CoinOf, sorted[..n + 1]) < need {
        SelectFromMeans(sorted, need, n + 1, k);
        if ReachesAt(sorted, need, k) && k <= MAX_SELECTED_INPUTS {
          assert SumBy(CoinOf, sorted[..n + 1]) <= U64_MAX;
        }
      }
    }
  }

  lemma {:induction false} SelectFromReaches(sorted: seq<VaultUtxo>, need: U64, n: nat) returns (k: nat)
    requires n <= |sorted|
    requires forall m :: 0 <= m <= n ==> SumBy(CoinOf, sorted[..m]) < need
    requires SelectFrom(sorted, need, n).Ok?
    ensures n < k <= |sorted| && k <= MAX_SELECTED_INPUTS && ReachesAt(sorted, need, k)
    ensures SelectFrom(sorted, need, n) == Ok(sorted[..k]) && SumBy(CoinOf, sorted[..k]) <= U64_MAX
    decreases |sorted| - n
  {
    k := n + 1;
    if SumBy(CoinOf, sorted[..n + 1]) < need {
      k := SelectFromReaches(sorted, need, n + 1);
    }
  }

  // ----- The path's flag -----

  /** The flag of the other path does not make a coin spendable. */
  predicate HasFlag(u: VaultUtxo, path: SpendPath) {
    (path == Primary ==> u.spendablePrimary) && (path == Recovery ==> u.spendableRecovery)
  }

  lemma {:induction false} CandidatesAppend(utxos: seq<VaultUtxo>, u: VaultUtxo, path: SpendPath)
    ensures Candidates(utxos + [u], path)
         == if HasFlag(u, path) then Candidates(utxos, path) + [u] else Candidates(utxos, path)
  {
    assert (utxos + [u])[..|utxos|] == utxos;
  }

  lemma {:induction false} CandidatesConcat(a: seq<VaultUtxo>, b: seq<VaultUtxo>, path: SpendPath)
    ensures Candidates(a + b, path) == Candidates(a, path) + Candidates(b, path)
  {
    if b == [] {
      assert a + b == a;
    } else {
      var m := |b| - 1;
      CandidatesConcat(a, b[..m], path);
      assert (a + b)[..|a + b| - 1] == a + b[..m];
    }
  }

  /** A coin without the flag of the path changes no selection, wherever it is listed. */
  lemma {:induction false} UnflaggedCoinIsIgnored(a: seq<VaultUtxo>, u: VaultUtxo, b: seq<VaultUtxo>, need: U64,
                                                  path: SpendPath)
    requires path == Primary ==> !u.spendablePrimary
    requires path == Recovery ==> !u.spendableRecovery
    ensures Selection(a + [u] + b, need, path) == Selection(a + b, need, path)
  {
    CandidatesAppend(a, u, path);
    CandidatesConcat(a + [u], b, path);
    CandidatesConcat(a, b, path);
  }

  /** Every selected coin is listed and has the flag of the path. */
  lemma {:induction false} SelectedCoinsAreFlagged(utxos: seq<VaultUtxo>, need: U64, path: SpendPath, u: VaultUtxo)
    requires need >= 1 && Selection(utxos, need, path).Ok? && u in Selection(utxos, need, path).value
    ensures u in utxos
    ensures path == Primary ==> u.spendablePrimary
    ensures path == Recovery ==> u.spendableRecovery
  {
    var sorted := Sorted(utxos, path);
    assert sorted[..0] == [];
    var k := SelectFromReaches(sorted, need, 0);
    assert u in sorted[..k];
    assert u in multiset(sorted);
    assert u in multiset(Candidates(utxos, path));
  }

  // ----- The refusals -----

  /** The first n coins pass u64, and without the last of them they do not reach the need. */
  predicate OverflowsAt(sorted: seq<VaultUtxo>, need: nat, n: nat) {
    && 1 <= n <= |sorted| && n <= 101
    && SumBy(CoinOf, sorted[..n]) > U64_MAX && SumBy(CoinOf, sorted[..n - 1]) < need
  }

  predicate NeedsTooMany(sorted: seq<VaultUtxo>, need: nat) {
    |sorted| > 100 && SumBy(CoinOf, sorted[..101]) <= U64_MAX && SumBy(CoinOf, sorted[..100]) < need
  }

  predicate IsInsufficient(sorted: seq<VaultUtxo>, need: nat) {
    |sorted| <= 100 && SumBy(CoinOf, sorted) < need
  }

  lemma {:induction false} LeadingSumsGrow(sorted: seq<VaultUtxo>, m: nat, n: nat)
    requires m <= n <= |sorted|
    ensures SumBy(CoinOf, sorted[..m]) <= SumBy(CoinOf, sorted[..n]) <= SumBy(CoinOf, sorted)
  {
    SumPrefix(CoinOf, sorted[..n], m);
    SumPrefix(CoinOf, sorted, n);
    assert sorted[..n][..m] == sorted[..m];
  }

  ghost predicate OverflowsAfter(sorted: seq<VaultUtxo>, need: nat, n: nat) {
    exists k :: n < k && OverflowsAt(sorted, need, k)
  }

  lemma {:induction false} OverflowingHere(sorted: seq<VaultUtxo>, need: U64, n: nat)
    requires n < |sorted| && n <= 100
    requires SumBy(CoinOf, sorted[..n]) < need && SumBy(CoinOf, sorted[..n + 1]) > U64_MAX
    ensures OverflowsAfter(sorted, need, n) && !NeedsTooMany(sorted, need) && !IsInsufficient(sorted, need)
  {
    assert OverflowsAt(sorted, need, n + 1);
    LeadingSumsGrow(sorted, n + 1, n + 1);
    if |sorted| > 100 {
      LeadingSumsGrow(sorted, n + 1, 101);
    }
  }

  lemma {:induction false} HundredAreNotEnough(sorted: seq<VaultUtxo>, need: U64)
    requires |sorted| > 100 && SumBy(CoinOf, sorted[..100]) < need && SumBy(CoinOf, sorted[..101]) <= U64_MAX
    ensures !OverflowsAfter(sorted, need, 100) && NeedsTooMany(sorted, need) && !IsInsufficient(sorted, need)
  {
  }

  lemma {:induction false} ReachingHere(sorted: seq<VaultUtxo>, need: U64, n: nat)
    requires n < |sorted| && n < 100
    requires need <= SumBy(CoinOf, sorted[..n + 1]) <= U64_MAX
    ensures !OverflowsAfter(sorted, need, n) && !NeedsTooMany(sorted, need) && !IsInsufficient(sorted, need)
  {
    LeadingSumsGrow(sorted, n + 1, n + 1);
    if |sorted| > 100 {
      LeadingSumsGrow(sorted, n + 1, 100);
    }
    if k :| n < k && OverflowsAt(sorted, need, k) {
      if k > n + 1 {
        LeadingSumsGrow(sorted, n + 1, k - 1);
      }
      assert false;
    }
  }

  lemma {:induction false} GoingOn(sorted: seq<VaultUtxo>, need: U64, n: nat)
    requires n < |sorted| && SumBy(CoinOf, sorted[..n + 1]) <= U64_MAX
    ensures OverflowsAfter(sorted, need, n) <==> OverflowsAfter(sorted, need, n + 1)
  {
    if k :| n < k && OverflowsAt(sorted, need, k) {
      assert k != n + 1;
    }
  }

  lemma {:induction false} SelectFromRefusal(sorted: seq<VaultUtxo>, need: U64, n: nat)
    requires n <= |sorted| && n <= 100 && SumBy(CoinOf, sorted[..n]) < need
    ensures var r := SelectFrom(sorted, need, n);
            && (r == Err(InputOverflow) <==> OverflowsAfter(sorted, need, n))
            && (r == Err(TooManyInputs) <==> NeedsTooMany(sorted, need))
            && (r == Err(InsufficientFunds) <==> IsInsufficient(sorted, need))
            && (r.Err? ==> r.error in {InputOverflow, TooManyInputs, InsufficientFunds})
    decreases |sorted| - n
  {
    if n == |sorted| {
      assert sorted[..n] == sorted;
    } else if SumBy(CoinOf, sorted[..n + 1]) > U64_MAX {
      OverflowingHere(sorted, need, n);
    } else if n == 100 {
      HundredAreNotEnough(sorted, need);
    } else if SumBy(CoinOf, sorted[..n + 1]) >= need {
      ReachingHere(sorted, need, n);
    } else {
      GoingOn(sorted, need, n);
      SelectFromRefusal(sorted, need, n + 1);
    }
  }

  /** Which of the three refusals a selection gets: the leading coins pass u64 before they reach the need, or
      the need takes more than 100 coins, or they run out. */
  lemma {:induction false} SelectionRefusalIsExact(utxos: seq<VaultUtxo>, need: U64, path: SpendPath)
    requires need >= 1
    ensures var r, sorted := Selection(utxos, need, path), Sorted(utxos, path);
            && (r == Err(InputOverflow) <==> exists n: nat :: OverflowsAt(sorted, need, n))
            && (r == Err(TooManyInputs) <==> NeedsTooMany(sorted, need))
            && (r == Err(InsufficientFunds) <==> IsInsufficient(sorted, need))
            && (r.Err? ==> r.error in {InputOverflow, TooManyInputs, InsufficientFunds})
  {
    var sorted := Sorted(utxos, path);
    assert sorted[..0] == [];
    SelectFromRefusal(sorted, need, 0);
  }

  // ----- Optimality -----

  /** Coins drawn from the spendable ones, each at most as often as it occurs, that reach the need. */
  ghost predicate Covers(coins: seq<VaultUtxo>, available: seq<VaultUtxo>, need: nat) {
    multiset(coins) <= multiset(available) && SumBy(CoinOf, coins) >= need
  }

  /** No choice of as many coins is worth more than the leading ones. */
  lemma {:induction false} LeadingCoinsAreBest(sorted: seq<VaultUtxo>, coins: seq<VaultUtxo>)
    requires Descending(sorted) && multiset(coins) <= multiset(sorted)
    ensures |coins| <= |sorted|
    ensures SumBy(CoinOf, coins) <= SumBy(CoinOf, sorted[..|coins|])
    decreases |sorted|
  {
    if coins == [] {
    } else {
      var i := DropForLargest(sorted, coins);
      LeadingCoinsAreBest(sorted[1..], Without(coins, i));
      SumWithout(CoinOf, coins, i);
      SumOfLeading(sorted, |coins|);
    }
  }

  /** Some coin can be dropped so that the others come from the rest of the sorted coins. */
  lemma {:induction false} DropForLargest(sorted: seq<VaultUtxo>, coins: seq<VaultUtxo>) returns (i: nat)
    requires Descending(sorted) && multiset(coins) <= multiset(sorted) && coins != []
    ensures i < |coins| && sorted != []
    ensures CoinOf(coins[i]) <= CoinOf(sorted[0])
    ensures Descending(sorted[1..]) && multiset(Without(coins, i)) <= multiset(sorted[1..])
  {
    assert coins[0] in multiset(coins);
    assert coins[0] in multiset(sorted);
    i := PositionOf(coins, sorted[0]);
    DrawnFromIsIn(sorted, coins, i);
    RestIsDrawnFromRest(sorted, coins, i);
  }

  lemma {:induction false} RestIsDrawnFromRest(available: seq<VaultUtxo>, coins: seq<VaultUtxo>, i: nat)
    requires multiset(coins) <= multiset(available) && available != []
    requires i < |coins| && (coins[i] == available[0] || available[0] !in coins)
    ensures multiset(Without(coins, i)) <= multiset(available[1..])
  {
    assert available == [available[0]] + available[1..];
    assert multiset(available) == multiset{available[0]} + multiset(available[1..]);
    assert available[0] !in coins ==> multiset(coins)[available[0]] == 0;
  }

  lemma {:induction false} DrawnFromIsIn(available: seq<VaultUtxo>, coins: seq<VaultUtxo>, i: nat)
    requires multiset(coins) <= multiset(available) && i < |coins|
    ensures coins[i] in available
  {
    assert coins[i] in multiset(coins);
    assert coins[i] in multiset(available);
  }

  lemma {:induction false} SumOfLeading(sorted: seq<VaultUtxo>, n: nat)
    requires 0 < n <= |sorted|
    ensures SumBy(CoinOf, sorted[..n]) == CoinOf(sorted[0]) + SumBy(CoinOf, sorted[1..][..n - 1])
  {
    assert sorted[..n] == [sorted[0]] + sorted[1..][..n - 1];
    SumConcat(CoinOf, [sorted[0]], sorted[1..][..n - 1]);
    SumAppend(CoinOf, [], sorted[0]);
    assert [] + [sorted[0]] == [sorted[0]];
  }

  /** Where a coin is, or the first position if it is nowhere. */
  lemma {:induction false} PositionOf(coins: seq<VaultUtxo>, u: VaultUtxo) returns (i: nat)
    requires coins != []
    ensures i < |coins| && (u in coins ==> coins[i] == u)
  {
    if u in coins {
      i :| 0 <= i < |coins| && coins[i] == u;
    } else {
      i := 0;
    }
  }

  lemma {:induction false} LeadingCoinsCover(utxos: seq<VaultUtxo>, path: SpendPath, need: nat, k: nat)
    requires k <= |Sorted(utxos, path)| && SumBy(CoinOf, Sorted(utxos, path)[..k]) >= need
    ensures Covers(Sorted(utxos, path)[..k], Candidates(utxos, path), need)
  {
    var sorted := Sorted(utxos, path);
    assert sorted == sorted[..k] + sorted[k..];
  }

  /** The leading coins that first reach a need do not reach it without any one of them. */
  lemma {:induction false} EachLeadingCoinIsNeeded(sorted: seq<VaultUtxo>, need: nat, k: nat, i: nat)
    requires Descending(sorted) && 0 < k && ReachesAt(sorted, need, k) && i < k
    ensures SumBy(CoinOf, sorted[..k]) - need < CoinOf(sorted[i])
  {
    assert sorted[..k] == sorted[..k - 1] + [sorted[k - 1]];
    SumAppend(CoinOf, sorted[..k - 1], sorted[k - 1]);
  }

  /** A successful selection has the fewest coins of all that reach the need, needs every one of them, and
      takes only spendable coins. So the change is smaller than every selected coin. */
  lemma {:induction false} SelectionIsOptimal(utxos: seq<VaultUtxo>, need: U64, path: SpendPath, coins: seq<VaultUtxo>)
    requires need >= 1 && Selection(utxos, need, path).Ok?
    ensures var selected := Selection(utxos, need, path).value;
            && Covers(selected, Candidates(utxos, path), need)
            && 1 <= |selected| <= MAX_SELECTED_INPUTS && SumBy(CoinOf, selected) <= U64_MAX
            && (Covers(coins, Candidates(utxos, path), need) ==> |selected| <= |coins|)
            && forall i :: 0 <= i < |selected| ==> SumBy(CoinOf, selected) - need < CoinOf(selected[i])
  {
    var sorted := Sorted(utxos, path);
    assert sorted[..0] == [];
    var k := SelectFromReaches(sorted, need, 0);
    LeadingCoinsCover(utxos, path, need, k);
    if Covers(coins, Candidates(utxos, path), need) {
      LeadingCoinsAreBest(sorted, coins);
    }
    forall i | 0 <= i < k
      ensures SumBy(CoinOf, sorted[..k]) - need < CoinOf(sorted[..k][i])
    {
      EachLeadingCoinIsNeeded(sorted, need, k, i);
    }
  }

  ghost predicate HasSmallCover(available: seq<VaultUtxo>, need: nat) {
    exists coins {:trigger Covers(coins, available, need)} ::
      Covers(coins, available, need) && |coins| <= MAX_SELECTED_INPUTS
  }

  /** The sum at which the loop would stop does not fit in u64. */
  ghost predicate StopsPastU64(sorted: seq<VaultUtxo>, need: nat) {
    exists n: nat {:trigger ReachesAt(sorted, need, n)} ::
      ReachesAt(sorted, need, n) && SumBy(CoinOf, sorted[..n]) > U64_MAX
  }

  /** At most 100 of the coins reach the need, and the largest that do are not too much for u64. */
  ghost predicate Selectable(utxos: seq<VaultUtxo>, need: nat, path: SpendPath) {
    HasSmallCover(Candidates(utxos, path), need) && !StopsPastU64(Sorted(utxos, path), need)
  }

  /** Selection succeeds exactly when at most 100 spendable coins can reach the need, save where the
      largest coins that do are worth more than u64 can count. */
  lemma {:induction false} SelectionSucceedsExactly(utxos: seq<VaultUtxo>, need: U64, path: SpendPath)
    requires need >= 1
    ensures Selection(utxos, need, path).Ok? <==> Selectable(utxos, need, path)
  {
    var sorted := Sorted(utxos, path);
    assert sorted[..0] == [];
    if Selection(utxos, need, path).Ok? {
      var k := SelectFromReaches(sorted, need, 0);
      LeadingCoinsCover(utxos, path, need, k);
    }
    if HasSmallCover(Candidates(utxos, path), need) && !StopsPastU64(sorted, need) {
      var coins :| Covers(coins, Candidates(utxos, path), need) && |coins| <= MAX_SELECTED_INPUTS;
      LeadingCoinsAreBest(sorted, coins);
      var k := LeastReach(sorted, need, |coins|);
      SelectFromMeans(sorted, need, 0, k);
    }
  }

  lemma {:induction false} LeastReach(sorted: seq<VaultUtxo>, need: nat, n: nat) returns (k: nat)
    requires 1 <= need && n <= |sorted| && SumBy(CoinOf, sorted[..n]) >= need
    ensures 1 <= k <= n && ReachesAt(sorted, need, k)
    decreases n
  {
    assert sorted[..0] == [];
    if m :| 0 <= m < n && SumBy(CoinOf, sorted[..m]) >= need {
      k := LeastReach(sorted, need, m);
    } else {
      k := n;
    }
  }

  /** In particular, when all spendable coins together fit in u64, nothing but the 100-coin limit stands
      in the way. */
  lemma {:induction false} SelectionSucceedsWithoutOverflow(utxos: seq<VaultUtxo>, need: U64, path: SpendPath)
    requires need >= 1 && SumBy(CoinOf, Candidates(utxos, path)) <= U64_MAX
    ensures Selection(utxos, need, path).Ok? <==> HasSmallCover(Candidates(utxos, path), need)
  {
    var sorted := Sorted(utxos, path);
    SumOfPermutation(CoinOf, sorted, Candidates(utxos, path));
    forall n: nat | ReachesAt(sorted, need, n)
      ensures SumBy(CoinOf, sorted[..n]) <= U64_MAX
    {
      SumPrefix(CoinOf, sorted, n);
    }
    SelectionSucceedsExactly(utxos, need, path);
  }

  lemma {:induction false} InsertAtTheEnd(s: seq<VaultUtxo>, u: VaultUtxo)
    requires s != [] ==> CoinOf(s[|s| - 1]) >= CoinOf(u)
    ensures InsertDescending(s, u) == s + [u]
  {
    assert s == [] ==> s + [u] == [u];
  }

  lemma {:induction false} SortOneMore(s: seq<VaultUtxo>, u: VaultUtxo)
    requires SortDescending(s) == s && (s != [] ==> CoinOf(s[|s| - 1]) >= CoinOf(u))
    ensures SortDescending(s + [u]) == s + [u]
  {
    assert (s + [u])[..|s|] == s;
    InsertAtTheEnd(s, u);
  }

  lemma {:induction false} TwoStaySorted(a: VaultUtxo, b: VaultUtxo)
    requires CoinOf(a) >= CoinOf(b)
    ensures SortDescending([a, b]) == [a, b]
  {
    assert [a][..0] == [] && [a, b][..1] == [a];
    assert SortDescending([a]) == [a];
    InsertAtTheEnd([a], b);
  }

  lemma {:induction false} ThreeStaySorted(a: VaultUtxo, b: VaultUtxo, c: VaultUtxo)
    requires CoinOf(a) >= CoinOf(b) >= CoinOf(c)
    ensures SortDescending([a, b, c]) == [a, b, c]
  {
    TwoStaySorted(a, b);
    SortOneMore([a, b], c);
    assert [a, b] + [c] == [a, b, c];
  }

  lemma {:induction false} AllSpendableAreCandidates(s: seq<VaultUtxo>, path: SpendPath)
    requires forall i :: 0 <= i < |s| ==> Spendable(s[i], path)
    ensures Candidates(s, path) == s
  {
    if s == [] {
    } else {
      var n := |s| - 1;
      AllSpendableAreCandidates(s[..n], path);
      assert s == s[..n] + [s[n]];
    }
  }

  /** Where two coins are the first to reach the need and overflow. */
  lemma {:induction false} LoopOverflows(sorted: seq<VaultUtxo>, need: U64)
    requires |sorted| >= 2
    requires SumBy(CoinOf, sorted[..1]) < need && SumBy(CoinOf, sorted[..2]) > U64_MAX
    ensures SelectFrom(sorted, need, 0) == Err(InputOverflow)
    ensures StopsPastU64(sorted, need)
  {
    assert SelectFrom(sorted, need, 1) == Err(InputOverflow);
    assert sorted[..0] == [];
    assert ReachesAt(sorted, need, 2);
  }

  lemma {:induction false} SumOfThree(coins: seq<VaultUtxo>)
    requires |coins| == 3
    ensures SumBy(CoinOf, coins[..1]) == CoinOf(coins[0])
    ensures SumBy(CoinOf, coins[..2]) == CoinOf(coins[0]) + CoinOf(coins[1])
    ensures SumBy(CoinOf, coins) == CoinOf(coins[0]) + CoinOf(coins[1]) + CoinOf(coins[2])
  {
    assert coins[..1][..0] == [] && coins[..2][..1] == coins[..1];
  }

  lemma {:induction false} ThreeAreTheCandidates(coins: seq<VaultUtxo>, path: SpendPath)
    requires |coins| == 3 && forall i :: 0 <= i < 3 ==> Spendable(coins[i], path)
    requires CoinOf(coins[0]) >= CoinOf(coins[1]) >= CoinOf(coins[2])
    ensures Candidates(coins, path) == coins == Sorted(coins, path)
  {
    AllSpendableAreCandidates(coins, path);
    var a, b, c := coins[0], coins[1], coins[2];
    assert coins == [a, b, c];
    ThreeStaySorted(a, b, c);
  }

  /** Three coins of which the first and the last pay to the satoshi what a u64 can hold, and are refused: the
      largest coins that reach the need are worth one satoshi more. */
  lemma {:induction false} LargestCoinsOverflow(coins: seq<VaultUtxo>, path: SpendPath)
    requires |coins| == 3 && forall i :: 0 <= i < 3 ==> Spendable(coins[i], path)
    requires CoinOf(coins[0]) == U64_MAX - 1 && CoinOf(coins[1]) == 2 && CoinOf(coins[2]) == 1
    ensures Selection(coins, U64_MAX, path) == Err(InputOverflow)
    ensures Covers(Without(coins, 1), Candidates(coins, path), U64_MAX)
    ensures SumBy(CoinOf, Without(coins, 1)) == U64_MAX
    ensures StopsPastU64(Sorted(coins, path), U64_MAX)
  {
    ThreeAreTheCandidates(coins, path);
    SumOfThree(coins);
    SumWithout(CoinOf, coins, 1);
    LoopOverflows(coins, U64_MAX);
  }
}
