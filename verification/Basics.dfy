/** Machine integers, byte arrays, results and the sum used by every amount check.

    `U32` and `U64` are ranges of `int`: an expression over them is unbounded, and every place
    where the program stores a result back into a machine word is a proof obligation. Checked
    arithmetic is therefore always written out as a comparison with the maximum. */
module Basics {

  const U32_MAX: int := 0xFFFF_FFFF
  const U64_MAX: int := 0xFFFF_FFFF_FFFF_FFFF

  type Byte = x: int | 0 <= x < 256
  type U32 = x: int | 0 <= x <= U32_MAX
  type U64 = x: int | 0 <= x <= U64_MAX

  type Bytes16 = s: seq<Byte> | |s| == 16 witness seq(16, i => 0)
  type Bytes32 = s: seq<Byte> | |s| == 32 witness seq(32, i => 0)

  datatype Option<+T> = None | Some(value: T)

  datatype Result<+T, +E> = Ok(value: T) | Err(error: E) {
    predicate IsFailure() { Err? }

    function PropagateFailure<U>(): Result<U, E>
      requires Err?
    {
      Err(error)
    }

    function Extract(): T
      requires Ok?
    {
      value
    }
  }

  /** The reject codes of the policy crate. */
  datatype PolicyErrorCode =
    | PsbtParse | UnknownField | Sighash | DescriptorMismatch | KeySubstitution
    | WrongNetwork | WrongGenesis | InputScript | ForeignInput | NotRecoveryPath
    | PrevoutMissing | PrevoutMismatch | CsvImmatureDepth | CsvImmatureWallclock
    | Sequence | Change | Fee | Dust | Locktime | Velocity | Replay | ReplayConflict
    | ConfirmRequired | ConfirmInvalid | Auth | Internal | FeeBumpInvalid

  type PolicyResult<+T> = Result<T, PolicyErrorCode>

  /** What a loop that returns early on the first failing element computes. */
  function FirstFailure(checks: seq<PolicyResult<()>>): (r: PolicyResult<()>)
    ensures r.Ok? <==> forall k :: 0 <= k < |checks| ==> checks[k].Ok?
    ensures r.Err? ==> exists k :: 0 <= k < |checks| && checks[k] == r
                                   && forall j :: 0 <= j < k ==> checks[j].Ok?
  {
    if checks == [] then Ok(())
    else
      var n := |checks| - 1;
      var before := FirstFailure(checks[..n]);
      assert forall k :: 0 <= k < n ==> checks[..n][k] == checks[k];
      if before.Err? then before else checks[n]
  }

  // ----- Ordered conditions -----

  /** A condition, and the code of the refusal where it is the first that does not hold. */
  datatype Gate<+E> = Gate(holds: bool, code: E)

  function FirstUnmet<E>(gates: seq<Gate<E>>): Result<(), E> {
    if gates == [] then Ok(())
    else
      var before, last := FirstUnmet(gates[..|gates| - 1]), gates[|gates| - 1];
      if before.Err? then before else if last.holds then Ok(()) else Err(last.code)
  }

  lemma {:induction false} FirstUnmetMeans<E>(gates: seq<Gate<E>>)
    ensures FirstUnmet(gates).Ok? <==> forall k :: 0 <= k < |gates| ==> gates[k].holds
    ensures FirstUnmet(gates).Err? ==>
              exists k :: && 0 <= k < |gates| && !gates[k].holds && gates[k].code == FirstUnmet(gates).error
                          && forall j :: 0 <= j < k ==> gates[j].holds
  {
    if gates == [] {
    } else {
      var n := |gates| - 1;
      FirstUnmetMeans(gates[..n]);
      assert forall k :: 0 <= k < n ==> gates[..n][k] == gates[k];
    }
  }

  lemma {:induction false} FirstUnmetIs<E>(gates: seq<Gate<E>>, k: nat)
    requires k < |gates| && !gates[k].holds && forall j :: 0 <= j < k ==> gates[j].holds
    ensures FirstUnmet(gates) == Err(gates[k].code)
  {
    FirstUnmetMeans(gates);
  }

  /** A short list, spelled out. */
  lemma {:induction false} FirstUnmetOfFew<E>(gates: seq<Gate<E>>)
    requires |gates| <= 7
    ensures FirstUnmet(gates) ==
              if |gates| > 0 && !gates[0].holds then Err(gates[0].code)
              else if |gates| > 1 && !gates[1].holds then Err(gates[1].code)
              else if |gates| > 2 && !gates[2].holds then Err(gates[2].code)
              else if |gates| > 3 && !gates[3].holds then Err(gates[3].code)
              else if |gates| > 4 && !gates[4].holds then Err(gates[4].code)
              else if |gates| > 5 && !gates[5].holds then Err(gates[5].code)
              else if |gates| > 6 && !gates[6].holds then Err(gates[6].code)
              else Ok(())
  {
    if k :| 0 <= k < |gates| && !gates[k].holds && forall j :: 0 <= j < k ==> gates[j].holds {
      FirstUnmetIs(gates, k);
    } else {
      FirstUnmetMeans(gates);
    }
  }

  lemma {:induction false} FirstUnmetConcat<E>(a: seq<Gate<E>>, b: seq<Gate<E>>)
    ensures FirstUnmet(a + b) == if FirstUnmet(a).Err? then FirstUnmet(a) else FirstUnmet(b)
  {
    if b == [] {
      assert a + b == a;
    } else {
      var m := |b| - 1;
      FirstUnmetConcat(a, b[..m]);
      assert (a + b)[..|a + b| - 1] == a + b[..m];
    }
  }

  function Flatten<T>(lists: seq<seq<T>>): seq<T> {
    if lists == [] then [] else Flatten(lists[..|lists| - 1]) + lists[|lists| - 1]
  }

  /** A loop that returns early stands for the conditions of its rounds, one round after the other. */
  lemma {:induction false} FirstFailureIsFirstUnmet(checks: seq<PolicyResult<()>>,
                                                    lists: seq<seq<Gate<PolicyErrorCode>>>)
    requires |checks| == |lists|
    requires forall i :: 0 <= i < |checks| ==> checks[i] == FirstUnmet(lists[i])
    ensures FirstFailure(checks) == FirstUnmet(Flatten(lists))
  {
    if checks == [] {
    } else {
      var n := |checks| - 1;
      assert forall i :: 0 <= i < n ==> checks[..n][i] == checks[i] && lists[..n][i] == lists[i];
      FirstFailureIsFirstUnmet(checks[..n], lists[..n]);
      FirstUnmetConcat(Flatten(lists[..n]), lists[n]);
    }
  }

  // ----- Sums -----

  function SumBy<T>(f: T -> nat, s: seq<T>): nat {
    if s == [] then 0 else SumBy(f, s[..|s| - 1]) + f(s[|s| - 1])
  }

  lemma {:induction false} SumAppend<T>(f: T -> nat, s: seq<T>, x: T)
    ensures SumBy(f, s + [x]) == SumBy(f, s) + f(x)
  {
    assert (s + [x])[..|s|] == s;
  }

  lemma {:induction false} SumConcat<T>(f: T -> nat, a: seq<T>, b: seq<T>)
    ensures SumBy(f, a + b) == SumBy(f, a) + SumBy(f, b)
  {
    if b == [] {
      assert a + b == a;
    } else {
      var m := |b| - 1;
      SumConcat(f, a, b[..m]);
      assert (a + b)[..|a + b| - 1] == a + b[..m];
    }
  }

  function Without<T>(s: seq<T>, i: nat): (r: seq<T>)
    requires i < |s|
    ensures |r| == |s| - 1 && multiset(r) == multiset(s) - multiset{s[i]}
  {
    assert s == s[..i] + ([s[i]] + s[i + 1..]);
    s[..i] + s[i + 1..]
  }

  lemma {:induction false} SumWithout<T>(f: T -> nat, s: seq<T>, i: nat)
    requires i < |s|
    ensures SumBy(f, s) == SumBy(f, Without(s, i)) + f(s[i])
  {
    assert s == (s[..i] + [s[i]]) + s[i + 1..];
    SumConcat(f, s[..i] + [s[i]], s[i + 1..]);
    SumAppend(f, s[..i], s[i]);
    SumConcat(f, s[..i], s[i + 1..]);
  }

  lemma {:induction false} SumOfPermutation<T>(f: T -> nat, a: seq<T>, b: seq<T>)
    requires multiset(a) == multiset(b)
    ensures SumBy(f, a) == SumBy(f, b)
    decreases |a|
  {
    assert |a| == |multiset(a)| == |b|;
    if a == [] {
    } else {
      assert a[0] in multiset(b);
      var i :| 0 <= i < |b| && b[i] == a[0];
      SumWithout(f, a, 0);
      SumWithout(f, b, i);
      SumOfPermutation(f, Without(a, 0), Without(b, i));
    }
  }

  lemma {:induction false} SumPrefix<T>(f: T -> nat, s: seq<T>, n: nat)
    requires n <= |s|
    ensures SumBy(f, s[..n]) <= SumBy(f, s)
  {
    assert s == s[..n] + s[n..];
    SumConcat(f, s[..n], s[n..]);
  }

  lemma {:induction false} SumPointwise<S, T>(f: S -> nat, a: seq<S>, g: T -> nat, b: seq<T>)
    requires |a| == |b|
    requires forall i :: 0 <= i < |a| ==> f(a[i]) == g(b[i])
    ensures SumBy(f, a) == SumBy(g, b)
  {
    if a == [] {
    } else {
      var m := |a| - 1;
      assert forall i :: 0 <= i < m ==> a[..m][i] == a[i] && b[..m][i] == b[i];
      SumPointwise(f, a[..m], g, b[..m]);
    }
  }

  // ----- Sequences without repetition -----

  predicate NoDuplicates<T(==)>(s: seq<T>) {
    forall i, j :: 0 <= i < j < |s| ==> s[i] != s[j]
  }

  function Elements<T(==)>(s: seq<T>): set<T> {
    set x | x in s
  }

  lemma {:induction false} NoDuplicatesCount<T>(s: seq<T>, x: T)
    requires NoDuplicates(s)
    ensures multiset(s)[x] == if x in s then 1 else 0
  {
    if s == [] {
    } else {
      var m := |s| - 1;
      NoDuplicatesCount(s[..m], x);
      assert s == s[..m] + [s[m]];
      if x == s[m] {
        assert x !in s[..m];
      }
    }
  }

  /** Duplicate-free sequences over the same set have the same sum, in whatever order. */
  lemma {:induction false} SumOverSameSet<T>(f: T -> nat, a: seq<T>, b: seq<T>)
    requires NoDuplicates(a) && NoDuplicates(b)
    requires Elements(a) == Elements(b)
    ensures SumBy(f, a) == SumBy(f, b)
  {
    forall x
      ensures multiset(a)[x] == multiset(b)[x]
    {
      NoDuplicatesCount(a, x);
      NoDuplicatesCount(b, x);
      assert x in a <==> x in Elements(a);
      assert x in b <==> x in Elements(b);
    }
    assert multiset(a) == multiset(b);
    SumOfPermutation(f, a, b);
  }
}
