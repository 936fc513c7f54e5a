/** A numbered list of rules, some of them stale, from which rules are deleted by number while the
    numbers behind the deleted one shift. */
module NumberedRules {

  /** The rules that are not stale, in order. */
  function Kept(rules: seq<string>, stale: string -> bool): (kept: seq<string>)
    ensures |kept| <= |rules|
  {
    if rules == [] then []
    else (if stale(rules[0]) then [] else [rules[0]]) + Kept(rules[1..], stale)
  }

  /** The numbers of the stale ones among the first `n` rules, largest first; rules count from one. */
  function StaleNumbers(rules: seq<string>, n: nat, stale: string -> bool): (numbers: seq<nat>)
    requires n <= |rules|
    ensures |numbers| <= n && forall i | 0 <= i < |numbers| :: 1 <= numbers[i] <= n
  {
    if n == 0 then []
    else (if stale(rules[n - 1]) then [n] else []) + StaleNumbers(rules, n - 1, stale)
  }

  function Delete(rules: seq<string>, number: nat): seq<string>
    requires 1 <= number <= |rules|
  {
    rules[..number - 1] + rules[number..]
  }

  /** Deleting one number after another; a number that is gone deletes nothing. */
  function DeleteAll(rules: seq<string>, numbers: seq<nat>): seq<string> {
    if numbers == [] then rules
    else if 1 <= numbers[0] <= |rules| then DeleteAll(Delete(rules, numbers[0]), numbers[1..])
    else DeleteAll(rules, numbers[1..])
  }

  lemma {:induction false} KeptJoins(a: seq<string>, b: seq<string>, stale: string -> bool)
    ensures Kept(a + b, stale) == Kept(a, stale) + Kept(b, stale)
  {
    if a == [] {
      assert a + b == b;
    } else {
      assert (a + b)[1..] == a[1..] + b;
      KeptJoins(a[1..], b, stale);
    }
  }

  lemma {:induction false} KeptMembers(rules: seq<string>, stale: string -> bool)
    ensures forall x :: x in Kept(rules, stale) <==> x in rules && !stale(x)
  {
    if rules != [] {
      KeptMembers(rules[1..], stale);
      assert rules == [rules[0]] + rules[1..];
    }
  }

  lemma {:induction false} KeptAlready(rules: seq<string>, stale: string -> bool)
    requires forall x | x in rules :: !stale(x)
    ensures Kept(rules, stale) == rules
  {
    if rules != [] {
      KeptAlready(rules[1..], stale);
      assert rules == [rules[0]] + rules[1..];
    }
  }

  lemma KeptTwice(rules: seq<string>, stale: string -> bool)
    ensures Kept(Kept(rules, stale), stale) == Kept(rules, stale)
  {
    KeptMembers(rules, stale);
    KeptAlready(Kept(rules, stale), stale);
  }

  /** The first `n` rules as they are and the others without the stale ones. */
  function Part(rules: seq<string>, n: nat, stale: string -> bool): (part: seq<string>)
    requires n <= |rules|
    ensures |part| >= n
  {
    rules[..n] + Kept(rules[n..], stale)
  }

  lemma PartStep(rules: seq<string>, n: nat, stale: string -> bool)
    requires 0 < n <= |rules|
    ensures var part := Part(rules, n, stale);
            Part(rules, n - 1, stale) == if stale(rules[n - 1]) then Delete(part, n) else part
  {
    var part := Part(rules, n, stale);
    assert rules[n - 1..][0] == rules[n - 1] && rules[n - 1..][1..] == rules[n..];
    if stale(rules[n - 1]) {
      assert Kept(rules[n - 1..], stale) == Kept(rules[n..], stale);
      assert part[..n - 1] == rules[..n - 1] && part[n..] == Kept(rules[n..], stale);
    } else {
      assert Kept(rules[n - 1..], stale) == [rules[n - 1]] + Kept(rules[n..], stale);
      assert rules[..n] == rules[..n - 1] + [rules[n - 1]];
    }
  }

  lemma {:induction false} NextStale(rules: seq<string>, n: nat, stale: string -> bool) returns (k: nat)
    requires n <= |rules| && StaleNumbers(rules, n, stale) != []
    ensures 1 <= k <= n && stale(rules[k - 1]) && forall j | k <= j < n :: !stale(rules[j])
    ensures StaleNumbers(rules, n, stale)[0] == k
    ensures StaleNumbers(rules, k - 1, stale) == StaleNumbers(rules, n, stale)[1..]
  {
    if stale(rules[n - 1]) {
      k := n;
    } else {
      k := NextStale(rules, n - 1, stale);
    }
  }

  lemma {:induction false} PartSkips(rules: seq<string>, k: nat, n: nat, stale: string -> bool)
    requires k <= n <= |rules| && forall j | k <= j < n :: !stale(rules[j])
    ensures Part(rules, k, stale) == Part(rules, n, stale)
  {
    if k < n {
      PartStep(rules, n, stale);
      PartSkips(rules, k, n - 1, stale);
    }
  }

  /** Deleting the largest stale number among the first `n` rules. */
  lemma NextDeletion(rules: seq<string>, n: nat, stale: string -> bool)
    requires n <= |rules| && StaleNumbers(rules, n, stale) != []
    ensures var k := StaleNumbers(rules, n, stale)[0];
            && Delete(Part(rules, n, stale), k) == Part(rules, k - 1, stale)
            && StaleNumbers(rules, k - 1, stale) == StaleNumbers(rules, n, stale)[1..]
  {
    var k := NextStale(rules, n, stale);
    PartSkips(rules, k, n, stale);
    PartStep(rules, k, stale);
  }

  lemma DeleteFirst(rules: seq<string>, numbers: seq<nat>, done: nat)
    requires 0 < done <= |numbers| && 1 <= numbers[0] <= |rules|
    ensures DeleteAll(rules, numbers[..done]) == DeleteAll(Delete(rules, numbers[0]), numbers[1..][..done - 1])
  {
    assert numbers[..done][1..] == numbers[1..][..done - 1];
  }

  /** Part of the way down the numbers, the rules below the last one deleted are untouched and those
      above it are the kept ones. */
  lemma {:induction false} DeletedFrom(rules: seq<string>, n: nat, done: nat, stale: string -> bool) returns (cut: nat)
    requires n <= |rules| && done <= |StaleNumbers(rules, n, stale)|
    ensures cut <= n
    ensures DeleteAll(Part(rules, n, stale), StaleNumbers(rules, n, stale)[..done]) == Part(rules, cut, stale)
    ensures StaleNumbers(rules, cut, stale) == StaleNumbers(rules, n, stale)[done..]
    decreases done
  {
    var numbers := StaleNumbers(rules, n, stale);
    if done == 0 {
      cut := n;
    } else {
      NextDeletion(rules, n, stale);
      DeleteFirst(Part(rules, n, stale), numbers, done);
      cut := DeletedFrom(rules, numbers[0] - 1, done - 1, stale);
      assert numbers[done..] == numbers[1..][done - 1..];
    }
  }

  lemma DeletedSoFar(rules: seq<string>, done: nat, stale: string -> bool) returns (cut: nat)
    requires done <= |StaleNumbers(rules, |rules|, stale)|
    ensures cut <= |rules|
    ensures DeleteAll(rules, StaleNumbers(rules, |rules|, stale)[..done]) == Part(rules, cut, stale)
    ensures StaleNumbers(rules, cut, stale) == StaleNumbers(rules, |rules|, stale)[done..]
  {
    assert Part(rules, |rules|, stale) == rules;
    cut := DeletedFrom(rules, |rules|, done, stale);
  }

  lemma KeptPart(rules: seq<string>, n: nat, stale: string -> bool)
    requires n <= |rules|
    ensures Kept(Part(rules, n, stale), stale) == Kept(rules, stale)
    ensures StaleNumbers(rules, n, stale) == [] ==> Part(rules, n, stale) == Kept(rules, stale)
  {
    assert rules == rules[..n] + rules[n..];
    KeptJoins(rules[..n], rules[n..], stale);
    KeptJoins(rules[..n], Kept(rules[n..], stale), stale);
    KeptTwice(rules[n..], stale);
    NothingStaleIff(rules, n, stale);
    if StaleNumbers(rules, n, stale) == [] {
      KeptAlready(rules[..n], stale);
    }
  }

  lemma {:induction false} NothingStaleIff(rules: seq<string>, n: nat, stale: string -> bool)
    requires n <= |rules|
    ensures StaleNumbers(rules, n, stale) == [] <==> forall x | x in rules[..n] :: !stale(x)
  {
    if n > 0 {
      NothingStaleIff(rules, n - 1, stale);
      assert rules[..n] == rules[..n - 1] + [rules[n - 1]];
    }
  }

  /** Deleting the stale rules by number, largest first, leaves exactly the other rules in order. */
  lemma DescendingDeletesStale(rules: seq<string>, stale: string -> bool)
    ensures DeleteAll(rules, StaleNumbers(rules, |rules|, stale)) == Kept(rules, stale)
  {
    var numbers := StaleNumbers(rules, |rules|, stale);
    var cut := DeletedSoFar(rules, |numbers|, stale);
    assert numbers[..|numbers|] == numbers;
    KeptPart(rules, cut, stale);
  }

  /** Stopped anywhere on the way, no rule but stale ones is gone. */
  lemma PartDeletesOnlyStale(rules: seq<string>, done: nat, stale: string -> bool)
    requires done <= |StaleNumbers(rules, |rules|, stale)|
    ensures Kept(DeleteAll(rules, StaleNumbers(rules, |rules|, stale)[..done]), stale) == Kept(rules, stale)
  {
    var cut := DeletedSoFar(rules, done, stale);
    KeptPart(rules, cut, stale);
  }

  /** In the other order the shifting numbers hit another rule. */
  lemma AscendingDeletesOthers(gone: string, other: string, stale: string -> bool)
    requires stale(gone) && !stale(other)
    ensures var rules := [gone, gone, other];
            StaleNumbers(rules, 3, stale) == [2, 1] && DeleteAll(rules, [1, 2]) == [gone]
  {
    var rules := [gone, gone, other];
    assert StaleNumbers(rules, 0, stale) == [];
    assert StaleNumbers(rules, 1, stale) == [1];
    assert StaleNumbers(rules, 2, stale) == [2, 1];
    assert [1, 2][1..] == [2] && [2][1..] == [];
    assert Delete(rules, 1) == [gone, other];
    assert Delete([gone, other], 2) == [gone];
    assert DeleteAll([gone, other], [2]) == [gone];
  }

  /** The next number still stands for the rule it stood for in the listing. */
  lemma DeleteNext(lines: seq<string>, i: nat, stale: string -> bool)
    requires i < |StaleNumbers(lines, |lines|, stale)|
    ensures var numbers := StaleNumbers(lines, |lines|, stale);
            var left := DeleteAll(lines, numbers[..i]);
            && 1 <= numbers[i] <= |left| && left[numbers[i] - 1] == lines[numbers[i] - 1]
            && DeleteAll(lines, numbers[..i + 1]) == Delete(left, numbers[i])
  {
    var numbers := StaleNumbers(lines, |lines|, stale);
    var cut := DeletedSoFar(lines, i, stale);
    assert numbers[i] == numbers[i..][0] <= cut;
    DeleteAllSnoc(lines, numbers, i);
  }

  lemma {:induction false} DeleteAllSnoc(rules: seq<string>, numbers: seq<nat>, i: nat)
    requires i < |numbers| && 1 <= numbers[i] <= |DeleteAll(rules, numbers[..i])|
    ensures DeleteAll(rules, numbers[..i + 1]) == Delete(DeleteAll(rules, numbers[..i]), numbers[i])
  {
    if i == 0 {
      assert numbers[..1] == [numbers[0]];
    } else {
      var left := if 1 <= numbers[0] <= |rules| then Delete(rules, numbers[0]) else rules;
      assert numbers[..i][1..] == numbers[1..][..i - 1] && numbers[..i + 1][1..] == numbers[1..][..i];
      DeleteAllSnoc(left, numbers[1..], i - 1);
    }
  }

  // ---- the whole operation ----

  /** How the wanted rule and the rules of the installer are recognised. */
  datatype Marks = Marks(current: string -> bool, owned: string -> bool) {
    function Stale(): string -> bool {
      x => owned(x) && !current(x)
    }
  }

  predicate HasCurrent(rules: seq<string>, marks: Marks) {
    exists x | x in rules :: marks.current(x)
  }

  datatype Outcome = Inactive | Failed | Done(changed: bool, removed: nat)

  datatype Run = Run(outcome: Outcome, rules: seq<string>)

  /** `shown` is how the added rule is listed afterwards; `budget` is how many firewall commands
      succeed before one fails. */
  function Ensured(active: bool, rules: seq<string>, marks: Marks, shown: string, budget: nat): Run {
    var numbers := StaleNumbers(rules, |rules|, marks.Stale());
    if !active then Run(Inactive, rules)
    else if budget < |numbers| then Run(Failed, DeleteAll(rules, numbers[..budget]))
    else if HasCurrent(rules, marks) then Run(Done(numbers != [], |numbers|), DeleteAll(rules, numbers))
    else if budget == |numbers| then Run(Failed, DeleteAll(rules, numbers))
    else Run(Done(true, |numbers|), DeleteAll(rules, numbers) + [shown])
  }

  /** What a run that does not fail leaves behind. */
  function Wanted(rules: seq<string>, marks: Marks, shown: string): seq<string> {
    Kept(rules, marks.Stale()) + if HasCurrent(rules, marks) then [] else [shown]
  }

  lemma DoneMeansWanted(rules: seq<string>, marks: Marks, shown: string, budget: nat)
    ensures var run := Ensured(true, rules, marks, shown, budget);
            && (run.outcome.Done? ==> run.rules == Wanted(rules, marks, shown))
            && (run.outcome.Done? && !run.outcome.changed ==> run.rules == rules)
            && !run.outcome.Inactive?
  {
    DescendingDeletesStale(rules, marks.Stale());
  }

  lemma {:induction false} StaleCount(rules: seq<string>, n: nat, stale: string -> bool)
    requires n <= |rules|
    ensures |StaleNumbers(rules, n, stale)| + |Kept(rules[..n], stale)| == n
  {
    if n > 0 {
      StaleCount(rules, n - 1, stale);
      assert rules[..n] == rules[..n - 1] + [rules[n - 1]];
      KeptJoins(rules[..n - 1], [rules[n - 1]], stale);
    }
  }

  /** A run finishes exactly if enough commands succeed: one for each stale rule, and one to add the
      rule unless it is there. It reports how many rules went, and a change if it made one. */
  lemma FinishesIff(rules: seq<string>, marks: Marks, shown: string, budget: nat)
    ensures var run := Ensured(true, rules, marks, shown, budget);
            var gone := |rules| - |Kept(rules, marks.Stale())|;
            && (run.outcome.Done? <==> gone + (if HasCurrent(rules, marks) then 0 else 1) <= budget)
            && (run.outcome.Done? ==>
                  run.outcome.removed == gone && run.outcome.changed == (gone > 0 || !HasCurrent(rules, marks)))
  {
    StaleCount(rules, |rules|, marks.Stale());
    assert rules[..|rules|] == rules;
  }

  /** A run after a failed one leaves what a run without the failure leaves. */
  lemma RerunAfterFailure(rules: seq<string>, marks: Marks, shown: string, budget: nat, budget': nat)
    requires Ensured(true, rules, marks, shown, budget).outcome.Failed?
    ensures var failed := Ensured(true, rules, marks, shown, budget);
            var again := Ensured(true, failed.rules, marks, shown, budget');
            again.outcome.Done? ==> again.rules == Wanted(rules, marks, shown)
  {
    var numbers := StaleNumbers(rules, |rules|, marks.Stale());
    var failed := Ensured(true, rules, marks, shown, budget);
    PartDeletesOnlyStale(rules, budget, marks.Stale());
    assert budget == |numbers| ==> numbers[..budget] == numbers;
    KeptMembers(rules, marks.Stale());
    KeptMembers(failed.rules, marks.Stale());
    assert HasCurrent(failed.rules, marks) == HasCurrent(Kept(rules, marks.Stale()), marks) == HasCurrent(rules, marks);
    DoneMeansWanted(failed.rules, marks, shown, budget');
  }

  /** After a finished run there is a current rule, and the next run finds nothing to do, exactly
      when there was one before or the added one is listed in the recognised form. */
  lemma SecondRunChangesNothingIff(rules: seq<string>, marks: Marks, shown: string, budget: nat, budget': nat)
    requires Ensured(true, rules, marks, shown, budget).outcome.Done?
    requires Ensured(true, Ensured(true, rules, marks, shown, budget).rules, marks, shown, budget').outcome.Done?
    ensures var first := Ensured(true, rules, marks, shown, budget);
            var second := Ensured(true, first.rules, marks, shown, budget');
            && (HasCurrent(first.rules, marks) <==> HasCurrent(rules, marks) || marks.current(shown))
            && (!second.outcome.changed <==> HasCurrent(rules, marks) || marks.current(shown))
            && (!second.outcome.changed ==> second.rules == first.rules && second.outcome.removed == 0)
  {
    var first := Ensured(true, rules, marks, shown, budget).rules;
    DoneMeansWanted(rules, marks, shown, budget);
    WantedIsSettledIff(rules, marks, shown);
    DoneMeansWanted(first, marks, shown, budget');
  }

  lemma WantedIsSettledIff(rules: seq<string>, marks: Marks, shown: string)
    ensures var wanted := Wanted(rules, marks, shown);
            && (HasCurrent(wanted, marks) <==> HasCurrent(rules, marks) || marks.current(shown))
            && (HasCurrent(wanted, marks) ==> StaleNumbers(wanted, |wanted|, marks.Stale()) == [])
  {
    var wanted := Wanted(rules, marks, shown);
    KeptMembers(rules, marks.Stale());
    assert wanted[..|wanted|] == wanted;
    NothingStaleIff(wanted, |wanted|, marks.Stale());
    assert marks.current(shown) && !HasCurrent(rules, marks) ==> shown in wanted;
  }
}
