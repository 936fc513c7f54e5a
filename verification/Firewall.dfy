/** The host firewall: stale rules of the installer are deleted by number while the numbers shift. */
module Firewall {
  import opened NumberedRules

  predicate Includes(line: string, part: string) {
    |line| >= |part| && (line[..|part|] == part || (line != "" && Includes(line[1..], part)))
  }

  const COMMENT := "# tazaxy-postgres"
  const LEGACY_COMMENT := "# tazaxy app -> postgres"

  datatype Route = Route(subnet: string, gateway: string, bridge: string, port: string)

  /** The rule now wanted. */
  predicate IsCurrent(rule: string, route: Route) {
    && Includes(rule, route.subnet) && Includes(rule, route.gateway) && Includes(rule, route.port + "/tcp")
    && Includes(rule, " on " + route.bridge + " ") && Includes(rule, COMMENT)
  }

  predicate IsOwned(rule: string) {
    Includes(rule, COMMENT) || Includes(rule, LEGACY_COMMENT)
  }

  function MarksFor(route: Route): Marks {
    Marks(rule => IsCurrent(rule, route), rule => IsOwned(rule))
  }

  // ---- which rules these are ----

  ghost predicate Contains(line: string, part: string) {
    exists a, b :: line == a + part + b
  }

  lemma IncludesIff(line: string, part: string)
    ensures Includes(line, part) <==> Contains(line, part)
  {
    if Includes(line, part) {
      var a, b := Around(line, part);
    }
    if a, b :| line == a + part + b {
      IncludedBetween(a, part, b);
    }
  }

  lemma {:induction false} Around(line: string, part: string) returns (a: string, b: string)
    requires Includes(line, part)
    ensures line == a + part + b
  {
    if line[..|part|] == part {
      a, b := "", line[|part|..];
    } else {
      a, b := Around(line[1..], part);
      a := [line[0]] + a;
    }
  }

  lemma {:induction false} IncludedBetween(a: string, part: string, b: string)
    ensures Includes(a + part + b, part)
  {
    var line := a + part + b;
    if a == "" {
      assert line[..|part|] == part;
    } else {
      assert line[1..] == a[1..] + part + b;
      IncludedBetween(a[1..], part, b);
    }
  }

  /** A rule the installer put up, now or in an earlier version, by its comment. */
  ghost predicate IsOurs(rule: string) {
    Contains(rule, "# tazaxy-postgres") || Contains(rule, "# tazaxy app -> postgres")
  }

  /** The rule for this subnet, gateway, port and bridge, under the present comment. */
  ghost predicate IsWanted(rule: string, route: Route) {
    && Contains(rule, route.subnet) && Contains(rule, route.gateway) && Contains(rule, route.port + "/tcp")
    && Contains(rule, " on " + route.bridge + " ") && Contains(rule, "# tazaxy-postgres")
  }

  lemma MarksAre(rule: string, route: Route)
    ensures MarksFor(route).current(rule) <==> IsWanted(rule, route)
    ensures MarksFor(route).owned(rule) <==> IsOurs(rule)
  {
    IncludesIff(rule, route.subnet);
    IncludesIff(rule, route.gateway);
    IncludesIff(rule, route.port + "/tcp");
    IncludesIff(rule, " on " + route.bridge + " ");
    IncludesIff(rule, COMMENT);
    IncludesIff(rule, LEGACY_COMMENT);
  }

  /** The rules that stay, in order: those of others, and the wanted one. */
  ghost function Staying(rules: seq<string>, route: Route): seq<string> {
    if rules == [] then []
    else (if IsOurs(rules[0]) && !IsWanted(rules[0], route) then [] else [rules[0]]) + Staying(rules[1..], route)
  }

  lemma {:induction false} KeptAreStaying(rules: seq<string>, route: Route)
    ensures Kept(rules, MarksFor(route).Stale()) == Staying(rules, route)
  {
    if rules != [] {
      MarksAre(rules[0], route);
      KeptAreStaying(rules[1..], route);
    }
  }

  ghost predicate HasWanted(rules: seq<string>, route: Route) {
    exists rule <- rules :: IsWanted(rule, route)
  }

  lemma HasCurrentIff(rules: seq<string>, route: Route)
    ensures HasCurrent(rules, MarksFor(route)) <==> HasWanted(rules, route)
  {
    forall rule ensures MarksFor(route).current(rule) <==> IsWanted(rule, route) {
      MarksAre(rule, route);
    }
  }

  /** An active firewall ends with the rules of others and the wanted one, exactly if as many commands
      succeed as there are old rules of the installer and a wanted one to add; otherwise it fails, and
      then nothing but old rules of the installer is gone. */
  lemma RouteOutcome(rules: seq<string>, route: Route, shown: string, budget: nat)
    ensures var run := Ensured(true, rules, MarksFor(route), shown, budget);
            var missing := if HasWanted(rules, route) then [] else [shown];
            && (run.outcome.Done? <==> |rules| - |Staying(rules, route)| + |missing| <= budget)
            && (run.outcome.Done? ==> run.rules == Staying(rules, route) + missing)
            && (!run.outcome.Done? ==>
                  run.outcome == Failed && Staying(run.rules, route) == Staying(rules, route))
  {
    var marks := MarksFor(route);
    var run := Ensured(true, rules, marks, shown, budget);
    FinishesIff(rules, marks, shown, budget);
    DoneMeansWanted(rules, marks, shown, budget);
    KeptAreStaying(rules, route);
    KeptAreStaying(run.rules, route);
    HasCurrentIff(rules, route);
    if !run.outcome.Done? {
      var numbers := StaleNumbers(rules, |rules|, marks.Stale());
      assert |numbers| == budget ==> numbers[..budget] == numbers;
      PartDeletesOnlyStale(rules, budget, marks.Stale());
    }
  }

  class Provisioner {
    var active: bool
    var rules: seq<string>

    constructor (active: bool, rules: seq<string>)
      ensures this.active == active && this.rules == rules
    {
      this.active := active;
      this.rules := rules;
    }

    method EnsureScopedFirewallRule(route: Route, shown: string, budget: nat) returns (outcome: Outcome)
      modifies this
      ensures active == old(active)
      ensures Run(outcome, rules) == Ensured(old(active), old(rules), MarksFor(route), shown, budget)
      ensures !active ==> outcome.Inactive? && rules == old(rules)
      ensures active ==>
        var missing := if HasWanted(old(rules), route) then [] else [shown];
        && (outcome.Done? <==> |old(rules)| - |Staying(old(rules), route)| + |missing| <= budget)
        && (outcome.Done? ==> rules == Staying(old(rules), route) + missing)
        && (!outcome.Done? ==> outcome == Failed && Staying(rules, route) == Staying(old(rules), route))
    {
      RouteOutcome(rules, route, shown, budget);
      outcome := EnsureRule(MarksFor(route), shown, budget);
    }

    /** The listing is read once; its numbers stay right because the largest is deleted first. */
    method EnsureRule(marks: Marks, shown: string, budget: nat) returns (outcome: Outcome)
      modifies this
      ensures active == old(active)
      ensures Run(outcome, rules) == Ensured(old(active), old(rules), marks, shown, budget)
    {
      if !active {
        return Inactive;
      }
      var lines := rules;
      var already := HasCurrent(lines, marks);
      var numbers := StaleOwnedRules(lines, marks);
      var deleted := DeleteRules(numbers, marks, budget);
      if !deleted || (!already && |numbers| == budget) {
        return Failed;
      }
      if already {
        return Done(numbers != [], |numbers|);
      }
      rules := rules + [shown];
      return Done(true, |numbers|);
    }

    method DeleteRules(numbers: seq<nat>, marks: Marks, budget: nat) returns (deleted: bool)
      requires numbers == StaleNumbers(rules, |rules|, marks.Stale())
      modifies this
      ensures active == old(active) && deleted == (|numbers| <= budget)
      ensures rules == DeleteAll(old(rules), if deleted then numbers else numbers[..budget])
    {
      ghost var lines := rules;
      var i := 0;
      while i < |numbers|
        invariant i <= |numbers| && i <= budget && active == old(active)
        invariant rules == DeleteAll(lines, numbers[..i])
      {
        if i == budget {
          return false;
        }
        DeleteNext(lines, i, marks.Stale());
        rules := Delete(rules, numbers[i]);
        i := i + 1;
      }
      assert numbers[..|numbers|] == numbers;
      return true;
    }
  }

  /** The listing shows numbers in rising order, so putting each in front sorts them downwards. */
  method StaleOwnedRules(lines: seq<string>, marks: Marks) returns (numbers: seq<nat>)
    ensures numbers == StaleNumbers(lines, |lines|, marks.Stale())
  {
    numbers := [];
    for n := 0 to |lines|
      invariant numbers == StaleNumbers(lines, n, marks.Stale())
    {
      if marks.Stale()(lines[n]) {
        numbers := [n + 1] + numbers;
      }
    }
  }
}
