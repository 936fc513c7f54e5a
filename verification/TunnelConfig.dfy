/** The tunnel's configuration file, line by line: the managed rules are merged in before the last
    catch-all rule. */
module TunnelConfig {
  import opened Options
  import opened Text
  import opened ConfigLines

  const MANAGED := "  # tazaxy-managed-"
  const START := MANAGED + "start"
  const END := MANAGED + "end"

  predicate StartsBlock(line: string) {
    StartsWith(line, START)
  }

  predicate EndsBlock(line: string) {
    StartsWith(line, END)
  }

  predicate IsBlank(line: string) {
    TrimStart(line) == ""
  }

  predicate IsIngress(line: string) {
    StartsWith(line, "ingress:") && IsBlank(line[|"ingress:"|..])
  }

  predicate IsCatchAll(line: string) {
    |line| >= 2 && IsSpace(line[0]) && IsSpace(line[1]) && StartsWith(line[2..], "- service:")
  }

  predicate IsIndented(line: string) {
    StartsWith(line, "    ")
  }

  const RULE := "  - hostname:"

  predicate IsRuleFor(line: string, host: string) {
    var rule := TrimEnd(line);
    StartsWith(rule, RULE) && TrimStart(rule[|RULE|..]) == host
  }

  // ---- the managed rules ----

  function RuleLines(host: string, service: string): seq<string> {
    [RULE + " " + host, "    service: " + service] +
    if StartsWith(service, "https://") then ["    originRequest:", "      noTLSVerify: true"] else []
  }

  function ManagedRules(panelHost: string, panelService: string, subscriptionHost: string, subscriptionService: string):
    seq<string>
  {
    [START] + RuleLines(panelHost, panelService) + RuleLines(subscriptionHost, subscriptionService) + [END]
  }

  predicate HasNoSpace(s: string) {
    forall i | 0 <= i < |s| :: !IsSpace(s[i])
  }

  /** The host named by a line of the rules. */
  function HostOf(line: string): Option<string> {
    var start := TrimStart(line);
    if !StartsWith(start, "- hostname:") then None else
      var host := TrimStart(start[|"- hostname:"|..]);
      if host != "" && HasNoSpace(host) then Some(host) else None
  }

  function Hosts(rules: seq<string>): seq<string> {
    if rules == [] then []
    else (if HostOf(rules[0]).Some? then [HostOf(rules[0]).value] else []) + Hosts(rules[1..])
  }

  // ---- what is taken out ----

  /** Text behind the end marker on its line stays. */
  function Remainder(line: string): seq<string> {
    if |line| > |END| then [line[|END|..]] else []
  }

  /** What follows the first end marker. */
  function BehindEnd(lines: seq<string>, ends: Pick): (rest: Option<seq<string>>)
    ensures rest.Some? == Has(lines, ends)
  {
    if lines == [] then None
    else if ends(lines[0]) then Some(Remainder(lines[0]) + lines[1..])
    else BehindEnd(lines[1..], ends)
  }

  /** The first block goes, from its start marker to the end marker, if it ends. */
  function WithoutBlock(lines: seq<string>, starts: Pick, ends: Pick): seq<string> {
    if lines == [] then []
    else if starts(lines[0]) then
      match BehindEnd(lines[1..], ends)
      case None => lines
      case Some(rest) => rest
    else [lines[0]] + WithoutBlock(lines[1..], starts, ends)
  }

  function DropWhile(lines: seq<string>, pick: Pick): (rest: seq<string>)
    ensures |rest| <= |lines| && rest == lines[|lines| - |rest|..]
  {
    if lines != [] && pick(lines[0]) then DropWhile(lines[1..], pick) else lines
  }

  /** What follows a rule and its body: blank lines go, then indented ones. */
  function BehindBody(lines: seq<string>): (rest: seq<string>)
    ensures |rest| <= |lines| && rest == lines[|lines| - |rest|..]
  {
    DropWhile(DropWhile(lines, IsBlank), IsIndented)
  }

  /** Every rule picked goes, with the blank lines behind it and the indented lines behind those. */
  function WithoutRules(lines: seq<string>, isRule: Pick): (kept: seq<string>)
    ensures |kept| <= |lines|
  {
    if lines == [] then []
    else if isRule(lines[0]) then WithoutRules(BehindBody(lines[1..]), isRule)
    else [lines[0]] + WithoutRules(lines[1..], isRule)
  }

  function RuleFor(host: string): Pick {
    line => IsRuleFor(line, host)
  }

  function WithoutHosts(lines: seq<string>, hosts: seq<string>): seq<string>
    decreases |hosts|
  {
    if hosts == [] then lines else WithoutHosts(WithoutRules(lines, RuleFor(hosts[0])), hosts[1..])
  }

  /** White space at the end of the file goes; nothing at all makes one empty line. */
  function Tidy(lines: seq<string>): (r: seq<string>)
    ensures r != []
  {
    if lines == [] then [""]
    else
      var last := TrimEnd(lines[|lines| - 1]);
      if last == "" then Tidy(lines[..|lines| - 1]) else lines[..|lines| - 1] + [last]
  }

  function Kept(lines: seq<string>, rules: seq<string>): seq<string> {
    Tidy(WithoutHosts(WithoutBlock(lines, StartsBlock, EndsBlock), Hosts(rules)))
  }

  // ---- merging ----

  /** The place of the last line picked behind `from`. */
  function LastAfter(lines: seq<string>, from: nat, pick: Pick): (k: Option<nat>)
    ensures k.None? ==> forall i | from < i < |lines| :: !pick(lines[i])
    ensures k.Some? ==> from < k.value < |lines| && pick(lines[k.value])
    ensures k.Some? ==> forall i | k.value < i < |lines| :: !pick(lines[i])
  {
    if |lines| <= from + 1 then None
    else if pick(lines[|lines| - 1]) then Some(|lines| - 1)
    else LastAfter(lines[..|lines| - 1], from, pick)
  }

  datatype Outcome = NoIngress | NoCatchAll | Merged(lines: seq<string>)

  /** The place of the last line picked behind the section. */
  function PlaceOf(kept: seq<string>, section: Pick, pick: Pick): (k: nat)
    ensures k <= |kept|
  {
    var k := LastAfter(kept, First(kept, section), pick);
    if k.Some? then k.value else |kept|
  }

  /** The rules go before the last line picked behind the section. */
  function Placed(kept: seq<string>, rules: seq<string>, section: Pick, pick: Pick): Outcome {
    if !Has(kept, section) then NoIngress
    else match LastAfter(kept, First(kept, section), pick)
      case None => NoCatchAll
      case Some(k) => Merged(Inserted(kept, k, rules))
  }

  function Merge(lines: seq<string>, rules: seq<string>): Outcome {
    Placed(Kept(lines, rules), rules, IsIngress, IsCatchAll)
  }

  method RemoveHosts(lines: seq<string>, hosts: seq<string>) returns (withoutOld: seq<string>)
    ensures withoutOld == WithoutHosts(lines, hosts)
  {
    withoutOld := lines;
    for h := 0 to |hosts|
      invariant WithoutHosts(withoutOld, hosts[h..]) == WithoutHosts(lines, hosts)
    {
      assert hosts[h..][1..] == hosts[h + 1..];
      withoutOld := WithoutRules(withoutOld, RuleFor(hosts[h]));
    }
  }

  /** The scan from the last line up to the one behind `from`. */
  method FindLastAfter(lines: seq<string>, from: nat, pick: Pick) returns (k: Option<nat>)
    requires from < |lines|
    ensures k == LastAfter(lines, from, pick)
  {
    var index := |lines| - 1;
    while index > from
      invariant from <= index < |lines|
      invariant LastAfter(lines, from, pick) == LastAfter(lines[..index + 1], from, pick)
    {
      if pick(lines[index]) {
        return Some(index);
      }
      assert lines[..index + 1][..index] == lines[..index];
      index := index - 1;
    }
    return None;
  }

  method MergeConfig(lines: seq<string>, rules: seq<string>) returns (outcome: Outcome)
    ensures outcome == Merge(lines, rules)
  {
    var withoutOld := RemoveHosts(WithoutBlock(lines, StartsBlock, EndsBlock), Hosts(rules));
    var kept := Tidy(withoutOld);
    var ingress := First(kept, IsIngress);
    if ingress == |kept| {
      return NoIngress;
    }
    var catchAll := FindLastAfter(kept, ingress, IsCatchAll);
    if catchAll.None? {
      return NoCatchAll;
    }
    return Merged(Inserted(kept, catchAll.value, rules));
  }
}
