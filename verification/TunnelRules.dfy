/** The rules the installer writes, and its markers. */
module TunnelRules {
  import opened Options
  import opened Text
  import opened ConfigLines
  import opened TunnelConfig
  import opened TunnelSections
  import opened TunnelMerge

  predicate IsInner(line: string) {
    !IsIngress(line) && !EndsBlock(line) && !IsCatchAll(line)
  }

  /** Three characters tell that a line is none of the special ones. */
  lemma NotSpecial(line: string)
    requires |line| > 4 && line[0] == ' '
    ensures !IsIngress(line)
    ensures line[2] != '#' ==> !EndsBlock(line)
    ensures line[2] != '-' || line[4] != 's' ==> !IsCatchAll(line)
  {
    NotStart(line, "ingress:", 0);
    if line[2] != '#' {
      NotStart(line, END, 2);
    }
    if line[2] != '-' {
      NotStart(line[2..], "- service:", 0);
    } else if line[4] != 's' {
      NotStart(line[2..], "- service:", 2);
    }
  }

  lemma InnerLine(line: string)
    requires |line| > 4 && line[0] == ' ' && line[2] != '#' && (line[2] != '-' || line[4] != 's')
    ensures IsInner(line)
  {
    NotSpecial(line);
  }

  lemma NamedIsInner(host: string)
    ensures IsInner(RULE + " " + host)
  {
    var named := RULE + " " + host;
    assert named[0] == ' ' && named[2] == '-' && named[4] == 'h';
    InnerLine(named);
  }

  lemma OriginIsInner()
    ensures IsInner("    originRequest:") && IsInner("      noTLSVerify: true")
  {
    InnerLine("    originRequest:");
    InnerLine("      noTLSVerify: true");
  }

  lemma RuleLinesAreInner(host: string, service: string)
    ensures forall line | line in RuleLines(host, service) :: IsInner(line)
  {
    NamedIsInner(host);
    InnerLine("    service: " + service);
    OriginIsInner();
  }

  lemma MarkersDiffer()
    ensures StartsBlock(START) && !EndsBlock(START) && EndsBlock(END) && !StartsBlock(END)
    ensures !IsIngress(START) && !IsCatchAll(START) && !IsIngress(END) && !IsCatchAll(END)
  {
    assert MANAGED[0] == ' ' && MANAGED[2] == '#';
    NotSpecial(START);
    NotSpecial(END);
    assert START[|MANAGED|] == 's' && END[|MANAGED|] == 'e';
    NotStart(START, END, |MANAGED|);
    NotStart(END, START, |MANAGED|);
    assert START[..|START|] == START && END[..|END|] == END;
  }

  lemma ManagedRulesAreManaged(
    panelHost: string, panelService: string, subscriptionHost: string, subscriptionService: string)
    ensures var rules := ManagedRules(panelHost, panelService, subscriptionHost, subscriptionService);
            IsManaged(rules) && !Has(rules, IsCatchAll) && !Has(rules, IsIngress)
  {
    var rules := ManagedRules(panelHost, panelService, subscriptionHost, subscriptionService);
    RuleLinesAreInner(panelHost, panelService);
    RuleLinesAreInner(subscriptionHost, subscriptionService);
    MarkersDiffer();
    var first, second := RuleLines(panelHost, panelService), RuleLines(subscriptionHost, subscriptionService);
    assert rules == [START] + first + second + [END];
    forall i | 0 < i < |rules| - 1 ensures rules[i] in first || rules[i] in second {
      if i <= |first| {
        assert rules[i] == first[i - 1];
      } else {
        assert rules[i] == second[i - 1 - |first|];
      }
    }
  }

  // ---- the rules name their own hosts ----

  /** A host as the installer accepts them, at least. */
  predicate IsHost(host: string) {
    host != "" && HasNoSpace(host)
  }

  lemma HostOfNamed(key: string, host: string)
    requires IsHost(host) && key == "- hostname:"
    ensures HostOf("  " + (key + (" " + host))) == Some(host)
  {
    var value := " " + host;
    TrimStartTo(value, 1);
    assert value[1..] == host;
    JoinStarts(key, value);
    assert (key + value)[0] == key[0] == '-';
    JoinStarts("  ", key + value);
    TrimStartTo("  " + (key + value), 2);
  }

  lemma NamedIsRuleFor(host: string)
    requires IsHost(host)
    ensures forall other :: IsRuleFor(RULE + (" " + host), other) <==> other == host
  {
    var value := " " + host;
    TrimStartTo(value, 1);
    assert value[1..] == host;
    JoinStarts(RULE, value);
    assert (RULE + value)[|RULE + value| - 1] == host[|host| - 1];
  }

  lemma HostOfRule(host: string)
    requires IsHost(host)
    ensures HostOf(RULE + " " + host) == Some(host)
    ensures forall other :: IsRuleFor(RULE + " " + host, other) <==> other == host
  {
    HostOfNamed("- hostname:", host);
    NamedIsRuleFor(host);
    assert RULE + " " + host == RULE + (" " + host);
    assert RULE + " " + host == "  " + ("- hostname:" + (" " + host));
  }

  lemma NoHost(line: string, n: nat)
    requires n < |line| && !IsSpace(line[n]) && line[n] != '-' && forall i | 0 <= i < n :: IsSpace(line[i])
    ensures HostOf(line) == None && !IsBlank(line)
  {
    TrimStartTo(line, n);
    NotStart(line[n..], "- hostname:", 0);
  }

  lemma {:induction false} HostsJoin(a: seq<string>, b: seq<string>)
    ensures Hosts(a + b) == Hosts(a) + Hosts(b)
  {
    if a == [] {
      assert a + b == b;
    } else {
      assert (a + b)[0] == a[0] && (a + b)[1..] == a[1..] + b;
      HostsJoin(a[1..], b);
    }
  }

  /** The lines of a rule behind the one that names its host. */
  function Body(service: string): seq<string> {
    ["    service: " + service] +
    if StartsWith(service, "https://") then ["    originRequest:", "      noTLSVerify: true"] else []
  }

  predicate IsBodyLine(line: string) {
    IsIndented(line) && !IsBlank(line) && HostOf(line) == None
  }

  lemma BodyLine(rest: string)
    requires rest != "" && !IsSpace(rest[0]) && rest[0] != '-'
    ensures IsBodyLine("    " + rest)
  {
    var line := "    " + rest;
    assert line[..4] == "    " && line[4] == rest[0];
    NoHost(line, 4);
  }

  lemma OriginIsBody()
    ensures IsBodyLine("    originRequest:")
  {
    BodyLine("originRequest:");
    assert "    originRequest:" == "    " + "originRequest:";
  }

  lemma NoVerifyIsBody()
    ensures IsBodyLine("      noTLSVerify: true")
  {
    NoHost("      noTLSVerify: true", 6);
  }

  lemma ServiceIsBody(service: string)
    ensures IsBodyLine("    service: " + service)
  {
    BodyLine("service: " + service);
    assert "    service: " + service == "    " + ("service: " + service);
  }

  lemma AllBodyLines(first: string, second: string, third: string, all: bool)
    requires IsBodyLine(first) && IsBodyLine(second) && IsBodyLine(third)
    ensures forall line | line in [first] + if all then [second, third] else [] :: IsBodyLine(line)
  {
  }

  lemma BodyIsIndented(service: string)
    ensures forall line | line in Body(service) :: IsBodyLine(line)
  {
    ServiceIsBody(service);
    OriginIsBody();
    NoVerifyIsBody();
    AllBodyLines("    service: " + service, "    originRequest:", "      noTLSVerify: true",
      StartsWith(service, "https://"));
  }

  lemma {:induction false} NoHosts(lines: seq<string>)
    requires forall line | line in lines :: HostOf(line) == None
    ensures Hosts(lines) == []
  {
    if lines != [] {
      NoHosts(lines[1..]);
    }
  }

  lemma HostsOfRule(host: string, service: string)
    requires IsHost(host)
    ensures RuleLines(host, service) == [RULE + " " + host] + Body(service)
    ensures Hosts(RuleLines(host, service)) == [host]
  {
    HostOfRule(host);
    BodyIsIndented(service);
    NoHosts(Body(service));
    HostsJoin([RULE + " " + host], Body(service));
  }

  lemma HostsOfManaged(panelHost: string, panelService: string, subscriptionHost: string, subscriptionService: string)
    requires IsHost(panelHost) && IsHost(subscriptionHost)
    ensures Hosts(ManagedRules(panelHost, panelService, subscriptionHost, subscriptionService))
      == [panelHost, subscriptionHost]
  {
    var first, second := RuleLines(panelHost, panelService), RuleLines(subscriptionHost, subscriptionService);
    HostsOfRule(panelHost, panelService);
    HostsOfRule(subscriptionHost, subscriptionService);
    NoHost(START, 2);
    NoHost(END, 2);
    HostsJoin([START] + first + second, [END]);
    HostsJoin([START] + first, second);
    HostsJoin([START], first);
    assert [panelHost] + [subscriptionHost] == [panelHost, subscriptionHost];
  }

  lemma {:induction false} DropAll(lines: seq<string>, rest: seq<string>, pick: Pick)
    requires forall line | line in lines :: pick(line)
    ensures DropWhile(lines + rest, pick) == DropWhile(rest, pick)
  {
    if lines == [] {
      assert lines + rest == rest;
    } else {
      assert (lines + rest)[0] == lines[0] && (lines + rest)[1..] == lines[1..] + rest;
      DropAll(lines[1..], rest, pick);
    }
  }

  lemma StopsAtOnce(lines: seq<string>, pick: Pick)
    requires lines != [] ==> !pick(lines[0])
    ensures DropWhile(lines, pick) == lines
  {
  }

  lemma BodyGoes(body: seq<string>, rest: seq<string>)
    requires body != [] && forall line | line in body :: IsBodyLine(line)
    requires rest != [] ==> !IsIndented(rest[0])
    ensures BehindBody(body + rest) == rest
  {
    assert (body + rest)[0] == body[0] && body[0] in body;
    StopsAtOnce(body + rest, IsBlank);
    DropAll(body, rest, IsIndented);
    StopsAtOnce(rest, IsIndented);
  }

  /** A rule goes with its body, up to a line that is not indented. */
  lemma RuleGoes(host: string, service: string, rest: seq<string>)
    requires IsHost(host) && (rest != [] ==> !IsIndented(rest[0]))
    ensures WithoutRules(RuleLines(host, service) + rest, RuleFor(host)) == WithoutRules(rest, RuleFor(host))
  {
    var named, body := RULE + " " + host, Body(service);
    HostOfRule(host);
    HostsOfRule(host, service);
    BodyIsIndented(service);
    BodyGoes(body, rest);
    HeadGoes(named, body + rest, RuleFor(host));
    Assoc([named], body, rest);
  }

  lemma HeadGoes(rule: string, lines: seq<string>, isRule: Pick)
    requires isRule(rule)
    ensures WithoutRules([rule] + lines, isRule) == WithoutRules(BehindBody(lines), isRule)
  {
    assert ([rule] + lines)[1..] == lines;
  }

  /** The managed rules, without their markers, go with their hosts. */
  predicate GoWithHosts(rules: seq<string>) {
    && |rules| >= 2 && rules[0] == START && rules[|rules| - 1] == END
    && WithoutHosts(rules[1..|rules| - 1], Hosts(rules)) == []
  }

  lemma OtherRuleStays(host: string, service: string, other: string)
    requires IsHost(host) && other != host
    ensures WithoutRules(RuleLines(host, service), RuleFor(other)) == RuleLines(host, service)
  {
    HostOfRule(host);
    HostsOfRule(host, service);
    BodyIsIndented(service);
    RuleStays(RULE + " " + host, Body(service), other);
  }

  lemma RuleStays(named: string, body: seq<string>, other: string)
    requires !IsRuleFor(named, other) && forall line | line in body :: IsBodyLine(line)
    ensures WithoutRules([named] + body, RuleFor(other)) == [named] + body
  {
    forall i | 0 <= i < |body| ensures !IsRuleFor(body[i], other) {
      assert body[i] in body;
      BodyIsNoRule(body[i], other);
    }
    NoRulesToTakeOut([named] + body, RuleFor(other));
  }

  lemma BodyIsNoRule(line: string, host: string)
    requires IsIndented(line)
    ensures !IsRuleFor(line, host)
  {
    var rule := TrimEnd(line);
    TrimEndIsPrefix(line);
    assert line[..4][2] == line[2];
    assert |rule| > 2 ==> line[..|rule|][2] == rule[2];
    if |rule| > 2 {
      NotStart(rule, RULE, 2);
    }
  }

  lemma ManagedRulesGoWithHosts(
    panelHost: string, panelService: string, subscriptionHost: string, subscriptionService: string)
    requires IsHost(panelHost) && IsHost(subscriptionHost)
    ensures GoWithHosts(ManagedRules(panelHost, panelService, subscriptionHost, subscriptionService))
  {
    var rules := ManagedRules(panelHost, panelService, subscriptionHost, subscriptionService);
    var first, second := RuleLines(panelHost, panelService), RuleLines(subscriptionHost, subscriptionService);
    HostsOfManaged(panelHost, panelService, subscriptionHost, subscriptionService);
    assert rules[1..|rules| - 1] == first + second;
    var named := RULE + " " + subscriptionHost;
    assert second[0] == named && !IsIndented(named) by {
      assert named[..4][2] == '-' && "    "[2] == ' ';
    }
    RuleGoes(panelHost, panelService, second);
    assert second + [] == second;
    RuleGoes(subscriptionHost, subscriptionService, []);
    if panelHost != subscriptionHost {
      OtherRuleStays(subscriptionHost, subscriptionService, panelHost);
    }
    GoneWithBoth(first + second, panelHost, subscriptionHost);
  }

  lemma OneHost(lines: seq<string>, host: string)
    ensures WithoutHosts(lines, [host]) == WithoutRules(lines, RuleFor(host))
  {
  }

  lemma GoneWithBoth(lines: seq<string>, first: string, second: string)
    requires WithoutRules(WithoutRules(lines, RuleFor(first)), RuleFor(second)) == []
    ensures WithoutHosts(lines, [first, second]) == []
  {
    assert [first, second][1..] == [second];
    OneHost(WithoutRules(lines, RuleFor(first)), second);
  }
}
