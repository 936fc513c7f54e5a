/** Reading the routes of a tunnel file back: who is served by what, and what a search finds after a
    merge. */
module TunnelRoutes {
  import opened Options
  import opened Text
  import opened ConfigLines
  import opened TunnelConfig
  import opened TunnelSections
  import opened TunnelMerge
  import opened TunnelRules

  datatype Route = Route(host: string, service: string, port: string)

  /** What the URL parser and the check of host names answer; `None` where they throw. */
  datatype Reader = Reader(clean: string -> Option<string>, port: string -> Option<string>)

  /** An address on a line of its own: `http://` or `https://` and at least one character more, without
      white space. */
  predicate IsAddress(service: string) {
    && HasNoSpace(service)
    && ((StartsWith(service, "http://") && |service| > |"http://"|) ||
        (StartsWith(service, "https://") && |service| > |"https://"|))
  }

  const SERVICE := "service:"

  /** The address named by an indented line. */
  function ServiceOf(line: string): Option<string> {
    var text := TrimEnd(line);
    if text == "" || !IsSpace(text[0]) || !StartsWith(TrimStart(text), SERVICE) then None
    else
      var service := TrimStart(TrimStart(text)[|SERVICE|..]);
      if IsAddress(service) then Some(service) else None
  }

  /** The rule that a host and its service make, unless either is malformed. */
  function RouteOf(host: string, service: string, reader: Reader): seq<Route> {
    var name, port := reader.clean(host), reader.port(service);
    if name.Some? && port.Some? then [Route(name.value, service, port.value)] else []
  }

  /** The routes in lines that follow an open host, which is empty when there is none. */
  function Routes(lines: seq<string>, host: string, reader: Reader): seq<Route> {
    if lines == [] then []
    else
      var named, service := HostOf(TrimEnd(lines[0])), ServiceOf(lines[0]);
      if named.Some? then Routes(lines[1..], named.value, reader)
      else if host != "" && service.Some? then
        RouteOf(host, service.value, reader) + Routes(lines[1..], "", reader)
      else Routes(lines[1..], host, reader)
  }

  /** The host that lines leave open. */
  function OpenHost(lines: seq<string>, host: string): string {
    if lines == [] then host
    else
      var named := HostOf(TrimEnd(lines[0]));
      if named.Some? then OpenHost(lines[1..], named.value)
      else if host != "" && ServiceOf(lines[0]).Some? then OpenHost(lines[1..], "")
      else OpenHost(lines[1..], host)
  }

  function FirstWith(routes: seq<Route>, port: string): Option<Route> {
    if routes == [] then None
    else if routes[0].port == port then Some(routes[0])
    else FirstWith(routes[1..], port)
  }

  /** The pass over the lines. */
  method ReadRoutes(lines: seq<string>, reader: Reader) returns (routes: seq<Route>)
    ensures routes == Routes(lines, "", reader)
  {
    routes := [];
    var hostname := "";
    for i := 0 to |lines|
      invariant Routes(lines, "", reader) == routes + Routes(lines[i..], hostname, reader)
    {
      assert lines[i..][1..] == lines[i + 1..];
      var named := HostOf(TrimEnd(lines[i]));
      if named.Some? {
        hostname := named.value;
      } else {
        var service := ServiceOf(lines[i]);
        if hostname != "" && service.Some? {
          JoinRoutes(routes, RouteOf(hostname, service.value, reader), Routes(lines[i + 1..], "", reader));
          routes := routes + RouteOf(hostname, service.value, reader);
          hostname := "";
        }
      }
    }
    assert routes + [] == routes;
  }

  lemma JoinRoutes(a: seq<Route>, b: seq<Route>, c: seq<Route>)
    ensures a + (b + c) == a + b + c
  {
  }

  lemma {:induction false} RoutesJoin(a: seq<string>, b: seq<string>, host: string, reader: Reader)
    ensures Routes(a + b, host, reader) == Routes(a, host, reader) + Routes(b, OpenHost(a, host), reader)
    decreases |a|
  {
    if a == [] {
      assert a + b == b;
    } else {
      assert (a + b)[0] == a[0] && (a + b)[1..] == a[1..] + b;
      var named, service := HostOf(TrimEnd(a[0])), ServiceOf(a[0]);
      if named.Some? {
        RoutesJoin(a[1..], b, named.value, reader);
      } else if host != "" && service.Some? {
        RoutesJoin(a[1..], b, "", reader);
        JoinRoutes(RouteOf(host, service.value, reader), Routes(a[1..], "", reader),
          Routes(b, OpenHost(a[1..], ""), reader));
      } else {
        RoutesJoin(a[1..], b, host, reader);
      }
    }
  }

  // ---- the lines of the managed rules ----

  predicate IsNeutral(line: string) {
    HostOf(TrimEnd(line)) == None && ServiceOf(line) == None
  }

  lemma {:induction false} NeutralLines(lines: seq<string>, host: string, reader: Reader)
    requires forall line | line in lines :: IsNeutral(line)
    ensures Routes(lines, host, reader) == [] && OpenHost(lines, host) == host
  {
    if lines != [] {
      assert lines[0] in lines;
      NeutralLines(lines[1..], host, reader);
    }
  }

  /** A line that is neither: it goes on with something else behind the white space. */
  lemma NeutralLine(line: string, n: nat)
    requires n < |line| && forall i | 0 <= i < n :: IsSpace(line[i])
    requires !IsSpace(line[n]) && line[n] != '-' && line[n] != 's' && !IsSpace(line[|line| - 1])
    ensures IsNeutral(line)
  {
    NoHost(line, n);
    TrimStartTo(line, n);
    assert SERVICE[0] == 's';
    NotStart(line[n..], SERVICE, 0);
  }

  lemma FixedLinesAreNeutral()
    ensures IsNeutral(START) && IsNeutral(END)
    ensures IsNeutral("    originRequest:") && IsNeutral("      noTLSVerify: true")
  {
    StartIsNeutral();
    EndIsNeutral();
    OriginIsNeutral();
    NoVerifyIsNeutral();
  }

  lemma OriginIsNeutral()
    ensures IsNeutral("    originRequest:")
  {
    NeutralLine("    originRequest:", 4);
  }

  lemma NoVerifyIsNeutral()
    ensures IsNeutral("      noTLSVerify: true")
  {
    NeutralLine("      noTLSVerify: true", 6);
  }

  lemma StartIsNeutral()
    ensures IsNeutral(START)
  {
    assert MANAGED[0] == ' ' && MANAGED[1] == ' ' && MANAGED[2] == '#';
    assert START[|START| - 1] == 't';
    NeutralLine(START, 2);
  }

  lemma EndIsNeutral()
    ensures IsNeutral(END)
  {
    assert MANAGED[0] == ' ' && MANAGED[1] == ' ' && MANAGED[2] == '#';
    assert END[|END| - 1] == 'd';
    NeutralLine(END, 2);
  }

  lemma ServiceLineIsRead(service: string)
    requires IsAddress(service)
    ensures HostOf(TrimEnd("    service: " + service)) == None
    ensures ServiceOf("    service: " + service) == Some(service)
  {
    var line := "    service: " + service;
    var rest := SERVICE + (" " + service);
    assert line == "    " + rest && rest[0] == 's';
    assert line[|line| - 1] == service[|service| - 1];
    NoHost(line, 4);
    TrimStartTo(line, 4);
    assert line[4..] == rest;
    JoinStarts(SERVICE, " " + service);
    TrimStartTo(" " + service, 1);
    assert (" " + service)[1..] == service;
  }

  lemma HostLineIsRead(host: string)
    requires IsHost(host)
    ensures HostOf(TrimEnd(RULE + " " + host)) == Some(host)
  {
    var line := RULE + " " + host;
    assert line[|line| - 1] == host[|host| - 1];
    HostOfRule(host);
  }

  lemma TwoLines(named: string, line: string, host: string, service: string, before: string, reader: Reader)
    requires HostOf(TrimEnd(named)) == Some(host) && host != ""
    requires HostOf(TrimEnd(line)) == None && ServiceOf(line) == Some(service)
    ensures Routes([named, line], before, reader) == RouteOf(host, service, reader)
    ensures OpenHost([named, line], before) == ""
  {
    var tail := [line];
    assert [named, line][1..] == tail && tail[1..] == [];
    assert Routes(tail, host, reader) == RouteOf(host, service, reader) + Routes([], "", reader);
    assert OpenHost(tail, host) == OpenHost([], "");
  }

  /** The lines of a rule are read back as that rule. */
  lemma RuleIsRead(host: string, service: string, before: string, reader: Reader)
    requires IsHost(host) && IsAddress(service)
    ensures Routes(RuleLines(host, service), before, reader) == RouteOf(host, service, reader)
    ensures OpenHost(RuleLines(host, service), before) == ""
  {
    var named, line := RULE + " " + host, "    service: " + service;
    var more := if StartsWith(service, "https://") then ["    originRequest:", "      noTLSVerify: true"] else [];
    HostLineIsRead(host);
    ServiceLineIsRead(service);
    TwoLines(named, line, host, service, before, reader);
    FixedLinesAreNeutral();
    NeutralLines(more, "", reader);
    RoutesJoin([named, line], more, before, reader);
    OpenJoin([named, line], more, before);
    assert RuleLines(host, service) == [named, line] + more;
  }

  lemma {:induction false} OpenJoin(a: seq<string>, b: seq<string>, host: string)
    ensures OpenHost(a + b, host) == OpenHost(b, OpenHost(a, host))
    decreases |a|
  {
    if a == [] {
      assert a + b == b;
    } else {
      assert (a + b)[0] == a[0] && (a + b)[1..] == a[1..] + b;
      var named := HostOf(TrimEnd(a[0]));
      OpenJoin(a[1..], b,
        if named.Some? then named.value else if host != "" && ServiceOf(a[0]).Some? then "" else host);
    }
  }

  /** The managed rules are read back as the two rules they are. */
  lemma ManagedRulesAreRead(
    panelHost: string, panelService: string, subscriptionHost: string, subscriptionService: string,
    before: string, reader: Reader)
    requires IsHost(panelHost) && IsAddress(panelService) && IsHost(subscriptionHost) && IsAddress(subscriptionService)
    ensures var rules := ManagedRules(panelHost, panelService, subscriptionHost, subscriptionService);
            && Routes(rules, before, reader) ==
                 RouteOf(panelHost, panelService, reader) + RouteOf(subscriptionHost, subscriptionService, reader)
            && OpenHost(rules, before) == ""
  {
    var first, second := RuleLines(panelHost, panelService), RuleLines(subscriptionHost, subscriptionService);
    FixedLinesAreNeutral();
    NeutralLines([START], before, reader);
    NeutralLines([END], "", reader);
    RuleIsRead(panelHost, panelService, before, reader);
    RuleIsRead(subscriptionHost, subscriptionService, "", reader);
    RoutesJoin([START], first, before, reader);
    OpenJoin([START], first, before);
    RoutesJoin([START] + first, second, before, reader);
    OpenJoin([START] + first, second, before);
    RoutesJoin([START] + first + second, [END], before, reader);
    OpenJoin([START] + first + second, [END], before);
  }

  // ---- reading back after a merge ----

  /** The rules found for the two ports; none when the ports are the same. */
  function Discovered(lines: seq<string>, panelPort: string, subscriptionPort: string, reader: Reader):
    (Option<Route>, Option<Route>)
  {
    if panelPort == subscriptionPort then (None, None)
    else (FirstWith(Routes(lines, "", reader), panelPort), FirstWith(Routes(lines, "", reader), subscriptionPort))
  }

  lemma {:induction false} FirstJoins(a: seq<Route>, b: seq<Route>, port: string)
    ensures FirstWith(a + b, port) == if FirstWith(a, port).Some? then FirstWith(a, port) else FirstWith(b, port)
  {
    if a == [] {
      assert a + b == b;
    } else {
      assert (a + b)[0] == a[0] && (a + b)[1..] == a[1..] + b;
      FirstJoins(a[1..], b, port);
    }
  }

  /** A merged file has the routes of what is kept above the rules, the two managed ones, and those of
      what is kept below. */
  lemma MergedRoutes(
    lines: seq<string>, panelHost: string, panelService: string, subscriptionHost: string, subscriptionService: string,
    reader: Reader)
    requires IsHost(panelHost) && IsAddress(panelService) && IsHost(subscriptionHost) && IsAddress(subscriptionService)
    requires Merge(lines, ManagedRules(panelHost, panelService, subscriptionHost, subscriptionService)).Merged?
    ensures var rules := ManagedRules(panelHost, panelService, subscriptionHost, subscriptionService);
            Routes(Merge(lines, rules).lines, "", reader) ==
              Routes(Upper(lines, rules), "", reader) +
              (RouteOf(panelHost, panelService, reader) + RouteOf(subscriptionHost, subscriptionService, reader)) +
              Routes(Lower(lines, rules), "", reader)
  {
    var rules := ManagedRules(panelHost, panelService, subscriptionHost, subscriptionService);
    var upper, lower := Upper(lines, rules), Lower(lines, rules);
    MergePlaces(lines, rules);
    ManagedRulesAreRead(panelHost, panelService, subscriptionHost, subscriptionService, OpenHost(upper, ""), reader);
    RoutesJoin(upper, rules, "", reader);
    OpenJoin(upper, rules, "");
    RoutesJoin(upper + rules, lower, "", reader);
  }

  /** What discovery finds for a port in a merged file: a rule kept above the managed ones if there is
      one for that port, and otherwise the managed one, host and service as they were written. */
  lemma DiscoversWritten(
    lines: seq<string>, panel: Route, subscription: Route, reader: Reader)
    requires IsHost(panel.host) && IsAddress(panel.service) && reader.clean(panel.host) == Some(panel.host)
    requires IsHost(subscription.host) && IsAddress(subscription.service)
    requires reader.clean(subscription.host) == Some(subscription.host)
    requires reader.port(panel.service) == Some(panel.port) && panel.port != subscription.port
    requires reader.port(subscription.service) == Some(subscription.port)
    requires Merge(lines, ManagedRules(panel.host, panel.service, subscription.host, subscription.service)).Merged?
    ensures var rules := ManagedRules(panel.host, panel.service, subscription.host, subscription.service);
            var above := Discovered(Upper(lines, rules), panel.port, subscription.port, reader);
            Discovered(Merge(lines, rules).lines, panel.port, subscription.port, reader) ==
              (if above.0.Some? then above.0 else Some(panel), if above.1.Some? then above.1 else Some(subscription))
  {
    var rules := ManagedRules(panel.host, panel.service, subscription.host, subscription.service);
    var above, below := Routes(Upper(lines, rules), "", reader), Routes(Lower(lines, rules), "", reader);
    MergedRoutes(lines, panel.host, panel.service, subscription.host, subscription.service, reader);
    assert [panel] + [subscription] == [panel, subscription];
    FindsBetween(above, panel, subscription, below, panel.port);
    FindsBetween(above, panel, subscription, below, subscription.port);
  }

  lemma FindsBetween(above: seq<Route>, first: Route, second: Route, below: seq<Route>, port: string)
    requires (first.port == port) != (second.port == port)
    ensures FirstWith(above + [first, second] + below, port) ==
      if FirstWith(above, port).Some? then FirstWith(above, port)
      else Some(if first.port == port then first else second)
  {
    FirstJoins(above + [first, second], below, port);
    FirstJoins(above, [first, second], port);
    assert [first, second][1..] == [second];
  }
}
