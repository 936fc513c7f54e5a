/** The forms of the configuration lines that the installer recognises, as the texts they are. */
module LineForms {
  import opened Text
  import PgConfig
  import TunnelConfig

  predicate AllSpaces(s: string) {
    forall i | 0 <= i < |s| :: IsSpace(s[i])
  }

  // ---- trimming ----

  lemma {:induction false} TrimStartParts(s: string) returns (n: nat)
    ensures n <= |s| && AllSpaces(s[..n]) && TrimStart(s) == s[n..]
    ensures n < |s| ==> !IsSpace(s[n])
  {
    n := 0;
    if s != "" && IsSpace(s[0]) {
      var m := TrimStartParts(s[1..]);
      n := m + 1;
      assert s[..n] == [s[0]] + s[1..][..m];
    }
  }

  lemma {:induction false} TrimEndParts(s: string) returns (n: nat)
    ensures n <= |s| && AllSpaces(s[n..]) && TrimEnd(s) == s[..n]
  {
    n := |s|;
    if s != "" && IsSpace(s[|s| - 1]) {
      var front := s[..|s| - 1];
      n := TrimEndParts(front);
      assert s[n..] == front[n..] + [s[|s| - 1]] && s[..n] == front[..n];
    }
  }

  lemma {:induction false} TrimStartJoins(a: string, b: string)
    requires AllSpaces(a)
    ensures TrimStart(a + b) == TrimStart(b)
  {
    if a == "" {
      assert a + b == b;
    } else {
      assert (a + b)[1..] == a[1..] + b;
      TrimStartJoins(a[1..], b);
    }
  }

  lemma {:induction false} TrimEndJoins(a: string, b: string)
    requires AllSpaces(b)
    ensures TrimEnd(a + b) == TrimEnd(a)
  {
    if b == "" {
      assert a + b == a;
    } else {
      assert (a + b)[..|a + b| - 1] == a + b[..|b| - 1];
      TrimEndJoins(a, b[..|b| - 1]);
    }
  }

  lemma BlankIff(s: string)
    ensures TrimStart(s) == "" <==> AllSpaces(s)
  {
    var n := TrimStartParts(s);
    assert s == s[..n] + s[n..];
  }

  lemma StartsWithIff(s: string, start: string)
    ensures StartsWith(s, start) <==> exists rest :: s == start + rest
  {
    if StartsWith(s, start) {
      assert s == start + s[|start|..];
    }
    if rest :| s == start + rest {
      JoinStarts(start, rest);
    }
  }

  // ---- the tunnel file ----

  /** `ingress:` at the start of the line and nothing but white space behind it. */
  lemma IngressIff(line: string)
    ensures TunnelConfig.IsIngress(line) <==> exists b :: AllSpaces(b) && line == "ingress:" + b
  {
    var key := "ingress:";
    if TunnelConfig.IsIngress(line) {
      var b := line[|key|..];
      BlankIff(b);
      assert AllSpaces(b) && line == key + b;
    }
    if b :| AllSpaces(b) && line == key + b {
      JoinStarts(key, b);
      BlankIff(b);
    }
  }

  /** Two white-space characters, `- service:` and anything. */
  lemma CatchAllIff(line: string)
    ensures TunnelConfig.IsCatchAll(line) <==>
      exists a, rest :: |a| == 2 && AllSpaces(a) && line == a + ("- service:" + rest)
  {
    var key := "- service:";
    if TunnelConfig.IsCatchAll(line) {
      var a, rest := line[..2], line[2..][|key|..];
      assert line[2..] == key + rest && line == a + line[2..];
      assert |a| == 2 && AllSpaces(a) && line == a + (key + rest);
    }
    if a, rest :| |a| == 2 && AllSpaces(a) && line == a + (key + rest) {
      assert line[2..] == key + rest;
      JoinStarts(key, rest);
    }
  }

  /** The key at its place, white space, exactly the host, and white space. */
  lemma RuleForIff(line: string, host: string)
    requires host != "" && TunnelConfig.HasNoSpace(host)
    ensures TunnelConfig.IsRuleFor(line, host) <==>
      exists a, b :: AllSpaces(a) && AllSpaces(b) && line == "  - hostname:" + (a + host) + b
  {
    if TunnelConfig.IsRuleFor(line, host) {
      var a, b := RuleParts(line, host);
    }
    if a, b :| AllSpaces(a) && AllSpaces(b) && line == "  - hostname:" + (a + host) + b {
      RuleOfParts(line, host, a, b);
    }
  }

  lemma RuleParts(line: string, host: string) returns (a: string, b: string)
    requires TunnelConfig.IsRuleFor(line, host)
    ensures AllSpaces(a) && AllSpaces(b) && line == "  - hostname:" + (a + host) + b
  {
    var n := TrimEndParts(line);
    var rest := line[..n][|TunnelConfig.RULE|..];
    var k := TrimStartParts(rest);
    a, b := rest[..k], line[n..];
    assert line[..n] == TunnelConfig.RULE + rest && rest == a + host && line == line[..n] + b;
  }

  lemma RuleOfParts(line: string, host: string, a: string, b: string)
    requires host != "" && TunnelConfig.HasNoSpace(host)
    requires AllSpaces(a) && AllSpaces(b) && line == "  - hostname:" + (a + host) + b
    ensures TunnelConfig.IsRuleFor(line, host)
  {
    var rule := "  - hostname:" + (a + host);
    TrimEndJoins(rule, b);
    assert rule[|rule| - 1] == host[|host| - 1];
    JoinStarts("  - hostname:", a + host);
    TrimStartJoins(a, host);
  }

  // ---- the files of PostgreSQL ----

  /** The key and an equals sign, with white space before either and anything behind. */
  lemma SettingIff(line: string)
    ensures PgConfig.IsSetting(line) <==>
      exists a, b, rest :: AllSpaces(a) && AllSpaces(b) && line == a + ("listen_addresses" + (b + ("=" + rest)))
  {
    if PgConfig.IsSetting(line) {
      var a, b, rest := SettingParts(line);
    }
    if a, b, rest :| AllSpaces(a) && AllSpaces(b) && line == a + ("listen_addresses" + (b + ("=" + rest))) {
      SettingOfParts(line, a, b, rest);
    }
  }

  lemma SettingParts(line: string) returns (a: string, b: string, rest: string)
    requires PgConfig.IsSetting(line)
    ensures AllSpaces(a) && AllSpaces(b) && line == a + ("listen_addresses" + (b + ("=" + rest)))
  {
    var n := TrimStartParts(line);
    a := line[..n];
    var tail := line[n..][|PgConfig.KEY|..];
    b, rest := EqualsParts(tail);
    assert line[n..] == "listen_addresses" + tail && line == a + line[n..];
  }

  lemma EqualsParts(tail: string) returns (b: string, rest: string)
    requires StartsWith(TrimStart(tail), "=")
    ensures AllSpaces(b) && tail == b + ("=" + rest)
  {
    var k := TrimStartParts(tail);
    b, rest := tail[..k], tail[k..][1..];
    assert tail[k..] == "=" + rest && tail == b + tail[k..];
  }

  lemma SettingOfParts(line: string, a: string, b: string, rest: string)
    requires AllSpaces(a) && AllSpaces(b) && line == a + ("listen_addresses" + (b + ("=" + rest)))
    ensures PgConfig.IsSetting(line)
  {
    var tail := b + ("=" + rest);
    var start := "listen_addresses" + tail;
    TrimStartJoins(a, start);
    assert start[0] == 'l';
    JoinStarts("listen_addresses", tail);
    TrimStartJoins(b, "=" + rest);
    assert ("=" + rest)[0] == '=';
    JoinStarts("=", rest);
  }

  /** The keyword, with white space or nothing before it, and white space and anything behind it. */
  predicate IsHbaForm(line: string, a: string, keyword: string, c: char, rest: string) {
    && AllSpaces(a) && (keyword == "host" || keyword == "local") && IsSpace(c)
    && line == a + (keyword + ([c] + rest))
  }

  lemma HbaRuleIff(line: string)
    ensures PgConfig.IsRule(line) <==> exists a, keyword, c, rest :: IsHbaForm(line, a, keyword, c, rest)
  {
    if PgConfig.IsRule(line) {
      var n := TrimStartParts(line);
      var start := line[n..];
      var keyword := if PgConfig.IsKeyword(start, "host") then "host" else "local";
      var c, rest := start[|keyword|], start[|keyword| + 1..];
      assert start == keyword + ([c] + rest) && line == line[..n] + start;
      assert IsHbaForm(line, line[..n], keyword, c, rest);
    }
    if a, keyword, c, rest :| IsHbaForm(line, a, keyword, c, rest) {
      HbaRuleOfParts(line, a, keyword, c, rest);
    }
  }

  lemma HbaRuleOfParts(line: string, a: string, keyword: string, c: char, rest: string)
    requires IsHbaForm(line, a, keyword, c, rest)
    ensures PgConfig.IsRule(line)
  {
    var start := keyword + ([c] + rest);
    TrimStartJoins(a, start);
    assert start[0] == keyword[0] && (keyword[0] == 'h' || keyword[0] == 'l');
    JoinStarts(keyword, [c] + rest);
    assert start[|keyword|] == c;
  }
}
