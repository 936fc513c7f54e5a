/** Merging twice: a closed block left above the rules, and exactly when nothing changes. */
module TunnelTwice {
  import opened Options
  import opened Text
  import opened ConfigLines
  import opened TunnelConfig
  import opened TunnelSections
  import opened TunnelMerge
  import opened TunnelRules

  // ---- what the second merge keeps ----

  lemma MarkerStands(marker: string, hosts: seq<string>)
    requires marker == START || marker == END
    ensures IsTopLine(marker) && !HasRuleFor([marker], hosts)
  {
    assert MANAGED[0] == ' ' && MANAGED[1] == ' ' && MANAGED[2] == '#';
    TrimStartTo(marker, 2);
    NotStart(marker, "    ", 2);
    forall h | 0 <= h < |hosts| ensures !IsRuleFor(marker, hosts[h]) {
      CommentIsNoRule(marker, hosts[h]);
    }
  }

  lemma CommentIsNoRule(line: string, host: string)
    requires |line| > 2 && line[2] == '#'
    ensures !IsRuleFor(line, host)
  {
    var rule := TrimEnd(line);
    TrimEndIsPrefix(line);
    assert |rule| > 2 ==> line[..|rule|][2] == rule[2];
    if |rule| > 2 {
      NotStart(rule, RULE, 2);
    }
  }

  /** Of rules put in, only the markers stay when the hosts are taken out without the block. */
  lemma MarkersStay(a: seq<string>, rules: seq<string>, b: seq<string>)
    requires GoWithHosts(rules) && NamesNone(b, Hosts(rules))
    ensures WithoutHosts(a + rules + b, Hosts(rules)) == WithoutHosts(a, Hosts(rules)) + [START, END] + b
  {
    var hosts, inner := Hosts(rules), rules[1..|rules| - 1];
    MarkerStands(START, hosts);
    MarkerStands(END, hosts);
    Spread(a, rules, b);
    HostsSplit(a, [START], inner + [END] + b, hosts);
    HostsSplit(inner, [END], b, hosts);
    NothingToTakeOut(b, hosts);
    Gather(WithoutHosts(a, hosts), b);
  }

  lemma Spread(a: seq<string>, rules: seq<string>, b: seq<string>)
    requires |rules| >= 2
    ensures a + rules + b
      == a + [rules[0]] + (rules[1..|rules| - 1] + [rules[|rules| - 1]] + b)
  {
    assert rules == [rules[0]] + (rules[1..|rules| - 1] + [rules[|rules| - 1]]);
  }

  lemma Gather(a: seq<string>, b: seq<string>)
    ensures a + [START] + ([] + [END] + b) == a + [START, END] + b
  {
  }

  /** What the second merge keeps above the rules when the block left there is closed: it takes that
      block out instead of the rules, and of these the two markers stay. */
  function UpperTwice(upper: seq<string>, rules: seq<string>): seq<string> {
    WithoutHosts(WithoutBlock(upper, StartsBlock, EndsBlock), Hosts(rules)) + [START, END]
  }

  lemma ClosedBlockIsTakenOut(lines: seq<string>, rules: seq<string>)
    requires GoWithHosts(rules) && Merge(lines, rules).Merged?
    requires Has(Upper(lines, rules), StartsBlock) && IsClosed(Upper(lines, rules), StartsBlock, EndsBlock)
    ensures Kept(Merge(lines, rules).lines, rules) == UpperTwice(Upper(lines, rules), rules) + Lower(lines, rules)
  {
    var upper, lower := Upper(lines, rules), Lower(lines, rules);
    MergePlaces(lines, rules);
    Assoc(upper, rules, lower);
    BlockInFront(upper, rules + lower, StartsBlock, EndsBlock);
    Assoc(WithoutBlock(upper, StartsBlock, EndsBlock), rules, lower);
    KeptNamesNone(lines, rules);
    PartNamesNone(Kept(lines, rules), lower, Hosts(rules));
    MarkersStay(WithoutBlock(upper, StartsBlock, EndsBlock), rules, lower);
    KeptEndsTidy(lines, rules);
    TidyStays(UpperTwice(upper, rules), lower);
  }

  lemma SameUpper(a: seq<string>, a': seq<string>, rules: seq<string>, b: seq<string>)
    ensures a + rules + b == a' + rules + b <==> a == a'
  {
    var x, y := a + rules + b, a' + rules + b;
    if x == y {
      assert |a| == |a'|;
      assert a == x[..|a|] && a' == y[..|a|];
    }
  }

  lemma SameIffUpper(lines: seq<string>, rules: seq<string>)
    requires GoWithHosts(rules) && Merge(lines, rules).Merged?
    requires Has(Upper(lines, rules), StartsBlock) && IsClosed(Upper(lines, rules), StartsBlock, EndsBlock)
    ensures Merge(Merge(lines, rules).lines, rules) == Merge(lines, rules)
      <==> UpperTwice(Upper(lines, rules), rules) == Upper(lines, rules)
  {
    var upper, lower := Upper(lines, rules), Lower(lines, rules);
    MergePlaces(lines, rules);
    ClosedBlockIsTakenOut(lines, rules);
    PlacedAbove(UpperTwice(upper, rules), lower, rules);
    SameUpper(UpperTwice(upper, rules), upper, rules, lower);
  }

  // ---- bare pairs of markers ----

  /** Start and end markers in turn, with nothing else on their lines or between them. */
  predicate BarePairs(lines: seq<string>) {
    lines == [] || (|lines| >= 2 && lines[0] == START && lines[1] == END && BarePairs(lines[2..]))
  }

  /** Lines that lose a pair in front and gain one at the end are pairs only. */
  lemma {:induction false} PairsIfShifted(lines: seq<string>)
    requires |lines| >= 2 && StartsBlock(lines[0]) && lines == lines[2..] + [START, END]
    ensures BarePairs(lines)
  {
    var rest := lines[2..];
    MarkersDiffer();
    assert lines[|lines| - 2] == START && lines[|lines| - 1] == END;
    if rest != [] {
      assert lines[0] == rest[0] && rest[|rest| - 1] == END;
      assert rest == (rest[2..] + [START, END]) by {
        assert rest == lines[..|rest|];
      }
      PairsIfShifted(rest);
      assert lines[1] == rest[1];
    }
  }

  lemma {:induction false} ShiftedIfPairs(lines: seq<string>)
    requires BarePairs(lines) && lines != []
    ensures lines == lines[2..] + [START, END]
  {
    var rest := lines[2..];
    if rest != [] {
      ShiftedIfPairs(rest);
      assert lines == [START, END] + rest;
      assert rest == [START, END] + rest[2..];
    }
  }

  // ---- counting lines ----

  function Copies(lines: seq<string>, line: string): nat {
    if lines == [] then 0 else (if lines[0] == line then 1 else 0) + Copies(lines[1..], line)
  }

  lemma {:induction false} CopiesJoin(a: seq<string>, b: seq<string>, line: string)
    ensures Copies(a + b, line) == Copies(a, line) + Copies(b, line)
  {
    if a == [] {
      assert a + b == b;
    } else {
      assert (a + b)[0] == a[0] && (a + b)[1..] == a[1..] + b;
      CopiesJoin(a[1..], b, line);
    }
  }

  lemma CopiesHead(first: string, rest: seq<string>, line: string)
    ensures Copies([first] + rest, line) == (if first == line then 1 else 0) + Copies(rest, line)
  {
    assert ([first] + rest)[1..] == rest;
  }

  lemma {:induction false} FewerDropped(lines: seq<string>, pick: Pick, line: string)
    ensures Copies(DropWhile(lines, pick), line) <= Copies(lines, line)
  {
    if lines != [] && pick(lines[0]) {
      FewerDropped(lines[1..], pick, line);
    }
  }

  lemma FewerBehindBody(lines: seq<string>, line: string)
    ensures Copies(BehindBody(lines), line) <= Copies(lines, line)
  {
    FewerDropped(lines, IsBlank, line);
    FewerDropped(DropWhile(lines, IsBlank), IsIndented, line);
  }

  lemma {:induction false} FewerLines(lines: seq<string>, isRule: Pick, line: string)
    ensures Copies(WithoutRules(lines, isRule), line) <= Copies(lines, line)
    decreases |lines|
  {
    if lines != [] {
      var rest := lines[1..];
      if isRule(lines[0]) {
        FewerLines(BehindBody(rest), isRule, line);
        FewerBehindBody(rest, line);
      } else {
        FewerLines(rest, isRule, line);
        CopiesHead(lines[0], WithoutRules(rest, isRule), line);
      }
    }
  }

  lemma FewerBehind(lines: seq<string>, k: nat, line: string)
    requires k <= |lines|
    ensures Copies(lines[k..], line) <= Copies(lines, line)
  {
    CopiesJoin(lines[..k], lines[k..], line);
    assert lines[..k] + lines[k..] == lines;
  }

  lemma {:induction false} FewerWithoutHosts(lines: seq<string>, hosts: seq<string>, line: string)
    ensures Copies(WithoutHosts(lines, hosts), line) <= Copies(lines, line)
    ensures |WithoutHosts(lines, hosts)| <= |lines|
    decreases |hosts|
  {
    if hosts != [] {
      FewerLines(lines, RuleFor(hosts[0]), line);
      FewerWithoutHosts(WithoutRules(lines, RuleFor(hosts[0])), hosts[1..], line);
    }
  }

  // ---- nothing but pairs stays the same ----

  /** The lines from the first start marker on. */
  function FromMarker(upper: seq<string>): seq<string> {
    upper[First(upper, StartsBlock)..]
  }

  /** A start marker with lines behind it. */
  predicate IsFirstBlock(front: seq<string>, block: seq<string>) {
    !Has(front, StartsBlock) && block != [] && StartsBlock(block[0])
  }

  lemma MarkerParts(upper: seq<string>) returns (front: seq<string>)
    requires Has(upper, StartsBlock)
    ensures upper == front + FromMarker(upper) && IsFirstBlock(front, FromMarker(upper))
  {
    front := upper[..First(upper, StartsBlock)];
  }

  lemma BlockParts(front: seq<string>, block: seq<string>)
    requires IsFirstBlock(front, block)
    ensures Has(front + block, StartsBlock)
    ensures IsClosed(front + block, StartsBlock, EndsBlock) <==> Has(block[1..], EndsBlock)
    ensures WithoutBlock(front + block, StartsBlock, EndsBlock) == front + WithoutBlock(block, StartsBlock, EndsBlock)
  {
    FirstInFront(front, block, StartsBlock);
    assert (front + block)[|front| + 1..] == block[1..];
    BlockBehind(front, block, StartsBlock, EndsBlock);
  }

  lemma PairIsTakenOut(block: seq<string>)
    requires BarePairs(block) && block != []
    ensures Has(block[1..], EndsBlock) && WithoutBlock(block, StartsBlock, EndsBlock) == block[2..]
  {
    MarkersDiffer();
    var inside := block[1..];
    assert inside[0] == END;
    EndAtOnce(inside);
    assert inside[1..] == block[2..];
  }

  lemma EndAtOnce(lines: seq<string>)
    requires lines != [] && lines[0] == END
    ensures BehindEnd(lines, EndsBlock) == Some(lines[1..])
  {
    MarkersDiffer();
    assert Remainder(END) + lines[1..] == lines[1..];
  }

  lemma PartOf(front: seq<string>, block: seq<string>, hosts: seq<string>)
    requires |block| >= 2 && NamesNone(front + block, hosts)
    ensures WithoutHosts(front + block[2..], hosts) == front + block[2..]
  {
    forall line | line in front + block[2..] ensures line in front + block {
      if line !in front {
        assert line in block[2..];
      }
    }
    PartNamesNone(front + block, front + block[2..], hosts);
  }

  lemma SettledIfPairs(front: seq<string>, block: seq<string>, rules: seq<string>)
    requires IsFirstBlock(front, block) && NamesNone(front + block, Hosts(rules)) && BarePairs(block)
    ensures IsClosed(front + block, StartsBlock, EndsBlock) && UpperTwice(front + block, rules) == front + block
  {
    BlockParts(front, block);
    PairIsTakenOut(block);
    PartOf(front, block, Hosts(rules));
    ShiftedIfPairs(block);
    Assoc(front, block[2..], [START, END]);
  }

  lemma PairsIfSettled(front: seq<string>, block: seq<string>, rules: seq<string>)
    requires IsFirstBlock(front, block) && NamesNone(front + block, Hosts(rules)) && Has(block[1..], EndsBlock)
    requires UpperTwice(front + block, rules) == front + block
    ensures BarePairs(block)
  {
    BlockParts(front, block);
    var left := WithoutHosts(front + WithoutBlock(block, StartsBlock, EndsBlock), Hosts(rules));
    PairWasTakenOut(front, block, rules, left);
    PartOf(front, block, Hosts(rules));
    Assoc(front, block[2..], [START, END]);
    SameBehind(front, block, block[2..] + [START, END]);
    PairsIfShifted(block);
  }

  lemma SameBehind(a: seq<string>, b: seq<string>, b': seq<string>)
    requires a + b == a + b'
    ensures b == b'
  {
    assert b == (a + b)[|a|..] && b' == (a + b')[|a|..];
  }

  lemma PairWasTakenOut(front: seq<string>, block: seq<string>, rules: seq<string>, left: seq<string>)
    requires block != [] && StartsBlock(block[0]) && Has(block[1..], EndsBlock)
    requires left == WithoutHosts(front + WithoutBlock(block, StartsBlock, EndsBlock), Hosts(rules))
    requires left + [START, END] == front + block
    ensures |block| >= 2 && WithoutBlock(block, StartsBlock, EndsBlock) == block[2..]
  {
    var e := First(block[1..], EndsBlock);
    var end, behind := block[1 + e], block[2 + e..];
    EndIs(block[1..], EndsBlock);
    assert block[1..][e + 1..] == behind;
    FewerWithoutHosts(front + (Remainder(end) + behind), Hosts(rules), end);
    PairIsAll(front, block, e, left);
  }

  /** Counting the line of the end marker: if the lines left, with a pair behind them, are all the
      lines there were, then the block taken out was a pair. */
  lemma PairIsAll(front: seq<string>, block: seq<string>, e: nat, left: seq<string>)
    requires 1 + e < |block| && EndsBlock(block[1 + e])
    requires |left| <= |front + (Remainder(block[1 + e]) + block[2 + e..])|
    requires Copies(left, block[1 + e]) <= Copies(front + (Remainder(block[1 + e]) + block[2 + e..]), block[1 + e])
    requires left + [START, END] == front + block
    ensures e == 0 && Remainder(block[1 + e]) == []
  {
    var end := block[1 + e];
    assert |left| + 2 == |front| + |block|;
    if |end| > |END| {
      CountEnd(front, block, e);
      CopiesJoin(left, [START, END], end);
      NoCopy(end);
      assert false;
    }
  }

  lemma NoCopy(end: string)
    requires |end| > |END| && EndsBlock(end)
    ensures Copies([START, END], end) == 0
  {
    MarkersDiffer();
    CopiesHead(START, [END], end);
    CopiesHead(END, [], end);
    assert [START] + [END] == [START, END] && [END] + [] == [END];
  }

  lemma CountEnd(front: seq<string>, block: seq<string>, e: nat)
    requires 1 + e < |block| && |block[1 + e]| > |END|
    ensures Copies(front + block, block[1 + e])
      > Copies(front + (Remainder(block[1 + e]) + block[2 + e..]), block[1 + e])
  {
    var end, behind := block[1 + e], block[2 + e..];
    CopiesJoin(front, block, end);
    CopiesJoin(front, Remainder(end) + behind, end);
    CopiesJoin(Remainder(end), behind, end);
    FewerBehind(block, 1 + e, end);
    assert block[1 + e..][1..] == behind;
  }

  // ---- the condition ----

  /** Merging the same rules twice is merging them once exactly if nothing is left from the first start
      marker above the last catch-all rule on, or only bare pairs of markers. */
  lemma MergeTwiceIff(lines: seq<string>, rules: seq<string>)
    requires IsManaged(rules) && GoWithHosts(rules) && Merge(lines, rules).Merged?
    ensures Merge(Merge(lines, rules).lines, rules) == Merge(lines, rules)
      <==> BarePairs(FromMarker(Upper(lines, rules)))
  {
    var upper := Upper(lines, rules);
    MergePlaces(lines, rules);
    KeptNamesNone(lines, rules);
    PartNamesNone(Kept(lines, rules), upper, Hosts(rules));
    if !Has(upper, StartsBlock) {
      MergeTwice(lines, rules);
    } else {
      MarkedTwiceIff(lines, rules);
    }
  }

  lemma MarkedTwiceIff(lines: seq<string>, rules: seq<string>)
    requires IsManaged(rules) && GoWithHosts(rules) && Merge(lines, rules).Merged?
    requires Has(Upper(lines, rules), StartsBlock) && NamesNone(Upper(lines, rules), Hosts(rules))
    ensures Merge(Merge(lines, rules).lines, rules) == Merge(lines, rules)
      <==> BarePairs(FromMarker(Upper(lines, rules)))
  {
    var upper := Upper(lines, rules);
    var front := MarkerParts(upper);
    var block := FromMarker(upper);
    BlockParts(front, block);
    if BarePairs(block) {
      SettledIfPairs(front, block, rules);
      SameIffUpper(lines, rules);
    } else if !Has(block[1..], EndsBlock) {
      OpenMarkerLosesLines(lines, rules);
    } else {
      SameIffUpper(lines, rules);
      if UpperTwice(upper, rules) == upper {
        PairsIfSettled(front, block, rules);
      }
    }
  }

  /** So it is for the rules of the installer. */
  lemma MergeManagedTwiceIff(
    lines: seq<string>, panelHost: string, panelService: string, subscriptionHost: string, subscriptionService: string)
    requires IsHost(panelHost) && IsHost(subscriptionHost)
    requires Merge(lines, ManagedRules(panelHost, panelService, subscriptionHost, subscriptionService)).Merged?
    ensures var rules := ManagedRules(panelHost, panelService, subscriptionHost, subscriptionService);
            (Merge(Merge(lines, rules).lines, rules) == Merge(lines, rules))
            == BarePairs(FromMarker(Upper(lines, rules)))
  {
    ManagedRulesAreManaged(panelHost, panelService, subscriptionHost, subscriptionService);
    ManagedRulesGoWithHosts(panelHost, panelService, subscriptionHost, subscriptionService);
    MergeTwiceIff(lines, ManagedRules(panelHost, panelService, subscriptionHost, subscriptionService));
  }
}
