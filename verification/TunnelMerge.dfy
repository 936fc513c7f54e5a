/** Merging the managed rules a second time: where the block stands, what the second merge takes out,
    and exactly when it changes nothing. */
module TunnelMerge {
  import opened Options
  import opened Text
  import opened ConfigLines
  import opened TunnelConfig
  import opened TunnelSections

  // ---- the block that was put in ----

  predicate IsMarkedBlock(rules: seq<string>, starts: Pick, ends: Pick) {
    && |rules| >= 2 && starts(rules[0]) && ends(rules[|rules| - 1]) && |rules[|rules| - 1]| == |END|
    && forall i | 0 <= i < |rules| - 1 :: !ends(rules[i])
  }

  lemma {:induction false} EndIs(lines: seq<string>, ends: Pick)
    requires Has(lines, ends)
    ensures var e := First(lines, ends);
            BehindEnd(lines, ends) == Some(Remainder(lines[e]) + lines[e + 1..])
  {
    if !ends(lines[0]) {
      EndIs(lines[1..], ends);
    }
  }

  /** Lines from a start marker to the first end marker, with nothing behind that on its line. */
  predicate IsBlock(block: seq<string>, starts: Pick, ends: Pick) {
    && |block| >= 2 && starts(block[0])
    && First(block[1..], ends) == |block| - 2 && |block[|block| - 1]| == |END|
  }

  lemma NothingBehindEnd(block: seq<string>, starts: Pick, ends: Pick)
    requires IsBlock(block, starts, ends)
    ensures BehindEnd(block[1..], ends) == Some([])
  {
    var inside := block[1..];
    EndIs(inside, ends);
    assert inside[|inside| - 1] == block[|block| - 1];
    assert Remainder(block[|block| - 1]) + inside[|inside|..] == [];
  }

  lemma StartGoes(first: string, rest: seq<string>, starts: Pick, ends: Pick)
    requires starts(first) && Has(rest, ends)
    ensures WithoutBlock([first] + rest, starts, ends) == BehindEnd(rest, ends).value
  {
    assert ([first] + rest)[1..] == rest;
  }

  lemma InsideGoes(inside: seq<string>, b: seq<string>, ends: Pick)
    requires BehindEnd(inside, ends) == Some([])
    ensures BehindEnd(inside + b, ends) == Some(b)
  {
    EndInFront(inside, b, ends);
    assert [] + b == b;
  }

  lemma BlockEnds(block: seq<string>, b: seq<string>, starts: Pick, ends: Pick)
    requires IsBlock(block, starts, ends)
    ensures WithoutBlock(block + b, starts, ends) == b
  {
    NothingBehindEnd(block, starts, ends);
    InsideGoes(block[1..], b, ends);
    StartGoes(block[0], block[1..] + b, starts, ends);
    HeadAndRest(block, b);
  }

  lemma HeadAndRest(block: seq<string>, b: seq<string>)
    requires block != []
    ensures [block[0]] + (block[1..] + b) == block + b
  {
    assert [block[0]] + block[1..] == block;
    Assoc([block[0]], block[1..], b);
  }

  lemma BlockGoes(a: seq<string>, block: seq<string>, b: seq<string>, starts: Pick, ends: Pick)
    requires !Has(a, starts) && IsBlock(block, starts, ends)
    ensures WithoutBlock(a + block + b, starts, ends) == a + b
  {
    BlockEnds(block, b, starts, ends);
    BlockBehind(a, block + b, starts, ends);
    Assoc(a, block, b);
  }

  lemma MarkedIsBlock(rules: seq<string>, starts: Pick, ends: Pick)
    requires IsMarkedBlock(rules, starts, ends)
    ensures IsBlock(rules, starts, ends)
  {
    FirstIs(rules[1..], |rules| - 2, ends);
  }

  lemma OpenIsBlock(open: seq<string>, rules: seq<string>, starts: Pick, ends: Pick)
    requires IsMarkedBlock(rules, starts, ends)
    requires open != [] && starts(open[0]) && !Has(open[1..], ends)
    ensures IsBlock(open + rules, starts, ends)
  {
    assert (open + rules)[1..] == open[1..] + rules;
    FirstIs(rules, |rules| - 1, ends);
    FirstInFront(open[1..], rules, ends);
  }

  /** A block behind no start marker is the one taken out. */
  lemma BlockIsTakenOut(a: seq<string>, b: seq<string>, rules: seq<string>, starts: Pick, ends: Pick)
    requires IsMarkedBlock(rules, starts, ends) && !Has(a, starts)
    ensures WithoutBlock(a + rules + b, starts, ends) == a + b
  {
    MarkedIsBlock(rules, starts, ends);
    BlockGoes(a, rules, b, starts, ends);
  }

  /** Behind a start marker that has no end the lines from there on go with it. */
  lemma OpenBlockIsTakenOut(a: seq<string>, b: seq<string>, rules: seq<string>, starts: Pick, ends: Pick)
    requires IsMarkedBlock(rules, starts, ends) && !IsClosed(a, starts, ends)
    ensures WithoutBlock(a + rules + b, starts, ends) == a[..First(a, starts)] + b
  {
    var s := First(a, starts);
    var front, open := a[..s], a[s..];
    assert open[1..] == a[s + 1..];
    OpenIsBlock(open, rules, starts, ends);
    BlockGoes(front, open + rules, b, starts, ends);
    Assoc(front, open, rules);
    assert front + open == a;
  }

  // ---- what is kept is settled ----

  lemma {:induction false} RulesAreOut(lines: seq<string>, isRule: Pick)
    ensures forall i | 0 <= i < |WithoutRules(lines, isRule)| ::
      WithoutRules(lines, isRule)[i] in lines && !isRule(WithoutRules(lines, isRule)[i])
    decreases |lines|
  {
    if lines != [] {
      if isRule(lines[0]) {
        RulesAreOut(BehindBody(lines[1..]), isRule);
      } else {
        RulesAreOut(lines[1..], isRule);
      }
    }
  }

  lemma {:induction false} NoRulesToTakeOut(lines: seq<string>, isRule: Pick)
    requires forall i | 0 <= i < |lines| :: !isRule(lines[i])
    ensures WithoutRules(lines, isRule) == lines
  {
    if lines != [] {
      NoRulesToTakeOut(lines[1..], isRule);
      assert lines == [lines[0]] + lines[1..];
    }
  }

  predicate NamesNone(lines: seq<string>, hosts: seq<string>) {
    forall h | 0 <= h < |hosts| :: !Has(lines, RuleFor(hosts[h]))
  }

  lemma NoneAmongFewer(lines: seq<string>, fewer: seq<string>, pick: Pick)
    requires !Has(lines, pick) && forall line | line in fewer :: line in lines
    ensures !Has(fewer, pick)
  {
    assert forall i | 0 <= i < |fewer| :: fewer[i] in fewer;
  }

  lemma {:induction false} HostsAreOut(lines: seq<string>, hosts: seq<string>)
    ensures forall line | line in WithoutHosts(lines, hosts) :: line in lines
    ensures NamesNone(WithoutHosts(lines, hosts), hosts)
    decreases |hosts|
  {
    if hosts != [] {
      var fewer := WithoutRules(lines, RuleFor(hosts[0]));
      RulesAreOut(lines, RuleFor(hosts[0]));
      HostsAreOut(fewer, hosts[1..]);
      NoneAmongFewer(fewer, WithoutHosts(lines, hosts), RuleFor(hosts[0]));
      assert forall h | 0 < h < |hosts| :: hosts[h] == hosts[1..][h - 1];
    }
  }

  lemma {:induction false} NothingToTakeOut(lines: seq<string>, hosts: seq<string>)
    requires NamesNone(lines, hosts)
    ensures WithoutHosts(lines, hosts) == lines
    decreases |hosts|
  {
    if hosts != [] {
      NoRulesToTakeOut(lines, RuleFor(hosts[0]));
      assert forall h | 0 <= h < |hosts[1..]| :: hosts[1..][h] == hosts[h + 1];
      NothingToTakeOut(lines, hosts[1..]);
    }
  }

  lemma {:induction false} TrimEndTwice(s: string)
    ensures TrimEnd(TrimEnd(s)) == TrimEnd(s)
  {
    if s != "" && IsSpace(s[|s| - 1]) {
      TrimEndTwice(s[..|s| - 1]);
    }
  }

  /** Tidying again changes nothing, and a pick that does not look at white space at the end finds
      nothing new. */
  lemma {:induction false} TidyTwice(lines: seq<string>, pick: Pick)
    requires !pick("") && forall line :: pick(TrimEnd(line)) ==> pick(line)
    ensures Tidy(Tidy(lines)) == Tidy(lines)
    ensures !Has(lines, pick) ==> !Has(Tidy(lines), pick)
  {
    if lines == [] {
      assert Tidy([""]) == Tidy([]) == [""] by {
        assert TrimEnd("") == "";
        assert [""][..0] == [];
      }
    } else {
      var front := lines[..|lines| - 1];
      var last := TrimEnd(lines[|lines| - 1]);
      TrimEndTwice(lines[|lines| - 1]);
      if last == "" {
        TidyTwice(front, pick);
        assert !Has(lines, pick) ==> !Has(front, pick);
      } else {
        assert (front + [last])[..|front|] == front;
      }
    }
  }

  lemma TrimmedPicks(line: string)
    ensures StartsBlock(TrimEnd(line)) ==> StartsBlock(line)
  {
    TrimEndIsPrefix(line);
  }

  lemma RuleForTrimmed(line: string, host: string)
    requires host != ""
    ensures RuleFor(host)(TrimEnd(line)) == RuleFor(host)(line) && !RuleFor(host)("")
  {
    TrimEndTwice(line);
  }

  lemma {:induction false} HostsAreNames(rules: seq<string>)
    ensures forall h | 0 <= h < |Hosts(rules)| :: Hosts(rules)[h] != ""
  {
    if rules != [] {
      HostsAreNames(rules[1..]);
    }
  }

  lemma KeptNamesNone(lines: seq<string>, rules: seq<string>)
    ensures NamesNone(Kept(lines, rules), Hosts(rules))
  {
    var hosts := Hosts(rules);
    var clean := WithoutHosts(WithoutBlock(lines, StartsBlock, EndsBlock), hosts);
    HostsAreOut(WithoutBlock(lines, StartsBlock, EndsBlock), hosts);
    HostsAreNames(rules);
    forall h | 0 <= h < |hosts| ensures !Has(Tidy(clean), RuleFor(hosts[h])) {
      TidyNamesNone(clean, hosts[h]);
    }
  }

  /** If only the first block had a start marker, no marker is kept. */
  lemma KeptHasNoMarker(lines: seq<string>, rules: seq<string>)
    requires !Has(WithoutBlock(lines, StartsBlock, EndsBlock), StartsBlock)
    ensures !Has(Kept(lines, rules), StartsBlock)
  {
    var left := WithoutBlock(lines, StartsBlock, EndsBlock);
    var clean := WithoutHosts(left, Hosts(rules));
    HostsAreOut(left, Hosts(rules));
    NoneAmongFewer(left, clean, StartsBlock);
    forall line ensures StartsBlock(TrimEnd(line)) ==> StartsBlock(line) {
      TrimmedPicks(line);
    }
    TidyTwice(clean, StartsBlock);
  }

  lemma TidyNamesNone(lines: seq<string>, host: string)
    requires host != "" && !Has(lines, RuleFor(host))
    ensures !Has(Tidy(lines), RuleFor(host))
  {
    forall line ensures RuleFor(host)(TrimEnd(line)) ==> RuleFor(host)(line) {
      RuleForTrimmed(line, host);
    }
    RuleForTrimmed("", host);
    TidyTwice(lines, RuleFor(host));
  }

  // ---- the place ----

  /** Rules as the installer writes them: one marked block. */
  predicate IsManaged(rules: seq<string>) {
    IsMarkedBlock(rules, StartsBlock, EndsBlock)
  }

  /** What merging keeps above the rules, and from the last catch-all rule on. */
  function Upper(lines: seq<string>, rules: seq<string>): seq<string> {
    Kept(lines, rules)[..PlaceOf(Kept(lines, rules), IsIngress, IsCatchAll)]
  }

  function Lower(lines: seq<string>, rules: seq<string>): seq<string> {
    Kept(lines, rules)[PlaceOf(Kept(lines, rules), IsIngress, IsCatchAll)..]
  }

  predicate StartsWithLast(lines: seq<string>) {
    lines != [] && IsCatchAll(lines[0]) && forall i | 0 < i < |lines| :: !IsCatchAll(lines[i])
  }

  lemma LastAfterIs(lines: seq<string>, from: nat, k: nat, pick: Pick)
    requires k < |lines| && pick(lines[k]) && forall i | k < i < |lines| :: !pick(lines[i])
    ensures LastAfter(lines, from, pick) == if from < k then Some(k) else None
  {
  }

  lemma LastLineAt(a: seq<string>, b: seq<string>)
    requires StartsWithLast(b)
    ensures IsCatchAll((a + b)[|a|]) && forall i | |a| < i < |a + b| :: !IsCatchAll((a + b)[i])
    ensures First(a + b, IsIngress) < |a| <==> Has(a, IsIngress)
    ensures First(a + b, IsIngress) != |a|
  {
    assert forall i | |a| <= i < |a + b| :: (a + b)[i] == b[i - |a|];
    FirstInFront(a, b, IsIngress);
  }

  /** Rules are placed before the last catch-all rule if the section is above it. */
  lemma PlacedAbove(a: seq<string>, b: seq<string>, rules: seq<string>)
    requires StartsWithLast(b)
    ensures Placed(a + b, rules, IsIngress, IsCatchAll).Merged? <==> Has(a, IsIngress)
    ensures Has(a, IsIngress) ==> Placed(a + b, rules, IsIngress, IsCatchAll) == Merged(a + rules + b)
  {
    LastLineAt(a, b);
    LastAfterIs(a + b, First(a + b, IsIngress), |a|, IsCatchAll);
    assert Inserted(a + b, |a|, rules) == a + rules + b;
  }

  /** The block stands right before the last catch-all rule behind the ingress section, between the
      lines that are kept. */
  lemma MergePlaces(lines: seq<string>, rules: seq<string>)
    requires Merge(lines, rules).Merged?
    ensures Kept(lines, rules) == Upper(lines, rules) + Lower(lines, rules)
    ensures Merge(lines, rules) == Merged(Upper(lines, rules) + rules + Lower(lines, rules))
    ensures Has(Upper(lines, rules), IsIngress) && StartsWithLast(Lower(lines, rules))
  {
    PlacedParts(Kept(lines, rules), rules);
  }

  lemma PlacedParts(kept: seq<string>, rules: seq<string>)
    requires Placed(kept, rules, IsIngress, IsCatchAll).Merged?
    ensures var k := PlaceOf(kept, IsIngress, IsCatchAll);
            && Placed(kept, rules, IsIngress, IsCatchAll) == Merged(kept[..k] + rules + kept[k..])
            && Has(kept[..k], IsIngress) && StartsWithLast(kept[k..])
  {
    var k := PlaceOf(kept, IsIngress, IsCatchAll);
    assert forall i | 0 <= i < |kept| - k :: kept[k..][i] == kept[k + i];
    FirstIs(kept[..k], First(kept, IsIngress), IsIngress);
  }

  // ---- merging twice ----

  lemma KeptEndsTidy(lines: seq<string>, rules: seq<string>)
    requires Merge(lines, rules).Merged?
    ensures EndsTidy(Lower(lines, rules))
  {
    var kept, lower := Kept(lines, rules), Lower(lines, rules);
    MergePlaces(lines, rules);
    TidyEnds(WithoutHosts(WithoutBlock(lines, StartsBlock, EndsBlock), Hosts(rules)));
    assert kept[|kept| - 1] == lower[|lower| - 1];
    assert lower[0] in kept && lower[0] != "";
  }

  lemma {:induction false} TidyEnds(lines: seq<string>)
    ensures Tidy(lines) == [""] || EndsTidy(Tidy(lines))
  {
    if lines != [] {
      if TrimEnd(lines[|lines| - 1]) == "" {
        TidyEnds(lines[..|lines| - 1]);
      } else {
        TrimEndTwice(lines[|lines| - 1]);
      }
    }
  }

  lemma TidyStays(a: seq<string>, b: seq<string>)
    requires EndsTidy(b)
    ensures Tidy(a + b) == a + b
  {
    var lines := a + b;
    assert lines[|lines| - 1] == b[|b| - 1];
    assert lines == lines[..|lines| - 1] + [lines[|lines| - 1]];
  }

  lemma PartNamesNone(lines: seq<string>, part: seq<string>, hosts: seq<string>)
    requires NamesNone(lines, hosts) && forall line | line in part :: line in lines
    ensures NamesNone(part, hosts) && WithoutHosts(part, hosts) == part
  {
    forall h | 0 <= h < |hosts| ensures !Has(part, RuleFor(hosts[h])) {
      NoneAmongFewer(lines, part, RuleFor(hosts[h]));
    }
    NothingToTakeOut(part, hosts);
  }

  /** Without some of the lines above the rules, the rest is kept as it is. */
  lemma PartIsSettled(lines: seq<string>, rules: seq<string>, part: seq<string>)
    requires Merge(lines, rules).Merged? && forall line | line in part :: line in Upper(lines, rules)
    ensures Tidy(WithoutHosts(part + Lower(lines, rules), Hosts(rules))) == part + Lower(lines, rules)
  {
    var lower := Lower(lines, rules);
    MergePlaces(lines, rules);
    KeptNamesNone(lines, rules);
    PartNamesNone(Kept(lines, rules), part + lower, Hosts(rules));
    KeptEndsTidy(lines, rules);
    TidyStays(part, lower);
  }

  /** Merging the same rules twice is merging them once, if no start marker is left above the last
      catch-all rule. */
  lemma MergeTwice(lines: seq<string>, rules: seq<string>)
    requires IsManaged(rules) && Merge(lines, rules).Merged?
    requires !Has(Upper(lines, rules), StartsBlock)
    ensures Merge(Merge(lines, rules).lines, rules) == Merge(lines, rules)
  {
    var upper, lower := Upper(lines, rules), Lower(lines, rules);
    MergePlaces(lines, rules);
    BlockIsTakenOut(upper, lower, rules, StartsBlock, EndsBlock);
    PartIsSettled(lines, rules, upper);
  }

  /** So it is for files in which only the first block had a start marker. */
  lemma MergeOneBlockTwice(lines: seq<string>, rules: seq<string>)
    requires IsManaged(rules) && Merge(lines, rules).Merged?
    requires !Has(WithoutBlock(lines, StartsBlock, EndsBlock), StartsBlock)
    ensures Merge(Merge(lines, rules).lines, rules) == Merge(lines, rules)
  {
    KeptHasNoMarker(lines, rules);
    MergePlaces(lines, rules);
    FirstInFront(Upper(lines, rules), Lower(lines, rules), StartsBlock);
    MergeTwice(lines, rules);
  }

  /** A start marker left above the last catch-all rule, without its end there, loses the lines from
      there to that rule when the same rules are merged again. */
  lemma OpenMarkerLosesLines(lines: seq<string>, rules: seq<string>)
    requires IsManaged(rules) && Merge(lines, rules).Merged?
    requires !IsClosed(Upper(lines, rules), StartsBlock, EndsBlock)
    ensures var upper := Upper(lines, rules);
            Kept(Merge(lines, rules).lines, rules) == upper[..First(upper, StartsBlock)] + Lower(lines, rules)
    ensures Merge(Merge(lines, rules).lines, rules) != Merge(lines, rules)
  {
    var upper, lower := Upper(lines, rules), Lower(lines, rules);
    var part := upper[..First(upper, StartsBlock)];
    MergePlaces(lines, rules);
    OpenBlockIsTakenOut(upper, lower, rules, StartsBlock, EndsBlock);
    PartIsSettled(lines, rules, part);
    PlacedAbove(part, lower, rules);
  }
}
