/** Lines that have nothing to do with the managed rules, in runs of any length, indented lines
    included: merging leaves them together and in order. */
module TunnelSections {
  import opened Options
  import opened Text
  import opened ConfigLines
  import opened TunnelConfig

  /** A line at which the body of a rule ends. */
  predicate IsTopLine(line: string) {
    !IsBlank(line) && !IsIndented(line)
  }

  predicate StartsOnTop(lines: seq<string>) {
    lines != [] && IsTopLine(lines[0])
  }

  // ---- taking out rules ----

  lemma {:induction false} DropStops(a: seq<string>, b: seq<string>, pick: Pick)
    requires b != [] && !pick(b[0])
    ensures DropWhile(a + b, pick) == DropWhile(a, pick) + b
  {
    if a == [] {
      assert a + b == b && [] + b == b;
    } else {
      assert (a + b)[0] == a[0] && (a + b)[1..] == a[1..] + b;
      DropStops(a[1..], b, pick);
    }
  }

  lemma BodyStops(a: seq<string>, b: seq<string>)
    requires StartsOnTop(b)
    ensures BehindBody(a + b) == BehindBody(a) + b
  {
    DropStops(a, b, IsBlank);
    DropStops(DropWhile(a, IsBlank), b, IsIndented);
  }

  /** Rules are taken out on both sides of a line at which a body ends. */
  lemma {:induction false} RulesSplit(a: seq<string>, b: seq<string>, isRule: Pick)
    requires StartsOnTop(b)
    ensures WithoutRules(a + b, isRule) == WithoutRules(a, isRule) + WithoutRules(b, isRule)
    decreases |a|
  {
    if a == [] {
      assert a + b == b && [] + WithoutRules(b, isRule) == WithoutRules(b, isRule);
    } else {
      assert (a + b)[0] == a[0] && (a + b)[1..] == a[1..] + b;
      if isRule(a[0]) {
        BodyStops(a[1..], b);
        RulesSplit(BehindBody(a[1..]), b, isRule);
      } else {
        RulesSplit(a[1..], b, isRule);
        Assoc([a[0]], WithoutRules(a[1..], isRule), WithoutRules(b, isRule));
      }
    }
  }

  lemma {:induction false} NoRuleStays(section: seq<string>, b: seq<string>, isRule: Pick)
    requires forall i | 0 <= i < |section| :: !isRule(section[i])
    ensures WithoutRules(section + b, isRule) == section + WithoutRules(b, isRule)
  {
    if section == [] {
      assert section + b == b && [] + WithoutRules(b, isRule) == WithoutRules(b, isRule);
    } else {
      var rest := section[1..];
      assert (section + b)[0] == section[0] && (section + b)[1..] == rest + b;
      NoRuleStays(rest, b, isRule);
      Assoc([section[0]], rest, WithoutRules(b, isRule));
      assert [section[0]] + rest == section;
    }
  }

  predicate HasRuleFor(section: seq<string>, hosts: seq<string>) {
    exists h, i | 0 <= h < |hosts| && 0 <= i < |section| :: RuleFor(hosts[h])(section[i])
  }

  /** A section without managed rules stays, and rules are taken out on both sides of it. */
  lemma {:induction false} HostsSplit(a: seq<string>, section: seq<string>, b: seq<string>, hosts: seq<string>)
    requires StartsOnTop(section) && !HasRuleFor(section, hosts)
    ensures WithoutHosts(a + section + b, hosts) == WithoutHosts(a, hosts) + section + WithoutHosts(b, hosts)
    decreases |hosts|
  {
    if hosts != [] {
      var isRule := RuleFor(hosts[0]);
      Assoc(a, section, b);
      RulesSplit(a, section + b, isRule);
      NoRuleStays(section, b, isRule);
      var a', b' := WithoutRules(a, isRule), WithoutRules(b, isRule);
      Assoc(a', section, b');
      forall h, i | 0 <= h < |hosts[1..]| && 0 <= i < |section| ensures !RuleFor(hosts[1..][h])(section[i]) {
        assert hosts[1..][h] == hosts[h + 1];
      }
      HostsSplit(a', section, b', hosts[1..]);
    }
  }

  // ---- taking out the block ----

  /** The first block that starts in these lines ends in them. */
  predicate IsClosed(a: seq<string>, starts: Pick, ends: Pick) {
    Has(a, starts) ==> Has(a[First(a, starts) + 1..], ends)
  }

  /** Lines between `a` and `b` are outside the first block: it has not started before them, has
      ended, or does not end at all. */
  predicate IsOutside(a: seq<string>, b: seq<string>, starts: Pick, ends: Pick) {
    IsClosed(a, starts, ends) || !Has(b, ends)
  }

  predicate HasMarker(section: seq<string>, starts: Pick, ends: Pick) {
    Has(section, starts) || Has(section, ends)
  }

  lemma FirstInFront(a: seq<string>, b: seq<string>, pick: Pick)
    ensures First(a + b, pick) == if Has(a, pick) then First(a, pick) else |a| + First(b, pick)
  {
    var k := if Has(a, pick) then First(a, pick) else |a| + First(b, pick);
    assert forall i | 0 <= i < |a| :: (a + b)[i] == a[i];
    assert forall i | |a| <= i < |a| + |b| :: (a + b)[i] == b[i - |a|];
    if k < |a + b| {
      FirstIs(a + b, k, pick);
    } else {
      assert forall i | 0 <= i < |a + b| :: !pick((a + b)[i]);
    }
  }

  lemma {:induction false} EndInFront(a: seq<string>, b: seq<string>, ends: Pick)
    requires Has(a, ends)
    ensures BehindEnd(a + b, ends) == Some(BehindEnd(a, ends).value + b)
  {
    assert (a + b)[0] == a[0] && (a + b)[1..] == a[1..] + b;
    if ends(a[0]) {
      Assoc(Remainder(a[0]), a[1..], b);
    } else {
      EndInFront(a[1..], b, ends);
    }
  }

  /** The block ends where it started: in front of `b`. */
  lemma {:induction false} BlockInFront(a: seq<string>, b: seq<string>, starts: Pick, ends: Pick)
    requires Has(a, starts) && (IsClosed(a, starts, ends) || !Has(b, ends))
    ensures WithoutBlock(a + b, starts, ends) == WithoutBlock(a, starts, ends) + b
  {
    assert (a + b)[0] == a[0] && (a + b)[1..] == a[1..] + b;
    if !starts(a[0]) {
      assert a[1..][First(a[1..], starts) + 1..] == a[First(a, starts) + 1..];
      BlockInFront(a[1..], b, starts, ends);
      Assoc([a[0]], WithoutBlock(a[1..], starts, ends), b);
    } else if Has(a[1..], ends) {
      EndInFront(a[1..], b, ends);
    } else {
      FirstInFront(a[1..], b, ends);
    }
  }

  lemma {:induction false} BlockBehind(a: seq<string>, b: seq<string>, starts: Pick, ends: Pick)
    requires !Has(a, starts)
    ensures WithoutBlock(a + b, starts, ends) == a + WithoutBlock(b, starts, ends)
  {
    if a == [] {
      assert a + b == b && [] + WithoutBlock(b, starts, ends) == WithoutBlock(b, starts, ends);
    } else {
      assert (a + b)[0] == a[0] && (a + b)[1..] == a[1..] + b;
      BlockBehind(a[1..], b, starts, ends);
      Assoc([a[0]], a[1..], WithoutBlock(b, starts, ends));
      assert [a[0]] + a[1..] == a;
    }
  }

  lemma {:induction false} NoBlock(a: seq<string>, starts: Pick, ends: Pick)
    requires !Has(a, starts)
    ensures WithoutBlock(a, starts, ends) == a
  {
    if a != [] {
      NoBlock(a[1..], starts, ends);
      assert [a[0]] + a[1..] == a;
    }
  }

  /** What is left behind a section. */
  function BehindBlock(a: seq<string>, b: seq<string>, starts: Pick, ends: Pick): seq<string> {
    if Has(a, starts) then b else WithoutBlock(b, starts, ends)
  }

  lemma BlockSplits(a: seq<string>, section: seq<string>, b: seq<string>, starts: Pick, ends: Pick)
    requires !HasMarker(section, starts, ends) && IsOutside(a, b, starts, ends)
    ensures WithoutBlock(a + section + b, starts, ends)
      == WithoutBlock(a, starts, ends) + section + BehindBlock(a, b, starts, ends)
  {
    Assoc(a, section, b);
    if Has(a, starts) {
      FirstInFront(section, b, ends);
      BlockInFront(a, section + b, starts, ends);
      Assoc(WithoutBlock(a, starts, ends), section, b);
    } else {
      BlockBehind(a, section + b, starts, ends);
      BlockBehind(section, b, starts, ends);
      NoBlock(a, starts, ends);
      Assoc(a, section, WithoutBlock(b, starts, ends));
    }
  }

  // ---- the end of the file ----

  predicate EndsTidy(lines: seq<string>) {
    lines != [] && lines[|lines| - 1] != "" && TrimEnd(lines[|lines| - 1]) == lines[|lines| - 1]
  }

  /** White space at the end, all of it when there is nothing else. */
  function TidyEnd(lines: seq<string>): seq<string> {
    if lines == [] then []
    else
      var last := TrimEnd(lines[|lines| - 1]);
      if last == "" then TidyEnd(lines[..|lines| - 1]) else lines[..|lines| - 1] + [last]
  }

  lemma {:induction false} TidySplits(a: seq<string>, b: seq<string>)
    requires EndsTidy(a)
    ensures Tidy(a + b) == a + TidyEnd(b)
  {
    if b == [] {
      assert a + b == a && a == a[..|a| - 1] + [a[|a| - 1]];
    } else {
      var front, last := b[..|b| - 1], b[|b| - 1];
      assert (a + b)[..|a + b| - 1] == a + front && (a + b)[|a + b| - 1] == last;
      if TrimEnd(last) == "" {
        TidySplits(a, front);
      } else {
        Assoc(a, front, [TrimEnd(last)]);
      }
    }
  }

  // ---- the rules in their place ----

  /** Rules put anywhere but inside a section leave it together. */
  lemma InsertedOutside(a: seq<string>, section: seq<string>, b: seq<string>, k: nat, rules: seq<string>)
    requires k <= |a| + |section| + |b| && (k <= |a| || k >= |a| + |section|)
    ensures Inserted(a + section + b, k, rules) ==
      if k <= |a| then Inserted(a, k, rules) + section + b
      else a + section + Inserted(b, k - |a| - |section|, rules)
  {
    var lines := a + section + b;
    if k <= |a| {
      assert lines[..k] == a[..k] && lines[k..] == a[k..] + section + b;
    } else {
      var j := k - |a| - |section|;
      assert lines[..k] == a + section + b[..j] && lines[k..] == b[j..];
    }
  }

  /** A section that the merge leaves alone: it starts where no body of a rule can reach, ends without
      white space, holds no marker and no rule for a managed host, and no catch-all rule but as its
      first line. Indented lines are allowed. */
  predicate IsUnrelated(section: seq<string>, hosts: seq<string>) {
    && StartsOnTop(section) && EndsTidy(section)
    && !HasMarker(section, StartsBlock, EndsBlock) && !HasRuleFor(section, hosts)
    && forall i | 0 < i < |section| :: !IsCatchAll(section[i])
  }

  function Front(a: seq<string>, rules: seq<string>): seq<string> {
    WithoutHosts(WithoutBlock(a, StartsBlock, EndsBlock), Hosts(rules))
  }

  function Behind(a: seq<string>, b: seq<string>, rules: seq<string>): seq<string> {
    TidyEnd(WithoutHosts(BehindBlock(a, b, StartsBlock, EndsBlock), Hosts(rules)))
  }

  lemma KeptSplits(a: seq<string>, section: seq<string>, b: seq<string>, rules: seq<string>)
    requires IsUnrelated(section, Hosts(rules)) && IsOutside(a, b, StartsBlock, EndsBlock)
    ensures Kept(a + section + b, rules) == Front(a, rules) + section + Behind(a, b, rules)
  {
    var a', b' := WithoutBlock(a, StartsBlock, EndsBlock), BehindBlock(a, b, StartsBlock, EndsBlock);
    BlockSplits(a, section, b, StartsBlock, EndsBlock);
    HostsSplit(a', section, b', Hosts(rules));
    assert EndsTidy(Front(a, rules) + section);
    TidySplits(Front(a, rules) + section, WithoutHosts(b', Hosts(rules)));
  }

  /** What merging writes before a section, or behind it: what it keeps there, and the rules if their
      place is there. */
  predicate IsKeptWithRules(lines: seq<string>, kept: seq<string>, rules: seq<string>) {
    lines == kept || exists k | 0 <= k <= |kept| :: lines == Inserted(kept, k, rules)
  }

  lemma PlacedSplits(a: seq<string>, section: seq<string>, b: seq<string>, rules: seq<string>)
    returns (before: seq<string>, after: seq<string>)
    requires forall i | 0 < i < |section| :: !IsCatchAll(section[i])
    requires Placed(a + section + b, rules, IsIngress, IsCatchAll).Merged? && section != []
    ensures Placed(a + section + b, rules, IsIngress, IsCatchAll).lines == before + section + after
    ensures IsKeptWithRules(before, a, rules) && IsKeptWithRules(after, b, rules)
  {
    var kept := a + section + b;
    var k := PlaceOf(kept, IsIngress, IsCatchAll);
    assert forall i | |a| < i < |a| + |section| :: kept[i] == section[i - |a|];
    InsertedOutside(a, section, b, k, rules);
    before, after := a, b;
    if k <= |a| {
      before := Inserted(a, k, rules);
    } else {
      after := Inserted(b, k - |a| - |section|, rules);
    }
  }

  /** Merging leaves every unrelated section of the file as it is, with its indented lines, wherever
      it stands outside the first block; before and behind it is what merging keeps of the lines
      there, with the rules put among them. */
  lemma SectionStays(a: seq<string>, section: seq<string>, b: seq<string>, rules: seq<string>)
    returns (before: seq<string>, after: seq<string>)
    requires IsUnrelated(section, Hosts(rules)) && IsOutside(a, b, StartsBlock, EndsBlock)
    requires Merge(a + section + b, rules).Merged?
    ensures Merge(a + section + b, rules).lines == before + section + after
    ensures IsKeptWithRules(before, Front(a, rules), rules)
    ensures IsKeptWithRules(after, Behind(a, b, rules), rules)
  {
    KeptSplits(a, section, b, rules);
    before, after := PlacedSplits(Front(a, rules), section, Behind(a, b, rules), rules);
  }

  // ---- order ----

  /** What is kept between two sections. */
  function Between(a: seq<string>, b: seq<string>, rules: seq<string>): seq<string> {
    WithoutHosts(BehindBlock(a, b, StartsBlock, EndsBlock), Hosts(rules))
  }

  lemma FrontSplits(a: seq<string>, section: seq<string>, b: seq<string>, rules: seq<string>)
    requires IsUnrelated(section, Hosts(rules)) && IsOutside(a, b, StartsBlock, EndsBlock)
    ensures Front(a + section + b, rules) == Front(a, rules) + section + Between(a, b, rules)
  {
    BlockSplits(a, section, b, StartsBlock, EndsBlock);
    var a', b' := WithoutBlock(a, StartsBlock, EndsBlock), BehindBlock(a, b, StartsBlock, EndsBlock);
    HostsSplit(a', section, b', Hosts(rules));
  }

  /** Rules put outside two sections: before, between or behind them. */
  lemma InsertedOutsideBoth(x: seq<string>, first: seq<string>, y: seq<string>, second: seq<string>, z: seq<string>,
    k: nat, rules: seq<string>) returns (before: seq<string>, between: seq<string>, after: seq<string>)
    requires k <= |x| + |first| + |y| + |second| + |z|
    requires k <= |x| || k >= |x| + |first|
    requires k <= |x| + |first| + |y| || k >= |x| + |first| + |y| + |second|
    ensures Inserted(x + first + y + second + z, k, rules) == before + first + between + second + after
    ensures IsKeptWithRules(before, x, rules) && IsKeptWithRules(between, y, rules) && IsKeptWithRules(after, z, rules)
  {
    before, between, after := x, y, z;
    InsertedOutside(x + first + y, second, z, k, rules);
    if k > |x| + |first| + |y| {
      after := Inserted(z, k - |x| - |first| - |y| - |second|, rules);
    } else {
      InsertedOutside(x, first, y, k, rules);
      if k <= |x| {
        before := Inserted(x, k, rules);
      } else {
        between := Inserted(y, k - |x| - |first|, rules);
      }
    }
  }

  lemma OutsideBoth(kept: seq<string>, k: nat, x: seq<string>, first: seq<string>, y: seq<string>, second: seq<string>)
    requires x + first + y + second <= kept
    requires forall i | 0 < i < |first| :: !IsCatchAll(first[i])
    requires forall i | 0 < i < |second| :: !IsCatchAll(second[i])
    requires k < |kept| && IsCatchAll(kept[k]) && first != [] && second != []
    ensures k <= |x| || k >= |x| + |first|
    ensures k <= |x| + |first| + |y| || k >= |x| + |first| + |y| + |second|
  {
    var front := x + first + y + second;
    assert forall i | 0 <= i < |front| :: kept[i] == front[i];
    assert forall i | |x| < i < |x| + |first| :: front[i] == first[i - |x|];
    var from := |x| + |first| + |y|;
    assert forall i | from < i < from + |second| :: front[i] == second[i - from];
  }

  /** Unrelated sections stay in their order. */
  lemma TwoSectionsStay(a: seq<string>, first: seq<string>, b: seq<string>, second: seq<string>, c: seq<string>,
    rules: seq<string>) returns (before: seq<string>, between: seq<string>, after: seq<string>)
    requires IsUnrelated(first, Hosts(rules)) && IsOutside(a, b, StartsBlock, EndsBlock)
    requires IsUnrelated(second, Hosts(rules)) && IsOutside(a + first + b, c, StartsBlock, EndsBlock)
    requires Merge(a + first + b + second + c, rules).Merged?
    ensures Merge(a + first + b + second + c, rules).lines == before + first + between + second + after
    ensures IsKeptWithRules(before, Front(a, rules), rules)
    ensures IsKeptWithRules(between, Between(a, b, rules), rules)
    ensures IsKeptWithRules(after, Behind(a + first + b, c, rules), rules)
  {
    KeptSplits(a + first + b, second, c, rules);
    FrontSplits(a, first, b, rules);
    var x, y, z := Front(a, rules), Between(a, b, rules), Behind(a + first + b, c, rules);
    var kept := x + first + y + second + z;
    var k := PlaceOf(kept, IsIngress, IsCatchAll);
    OutsideBoth(kept, k, x, first, y, second);
    before, between, after := InsertedOutsideBoth(x, first, y, second, z, k, rules);
  }
}
