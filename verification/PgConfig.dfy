/** The PostgreSQL configuration files of the host, line by line. */
module PgConfig {
  import opened Options
  import opened Text
  import opened ConfigLines

  datatype Plan = Plan(lines: seq<string>, changed: bool)

  // ---- pg_hba.conf ----

  const MARKER := "#" + " added by tazaxy installer (scoped to the app network)"

  predicate IsKeyword(line: string, keyword: string) {
    StartsWith(line, keyword) && |line| > |keyword| && IsSpace(line[|keyword|])
  }

  /** A `host` or `local` rule, not a comment. */
  predicate IsRule(line: string) {
    IsKeyword(TrimStart(line), "host") || IsKeyword(TrimStart(line), "local")
  }

  function Reads(wanted: string): Pick {
    line => Trim(line) == wanted
  }

  function PlanHba(lines: seq<string>, rule: string): Plan {
    if Has(lines, Reads(Trim(rule))) then Plan(lines, false)
    else Plan(Inserted(lines, First(lines, IsRule), [MARKER, rule, ""]), true)
  }

  /** The first rule of the file, the one consulted first, is `rule`. */
  predicate ConsultedFirst(lines: seq<string>, rule: string) {
    Has(lines, IsRule) && Trim(lines[First(lines, IsRule)]) == Trim(rule)
  }

  lemma MarkerIsNoRule()
    ensures !IsRule(MARKER) && !IsRule("")
  {
    assert MARKER[0] == '#' && TrimStart(MARKER) == MARKER;
  }

  /** Every line is kept in its order, next to at most the marker, the rule and an empty line; the
      rule is in the file afterwards and planning again changes nothing. */
  lemma HbaKeepsLines(lines: seq<string>, rule: string) returns (k: nat)
    ensures var plan := PlanHba(lines, rule);
            && Has(plan.lines, Reads(Trim(rule))) && PlanHba(plan.lines, rule) == Plan(plan.lines, false)
            && (if plan.changed then k + 3 <= |plan.lines| && IsWithout(lines, plan.lines, k, k + 3)
                                     && plan.lines[k..k + 3] == [MARKER, rule, ""]
                else plan.lines == lines)
  {
    var plan := PlanHba(lines, rule);
    k := First(lines, IsRule);
    if plan.changed {
      assert plan.lines[k + 1] == rule && Reads(Trim(rule))(plan.lines[k + 1]);
      InsertedKeeps(lines, k, [MARKER, rule, ""]);
    }
  }

  /** A rule that was added is consulted before every other. One that was in the file already stays
      where it is, so it is consulted first exactly when it was the first rule. */
  lemma HbaConsultedFirstIff(lines: seq<string>, rule: string)
    requires IsRule(rule)
    ensures ConsultedFirst(PlanHba(lines, rule).lines, rule) <==>
      !Has(lines, Reads(Trim(rule))) || ConsultedFirst(lines, rule)
  {
    if !Has(lines, Reads(Trim(rule))) {
      var more := [MARKER, rule, ""];
      MarkerIsNoRule();
      FirstIs(more, 1, IsRule);
      InsertedIsFirst(lines, more, IsRule);
    }
  }

  // ---- postgresql.conf ----

  const KEY := "listen_addresses"
  const SUPERSEDED := "   # superseded by tazaxy installer"
  const ADDED := "   # added by tazaxy installer"

  /** A line that sets the key, not a comment. */
  predicate IsSetting(line: string) {
    var start := TrimStart(line);
    StartsWith(start, KEY) && StartsWith(TrimStart(start[|KEY|..]), "=")
  }

  function Desired(value: string): string {
    KEY + " = '" + value + "'"
  }

  function CommentedOut(line: string): string {
    "# " + Trim(line) + SUPERSEDED
  }

  /** The wanted setting stands behind the first one commented out, or at the end. */
  function PlanConf(lines: seq<string>, value: string): Plan {
    var desired := Desired(value);
    if Has(lines, Reads(desired)) then Plan(lines, false)
    else if Has(lines, IsSetting) then Plan(Superseded(lines, IsSetting, CommentedOut, desired), true)
    else Plan(lines + [desired + ADDED], true)
  }

  method PlanConfContent(lines: seq<string>, value: string) returns (plan: Plan)
    ensures plan == PlanConf(lines, value)
  {
    var desired := Desired(value);
    if Has(lines, Reads(desired)) {
      return Plan(lines, false);
    }
    var out, replaced := Rewrite(lines, IsSetting, CommentedOut, desired);
    if !replaced {
      out := out + [desired + ADDED];
    }
    return Plan(out, true);
  }

  lemma CommentIsNoSetting(line: string)
    ensures !IsSetting(CommentedOut(line))
  {
    assert CommentedOut(line)[0] == '#' && TrimStart(CommentedOut(line)) == CommentedOut(line);
    assert KEY[0] == 'l';
  }

  lemma SettingsAreSettings(value: string, rest: string)
    ensures IsSetting(Desired(value) + rest)
  {
    var line := Desired(value) + rest;
    assert KEY[0] == 'l' && line[0] == 'l';
    assert TrimStart(line) == line && line[..|KEY|] == KEY;
    var tail := line[|KEY|..];
    assert tail == " = '" + value + "'" + rest;
    assert TrimStart(tail) == tail[1..];
  }

  lemma DesiredIsTrimmed(value: string)
    ensures Trim(Desired(value)) == Desired(value)
    ensures Trim(Desired(value) + ADDED) != Desired(value)
  {
    assert KEY[0] == 'l';
    TrimKeeps(Desired(value));
    assert ADDED[|ADDED| - 1] == 'r';
    TrimKeeps(Desired(value) + ADDED);
  }

  /** Where the file changes, the lines are kept in order, old settings as comments, next to one new
      line. */
  lemma ConfKeepsLines(lines: seq<string>, value: string) returns (k: nat)
    requires PlanConf(lines, value).changed
    ensures IsWithout(Changed(lines, IsSetting, CommentedOut), PlanConf(lines, value).lines, k, k + 1)
  {
    if Has(lines, IsSetting) {
      k := SupersededKeeps(lines, IsSetting, CommentedOut, Desired(value));
    } else {
      k := |lines|;
      assert Changed(lines, IsSetting, CommentedOut) == lines;
    }
  }

  /** Where the file changes, the new setting is the only one left. */
  lemma ConfLeavesOneSetting(lines: seq<string>, value: string)
    ensures var plan := PlanConf(lines, value);
            plan.changed ==>
              Picked(plan.lines, IsSetting) == [Desired(value) + if Has(lines, IsSetting) then "" else ADDED]
  {
    var desired := Desired(value);
    assert desired + "" == desired;
    SettingsAreSettings(value, "");
    SettingsAreSettings(value, ADDED);
    forall line ensures !IsSetting(CommentedOut(line)) {
      CommentIsNoSetting(line);
    }
    if Has(lines, IsSetting) {
      OnlyWantedIsPicked(lines, IsSetting, CommentedOut, desired);
    } else {
      NonePicked(lines, IsSetting);
      PickedJoins(lines, [desired + ADDED], IsSetting);
    }
  }

  /** The setting gives `value`, with nothing or a comment behind it. */
  predicate Sets(line: string, value: string) {
    var start := TrimStart(line);
    && StartsWith(start, Desired(value))
    && (var rest := TrimStart(start[|Desired(value)|..]); rest == "" || rest[0] == '#')
  }

  /** The last setting of the file, the one obeyed, gives `value`. */
  predicate InForce(lines: seq<string>, value: string) {
    var settings := Picked(lines, IsSetting);
    settings != [] && Sets(settings[|settings| - 1], value)
  }

  lemma DesiredSets(value: string)
    ensures Sets(Desired(value), value) && Sets(Desired(value) + ADDED, value)
  {
    assert KEY[0] == 'l' && Desired(value)[0] == 'l';
    assert Desired(value) + "" == Desired(value);
    JoinStarts(Desired(value), "");
    JoinStarts(Desired(value), ADDED);
    AddedIsComment();
  }

  lemma AddedIsComment()
    ensures TrimStart(ADDED) != "" && TrimStart(ADDED)[0] == '#'
  {
    TrimStartTo(ADDED, 3);
  }

  /** A setting that was written is in force. One that was in the file already stays where it is, so
      it is in force exactly when the last setting was. */
  lemma ConfInForceIff(lines: seq<string>, value: string)
    ensures InForce(PlanConf(lines, value).lines, value) <==>
      !Has(lines, Reads(Desired(value))) || InForce(lines, value)
  {
    if !Has(lines, Reads(Desired(value))) {
      ConfLeavesOneSetting(lines, value);
      DesiredSets(value);
      assert Desired(value) + "" == Desired(value);
    }
  }

  lemma DesiredIsSetting(line: string, value: string)
    requires Trim(line) == Desired(value)
    ensures IsSetting(line)
  {
    var start := TrimStart(line);
    TrimEndIsPrefix(start);
    SettingsAreSettings(value, start[|Desired(value)|..]);
    assert start == Desired(value) + start[|Desired(value)|..];
    TrimStartTwice(line);
  }

  /** Planning twice is planning enough; planning once is, exactly when there was a setting. */
  lemma ConfSettles(lines: seq<string>, value: string)
    ensures var once := PlanConf(lines, value).lines;
            var twice := PlanConf(once, value).lines;
            && PlanConf(twice, value) == Plan(twice, false)
            && (twice == once <==> Has(lines, IsSetting))
  {
    if Has(lines, IsSetting) {
      HasDesiredOnce(lines, value);
    } else {
      AppendedThenReplaced(lines, value);
    }
  }

  lemma HasDesiredOnce(lines: seq<string>, value: string)
    requires Has(lines, IsSetting)
    ensures Has(PlanConf(lines, value).lines, Reads(Desired(value)))
  {
    var once := PlanConf(lines, value);
    DesiredIsTrimmed(value);
    if once.changed {
      assert once.lines[First(lines, IsSetting) + 1] == Desired(value);
      assert Reads(Desired(value))(once.lines[First(lines, IsSetting) + 1]);
    }
  }

  lemma AppendedThenReplaced(lines: seq<string>, value: string)
    requires !Has(lines, IsSetting)
    ensures var once := PlanConf(lines, value).lines;
            && PlanConf(once, value).lines != once
            && Has(PlanConf(once, value).lines, Reads(Desired(value)))
  {
    var desired := Desired(value);
    var isDesired := Reads(desired);
    forall i | 0 <= i < |lines| ensures !isDesired(lines[i]) {
      if Trim(lines[i]) == desired {
        DesiredIsSetting(lines[i], value);
      }
    }
    var once := lines + [desired + ADDED];
    assert PlanConf(lines, value).lines == once;
    DesiredIsTrimmed(value);
    SettingsAreSettings(value, ADDED);
    FirstIs(once, |lines|, IsSetting);
    assert forall i | 0 <= i < |once| :: !isDesired(once[i]);
    HasDesiredOnce(once, value);
    assert |PlanConf(once, value).lines| > |once|;
  }

  // ---- reading the setting back ----

  /** The text between the first two quotes of `s`, which starts with one. */
  function Quoted(s: string): Option<string> {
    if s == "" || s[0] != '\'' then None
    else
      var end := IndexOf(s[1..], '\'');
      if end == |s| - 1 then None else Some(s[1..][..end])
  }

  /** The value of a setting that is written in quotes. */
  function ValueOf(line: string): Option<string> {
    if !IsSetting(line) then None
    else
      var behindKey := TrimStart(TrimStart(line)[|KEY|..]);
      Quoted(TrimStart(behindKey[1..]))
  }

  /** The value that the next run of the installer reads: that of the first setting with one. */
  function CurrentValue(lines: seq<string>): Option<string> {
    if lines == [] then None
    else if ValueOf(lines[0]).Some? then ValueOf(lines[0])
    else CurrentValue(lines[1..])
  }

  lemma {:induction false} CurrentIsPicked(lines: seq<string>)
    ensures CurrentValue(lines) == CurrentValue(Picked(lines, IsSetting))
  {
    if lines != [] {
      CurrentIsPicked(lines[1..]);
      var rest := Picked(lines[1..], IsSetting);
      assert ([lines[0]] + rest)[1..] == rest;
      assert [] + rest == rest;
    }
  }

  lemma DesiredHasValue(value: string, rest: string)
    requires '\'' !in value
    ensures ValueOf(Desired(value) + rest) == Some(value)
  {
    var line := Desired(value) + rest;
    var tail := " = '" + value + "'" + rest;
    SettingsAreSettings(value, rest);
    assert KEY[0] == 'l' && line[0] == 'l';
    assert line == KEY + tail;
    JoinStarts(KEY, tail);
    TrimStartTo(tail, 1);
    assert tail[1..][1..] == " '" + value + "'" + rest;
    QuotedIs(value, rest);
  }

  lemma QuotedIs(value: string, rest: string)
    requires '\'' !in value
    ensures Quoted(TrimStart(" '" + value + "'" + rest)) == Some(value)
  {
    var text := " '" + value + "'" + rest;
    TrimStartTo(text, 1);
    assert text[1..][1..] == value + ['\''] + rest;
    IndexOfFirst(value, '\'', rest);
    assert (value + ['\''] + rest)[..|value|] == value;
  }

  /** A value that was written is the one read back. Where the wanted line was in the file already, it is
      read back exactly if it was what was read before. */
  lemma ReadBackIff(lines: seq<string>, value: string)
    requires '\'' !in value
    ensures CurrentValue(PlanConf(lines, value).lines) == Some(value) <==>
      !Has(lines, Reads(Desired(value))) || CurrentValue(lines) == Some(value)
  {
    if !Has(lines, Reads(Desired(value))) {
      var comment := if Has(lines, IsSetting) then "" else ADDED;
      ConfLeavesOneSetting(lines, value);
      CurrentIsPicked(PlanConf(lines, value).lines);
      DesiredHasValue(value, comment);
    }
  }
}
