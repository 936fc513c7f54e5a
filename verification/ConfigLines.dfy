/** Lists of lines, with predicates that pick some of them out. */
module ConfigLines {

  type Pick = string -> bool

  lemma Assoc(a: seq<string>, b: seq<string>, c: seq<string>)
    ensures a + (b + c) == a + b + c
  {
  }

  /** The place of the first line picked, or the number of lines. */
  function First(lines: seq<string>, pick: Pick): (k: nat)
    ensures k <= |lines| && forall i | 0 <= i < k :: !pick(lines[i])
    ensures k < |lines| ==> pick(lines[k])
  {
    if lines == [] || pick(lines[0]) then 0 else 1 + First(lines[1..], pick)
  }

  predicate Has(lines: seq<string>, pick: Pick) {
    First(lines, pick) < |lines|
  }

  lemma FirstIs(lines: seq<string>, k: nat, pick: Pick)
    requires k < |lines| && pick(lines[k]) && forall i | 0 <= i < k :: !pick(lines[i])
    ensures First(lines, pick) == k
  {
  }

  /** The lines picked, in order. */
  function Picked(lines: seq<string>, pick: Pick): seq<string> {
    if lines == [] then [] else (if pick(lines[0]) then [lines[0]] else []) + Picked(lines[1..], pick)
  }

  lemma {:induction false} PickedJoins(a: seq<string>, b: seq<string>, pick: Pick)
    ensures Picked(a + b, pick) == Picked(a, pick) + Picked(b, pick)
  {
    if a == [] {
      assert a + b == b;
    } else {
      assert (a + b)[0] == a[0] && (a + b)[1..] == a[1..] + b;
      PickedJoins(a[1..], b, pick);
      var first := if pick(a[0]) then [a[0]] else [];
      assert first + (Picked(a[1..], pick) + Picked(b, pick)) == first + Picked(a[1..], pick) + Picked(b, pick);
    }
  }

  lemma {:induction false} NonePicked(lines: seq<string>, pick: Pick)
    ensures Picked(lines, pick) == [] <==> forall i | 0 <= i < |lines| :: !pick(lines[i])
  {
    if lines != [] {
      NonePicked(lines[1..], pick);
      assert forall i | 1 <= i < |lines| :: lines[i] == lines[1..][i - 1];
    }
  }

  /** `lines` is what remains of `longer` without the lines from `from` to `to`. */
  predicate IsWithout(lines: seq<string>, longer: seq<string>, from: nat, to: nat) {
    from <= to <= |longer| && lines == longer[..from] + longer[to..]
  }

  // ---- inserting ----

  function Inserted(lines: seq<string>, k: nat, more: seq<string>): (r: seq<string>)
    requires k <= |lines|
    ensures |r| == |lines| + |more|
  {
    lines[..k] + more + lines[k..]
  }

  lemma InsertedKeeps(lines: seq<string>, k: nat, more: seq<string>)
    requires k <= |lines|
    ensures IsWithout(lines, Inserted(lines, k, more), k, k + |more|)
  {
    assert Inserted(lines, k, more)[..k] == lines[..k];
    assert Inserted(lines, k, more)[k + |more|..] == lines[k..];
  }

  /** Lines inserted before the first one picked: the first one picked is among them. */
  lemma InsertedIsFirst(lines: seq<string>, more: seq<string>, pick: Pick)
    requires Has(more, pick)
    ensures First(Inserted(lines, First(lines, pick), more), pick) == First(lines, pick) + First(more, pick)
  {
    var k := First(lines, pick);
    var all := Inserted(lines, k, more);
    assert forall i | k <= i < k + |more| :: all[i] == more[i - k];
    FirstIs(all, k + First(more, pick), pick);
  }

  // ---- rewriting ----

  type Change = string -> string

  /** Every line picked is changed. */
  function Changed(lines: seq<string>, pick: Pick, change: Change): (r: seq<string>)
    ensures |r| == |lines|
    ensures forall i | 0 <= i < |lines| :: r[i] == if pick(lines[i]) then change(lines[i]) else lines[i]
  {
    seq(|lines|, i requires 0 <= i < |lines| => if pick(lines[i]) then change(lines[i]) else lines[i])
  }

  lemma HasSnoc(lines: seq<string>, line: string, pick: Pick)
    ensures Has(lines + [line], pick) == (Has(lines, pick) || pick(line))
    ensures First(lines + [line], pick) == if Has(lines, pick) || pick(line) then First(lines, pick) else |lines| + 1
  {
    var k := First(lines, pick);
    if Has(lines, pick) || pick(line) {
      FirstIs(lines + [line], k, pick);
    } else {
      assert forall i | 0 <= i < |lines| + 1 :: !pick((lines + [line])[i]);
    }
  }

  /** Changed lines, and `wanted` behind the first of them, said at once. */
  function Superseded(lines: seq<string>, pick: Pick, change: Change, wanted: string): seq<string> {
    if Has(lines, pick) then Inserted(Changed(lines, pick, change), First(lines, pick) + 1, [wanted]) else lines
  }

  lemma SupersededKeeps(lines: seq<string>, pick: Pick, change: Change, wanted: string) returns (k: nat)
    requires Has(lines, pick)
    ensures IsWithout(Changed(lines, pick, change), Superseded(lines, pick, change, wanted), k, k + 1)
  {
    k := First(lines, pick) + 1;
    InsertedKeeps(Changed(lines, pick, change), k, [wanted]);
  }

  lemma ChangedSnoc(front: seq<string>, line: string, pick: Pick, change: Change)
    ensures Changed(front + [line], pick, change) ==
      Changed(front, pick, change) + [if pick(line) then change(line) else line]
  {
  }

  lemma SupersededSnoc(front: seq<string>, line: string, pick: Pick, change: Change, wanted: string)
    ensures Has(front + [line], pick) == (Has(front, pick) || pick(line))
    ensures Superseded(front + [line], pick, change, wanted) == Superseded(front, pick, change, wanted) +
      if !pick(line) then [line] else if Has(front, pick) then [change(line)] else [change(line), wanted]
  {
    HasSnoc(front, line, pick);
    if Has(front, pick) {
      ChangedSnoc(front, line, pick, change);
      var last := if pick(line) then change(line) else line;
      InsertedSnoc(Changed(front, pick, change), First(front, pick) + 1, [wanted], last);
    } else if pick(line) {
      FirstPickedSnoc(front, line, pick, change, wanted);
    }
  }

  lemma FirstPickedSnoc(front: seq<string>, line: string, pick: Pick, change: Change, wanted: string)
    requires !Has(front, pick) && pick(line)
    ensures Inserted(Changed(front + [line], pick, change), |front| + 1, [wanted]) == front + [change(line), wanted]
  {
    ChangedSnoc(front, line, pick, change);
    assert Changed(front, pick, change) == front;
  }

  lemma InsertedSnoc(lines: seq<string>, k: nat, more: seq<string>, line: string)
    requires k <= |lines|
    ensures Inserted(lines + [line], k, more) == Inserted(lines, k, more) + [line]
  {
  }

  /** The pass that comments settings out and writes the wanted one once. */
  method Rewrite(lines: seq<string>, pick: Pick, change: Change, wanted: string)
    returns (out: seq<string>, replaced: bool)
    ensures out == Superseded(lines, pick, change, wanted) && replaced == Has(lines, pick)
  {
    out := [];
    replaced := false;
    for i := 0 to |lines|
      invariant replaced == Has(lines[..i], pick)
      invariant out == Superseded(lines[..i], pick, change, wanted)
    {
      assert lines[..i + 1] == lines[..i] + [lines[i]];
      SupersededSnoc(lines[..i], lines[i], pick, change, wanted);
      if pick(lines[i]) {
        out := out + [change(lines[i])];
        if !replaced {
          out := out + [wanted];
          replaced := true;
        }
      } else {
        out := out + [lines[i]];
      }
    }
    assert lines[..|lines|] == lines;
  }

  /** Where changed lines are no longer picked, the wanted line is the only one picked. */
  lemma OnlyWantedIsPicked(lines: seq<string>, pick: Pick, change: Change, wanted: string)
    requires Has(lines, pick) && pick(wanted) && forall line :: !pick(change(line))
    ensures Picked(Superseded(lines, pick, change, wanted), pick) == [wanted]
  {
    var changed := Changed(lines, pick, change);
    var k := First(lines, pick) + 1;
    NonePicked(changed[..k], pick);
    NonePicked(changed[k..], pick);
    PickedJoins(changed[..k] + [wanted], changed[k..], pick);
    PickedJoins(changed[..k], [wanted], pick);
    assert Picked([wanted], pick) == [wanted];
  }
}
