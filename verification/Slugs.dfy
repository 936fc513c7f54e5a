/** Slugs of plans: what a name becomes, and how a free one is found. */
module Slugs {
  import opened Options
  import opened Text

  // ---- slugify ----

  predicate IsSlugChar(c: char) {
    'a' <= c <= 'z' || IsDigit(c)
  }

  /** Lower case as far as slugs can tell: outside ASCII only the Kelvin sign and the dotted capital
      I have a lower case with an ASCII letter in it; what others become is no slug character. */
  function LowerChar(c: char): string {
    if 'A' <= c <= 'Z' then [(c as int - 'A' as int + 'a' as int) as char]
    else if c == '\U{212A}' then "k"
    else if c == '\U{130}' then "i\U{307}"
    else [c]
  }

  function Lower(s: string): string {
    if s == "" then "" else LowerChar(s[0]) + Lower(s[1..])
  }

  /** Every run of other characters becomes one hyphen. */
  function Hyphenate(s: string): string {
    if s == "" then ""
    else if IsSlugChar(s[0]) then [s[0]] + Hyphenate(s[1..])
    else if |s| > 1 && !IsSlugChar(s[1]) then Hyphenate(s[1..])
    else "-" + Hyphenate(s[1..])
  }

  function StripStart(s: string): string {
    if s != "" && s[0] == '-' then StripStart(s[1..]) else s
  }

  function StripEnd(s: string): string {
    if s != "" && s[|s| - 1] == '-' then StripEnd(s[..|s| - 1]) else s
  }

  function Slugify(name: string): string {
    StripEnd(StripStart(Hyphenate(Trim(Lower(name)))))
  }

  // ---- what slugify does ----

  predicate IsWord(s: string) {
    s != "" && forall i | 0 <= i < |s| :: IsSlugChar(s[i])
  }

  predicate AreWords(words: seq<string>) {
    forall i | 0 <= i < |words| :: IsWord(words[i])
  }

  /** The longest runs of slug characters, in order. */
  function Words(s: string): (words: seq<string>)
    ensures AreWords(words)
    ensures words == [] ==> forall i | 0 <= i < |s| :: !IsSlugChar(s[i])
  {
    if s == "" then []
    else
      var rest := Words(s[1..]);
      if !IsSlugChar(s[0]) then rest
      else if |s| > 1 && IsSlugChar(s[1]) then [[s[0]] + rest[0]] + rest[1..]
      else [[s[0]]] + rest
  }

  function Join(words: seq<string>): string {
    if words == [] then ""
    else if |words| == 1 then words[0]
    else words[0] + "-" + Join(words[1..])
  }

  lemma {:induction false} JoinEnds(words: seq<string>)
    requires AreWords(words)
    ensures words == [] <==> Join(words) == ""
    ensures words != [] ==> IsSlugChar(Join(words)[0]) && IsSlugChar(Join(words)[|Join(words)| - 1])
  {
    if words != [] {
      assert IsWord(words[0]);
      if |words| > 1 {
        JoinEnds(words[1..]);
      }
    }
  }

  function HyphenIf(b: bool): string {
    if b then "-" else ""
  }

  predicate OpensWithGap(s: string) {
    s != "" && !IsSlugChar(s[0])
  }

  predicate ClosesWithGap(s: string) {
    s != "" && !IsSlugChar(s[|s| - 1]) && Words(s) != []
  }

  lemma {:induction false} HyphenateJoins(s: string)
    ensures Hyphenate(s) == HyphenIf(OpensWithGap(s)) + Join(Words(s)) + HyphenIf(ClosesWithGap(s))
  {
    if |s| > 1 {
      HyphenateJoins(s[1..]);
      assert s[|s| - 1] == s[1..][|s[1..]| - 1];
      if IsSlugChar(s[0]) {
        HyphenateWord(s);
      }
    } else if |s| == 1 {
      assert s[1..] == "" && Words(s[1..]) == [];
      assert Words(s) == if IsSlugChar(s[0]) then [[s[0]]] else [];
    }
  }

  /** The case of a character that belongs to a word. */
  lemma HyphenateWord(s: string)
    requires |s| > 1 && IsSlugChar(s[0])
    requires var tail := s[1..];
             Hyphenate(tail) == HyphenIf(OpensWithGap(tail)) + Join(Words(tail)) + HyphenIf(ClosesWithGap(tail))
    ensures Hyphenate(s) == HyphenIf(OpensWithGap(s)) + Join(Words(s)) + HyphenIf(ClosesWithGap(s))
  {
    var tail := s[1..];
    var words := Words(tail);
    var gap := HyphenIf(OpensWithGap(tail));
    Regroup([s[0]], gap, Join(words), HyphenIf(ClosesWithGap(tail)));
    if words == [] {
      assert !IsSlugChar(tail[0]) && !IsSlugChar(tail[|tail| - 1]) && s[|s| - 1] == tail[|tail| - 1];
      assert Words(s) == [[s[0]]] && Join(Words(s)) == [s[0]];
    } else {
      JoinMore(s[0], words, IsSlugChar(s[1]));
      assert Join(Words(s)) == [s[0]] + gap + Join(words);
      assert ClosesWithGap(s) == ClosesWithGap(tail) by {
        assert s[|s| - 1] == tail[|tail| - 1];
      }
    }
  }

  lemma Regroup(first: string, gap: string, middle: string, last: string)
    ensures first + (gap + middle + last) == "" + (first + gap + middle) + last
  {
  }

  lemma JoinMore(c: char, words: seq<string>, sameWord: bool)
    requires words != []
    ensures sameWord ==> Join([[c] + words[0]] + words[1..]) == [c] + Join(words)
    ensures Join([[c]] + words) == [c] + "-" + Join(words)
  {
    assert ([[c]] + words)[1..] == words;
    var longer := [[c] + words[0]] + words[1..];
    assert longer[1..] == words[1..];
    if |words| > 1 {
      assert [c] + words[0] + "-" + Join(words[1..]) == [c] + (words[0] + "-" + Join(words[1..]));
    }
  }

  lemma {:induction false} WordsWithoutEnd(s: string)
    requires s != "" && !IsSlugChar(s[|s| - 1])
    ensures Words(s[..|s| - 1]) == Words(s)
  {
    if |s| > 1 {
      assert s[1..][..|s[1..]| - 1] == s[..|s| - 1][1..];
      WordsWithoutEnd(s[1..]);
    }
  }

  lemma {:induction false} WordsOfTrimStart(s: string)
    ensures Words(TrimStart(s)) == Words(s)
  {
    if s != "" && IsSpace(s[0]) {
      WordsOfTrimStart(s[1..]);
    }
  }

  lemma {:induction false} WordsOfTrimEnd(s: string)
    ensures Words(TrimEnd(s)) == Words(s)
  {
    if s != "" && IsSpace(s[|s| - 1]) {
      WordsWithoutEnd(s);
      WordsOfTrimEnd(s[..|s| - 1]);
    }
  }

  lemma StripsHyphens(before: bool, middle: string, after: bool)
    requires middle != "" ==> middle[0] != '-' && middle[|middle| - 1] != '-'
    requires middle == "" ==> !after
    ensures StripEnd(StripStart(HyphenIf(before) + middle + HyphenIf(after))) == middle
  {
    var rest := middle + HyphenIf(after);
    Regroup("", HyphenIf(before), middle, HyphenIf(after));
    assert HyphenIf(before) + middle + HyphenIf(after) == HyphenIf(before) + rest;
    assert rest != "" ==> rest[0] != '-';
    assert StripStart(rest) == rest;
    if before {
      assert ("-" + rest)[1..] == rest;
    } else {
      assert "" + rest == rest;
    }
    assert StripEnd(middle) == middle;
    if after {
      assert (middle + "-")[..|middle|] == middle;
    } else {
      assert middle + "" == middle;
    }
  }

  /** A slug is the words of the lower-cased name, joined by hyphens. */
  lemma SlugJoinsWords(name: string)
    ensures Slugify(name) == Join(Words(Lower(name)))
  {
    var lower := Lower(name);
    var trimmed := Trim(lower);
    WordsOfTrimStart(lower);
    WordsOfTrimEnd(TrimStart(lower));
    HyphenateJoins(trimmed);
    var joined := Join(Words(trimmed));
    JoinEnds(Words(trimmed));
    StripsHyphens(OpensWithGap(trimmed), joined, ClosesWithGap(trimmed));
  }

  // ---- the letters of a name ----

  predicate IsSmall(c: char) {
    'a' <= c <= 'z' || '0' <= c <= '9'
  }

  /** The letter or digit that a character of a name stands for, if any: capitals and the two capitals
      outside ASCII stand for the small letter. */
  function LetterOf(c: char): string {
    if IsSmall(c) then [c]
    else if 'A' <= c <= 'Z' then ['a' + (c - 'A')]
    else if c == '\U{212A}' then "k"
    else if c == '\U{130}' then "i"
    else ""
  }

  function Letters(name: string): string {
    if name == "" then "" else LetterOf(name[0]) + Letters(name[1..])
  }

  /** A text without anything but small letters and digits. */
  function LettersOnly(s: string): string {
    if s == "" then "" else (if IsSmall(s[0]) then [s[0]] else "") + LettersOnly(s[1..])
  }

  lemma {:induction false} LettersOnlyJoins(a: string, b: string)
    ensures LettersOnly(a + b) == LettersOnly(a) + LettersOnly(b)
  {
    if a == "" {
      assert a + b == b;
    } else {
      assert (a + b)[0] == a[0] && (a + b)[1..] == a[1..] + b;
      LettersOnlyJoins(a[1..], b);
      Grouped(if IsSmall(a[0]) then [a[0]] else "", LettersOnly(a[1..]), LettersOnly(b));
    }
  }

  lemma Grouped(a: string, b: string, c: string)
    ensures a + (b + c) == a + b + c
  {
  }

  lemma LowerCharLetter(c: char)
    ensures LettersOnly(LowerChar(c)) == LetterOf(c)
  {
    if c == '\U{130}' {
      assert "i\U{307}"[1..] == "\U{307}";
    }
  }

  lemma {:induction false} LowerLetters(name: string)
    ensures LettersOnly(Lower(name)) == Letters(name)
  {
    if name != "" {
      LowerCharLetter(name[0]);
      LettersOnlyJoins(LowerChar(name[0]), Lower(name[1..]));
      LowerLetters(name[1..]);
    }
  }

  lemma {:induction false} WordsLetters(s: string)
    ensures LettersOnly(Join(Words(s))) == LettersOnly(s)
  {
    if s != "" {
      WordsLetters(s[1..]);
      if IsSlugChar(s[0]) && Words(s[1..]) != [] {
        JoinMore(s[0], Words(s[1..]), |s| > 1 && IsSlugChar(s[1]));
        MoreLetters(s[0], Join(Words(s[1..])));
      }
    }
  }

  lemma MoreLetters(c: char, joined: string)
    requires IsSlugChar(c)
    ensures LettersOnly([c] + joined) == LettersOnly([c] + "-" + joined) == [c] + LettersOnly(joined)
  {
    assert ([c] + joined)[1..] == joined;
    assert ([c] + "-" + joined)[1..] == "-" + joined && ("-" + joined)[1..] == joined;
  }

  /** A slug has exactly the letters and digits of the name, in order, capitals made small. */
  lemma SlugHasLetters(name: string)
    ensures LettersOnly(Slugify(name)) == Letters(name)
    ensures Slugify(name) == "" <==> Letters(name) == ""
  {
    SlugJoinsWords(name);
    WordsLetters(Lower(name));
    LowerLetters(name);
    JoinEnds(Words(Lower(name)));
  }

  /** Lower-case letters, digits and single hyphens between them. */
  predicate IsSlug(s: string) {
    && (forall i | 0 <= i < |s| :: IsSlugChar(s[i]) || s[i] == '-')
    && (forall i | 0 <= i < |s| - 1 :: s[i] != '-' || s[i + 1] != '-')
    && (s != "" ==> s[0] != '-' && s[|s| - 1] != '-')
  }

  lemma {:induction false} JoinedIsSlug(words: seq<string>)
    requires AreWords(words)
    ensures IsSlug(Join(words))
  {
    if words != [] {
      assert IsWord(words[0]);
      if |words| > 1 {
        JoinedIsSlug(words[1..]);
        JoinEnds(words[1..]);
      }
    }
  }

  lemma {:induction false} SlugIsLower(s: string)
    requires forall i | 0 <= i < |s| :: IsSlugChar(s[i]) || s[i] == '-'
    ensures Lower(s) == s
  {
    if s != "" {
      SlugIsLower(s[1..]);
      assert [s[0]] + s[1..] == s;
    }
  }

  lemma {:induction false} SlugIsHyphenated(s: string)
    requires forall i | 0 <= i < |s| :: IsSlugChar(s[i]) || s[i] == '-'
    requires forall i | 0 <= i < |s| - 1 :: s[i] != '-' || s[i + 1] != '-'
    ensures Hyphenate(s) == s
  {
    if s != "" {
      SlugIsHyphenated(s[1..]);
      assert [s[0]] + s[1..] == s;
    }
  }

  /** Slugs are exactly what slugify leaves alone, and slugify always gives one. */
  lemma SlugifyFixedIff(s: string)
    ensures Slugify(s) == s <==> IsSlug(s)
    ensures Slugify(Slugify(s)) == Slugify(s)
  {
    SlugJoinsWords(s);
    JoinedIsSlug(Words(Lower(s)));
    if IsSlug(s) {
      SlugIsKept(s);
    }
    SlugIsKept(Slugify(s));
  }

  lemma SlugIsKept(s: string)
    requires IsSlug(s)
    ensures Slugify(s) == s
  {
    SlugIsLower(s);
    SlugIsHyphenated(s);
  }

  // ---- the search ----

  datatype Plan = Plan(name: string, slug: string, price: nat)

  /** The slugs tried, in order. */
  function Candidate(baseSlug: string, k: nat): string {
    if k == 0 then baseSlug else baseSlug + "-" + Show(k)
  }

  lemma CandidatesDiffer(baseSlug: string, j: nat, k: nat)
    requires Candidate(baseSlug, j) == Candidate(baseSlug, k)
    ensures j == k
  {
    if j > 0 && k > 0 {
      assert Candidate(baseSlug, j)[|baseSlug| + 1..] == Show(j);
      assert Candidate(baseSlug, k)[|baseSlug| + 1..] == Show(k);
    }
  }

  function SlugsOf(plans: map<nat, Plan>): set<string> {
    set id | id in plans :: plans[id].slug
  }

  ghost predicate DistinctSlugs(plans: map<nat, Plan>) {
    forall a, b | a in plans && b in plans && a != b :: plans[a].slug != plans[b].slug
  }

  /** The candidate with the least number that no plan has. */
  ghost predicate IsLeastFree(slug: string, baseSlug: string, k: nat, plans: map<nat, Plan>) {
    && slug == Candidate(baseSlug, k) && slug !in SlugsOf(plans)
    && forall j | 0 <= j < k :: Candidate(baseSlug, j) in SlugsOf(plans)
  }

  /** There is one slug the search can end with, and it is found within as many steps as there are
      plans. */
  lemma LeastFreeIsUnique(slug: string, slug': string, baseSlug: string, k: nat, k': nat, plans: map<nat, Plan>)
    requires IsLeastFree(slug, baseSlug, k, plans) && IsLeastFree(slug', baseSlug, k', plans)
    ensures slug == slug' && k == k' <= |SlugsOf(plans)|
  {
    TriedAreDistinct(baseSlug, k, SlugsOf(plans));
  }

  lemma {:induction false} TriedAreDistinct(baseSlug: string, k: nat, slugs: set<string>)
    requires forall j | 0 <= j < k :: Candidate(baseSlug, j) in slugs
    ensures k <= |slugs|
  {
    if k > 0 {
      var last := Candidate(baseSlug, k - 1);
      forall j | 0 <= j < k - 1 ensures Candidate(baseSlug, j) in slugs - {last} {
        if Candidate(baseSlug, j) == last {
          CandidatesDiffer(baseSlug, j, k - 1);
        }
      }
      TriedAreDistinct(baseSlug, k - 1, slugs - {last});
    }
  }

  /** A slug made of the letters and digits of the name. */
  predicate IsSlugFrom(slug: string, name: string) {
    slug != "" && IsSlug(slug) && LettersOnly(slug) == Letters(name)
  }

  lemma SlugComesFromName(name: string)
    ensures if Letters(name) == "" then Slugify(name) == "" else IsSlugFrom(Slugify(name), name)
  {
    SlugHasLetters(name);
    SlugifyFixedIff(name);
    SlugifyFixedIff(Slugify(name));
  }

  /** A name without a letter or digit falls back on the identifier drawn for the row. */
  predicate IsBaseFor(base: string, name: string, uuid: string) {
    if Letters(name) == "" then base == "plan-" + uuid else IsSlugFrom(base, name)
  }

  function BaseSlug(name: string, uuid: string): string {
    if Slugify(name) == "" then "plan-" + uuid else Slugify(name)
  }

  /** What the search knows after trying the candidates below `k`. */
  ghost predicate Tried(tried: set<string>, baseSlug: string, k: nat, slugs: set<string>) {
    && (forall s | s in tried :: exists j | 0 <= j < k :: s == Candidate(baseSlug, j))
    && (forall j | 0 <= j < k :: Candidate(baseSlug, j) in slugs)
  }

  /** A taken candidate has not been tried before, so the slugs left to try become fewer. */
  lemma TryNext(tried: set<string>, baseSlug: string, k: nat, slugs: set<string>)
    requires Tried(tried, baseSlug, k, slugs) && Candidate(baseSlug, k) in slugs
    ensures Tried(tried + {Candidate(baseSlug, k)}, baseSlug, k + 1, slugs)
    ensures |slugs - (tried + {Candidate(baseSlug, k)})| < |slugs - tried|
  {
    var slug := Candidate(baseSlug, k);
    if slug in tried {
      var j :| 0 <= j < k && slug == Candidate(baseSlug, j);
      CandidatesDiffer(baseSlug, j, k);
    }
    assert slugs - (tried + {slug}) == (slugs - tried) - {slug};
  }

  /** The slug `create` settles on. */
  method FreeSlug(baseSlug: string, plans: map<nat, Plan>) returns (slug: string)
    ensures exists k :: IsLeastFree(slug, baseSlug, k, plans)
  {
    slug := baseSlug;
    var counter := 1;
    ghost var tried: set<string> := {};
    while slug in SlugsOf(plans)
      invariant counter >= 1 && slug == Candidate(baseSlug, counter - 1)
      invariant Tried(tried, baseSlug, counter - 1, SlugsOf(plans))
      decreases |SlugsOf(plans) - tried|
    {
      TryNext(tried, baseSlug, counter - 1, SlugsOf(plans));
      tried := tried + {slug};
      slug := baseSlug + "-" + Show(counter);
      counter := counter + 1;
    }
    assert IsLeastFree(slug, baseSlug, counter - 1, plans);
  }

  class PlansService {
    var plans: map<nat, Plan>

    constructor ()
      ensures plans == map[] && DistinctSlugs(plans)
    {
      plans := map[];
    }

    /** `id` and `uuid` are the key and the identifier drawn for the new row. */
    method Create(id: nat, uuid: string, name: string, price: string) returns (created: bool)
      requires id !in plans && DistinctSlugs(plans)
      modifies this
      ensures created == (price != "" && AllDigits(price))
      ensures !created ==> plans == old(plans)
      ensures created ==> id in plans && plans == old(plans)[id := Plan(name, plans[id].slug, Value(price))]
      ensures created ==> exists k :: IsLeastFree(plans[id].slug, BaseSlug(name, uuid), k, old(plans))
      ensures created ==>
        exists base, k :: IsBaseFor(base, name, uuid) && IsLeastFree(plans[id].slug, base, k, old(plans)) &&
          (if k == 0 then plans[id].slug == base else plans[id].slug == base + "-" + Show(k))
      ensures DistinctSlugs(plans)
    {
      if price == "" || !AllDigits(price) {
        return false;
      }
      SlugComesFromName(name);
      var slug := FreeSlug(BaseSlug(name, uuid), plans);
      plans := plans[id := Plan(name, slug, Value(price))];
      return true;
    }

    /** A new name brings its own slug, without a search: the row is refused where another has it. */
    method Rename(id: nat, name: string) returns (renamed: bool)
      requires DistinctSlugs(plans)
      modifies this
      ensures renamed == (id in old(plans) && !HeldByAnother(old(plans), id, Renamed(old(plans)[id], name).slug))
      ensures renamed ==> plans == old(plans)[id := Renamed(old(plans)[id], name)]
      ensures renamed ==>
        && plans == old(plans)[id := Plan(if name == "" then old(plans)[id].name else name, plans[id].slug,
                                          old(plans)[id].price)]
        && if Letters(name) == "" then plans[id].slug == old(plans)[id].slug else IsSlugFrom(plans[id].slug, name)
      ensures !renamed ==> plans == old(plans)
      ensures DistinctSlugs(plans)
    {
      if id !in plans {
        return false;
      }
      SlugComesFromName(name);
      var plan := plans[id];
      if name != "" {
        plan := plan.(name := name);
        if Slugify(name) != "" {
          plan := plan.(slug := Slugify(name));
        }
      }
      if HeldByAnother(plans, id, plan.slug) {
        return false;
      }
      plans := plans[id := plan];
      return true;
    }
  }

  predicate HeldByAnother(plans: map<nat, Plan>, id: nat, slug: string) {
    exists other | other in plans && other != id :: plans[other].slug == slug
  }

  function Renamed(plan: Plan, name: string): Plan {
    Plan(if name == "" then plan.name else name, if Slugify(name) == "" then plan.slug else Slugify(name), plan.price)
  }
}
