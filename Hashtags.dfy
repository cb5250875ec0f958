/**
 * Hashtag selection for a niche (src/lib/hashtags.ts): the niche is trimmed
 * and lower-cased, the first dictionary key that occurs in it picks a tag
 * list, the default tags are appended, duplicates are dropped keeping first
 * occurrences, and at most six tags are kept.
 */
module Hashtags {
  import opened Wrappers
  import opened Text

  const Business: seq<string> :=
    ["#entrepreneurtips", "#sidehustleideas", "#digitalproducts", "#smallbizowner", "#passiveincome"]
  const Fitness: seq<string> :=
    ["#fitcheck", "#wellnesstips", "#workoutroutine", "#fitnessmotivation", "#healthylifestyle"]
  const Beauty: seq<string> :=
    ["#skincareroutine", "#beautyhacks", "#glowupchallenge", "#makeuptutorial", "#selfcareclub"]
  const Tech: seq<string> :=
    ["#techtiktok", "#aiforcreators", "#productivityhack", "#techtools", "#automationtips"]
  const Default: seq<string> :=
    ["#fyp", "#viral", "#tiktokmade", "#contentcreator", "#dailyinspo"]

  /** The most tags a selection returns. */
  const MaxTags := 6

  /** The dictionary's keys in declaration order, which is the order `Object.entries` visits them. */
  const Keys: seq<string> := ["business", "fitness", "beauty", "tech", "default"]

  /** The tag list stored under the key at position `k`. */
  function TagsAt(k: nat): seq<string>
    requires k < |Keys|
  {
    [Business, Fitness, Beauty, Tech, Default][k]
  }

  /** No tag appears twice. */
  predicate NoDup(xs: seq<string>) {
    forall i, j :: 0 <= i < j < |xs| ==> xs[i] != xs[j]
  }

  /** The niche as the lookup sees it: no surrounding whitespace, no upper-case letter, never longer. */
  function Normalize(niche: string): (r: string)
    ensures Trimmed(r) && |r| <= |niche|
    ensures forall i :: 0 <= i < |r| ==> !('A' <= r[i] <= 'Z')
    ensures r == [] <==> AllSpace(niche)
  {
    Lower(Trim(niche))
  }

  /** The position of the first key, at or after `from`, that occurs in `normalized`. */
  function FirstKeyFrom(normalized: string, from: nat): (r: Option<nat>)
    ensures r.Some? ==> from <= r.value < |Keys| && Contains(normalized, Keys[r.value])
    ensures r.Some? ==> forall j :: from <= j < r.value ==> !Contains(normalized, Keys[j])
    ensures r.None? ==> forall j :: from <= j < |Keys| ==> !Contains(normalized, Keys[j])
    decreases |Keys| - from
  {
    if from >= |Keys| then None
    else if Contains(normalized, Keys[from]) then Some(from)
    else FirstKeyFrom(normalized, from + 1)
  }

  /** `Array.from(new Set(seen + xs))` when `seen` has no duplicates: first occurrences, in order. */
  function DedupeInto(seen: seq<string>, xs: seq<string>): (r: seq<string>)
    requires NoDup(seen)
    ensures NoDup(r)
    ensures |seen| <= |r| && r[..|seen|] == seen
    ensures forall t :: t in r <==> t in seen || t in xs
    decreases |xs|
  {
    if xs == [] then seen
    else if xs[0] in seen then DedupeInto(seen, xs[1..])
    else DedupeInto(seen + [xs[0]], xs[1..])
  }

  function Dedupe(xs: seq<string>): seq<string> {
    DedupeInto([], xs)
  }

  /** Nothing is dropped from a list that already has no duplicates. */
  lemma {:induction false} DedupeIntoDistinct(seen: seq<string>, xs: seq<string>)
    requires NoDup(seen + xs)
    ensures NoDup(seen) && DedupeInto(seen, xs) == seen + xs
    decreases |xs|
  {
    assert seen == (seen + xs)[..|seen|];
    if xs != [] {
      assert xs[0] == (seen + xs)[|seen|];
      assert xs[0] !in seen;
      assert (seen + [xs[0]]) + xs[1..] == seen + xs;
      DedupeIntoDistinct(seen + [xs[0]], xs[1..]);
    } else {
      assert seen + xs == seen;
    }
  }

  /** Elements already seen add nothing. */
  lemma {:induction false} DedupeIntoSeen(seen: seq<string>, xs: seq<string>)
    requires NoDup(seen)
    requires forall k :: 0 <= k < |xs| ==> xs[k] in seen
    ensures DedupeInto(seen, xs) == seen
    decreases |xs|
  {
    if xs != [] {
      DedupeIntoSeen(seen, xs[1..]);
    }
  }

  /** Deduplicating a concatenation is deduplicating its halves one after the other. */
  lemma {:induction false} DedupeIntoAppend(seen: seq<string>, xs: seq<string>, ys: seq<string>)
    requires NoDup(seen)
    ensures DedupeInto(seen, xs + ys) == DedupeInto(DedupeInto(seen, xs), ys)
    decreases |xs|
  {
    if xs == [] {
      assert xs + ys == ys;
    } else {
      assert (xs + ys)[0] == xs[0];
      assert (xs + ys)[1..] == xs[1..] + ys;
      if xs[0] in seen {
        DedupeIntoAppend(seen, xs[1..], ys);
      } else {
        DedupeIntoAppend(seen + [xs[0]], xs[1..], ys);
      }
    }
  }

  /** A duplicate-free list followed by itself deduplicates to the list. */
  lemma DedupeTwice(xs: seq<string>)
    requires NoDup(xs)
    ensures Dedupe(xs + xs) == xs
  {
    DedupeIntoAppend([], xs, xs);
    assert [] + xs == xs;
    DedupeIntoDistinct([], xs);
    DedupeIntoSeen(xs, xs);
  }

  lemma ListsDistinct()
    ensures NoDup(Business + Default)
    ensures NoDup(Fitness + Default)
    ensures NoDup(Beauty + Default)
    ensures NoDup(Tech + Default)
    ensures NoDup(Default)
  {
  }

  /** The niche key at position `k` has five tags, none repeated and none a default tag. */
  lemma NicheListDistinct(k: nat)
    requires k < 4
    ensures |TagsAt(k)| == 5 && NoDup(TagsAt(k) + Default)
  {
    ListsDistinct();
  }

  /** The key at position `k` occurs in `normalized` and no earlier key does. */
  predicate FirstKey(normalized: string, k: nat) {
    k < |Keys| && Contains(normalized, Keys[k]) && forall j :: 0 <= j < k ==> !Contains(normalized, Keys[j])
  }

  /** No key occurs in `normalized`. */
  predicate NoKey(normalized: string) {
    forall k :: 0 <= k < |Keys| ==> !Contains(normalized, Keys[k])
  }

  /** The search from the first key finds exactly the first key the normalised niche contains. */
  lemma FirstKeyIsFirst(normalized: string)
    ensures forall k: nat :: FirstKey(normalized, k) ==> FirstKeyFrom(normalized, 0) == Some(k)
    ensures NoKey(normalized) ==> FirstKeyFrom(normalized, 0) == None
  {
    var m := FirstKeyFrom(normalized, 0);
    forall k: nat | FirstKey(normalized, k) ensures m == Some(k) {
      assert m.Some?;
    }
  }

  /**
   * The list that `getHashtags` merges with the default tags: the tags of the
   * first key (in table order) that the normalised niche contains, or the
   * default tags when it contains none.
   */
  function Chosen(niche: string): (r: seq<string>)
    ensures forall k: nat :: FirstKey(Normalize(niche), k) ==> r == TagsAt(k)
    ensures NoKey(Normalize(niche)) ==> r == Default
    ensures FirstKeyFrom(Normalize(niche), 0).Some? ==> r == TagsAt(FirstKeyFrom(Normalize(niche), 0).value)
    ensures FirstKeyFrom(Normalize(niche), 0).None? ==> r == Default
  {
    FirstKeyIsFirst(Normalize(niche));
    match FirstKeyFrom(Normalize(niche), 0)
    case Some(k) => TagsAt(k)
    case None => Default
  }

  /**
   * The merge, deduplication and cut to six tags applied to a chosen list:
   * at most six tags, none repeated, each from the chosen list or the defaults.
   */
  function Merge(chosen: seq<string>): (r: seq<string>)
    ensures |r| <= MaxTags && NoDup(r)
    ensures forall t :: t in r ==> t in chosen || t in Default
  {
    var all := Dedupe(chosen + Default);
    var n := if |all| < MaxTags then |all| else MaxTags;
    PrefixKept(all, n);
    all[..n]
  }

  /** A prefix of a duplicate-free list is duplicate-free and holds only the list's tags. */
  lemma PrefixKept(all: seq<string>, n: nat)
    requires n <= |all|
    ensures NoDup(all) ==> NoDup(all[..n])
    ensures forall t :: t in all[..n] ==> t in all
  {
    forall t | t in all[..n] ensures t in all {
      var i :| 0 <= i < n && all[..n][i] == t;
      assert all[i] == t;
    }
  }

  /** A niche key's list has five tags unlike any default tag: it is kept whole, then "#fyp". */
  lemma MergeNicheList(chosen: seq<string>)
    requires |chosen| == 5 && NoDup(chosen + Default)
    ensures Merge(chosen) == chosen + ["#fyp"]
  {
    var all := chosen + Default;
    assert [] + all == all;
    DedupeIntoDistinct([], all);
    assert |all| == 10;
    assert all[..6] == chosen + [Default[0]] by {
      forall i | 0 <= i < 6 ensures all[..6][i] == (chosen + [Default[0]])[i] {
        if i == 5 {
          assert all[5] == Default[0];
        }
      }
    }
  }

  /** The default list merged with itself is the default list. */
  lemma MergeDefault()
    ensures Merge(Default) == Default
  {
    ListsDistinct();
    DedupeTwice(Default);
  }

  /** `getHashtags(niche)`: at most six distinct tags, "#fyp" always among them, each from the chosen list or the defaults. */
  function GetHashtags(niche: string): (r: seq<string>)
    ensures 1 <= |r| <= MaxTags
    ensures NoDup(r)
    ensures "#fyp" in r
    ensures forall t :: t in r ==> t in Chosen(niche) || t in Default
  {
    FypKept(niche);
    Merge(Chosen(niche))
  }

  /** "#fyp" survives the cut to six tags, whichever list was chosen. */
  lemma FypKept(niche: string)
    ensures "#fyp" in Merge(Chosen(niche))
  {
    SelectionShape(niche);
    var r := Merge(Chosen(niche));
    match FirstKeyFrom(Normalize(niche), 0)
    case Some(k) =>
      if k < 4 {
        assert r[|r| - 1] == "#fyp";
      } else {
        assert r[0] == "#fyp";
      }
    case None =>
      assert r[0] == "#fyp";
  }

  /**
   * What `getHashtags` returns: when the first matching key is a niche key,
   * that key's five tags followed by "#fyp"; when no key matches (or only
   * "default" does), exactly the five default tags in order.
   */
  lemma SelectionShape(niche: string)
    ensures var r := Merge(Chosen(niche));
      match FirstKeyFrom(Normalize(niche), 0)
      case Some(k) => if k < 4 then r == TagsAt(k) + ["#fyp"] else r == Default
      case None => r == Default
  {
    MergeOfChoice(FirstKeyFrom(Normalize(niche), 0));
  }

  /** The merge of the list a lookup outcome selects, for any outcome. */
  lemma MergeOfChoice(c: Option<nat>)
    requires c.Some? ==> c.value < |Keys|
    ensures var r := Merge(if c.Some? then TagsAt(c.value) else Default);
      match c
      case Some(k) => if k < 4 then r == TagsAt(k) + ["#fyp"] else r == Default
      case None => r == Default
  {
    match c
    case Some(k) =>
      if k < 4 {
        NicheListDistinct(k);
        MergeNicheList(TagsAt(k));
      } else {
        MergeDefault();
      }
    case None =>
      MergeDefault();
  }

  /** A tag as the dictionary writes it: '#' followed by at least one character. */
  predicate Written(t: string) {
    |t| > 1 && t[0] == '#'
  }

  /** Every list of the dictionary holds written tags only. */
  lemma {:induction false} ListsWritten(k: nat)
    requires k < |Keys|
    ensures forall t :: t in TagsAt(k) ==> Written(t)
  {
    var l := TagsAt(k);
    forall t | t in l ensures Written(t) {
      var i :| 0 <= i < |l| && l[i] == t;
      if k == 0 { assert l == Business; }
      else if k == 1 { assert l == Fitness; }
      else if k == 2 { assert l == Beauty; }
      else if k == 3 { assert l == Tech; }
      else { assert l == Default; }
    }
  }

  /** Every tag `getHashtags` returns starts with '#' and has text after it. */
  lemma TagsWritten(niche: string)
    ensures forall t :: t in GetHashtags(niche) ==> Written(t)
  {
    ListsWritten(4);
    var c := FirstKeyFrom(Normalize(niche), 0);
    if c.Some? {
      ListsWritten(c.value);
    }
  }

  /** The tags of `getHashtags`, stated through the first matching key. */
  lemma GetHashtagsSelection(niche: string)
    ensures FirstKeyFrom(Normalize(niche), 0).None? ==> GetHashtags(niche) == Default
    ensures FirstKeyFrom(Normalize(niche), 0) == Some(4) ==> GetHashtags(niche) == Default
    ensures forall k :: 0 <= k < 4 && FirstKeyFrom(Normalize(niche), 0) == Some(k) ==>
      GetHashtags(niche) == TagsAt(k) + ["#fyp"]
  {
    SelectionShape(niche);
  }

  /** A trimmed niche without upper-case letters is already normal. */
  lemma NormalizeOfNormal(niche: string)
    requires Trimmed(niche)
    requires forall i :: 0 <= i < |niche| ==> !('A' <= niche[i] <= 'Z')
    ensures Normalize(niche) == niche
  {
    TrimOfTrimmed(niche);
    LowerOfLower(niche);
  }

  /**
   * When a niche key matches, the cut to six tags keeps only "#fyp" of the
   * default tags: the other four default tags are never returned.
   */
  lemma OnlyFypFromDefaults(niche: string, k: nat)
    requires k < 4 && FirstKeyFrom(Normalize(niche), 0) == Some(k)
    ensures forall i :: 1 <= i < |Default| ==> Default[i] !in GetHashtags(niche)
  {
    SelectionShape(niche);
    NicheListDistinct(k);
    assert Default[0] == "#fyp";
    TailNotKept(TagsAt(k), Default);
  }

  /** In a duplicate-free `chosen + d`, no tag of `d` after its first is in `chosen + [d[0]]`. */
  lemma TailNotKept(chosen: seq<string>, d: seq<string>)
    requires |d| > 0 && NoDup(chosen + d)
    ensures forall i :: 1 <= i < |d| ==> d[i] !in chosen + [d[0]]
  {
    var c := chosen + d;
    forall i | 1 <= i < |d| ensures d[i] !in chosen + [d[0]] {
      assert d[i] == c[|chosen| + i];
      forall j | 0 <= j < |chosen| + 1 ensures (chosen + [d[0]])[j] != d[i] {
        assert (chosen + [d[0]])[j] == c[j];
      }
    }
  }

  /** "business growth" is already trimmed and lower-case. */
  lemma BusinessGrowthNormal()
    ensures Normalize("business growth") == "business growth"
  {
    NormalizeOfNormal("business growth");
  }

  /** The business niche of the script form's default options ("business growth") gets the business tags. */
  lemma BusinessGrowthExample()
    ensures GetHashtags("business growth") == Business + ["#fyp"]
  {
    BusinessGrowthNormal();
    BusinessKeyFound();
    SelectionShape("business growth");
  }

  /** "business" occurs at the start of "business growth". */
  lemma BusinessKeyFound()
    ensures FirstKeyFrom("business growth", 0) == Some(0)
  {
    var n := "business growth";
    assert OccursAt(n, Keys[0], 0);
    FindSpec(n, Keys[0]);
  }

  // ---------------------------------------------------------------------
  // The lookup only sees the trimmed, lower-cased niche
  // ---------------------------------------------------------------------

  /** Normalising is idempotent. */
  lemma NormalizeIdempotent(niche: string)
    ensures Normalize(Normalize(niche)) == Normalize(niche)
  {
    var t := Trim(niche);
    LowerTrimCommute(t);
    TrimOfTrimmed(t);
    LowerIdempotent(t);
  }

  /** Niches that agree once lower-cased get the same tags: case does not matter. */
  lemma {:induction false} CaseInsensitive(a: string, b: string)
    requires Lower(a) == Lower(b)
    ensures GetHashtags(a) == GetHashtags(b)
  {
    assert Normalize(a) == Normalize(b) by {
      LowerTrimCommute(a);
      LowerTrimCommute(b);
    }
    SameNormalSameTags(a, b);
  }

  /** The tags depend on the niche only through its normal form. */
  lemma SameNormalSameTags(a: string, b: string)
    requires Normalize(a) == Normalize(b)
    ensures GetHashtags(a) == GetHashtags(b)
  {
    assert Chosen(a) == Chosen(b);
  }

  /** Feeding the normalised niche back in changes nothing. */
  lemma GetHashtagsOfNormalized(niche: string)
    ensures GetHashtags(Normalize(niche)) == GetHashtags(niche)
  {
    NormalizeIdempotent(niche);
    SameNormalSameTags(Normalize(niche), niche);
  }

  /** Surrounding whitespace does not change the tags. */
  lemma SurroundingSpaceIgnored(ws1: string, niche: string, ws2: string)
    requires AllSpace(ws1) && AllSpace(ws2)
    ensures GetHashtags(ws1 + niche + ws2) == GetHashtags(niche)
  {
    TrimPadded(ws1, niche, ws2);
    SameNormalSameTags(ws1 + niche + ws2, niche);
  }
}
