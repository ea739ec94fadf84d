/** Searching the catalog by title: case-insensitive substring match, and the
    labelled listing the search prints. Case folding covers ASCII only. */
module Search {
  import opened Items

  /** ASCII lower-casing of one character; every other character is kept. */
  function LowerChar(c: char): char
  {
    if 'A' <= c <= 'Z' then (c as int - 'A' as int + 'a' as int) as char else c
  }

  /** Lower-casing of a string, character by character. */
  function Lower(s: string): string
  {
    seq(|s|, i requires 0 <= i < |s| => LowerChar(s[i]))
  }

  /** `sub` occurs in `s` starting at position `i`. */
  predicate OccursAt(s: string, sub: string, i: nat)
  {
    i + |sub| <= |s| && s[i..i + |sub|] == sub
  }

  /** `sub` is a substring of `s`. */
  predicate Contains(s: string, sub: string)
  {
    exists i: nat | i <= |s| :: OccursAt(s, sub, i)
  }

  /** A title matches a keyword when, both lower-cased, the keyword occurs in it. */
  predicate TitleMatches(title: string, keyword: string)
  {
    Contains(Lower(title), Lower(keyword))
  }

  /** The catalog entries whose title matches `keyword`, in catalog order. */
  function Matching(catalog: seq<Item>, keyword: string): (r: seq<Item>)
    ensures |r| <= |catalog|
  {
    if |catalog| == 0 then []
    else
      (if TitleMatches(catalog[0].title, keyword) then [catalog[0]] else [])
      + Matching(catalog[1..], keyword)
  }

  /** An entry is found exactly when it is in the catalog and its title matches. */
  lemma {:induction false} MatchingMembers(catalog: seq<Item>, keyword: string, x: Item)
    ensures x in Matching(catalog, keyword) <==> x in catalog && TitleMatches(x.title, keyword)
  {
    if |catalog| > 0 {
      assert catalog == [catalog[0]] + catalog[1..];
      MatchingMembers(catalog[1..], keyword, x);
    }
  }

  /** The lines a list of results is printed as, in order: each Game and each
      Movie with its label, plain items left out. */
  function Labelled(results: seq<Item>): (r: seq<Listing>)
    ensures |r| <= |results|
  {
    if |results| == 0 then []
    else Labelled(results[..|results| - 1]) + Label(results[|results| - 1])
  }

  /** A line is listed exactly when its item is among the results and the label
      matches the item's kind; so plain items are never listed. */
  lemma {:induction false} LabelledLines(results: seq<Item>, l: Listing)
    ensures l in Labelled(results) <==>
      l.item in results &&
      ((l.tag == GameTag && l.item.kind.Game?) || (l.tag == MovieTag && l.item.kind.Movie?))
  {
    if |results| > 0 {
      var init := results[..|results| - 1];
      assert results == init + [results[|results| - 1]];
      LabelledLines(init, l);
    }
  }

  /** Listing one more result appends that result's lines. */
  lemma LabelledSnoc(results: seq<Item>, x: Item)
    ensures Labelled(results + [x]) == Labelled(results) + Label(x)
  {
    assert (results + [x])[..|results|] == results;
  }

  /** Lower-casing twice is lower-casing once. */
  lemma LowerIdempotent(s: string)
    ensures Lower(Lower(s)) == Lower(s)
  {
  }

  /** Searching distributes over concatenated catalogs, so the results keep
      the catalog's order. */
  lemma {:induction false} MatchingAppend(a: seq<Item>, b: seq<Item>, keyword: string)
    ensures Matching(a + b, keyword) == Matching(a, keyword) + Matching(b, keyword)
  {
    if |a| > 0 {
      assert (a + b)[1..] == a[1..] + b;
      MatchingAppend(a[1..], b, keyword);
    } else {
      assert a + b == b;
    }
  }

  /** Keywords that agree once lower-cased find the same entries: the search
      ignores the keyword's case. */
  lemma {:induction false} MatchingIgnoresKeywordCase(catalog: seq<Item>, k1: string, k2: string)
    requires Lower(k1) == Lower(k2)
    ensures Matching(catalog, k1) == Matching(catalog, k2)
  {
    if |catalog| > 0 {
      MatchingIgnoresKeywordCase(catalog[1..], k1, k2);
    }
  }

  /** Searching with the lower-cased keyword is the same search. */
  lemma MatchingLowerKeyword(catalog: seq<Item>, keyword: string)
    ensures Matching(catalog, Lower(keyword)) == Matching(catalog, keyword)
  {
    LowerIdempotent(keyword);
    MatchingIgnoresKeywordCase(catalog, Lower(keyword), keyword);
  }

  /** The keyword "game" matches the title "Awesome Game". */
  lemma AwesomeGameMatches()
    ensures TitleMatches("Awesome Game", "game")
  {
    assert OccursAt(Lower("Awesome Game"), Lower("game"), 8);
  }
}
