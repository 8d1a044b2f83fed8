/** `fgp_determine_subcategory_from_message`: the first keyword of the
    stored table, in table order, that occurs in the message (ignoring
    ASCII case) picks the subcategory. */
module Classifier {
  import opened Wrappers
  import opened Strings
  import opened Keywords

  /** One (category, subcategory, keyword) triple of the table. */
  datatype Rule = Rule(category: string, subcategory: string, word: string)

  predicate Matches(message: string, r: Rule) {
    ContainsCaseless(message, r.word)
  }

  // ---------------------------------------------------------------------
  // The table read as one flat list, in the order the nested loops visit it

  function WordRules(c: string, s: string, words: seq<string>): seq<Rule> {
    if words == [] then [] else [Rule(c, s, words[0])] + WordRules(c, s, words[1..])
  }

  function SubcategoryRules(c: string, subs: seq<SubcategoryWords>): seq<Rule> {
    if subs == [] then []
    else WordRules(c, subs[0].subcategory, subs[0].words) + SubcategoryRules(c, subs[1..])
  }

  function Rules(t: KeywordTable): seq<Rule> {
    if t == [] then [] else SubcategoryRules(t[0].category, t[0].subcategories) + Rules(t[1..])
  }

  /** Position `k` holds the first rule that matches. */
  predicate FirstMatchAt(message: string, rules: seq<Rule>, k: nat) {
    && k < |rules|
    && Matches(message, rules[k])
    && forall j :: 0 <= j < k ==> !Matches(message, rules[j])
  }

  /** The subcategory of the first matching rule of a flat list. */
  function FirstMatch(message: string, rules: seq<Rule>): Option<string> {
    if rules == [] then None
    else if Matches(message, rules[0]) then Some(rules[0].subcategory)
    else FirstMatch(message, rules[1..])
  }

  lemma {:induction false} FirstMatchAppend(message: string, a: seq<Rule>, b: seq<Rule>)
    ensures FirstMatch(message, a + b)
            == if FirstMatch(message, a).Some? then FirstMatch(message, a) else FirstMatch(message, b)
  {
    if a != [] {
      assert (a + b)[0] == a[0] && (a + b)[1..] == a[1..] + b;
      FirstMatchAppend(message, a[1..], b);
    } else {
      assert a + b == b;
    }
  }

  /** FirstMatch finds the first match, and finds none only when no rule
      matches. */
  lemma {:induction false} FirstMatchSpec(message: string, rules: seq<Rule>)
    ensures FirstMatch(message, rules).None? <==> forall k :: 0 <= k < |rules| ==> !Matches(message, rules[k])
    ensures forall k: nat :: FirstMatchAt(message, rules, k) ==> FirstMatch(message, rules) == Some(rules[k].subcategory)
  {
    if rules != [] {
      FirstMatchSpec(message, rules[1..]);
      assert forall k :: 1 <= k < |rules| ==> rules[k] == rules[1..][k - 1];
      forall k: nat | FirstMatchAt(message, rules, k) && k > 0
        ensures FirstMatchAt(message, rules[1..], k - 1)
      {
      }
    }
  }

  // ---------------------------------------------------------------------
  // The nested scan with early return

  /** The innermost loop: some word of the list occurs in the message. */
  function ScanWords(message: string, words: seq<string>): bool {
    if words == [] then false
    else if ContainsCaseless(message, words[0]) then true
    else ScanWords(message, words[1..])
  }

  /** The middle loop: the first subcategory with an occurring word. */
  function ScanSubcategories(message: string, subs: seq<SubcategoryWords>): Option<string> {
    if subs == [] then None
    else if ScanWords(message, subs[0].words) then Some(subs[0].subcategory)
    else ScanSubcategories(message, subs[1..])
  }

  /** The outer loop over categories. */
  function ScanCategories(message: string, t: KeywordTable): Option<string> {
    if t == [] then None
    else
      match ScanSubcategories(message, t[0].subcategories)
      case Some(s) => Some(s)
      case None => ScanCategories(message, t[1..])
  }

  /** `fgp_determine_subcategory_from_message`: `[subcategory]` on a match,
      `[]` otherwise. */
  function DetermineSubcategory(message: string, t: KeywordTable): (r: seq<string>)
    ensures |r| <= 1
  {
    match ScanCategories(message, t)
    case Some(s) => [s]
    case None => []
  }

  lemma {:induction false} ScanWordsIsFirstMatch(message: string, c: string, s: string, words: seq<string>)
    ensures FirstMatch(message, WordRules(c, s, words)) == if ScanWords(message, words) then Some(s) else None
  {
    if words != [] {
      ScanWordsIsFirstMatch(message, c, s, words[1..]);
    }
  }

  lemma {:induction false} ScanSubcategoriesIsFirstMatch(message: string, c: string, subs: seq<SubcategoryWords>)
    ensures FirstMatch(message, SubcategoryRules(c, subs)) == ScanSubcategories(message, subs)
  {
    if subs != [] {
      ScanWordsIsFirstMatch(message, c, subs[0].subcategory, subs[0].words);
      ScanSubcategoriesIsFirstMatch(message, c, subs[1..]);
      FirstMatchAppend(message, WordRules(c, subs[0].subcategory, subs[0].words), SubcategoryRules(c, subs[1..]));
    }
  }

  lemma {:induction false} ScanCategoriesIsFirstMatch(message: string, t: KeywordTable)
    ensures FirstMatch(message, Rules(t)) == ScanCategories(message, t)
  {
    if t != [] {
      ScanSubcategoriesIsFirstMatch(message, t[0].category, t[0].subcategories);
      ScanCategoriesIsFirstMatch(message, t[1..]);
      FirstMatchAppend(message, SubcategoryRules(t[0].category, t[0].subcategories), Rules(t[1..]));
    }
  }

  /** The classifier answers `[]` exactly when no keyword of the table
      occurs in the message, and otherwise the subcategory of the first
      (category, subcategory, keyword) in table order whose keyword
      occurs. */
  lemma DetermineIsFirstMatch(message: string, t: KeywordTable)
    ensures DetermineSubcategory(message, t) == [] <==> forall k :: 0 <= k < |Rules(t)| ==> !Matches(message, Rules(t)[k])
    ensures forall k: nat :: FirstMatchAt(message, Rules(t), k) ==> DetermineSubcategory(message, t) == [Rules(t)[k].subcategory]
  {
    ScanCategoriesIsFirstMatch(message, t);
    FirstMatchSpec(message, Rules(t));
  }

  /** Two subcategories sharing a keyword: the one stored first wins. */
  lemma FirstStoredWins()
    ensures DetermineSubcategory("foo bar", [CategoryEntry("CatA", [SubcategoryWords("Sub1", ["foo"]),
                                                                    SubcategoryWords("Sub2", ["foo", "bar"])])])
            == ["Sub1"]
  {
    assert OccursAt(Lower("foo bar"), Lower("foo"), 0);
  }

  /** An empty keyword occurs in every message (PHP 8's `stripos` finds
      "" at 0), so a table holding one always yields a subcategory. */
  lemma EmptyWordAlwaysMatches(message: string, t: KeywordTable)
    requires exists k :: 0 <= k < |Rules(t)| && Rules(t)[k].word == []
    ensures DetermineSubcategory(message, t) != []
  {
    DetermineIsFirstMatch(message, t);
    var k :| 0 <= k < |Rules(t)| && Rules(t)[k].word == [];
    assert Matches(message, Rules(t)[k]);
  }

  /** The inner loop stops at an empty word at the latest: every message
      contains "". */
  lemma {:induction false} ScanWordsEmptyWord(message: string, words: seq<string>)
    requires [] in words
    ensures ScanWords(message, words)
  {
    if !ContainsCaseless(message, words[0]) {
      assert words == [words[0]] + words[1..];
      ScanWordsEmptyWord(message, words[1..]);
    }
  }

  /** Keywords saved as "phone," leave the word "" behind, so their
      subcategory is picked for every message, whether or not it mentions
      a phone. */
  lemma TrailingCommaMatchesEverything(message: string, c: string, s: string)
    ensures DetermineSubcategory(message, [CategoryEntry(c, [SubcategoryWords(s, KeywordList("phone,"))])]) == [s]
  {
    TrailingCommaWord();
    var words := ["phone", ""];
    ScanWordsEmptyWord(message, words);
    var subs := [SubcategoryWords(s, words)];
    assert ScanSubcategories(message, subs) == Some(s);
    assert ScanCategories(message, [CategoryEntry(c, subs)]) == Some(s);
  }
}
