/** The keyword table: an ordered category → subcategory → keyword-list
    map, and `fgp_save_category_keywords`, which rebuilds it from the
    submitted settings form. */
module Keywords {
  import opened Wrappers
  import opened Strings

  /** One subcategory and its keywords. */
  datatype SubcategoryWords = SubcategoryWords(subcategory: string, words: seq<string>)

  /** One category and its subcategories, in insertion order. */
  datatype CategoryEntry = CategoryEntry(category: string, subcategories: seq<SubcategoryWords>)

  /** The stored option: PHP's nested associative array, whose keys keep
      their insertion order. */
  type KeywordTable = seq<CategoryEntry>

  /** The first position of `x` in `xs`, or |xs|. */
  function FirstIndex<T(==)>(xs: seq<T>, x: T): (i: nat)
    ensures i <= |xs|
    ensures i < |xs| ==> xs[i] == x
    ensures x !in xs[..i]
  {
    if xs == [] then 0
    else if xs[0] == x then 0
    else
      var k := FirstIndex(xs[1..], x);
      assert xs[..k + 1] == [xs[0]] + xs[1..][..k];
      k + 1
  }

  lemma FirstIndexAppend<T>(xs: seq<T>, y: T, x: T)
    ensures FirstIndex(xs + [y], x)
            == if FirstIndex(xs, x) < |xs| then FirstIndex(xs, x) else if y == x then |xs| else |xs| + 1
  {
    var i := FirstIndex(xs, x);
    var k := FirstIndex(xs + [y], x);
    assert (xs + [y])[..|xs|] == xs;
    if i < |xs| {
      assert (xs + [y])[i] == x;
    } else {
      assert x !in xs;
    }
  }

  function Categories(t: KeywordTable): seq<string> {
    seq(|t|, i requires 0 <= i < |t| => t[i].category)
  }

  function Subcategories(subs: seq<SubcategoryWords>): seq<string> {
    seq(|subs|, i requires 0 <= i < |subs| => subs[i].subcategory)
  }

  /** `$subcategories[$s]`, if set. */
  function LookupSub(subs: seq<SubcategoryWords>, s: string): Option<seq<string>> {
    var j := FirstIndex(Subcategories(subs), s);
    if j == |subs| then None else Some(subs[j].words)
  }

  /** `$keywords[$c][$s]`, if set. */
  function Lookup(t: KeywordTable, c: string, s: string): Option<seq<string>> {
    var i := FirstIndex(Categories(t), c);
    if i == |t| then None else LookupSub(t[i].subcategories, s)
  }

  function PutSubcategory(subs: seq<SubcategoryWords>, s: string, words: seq<string>): seq<SubcategoryWords> {
    var j := FirstIndex(Subcategories(subs), s);
    if j < |subs| then subs[j := SubcategoryWords(s, words)] else subs + [SubcategoryWords(s, words)]
  }

  /** `$keywords[$c][$s] = $words`: an existing key keeps its place, a new
      key goes last. */
  function Put(t: KeywordTable, c: string, s: string, words: seq<string>): KeywordTable {
    var i := FirstIndex(Categories(t), c);
    if i < |t| then t[i := CategoryEntry(c, PutSubcategory(t[i].subcategories, s, words))]
    else t + [CategoryEntry(c, [SubcategoryWords(s, words)])]
  }

  /** PHP array keys are unique, at both levels. */
  predicate UniqueKeys(t: KeywordTable) {
    && Distinct(Categories(t))
    && (forall i :: 0 <= i < |t| ==> Distinct(Subcategories(t[i].subcategories)))
  }

  predicate Distinct(keys: seq<string>) {
    forall i, j :: 0 <= i < j < |keys| ==> keys[i] != keys[j]
  }

  /** Writing a subcategory keeps the existing keys in place and appends a
      new one. */
  lemma PutSubcategoryKeys(subs: seq<SubcategoryWords>, s: string, words: seq<string>)
    ensures Subcategories(PutSubcategory(subs, s, words))
            == if s in Subcategories(subs) then Subcategories(subs) else Subcategories(subs) + [s]
  {
    var keys := Subcategories(subs);
    var j := FirstIndex(keys, s);
    if j < |subs| {
      assert s in keys;
    } else {
      assert keys[..j] == keys;
    }
  }

  lemma PutKeys(t: KeywordTable, c: string, s: string, words: seq<string>)
    ensures Categories(Put(t, c, s, words)) == if c in Categories(t) then Categories(t) else Categories(t) + [c]
  {
    var keys := Categories(t);
    var i := FirstIndex(keys, c);
    if i < |t| {
      assert c in keys;
    } else {
      assert keys[..i] == keys;
    }
  }

  /** Writing one subcategory sets it and leaves the others as they were. */
  lemma LookupSubPut(subs: seq<SubcategoryWords>, s: string, words: seq<string>, s': string)
    ensures LookupSub(PutSubcategory(subs, s, words), s') == if s' == s then Some(words) else LookupSub(subs, s')
  {
    var keys := Subcategories(subs);
    PutSubcategoryKeys(subs, s, words);
    if s !in keys {
      FirstIndexAppend(keys, s, s');
    }
  }

  lemma LookupPutExisting(t: KeywordTable, c: string, s: string, words: seq<string>, c': string, s': string)
    requires FirstIndex(Categories(t), c) < |t|
    ensures Lookup(Put(t, c, s, words), c', s') == if c' == c && s' == s then Some(words) else Lookup(t, c', s')
  {
    var i := FirstIndex(Categories(t), c);
    var t' := Put(t, c, s, words);
    PutKeys(t, c, s, words);
    assert Categories(t') == Categories(t);
    var i' := FirstIndex(Categories(t), c');
    if c' == c {
      LookupSubPut(t[i].subcategories, s, words, s');
    } else if i' < |t| {
      assert i' != i;
      assert t'[i'] == t[i'];
    }
  }

  lemma LookupPutNew(t: KeywordTable, c: string, s: string, words: seq<string>, c': string, s': string)
    requires FirstIndex(Categories(t), c) == |t|
    ensures Lookup(Put(t, c, s, words), c', s') == if c' == c && s' == s then Some(words) else Lookup(t, c', s')
  {
    var t' := Put(t, c, s, words);
    PutKeys(t, c, s, words);
    assert Categories(t') == Categories(t) + [c];
    FirstIndexAppend(Categories(t), c, c');
    var i' := FirstIndex(Categories(t), c');
    if c' == c {
      LookupSubPut([], s, words, s');
    } else if i' < |t| {
      assert t'[i'] == t[i'];
    }
  }

  /** Writing one entry sets that entry and leaves every other one as it
      was. */
  lemma LookupPut(t: KeywordTable, c: string, s: string, words: seq<string>, c': string, s': string)
    ensures Lookup(Put(t, c, s, words), c', s') == if c' == c && s' == s then Some(words) else Lookup(t, c', s')
  {
    if FirstIndex(Categories(t), c) < |t| {
      LookupPutExisting(t, c, s, words, c', s');
    } else {
      LookupPutNew(t, c, s, words, c', s');
    }
  }

  /** Writing keeps the keys unique. */
  lemma PutUnique(t: KeywordTable, c: string, s: string, words: seq<string>)
    requires UniqueKeys(t)
    ensures UniqueKeys(Put(t, c, s, words))
  {
    PutKeys(t, c, s, words);
    var i := FirstIndex(Categories(t), c);
    if i < |t| {
      PutSubcategoryKeys(t[i].subcategories, s, words);
    }
  }

  // ---------------------------------------------------------------------
  // fgp_save_category_keywords

  /** One row of the settings form: its category and subcategory fields
      and the comma-separated keywords typed in it. */
  datatype FormRow = FormRow(category: string, subcategory: string, keywords: string)

  /** `array_map('trim', explode(',', $keywords))`: one word per comma
      field, one more than there are commas, each field with only its
      leading and trailing trim characters removed. A field left empty,
      as in "phone,", gives the word "". */
  function KeywordList(keywords: string): (words: seq<string>)
    ensures |words| == |Split(keywords, ',')| == CountChar(keywords, ',') + 1
    ensures forall k :: 0 <= k < |words| ==> ',' !in words[k]
    ensures forall k :: 0 <= k < |words| ==> Stripped(Split(keywords, ',')[k], words[k])
  {
    var parts := Split(keywords, ',');
    SplitCount(keywords, ',');
    var words := seq(|parts|, k requires 0 <= k < |parts| => Trim(parts[k]));
    TrimmedFields(parts, words, ',');
    words
  }

  /** Trimming each field keeps it free of the separator. */
  lemma TrimmedFields(parts: seq<string>, words: seq<string>, sep: char)
    requires |words| == |parts|
    requires forall k :: 0 <= k < |parts| ==> sep !in parts[k] && words[k] == Trim(parts[k])
    ensures forall k :: 0 <= k < |words| ==> sep !in words[k]
    ensures forall k :: 0 <= k < |words| ==> Stripped(parts[k], words[k])
  {
    forall k | 0 <= k < |words|
      ensures sep !in words[k]
    {
      var a: nat :| StripsTo(parts[k], Trim(parts[k]), a);
      assert forall x :: x in words[k] ==> x in parts[k];
    }
  }

  /** A trailing comma leaves an empty word behind. */
  lemma TrailingCommaWord()
    ensures KeywordList("phone,") == ["phone", ""]
  {
    var parts := Split("phone,", ',');
    assert IndexOf("phone,", ',') == 5;
    assert "phone,"[..5] == "phone" && "phone,"[6..] == "";
    assert IndexOf("", ',') == 0;
    assert parts == ["phone", ""];
    TrimKeeps("phone");
    TrimKeeps("");
  }

  /** A row is stored only when its keywords field is not empty in PHP's
      sense. */
  function SaveRow(t: KeywordTable, r: FormRow): KeywordTable {
    if Truthy(r.keywords) then Put(t, r.category, r.subcategory, KeywordList(r.keywords)) else t
  }

  /** The table the rows produce, written in order onto an empty table. */
  function BuildTable(rows: seq<FormRow>): KeywordTable {
    if rows == [] then [] else SaveRow(BuildTable(rows[..|rows| - 1]), rows[|rows| - 1])
  }

  /** One more row is one more `SaveRow`. */
  lemma BuildTableSnoc(rows: seq<FormRow>, r: FormRow)
    ensures BuildTable(rows + [r]) == SaveRow(BuildTable(rows), r)
  {
    assert (rows + [r])[..|rows|] == rows;
  }

  /** The form's rows in submission order. */
  function FormRows(groups: seq<seq<FormRow>>): seq<FormRow> {
    if groups == [] then [] else FormRows(groups[..|groups| - 1]) + groups[|groups| - 1]
  }

  /** Row `r` stores an entry under (c, s). */
  predicate Stores(r: FormRow, c: string, s: string) {
    r.category == c && r.subcategory == s && Truthy(r.keywords)
  }

  /** With no row storing under (c, s), the table has no such entry. */
  lemma {:induction false} BuildTableAbsent(rows: seq<FormRow>, c: string, s: string)
    requires forall k :: 0 <= k < |rows| ==> !Stores(rows[k], c, s)
    ensures Lookup(BuildTable(rows), c, s) == None
  {
    if rows != [] {
      var init := rows[..|rows| - 1];
      var last := rows[|rows| - 1];
      assert forall k :: 0 <= k < |init| ==> init[k] == rows[k];
      BuildTableAbsent(init, c, s);
      if Truthy(last.keywords) {
        LookupPut(BuildTable(init), last.category, last.subcategory, KeywordList(last.keywords), c, s);
      }
    }
  }

  /** The last row that stores under (c, s) decides the entry: a later
      row overwrites an earlier one. */
  lemma {:induction false} BuildTableLastWins(rows: seq<FormRow>, c: string, s: string, k: nat)
    requires k < |rows| && Stores(rows[k], c, s)
    requires forall j :: k < j < |rows| ==> !Stores(rows[j], c, s)
    ensures Lookup(BuildTable(rows), c, s) == Some(KeywordList(rows[k].keywords))
  {
    var init := rows[..|rows| - 1];
    var last := rows[|rows| - 1];
    if k < |rows| - 1 {
      assert forall j :: 0 <= j < |init| ==> init[j] == rows[j];
      BuildTableLastWins(init, c, s, k);
    }
    if Truthy(last.keywords) {
      LookupPut(BuildTable(init), last.category, last.subcategory, KeywordList(last.keywords), c, s);
    }
  }

  lemma {:induction false} BuildTableUnique(rows: seq<FormRow>)
    ensures UniqueKeys(BuildTable(rows))
  {
    if rows != [] {
      var init := rows[..|rows| - 1];
      var last := rows[|rows| - 1];
      BuildTableUnique(init);
      if Truthy(last.keywords) {
        PutUnique(BuildTable(init), last.category, last.subcategory, KeywordList(last.keywords));
      }
    }
  }

  /** `fgp_save_category_keywords`: without the manage-options capability
      or without a submitted table nothing is stored (None); otherwise
      the table the rows build is stored. */
  method SaveCategoryKeywords(canManageOptions: bool, submitted: Option<seq<seq<FormRow>>>)
    returns (stored: Option<KeywordTable>)
    ensures !canManageOptions || submitted.None? ==> stored.None?
    ensures canManageOptions && submitted.Some? ==> stored == Some(BuildTable(FormRows(submitted.value)))
  {
    if !canManageOptions {
      return None;
    }
    if submitted.None? {
      return None;
    }
    var groups := submitted.value;
    var keywords: KeywordTable := [];
    for i := 0 to |groups|
      invariant keywords == BuildTable(FormRows(groups[..i]))
    {
      keywords := SaveGroup(keywords, FormRows(groups[..i]), groups[i]);
      assert groups[..i + 1][..i] == groups[..i];
    }
    assert groups[..|groups|] == groups;
    stored := Some(keywords);
  }

  /** The inner loop over the rows of one category group: each row with
      keywords is written onto the table built from the rows before it. */
  method SaveGroup(keywords: KeywordTable, earlier: seq<FormRow>, rows: seq<FormRow>)
    returns (t: KeywordTable)
    requires keywords == BuildTable(earlier)
    ensures t == BuildTable(earlier + rows)
  {
    t := keywords;
    assert earlier + rows[..0] == earlier;
    for j := 0 to |rows|
      invariant t == BuildTable(earlier + rows[..j])
    {
      var data := rows[j];
      if Truthy(data.keywords) {
        t := Put(t, data.category, data.subcategory, KeywordList(data.keywords));
      }
      assert earlier + rows[..j + 1] == (earlier + rows[..j]) + [data];
      BuildTableSnoc(earlier + rows[..j], data);
    }
    assert rows[..|rows|] == rows;
  }
}
