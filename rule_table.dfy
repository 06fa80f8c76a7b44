/**
 * The rule-table builder, `parseExpenseCategoryRowToExpense` of src/lib/spens.ts
 * applied to the flattened `Expenses` tree: one rule per merchant substring, in
 * tree order, with accent-stripped category and subcategory names.
 * `strip` stands for the `remove-accents` library function.
 */
module RuleTable {
  import opened Interfaces

  /** The rules of one subcategory, one per merchant substring, in list order. */
  function SubcategoryRules(strip: string -> string, category: string, sub: Subcategory): (r: seq<SpensExpense>)
    ensures |r| == |sub.merchants|
    ensures forall k :: 0 <= k < |r| ==> r[k] == SpensExpense(strip(category), strip(sub.name), sub.merchants[k])
    decreases |sub.merchants|
  {
    if sub.merchants == [] then []
    else
      var rest := SubcategoryRules(strip, category, Subcategory(sub.name, sub.merchants[1..]));
      [SpensExpense(strip(category), strip(sub.name), sub.merchants[0])] + rest
  }

  /** The rules of one category: those of its subcategories, in order. */
  function CategoryRules(strip: string -> string, category: string, subs: seq<Subcategory>): seq<SpensExpense>
    decreases |subs|
  {
    if subs == [] then []
    else SubcategoryRules(strip, category, subs[0]) + CategoryRules(strip, category, subs[1..])
  }

  /** The whole rule table: the rules of each category, in tree order. */
  function BuildRules(strip: string -> string, tree: ExpenseTree): seq<SpensExpense>
    decreases |tree|
  {
    if tree == [] then []
    else CategoryRules(strip, tree[0].name, tree[0].subcategories) + BuildRules(strip, tree[1..])
  }

  /** Number of merchant substrings in a list of subcategories / in the tree. */
  function SubcategoryCount(subs: seq<Subcategory>): nat
    decreases |subs|
  {
    if subs == [] then 0 else |subs[0].merchants| + SubcategoryCount(subs[1..])
  }

  function MerchantCount(tree: ExpenseTree): nat
    decreases |tree|
  {
    if tree == [] then 0 else SubcategoryCount(tree[0].subcategories) + MerchantCount(tree[1..])
  }

  /** A rule comes from the tree: some category, subcategory and merchant substring of it produce it. */
  ghost predicate FromTree(strip: string -> string, tree: ExpenseTree, e: SpensExpense) {
    exists c, s, v :: c in tree && s in c.subcategories && v in s.merchants
      && e == SpensExpense(strip(c.name), strip(s.name), v)
  }

  /** Tree order: the rules of the earlier categories come first. */
  lemma {:induction false} BuildRulesAppend(strip: string -> string, t1: ExpenseTree, t2: ExpenseTree)
    ensures BuildRules(strip, t1 + t2) == BuildRules(strip, t1) + BuildRules(strip, t2)
    decreases |t1|
  {
    if t1 != [] {
      assert (t1 + t2)[1..] == t1[1..] + t2;
      BuildRulesAppend(strip, t1[1..], t2);
    } else {
      assert t1 + t2 == t2;
    }
  }

  /** Subcategory order within a category. */
  lemma {:induction false} CategoryRulesAppend(strip: string -> string, category: string, s1: seq<Subcategory>, s2: seq<Subcategory>)
    ensures CategoryRules(strip, category, s1 + s2) == CategoryRules(strip, category, s1) + CategoryRules(strip, category, s2)
    decreases |s1|
  {
    if s1 != [] {
      assert (s1 + s2)[1..] == s1[1..] + s2;
      CategoryRulesAppend(strip, category, s1[1..], s2);
    } else {
      assert s1 + s2 == s2;
    }
  }

  /** Exactly one rule per merchant substring. */
  lemma {:induction false} BuildRulesCount(strip: string -> string, tree: ExpenseTree)
    ensures |BuildRules(strip, tree)| == MerchantCount(tree)
    decreases |tree|
  {
    if tree != [] {
      CategoryRulesCount(strip, tree[0].name, tree[0].subcategories);
      BuildRulesCount(strip, tree[1..]);
    }
  }

  lemma {:induction false} CategoryRulesCount(strip: string -> string, category: string, subs: seq<Subcategory>)
    ensures |CategoryRules(strip, category, subs)| == SubcategoryCount(subs)
    decreases |subs|
  {
    if subs != [] {
      CategoryRulesCount(strip, category, subs[1..]);
    }
  }

  lemma {:induction false} CategoryRulesMembers(strip: string -> string, category: string, subs: seq<Subcategory>, e: SpensExpense)
    ensures e in CategoryRules(strip, category, subs) <==>
      exists s, v :: s in subs && v in s.merchants && e == SpensExpense(strip(category), strip(s.name), v)
    decreases |subs|
  {
    if subs != [] {
      CategoryRulesMembers(strip, category, subs[1..], e);
      var head := SubcategoryRules(strip, category, subs[0]);
      if e in head {
        var k :| 0 <= k < |head| && head[k] == e;
        assert subs[0] in subs && subs[0].merchants[k] in subs[0].merchants;
      }
      if exists s, v :: s in subs && v in s.merchants && e == SpensExpense(strip(category), strip(s.name), v) {
        var s, v :| s in subs && v in s.merchants && e == SpensExpense(strip(category), strip(s.name), v);
        if s == subs[0] {
          var k :| 0 <= k < |s.merchants| && s.merchants[k] == v;
          assert head[k] == e;
        } else {
          assert s in subs[1..];
        }
      }
    }
  }

  /** Every rule comes from the tree, and every (category, subcategory, substring) of the tree gives a rule. */
  lemma {:induction false} BuildRulesMembers(strip: string -> string, tree: ExpenseTree, e: SpensExpense)
    ensures e in BuildRules(strip, tree) <==> FromTree(strip, tree, e)
    decreases |tree|
  {
    if tree != [] {
      BuildRulesMembers(strip, tree[1..], e);
      CategoryRulesMembers(strip, tree[0].name, tree[0].subcategories, e);
      var c0 := tree[0];
      if e in CategoryRules(strip, c0.name, c0.subcategories) {
        var s, v :| s in c0.subcategories && v in s.merchants && e == SpensExpense(strip(c0.name), strip(s.name), v);
        assert c0 in tree;
      }
      if FromTree(strip, tree[1..], e) {
        var c, s, v :| c in tree[1..] && s in c.subcategories && v in s.merchants
          && e == SpensExpense(strip(c.name), strip(s.name), v);
        assert c in tree;
      }
      if FromTree(strip, tree, e) {
        var c, s, v :| c in tree && s in c.subcategories && v in s.merchants
          && e == SpensExpense(strip(c.name), strip(s.name), v);
        if c != c0 {
          assert c in tree[1..];
        }
      }
    }
  }

  /** Every rule has a non-empty category and subcategory. */
  predicate NamedRules(rules: seq<SpensExpense>) {
    forall i :: 0 <= i < |rules| ==> rules[i].category != "" && rules[i].subcategory != ""
  }

  /** Names that stay non-empty after accent stripping give a table of named rules. */
  lemma NamedTreeGivesNamedRules(strip: string -> string, tree: ExpenseTree)
    requires forall c :: c in tree ==> strip(c.name) != "" && forall s :: s in c.subcategories ==> strip(s.name) != ""
    ensures NamedRules(BuildRules(strip, tree))
  {
    var rules := BuildRules(strip, tree);
    forall i | 0 <= i < |rules| ensures rules[i].category != "" && rules[i].subcategory != "" {
      BuildRulesMembers(strip, tree, rules[i]);
    }
  }

  /** The expense tree of the repository's test configuration and its rule table. */
  lemma TestTreeRules()
    ensures BuildRules(s => s, [
        Category("Shop", [Subcategory("Amazon", ["Amazon"])]),
        Category("Entertainment", [Subcategory("Online", ["Microsoft", "YouTube"])])])
      == [SpensExpense("Shop", "Amazon", "Amazon"),
          SpensExpense("Entertainment", "Online", "Microsoft"),
          SpensExpense("Entertainment", "Online", "YouTube")]
  {
    var strip := (s: string) => s;
    var shop := Category("Shop", [Subcategory("Amazon", ["Amazon"])]);
    var ent := Category("Entertainment", [Subcategory("Online", ["Microsoft", "YouTube"])]);
    assert [shop, ent][1..] == [ent];
    assert CategoryRules(strip, "Shop", shop.subcategories) == [SpensExpense("Shop", "Amazon", "Amazon")];
    assert CategoryRules(strip, "Entertainment", ent.subcategories)
      == [SpensExpense("Entertainment", "Online", "Microsoft"), SpensExpense("Entertainment", "Online", "YouTube")];
  }
}
