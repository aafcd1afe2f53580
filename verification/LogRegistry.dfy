/** The registry object: rules, memo and remembered rule text, as the logging calls update them. */
module LogRegistry {
  import opened Wrappers
  import opened LogFilter
  import opened LogRules

  class VRegistry {
    var categories: seq<Rule>
    var cached: map<string, int>
    var categoriesString: string

    /** Every memo entry is what the rules grant now. */
    ghost predicate Valid()
      reads this
    {
      forall c :: c in cached ==> cached[c] == Granted(categories, c)
    }

    /** The remembered text, parsed afresh, gives the rules in force. */
    ghost predicate Synced()
      reads this
    {
      categories == Rules(categoriesString) && Clean(categoriesString)
    }

    constructor ()
      ensures Valid() && Synced() && categories == []
    {
      categories, cached, categoriesString := [], map[], "";
    }

    /** Appends the rules of a rule string, after dropping the old ones if asked to. */
    method SetCategories(input: Option<string>, clear: bool)
      requires Valid()
      modifies this
      ensures Valid()
      ensures var kept := if clear then [] else old(categories);
              categories == if input.Some? then kept + Rules(input.value) else kept
      ensures var kept := if clear then "" else old(categoriesString);
              categoriesString
              == if input.None? then kept else if kept == "" then input.value else kept + "," + input.value
      ensures (clear || old(Synced())) && (input.Some? ==> Clean(input.value)) ==> Synced()
    {
      if clear { categories, cached, categoriesString := [], map[], ""; }
      ghost var synced := Synced();
      if input.None? { return; }
      var s := input.value;
      ghost var rules, text := categories, categoriesString;
      if categoriesString != "" { categoriesString := categoriesString + ","; }
      categoriesString := categoriesString + s;
      var extended := ParseRules(s, categories);
      if extended != categories { categories, cached := extended, map[]; }
      if synced && Clean(s) {
        if text == "" {
          assert rules == [] && "" + s == s;
        } else {
          CleanJoin(text, s);
        }
      }
    }

    /** Removes the rules but leaves the remembered text, so the two agree only if the text had none. */
    method ClearCategories()
      requires Valid()
      modifies this`categories, this`cached
      ensures Valid() && categories == []
      ensures old(Synced()) ==> (Synced() <==> old(categories) == [])
    {
      categories, cached := [], map[];
    }

    method GetCategories() returns (text: string)
      ensures text == categoriesString
    {
      text := categoriesString;
    }

    /**
    Whether a message is logged.  The answer is the one the rules give without any memo, whatever
    was asked or set before.
    */
    method Allowed(level: Level, category: string) returns (allowed: bool)
      requires Valid()
      modifies this`cached
      ensures Valid()
      ensures allowed == Decision(categories, level, category)
    {
      if category in cached { return Priority(level) <= cached[category]; }
      if categories == [] { return false; }
      var i := |categories|;
      assert categories[..i] == categories;
      while i > 0
        invariant 0 <= i <= |categories|
        invariant Granted(categories, category) == Granted(categories[..i], category)
        invariant Valid()
      {
        i := i - 1;
        assert categories[..i + 1][..i] == categories[..i];
        var matched := WildCardMatch(category, categories[i].pattern);
        if matched {
          var p := Priority(categories[i].level);
          cached := cached[category := p];
          return Priority(level) <= p;
        }
      }
      cached := cached[category := -1];
      allowed := false;
    }

    /** Re-reading the remembered text after dropping all rules rebuilds them, once the two agree. */
    method Reload()
      requires Valid() && Synced()
      modifies this
      ensures Valid() && Synced()
      ensures categories == old(categories) && categoriesString == old(categoriesString)
    {
      var text := GetCategories();
      SetCategories(Some(text), true);
    }

    /** The "+..." form of setting categories: the remembered text, extended and set anew. */
    method ExtendCategories(extra: string)
      requires Valid() && Synced()
      modifies this
      ensures Valid()
      ensures categories == old(categories) + Rules(extra)
      ensures Clean(extra) ==> Synced()
    {
      var text := GetCategories();
      if extra != "" {
        ghost var before := text;
        if text != "" { text := text + ","; }
        text := text + extra;
        if before == "" { assert text == extra; } else { CleanJoin(before, extra); }
      }
      SetCategories(Some(text), true);
    }
  }
}
