/**
 * Category id to URL slug (`utils/getCategorySlugById.ts`): the id's decimal
 * text is looked up in a fixed table, and anything not in it gives `null`.
 * Ids are integers here; a fractional id's text (`"1.5"`) is never a key.
 */
module CategorySlug {
  import opened Wrappers
  import opened JsNumber

  /** The six category slugs, for ids 1 to 6 in order. */
  const SLUGS: seq<string> := [
    "produkti",
    "emotsionalni-iznenadi",
    "tematchni-podarytsi",
    "rychnoizraboteni-podarytsi",
    "ekstremni-prezhivyavaniya",
    "organizirane-na-sybitiya"
  ]

  /** The lookup table, keyed by the id's decimal text. */
  const SLUG_BY_KEY: map<string, string> := map[
    "1" := SLUGS[0], "2" := SLUGS[1], "3" := SLUGS[2],
    "4" := SLUGS[3], "5" := SLUGS[4], "6" := SLUGS[5]
  ]

  /** `map[id.toString()] || null`. */
  function SlugByKey(key: string): Option<string> {
    if key in SLUG_BY_KEY && SLUG_BY_KEY[key] != "" then Some(SLUG_BY_KEY[key]) else None
  }

  /** `getCategorySlugById`. */
  function CategorySlugById(id: int): (slug: Option<string>)
    ensures slug.Some? <==> 1 <= id <= 6
    ensures 1 <= id <= 6 ==> slug == Some(SLUGS[id - 1])
  {
    var key := IntToString(id);
    KeysAreIdTexts(id);
    SlugByKey(key)
  }

  /** The key looked up for `id` is in the table exactly for ids 1 to 6, and is the text of that id. */
  lemma KeysAreIdTexts(id: int)
    ensures IntToString(id) in SLUG_BY_KEY <==> 1 <= id <= 6
    ensures 1 <= id <= 6 ==> SLUG_BY_KEY[IntToString(id)] == SLUGS[id - 1]
  {
    var key := IntToString(id);
    var texts := ["1", "2", "3", "4", "5", "6"];
    if key in SLUG_BY_KEY {
      var k :| 0 <= k < 6 && texts[k] == key;
      assert IntToString(k + 1) == texts[k];
      IntToStringInjective(id, k + 1);
    }
    if 1 <= id <= 6 {
      assert IntToString(id) == texts[id - 1];
    }
  }

  /** Distinct categories never share a slug. */
  lemma SlugsInjective(a: int, b: int)
    requires 1 <= a <= 6 && 1 <= b <= 6 && a != b
    ensures CategorySlugById(a) != CategorySlugById(b)
  {
  }
}
