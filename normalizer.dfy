/**
 * The blendshape normalizer (`blendMap`): the model's per-face blendshape
 * result, an optional object holding an optional list of categories, becomes
 * a map from category name to score.
 */
module Normalizer {
  import opened Wrappers

  /** One entry of the model's result: `{categoryName, score}`. */
  datatype Category = Category(categoryName: string, score: real)

  /** The model's per-face result; its `categories` list may be absent. */
  datatype Classifications = Classifications(categories: Option<seq<Category>>)

  /** `blend?.categories ?? []`: the entries of an optional result. */
  function Entries(blend: Option<Classifications>): (cs: seq<Category>)
    ensures blend.None? || blend.value.categories.None? ==> cs == []
    ensures blend.Some? && blend.value.categories.Some? ==> cs == blend.value.categories.value
  {
    match blend
    case None => []
    case Some(c) =>
      match c.categories
      case None => []
      case Some(cs) => cs
  }

  /** The names that occur in a list of entries. */
  function Names(cs: seq<Category>): set<string>
  {
    set i | 0 <= i < |cs| :: cs[i].categoryName
  }

  /** Index of the last entry called `name`, or -1 when there is none. */
  function LastIndex(cs: seq<Category>, name: string): (i: int)
    ensures -1 <= i < |cs|
    ensures 0 <= i ==> cs[i].categoryName == name
    ensures forall j | i < j < |cs| :: cs[j].categoryName != name
    ensures i == -1 <==> name !in Names(cs)
  {
    if |cs| == 0 then -1
    else if cs[|cs| - 1].categoryName == name then |cs| - 1
    else LastIndex(cs[..|cs| - 1], name)
  }

  /**
   * The map that writing the entries one after the other produces: each
   * name that occurs maps to the score of its last occurrence.
   */
  function LastWrites(cs: seq<Category>): (m: map<string, real>)
    ensures m.Keys == Names(cs)
  {
    map n | n in Names(cs) :: cs[LastIndex(cs, n)].score
  }

  /** The names after one more entry: the old ones and the new entry's. */
  lemma NamesAppend(cs: seq<Category>, c: Category)
    ensures Names(cs + [c]) == Names(cs) + {c.categoryName}
  {
    var cs' := cs + [c];
    forall n | n in Names(cs') ensures n in Names(cs) + {c.categoryName} {
      var i :| 0 <= i < |cs'| && cs'[i].categoryName == n;
      if i < |cs| { assert cs[i] == cs'[i]; }
    }
    forall n | n in Names(cs) ensures n in Names(cs') {
      var i :| 0 <= i < |cs| && cs[i].categoryName == n;
      assert cs'[i] == cs[i];
    }
    assert cs'[|cs|] == c;
  }

  /** The last index of a name after one more entry. */
  lemma LastIndexAppend(cs: seq<Category>, c: Category, n: string)
    ensures LastIndex(cs + [c], n) == if n == c.categoryName then |cs| else LastIndex(cs, n)
  {
  }

  /** Writing one more entry overrides (or adds) that entry's name and keeps the rest. */
  lemma LastWritesAppend(cs: seq<Category>, c: Category)
    ensures LastWrites(cs + [c]) == LastWrites(cs)[c.categoryName := c.score]
  {
    var cs' := cs + [c];
    var after, before := LastWrites(cs'), LastWrites(cs)[c.categoryName := c.score];
    NamesAppend(cs, c);
    forall n | n in after.Keys ensures after[n] == before[n] {
      LastIndexAppend(cs, c, n);
      if n != c.categoryName {
        var k := LastIndex(cs, n);
        assert cs'[k] == cs[k];
      }
    }
  }

  /** An entry that no later entry of the same name follows is the one that stays. */
  lemma LastWritesAt(cs: seq<Category>, i: int)
    requires 0 <= i < |cs|
    requires forall j | i < j < |cs| :: cs[j].categoryName != cs[i].categoryName
    ensures cs[i].categoryName in LastWrites(cs)
    ensures LastWrites(cs)[cs[i].categoryName] == cs[i].score
  {
  }

  /**
   * `blendMap`: starting from an empty object, each entry writes its score
   * under its name, in list order. The second ensures, an empty map for
   * no entries, is a corollary of the first.
   */
  method BlendMap(blend: Option<Classifications>) returns (out: map<string, real>)
    ensures out == LastWrites(Entries(blend))
    ensures Entries(blend) == [] ==> out == map[]
  {
    var cs := Entries(blend);
    out := map[];
    for k := 0 to |cs|
      invariant out == LastWrites(cs[..k])
    {
      LastWritesAppend(cs[..k], cs[k]);
      assert cs[..k] + [cs[k]] == cs[..k + 1];
      out := out[cs[k].categoryName := cs[k].score];
    }
    assert cs[..|cs|] == cs;
  }
}
