/** Product categories: naming them, and grouping products under them for the bot. */
module Catalog {
  import opened Common
  import opened Text
  import opened Slug

  datatype Category = Category(title: string, slug: string, sortOrder: int, active: bool)

  datatype Product = Product(id: nat, category: Option<nat>, active: bool, hidden: bool, forService: bool) {
    predicate Browsable() {
      active && !hidden && !forService
    }
  }

  /** A group as the bot shows it; no category stands for the group of other products. */
  datatype Group = Group(category: Option<nat>, products: seq<Product>)

  datatype CategoryError = TitleRequired | NoSuchCategory

  // ---------------------------------------------------------------------------
  // Titles and slugs
  // ---------------------------------------------------------------------------

  function Shortened(title: string): string {
    if |title| > 200 then title[..200] else title
  }

  /** The slugs of all rows but one. */
  function Taken(rows: map<nat, Category>, except: Option<nat>): set<string> {
    set id | id in rows && except != Some(id) :: rows[id].slug
  }

  ghost predicate SlugsDiffer(rows: map<nat, Category>) {
    forall a, b :: a in rows && b in rows && a != b ==> rows[a].slug != rows[b].slug
  }

  /** The slug is the first free candidate for the title. */
  ghost predicate FirstFreeSlug(t: CharTable, title: string, taken: set<string>, slug: string) {
    && slug !in taken
    && exists n: nat {:trigger Candidate(Slugify(t, title), n)} ::
         && n >= 1 && slug == Candidate(Slugify(t, title), n)
         && forall k: nat :: 1 <= k < n ==> Candidate(Slugify(t, title), k) in taken
  }

  lemma FoundFirst(t: CharTable, title: string, taken: set<string>, slug: string, n: nat)
    requires n >= 1 && slug !in taken && slug == Candidate(Slugify(t, title), n)
    requires forall k: nat :: 1 <= k < n ==> Candidate(Slugify(t, title), k) in taken
    ensures FirstFreeSlug(t, title, taken, slug)
  {
    hide Candidate, Slugify;
  }

  lemma FreshSlugKeepsDiffer(rows: map<nat, Category>, id: nat, c: Category)
    requires SlugsDiffer(rows) && c.slug !in Taken(rows, Some(id))
    ensures SlugsDiffer(rows[id := c])
  {
    assert forall other :: other in rows && other != id ==> rows[other].slug in Taken(rows, Some(id));
  }

  lemma NobodyToExcept(rows: map<nat, Category>, id: nat)
    requires id !in rows
    ensures Taken(rows, Some(id)) == Taken(rows, None)
  {
    assert forall other :: other in rows ==> other != id;
  }

  class CategoryTable {
    const chars: CharTable
    var rows: map<nat, Category>

    constructor (chars: CharTable)
      ensures this.chars == chars && rows == map[] && SlugsDiffer(rows)
    {
      this.chars, rows := chars, map[];
    }

    method Create(id: nat, title: string, sortOrder: int, active: bool) returns (r: Result<Category, CategoryError>)
      requires id !in rows
      modifies `rows
      ensures match r
              case Err(e) => e == TitleRequired && Strip(title) == "" && rows == old(rows)
              case Ok(c) =>
                && Strip(title) != ""
                && rows == old(rows)[id := c]
                && c.title == Shortened(Strip(title)) && c.sortOrder == sortOrder && c.active == active
                && FirstFreeSlug(chars, Strip(title), Taken(old(rows), None), c.slug)
      ensures old(SlugsDiffer(rows)) ==> SlugsDiffer(rows)
    {
      hide *;
      var title := Strip(title);
      if title == "" {
        return Err(TitleRequired);
      }
      var slug, n := UniqueSlug(Slugify(chars, title), Taken(rows, None));
      FoundFirst(chars, title, Taken(rows, None), slug, n);
      var c := Category(Shortened(title), slug, sortOrder, active);
      if SlugsDiffer(rows) {
        NobodyToExcept(rows, id);
        FreshSlugKeepsDiffer(rows, id, c);
      }
      rows := rows[id := c];
      r := Ok(c);
    }

    /** A new title gives a new slug; an unchanged one keeps the old slug. */
    method Rename(id: nat, title: string) returns (r: Result<Category, CategoryError>)
      modifies `rows
      ensures match r
              case Err(NoSuchCategory) => id !in rows && rows == old(rows)
              case Err(TitleRequired) => id in rows && Strip(title) == "" && rows == old(rows)
              case Ok(c) =>
                && id in old(rows) && Strip(title) != ""
                && rows == old(rows)[id := c]
                && var was := old(rows)[id];
                   && c == was.(title := Shortened(Strip(title)), slug := c.slug)
                   && (c.title == was.title ==> c == was)
                   && (c.title != was.title ==>
                         FirstFreeSlug(chars, Strip(title), Taken(old(rows), Some(id)), c.slug))
      ensures old(SlugsDiffer(rows)) ==> SlugsDiffer(rows)
    {
      hide *;
      if id !in rows {
        return Err(NoSuchCategory);
      }
      var title := Strip(title);
      if title == "" {
        return Err(TitleRequired);
      }
      var c := rows[id];
      if Shortened(title) != c.title {
        var slug, n := UniqueSlug(Slugify(chars, title), Taken(rows, Some(id)));
        FoundFirst(chars, title, Taken(rows, Some(id)), slug, n);
        c := c.(title := Shortened(title), slug := slug);
        if SlugsDiffer(rows) {
          FreshSlugKeepsDiffer(rows, id, c);
        }
        rows := rows[id := c];
      }
      r := Ok(c);
    }
  }

  // ---------------------------------------------------------------------------
  // Grouping, as a specification
  // ---------------------------------------------------------------------------

  function Browsable(products: seq<Product>): seq<Product> {
    if products == [] then []
    else
      var last := products[|products| - 1];
      Browsable(products[..|products| - 1]) + (if last.Browsable() then [last] else [])
  }

  /** Where a product shows: under its category if that is active, else among the others. */
  function GroupOf(p: Product, active: set<nat>): Option<nat> {
    if p.category.Some? && p.category.value in active then p.category else None
  }

  /** The products of one group, in display order. */
  function Members(products: seq<Product>, active: set<nat>, group: Option<nat>): seq<Product> {
    if products == [] then []
    else
      var last := products[|products| - 1];
      Members(products[..|products| - 1], active, group) + (if GroupOf(last, active) == group then [last] else [])
  }

  function GroupIfAny(category: Option<nat>, products: seq<Product>): seq<Group> {
    if products == [] then [] else [Group(category, products)]
  }

  function CategoryGroups(order: seq<nat>, active: set<nat>, products: seq<Product>): seq<Group> {
    if order == [] then []
    else
      var last := order[|order| - 1];
      CategoryGroups(order[..|order| - 1], active, products)
      + GroupIfAny(Some(last), Members(products, active, Some(last)))
  }

  function Ids(order: seq<nat>): set<nat> {
    set i | 0 <= i < |order| :: order[i]
  }

  /** Non-empty groups of the active categories in their order, then the others. */
  function Groups(order: seq<nat>, products: seq<Product>): seq<Group> {
    CategoryGroups(order, Ids(order), products) + GroupIfAny(None, Members(products, Ids(order), None))
  }

  predicate NoRepeats(order: seq<nat>) {
    forall i, j :: 0 <= i < j < |order| ==> order[i] != order[j]
  }

  // ---------------------------------------------------------------------------
  // The loops
  // ---------------------------------------------------------------------------

  /** `order` are the active categories and `table` the products, both in display order. */
  method GroupedForBot(order: seq<nat>, table: seq<Product>) returns (result: seq<Group>)
    requires NoRepeats(order)
    ensures result == Groups(order, Browsable(table))
  {
    hide Browsable, Members, GroupOf;
    var products := Browsable(table);
    var active := Ids(order);
    NoMembers(active);
    var grouped: map<nat, seq<Product>> := map id | id in active :: [];
    var other: seq<Product> := [];
    for i := 0 to |products|
      invariant grouped.Keys == active
      invariant forall id :: id in active ==> grouped[id] == Members(products[..i], active, Some(id))
      invariant other == Members(products[..i], active, None)
    {
      var product := products[i];
      MembersGrow(products, i, active);
      GroupDecides(product, active);
      if product.category.Some? && product.category.value in active {
        var id := product.category.value;
        grouped := grouped[id := grouped[id] + [product]];
      } else {
        other := other + [product];
      }
    }
    assert products[..|products|] == products;
    result := [];
    for j := 0 to |order|
      invariant result == CategoryGroups(order[..j], active, products)
    {
      assert order[..j + 1][..j] == order[..j];
      assert order[j] in active;
      var items := grouped[order[j]];
      if items != [] {
        result := result + [Group(Some(order[j]), items)];
      }
    }
    assert order[..|order|] == order;
    if other != [] {
      result := result + [Group(None, other)];
    }
  }

  lemma GroupDecides(p: Product, active: set<nat>)
    ensures GroupOf(p, active) == if p.category.Some? && p.category.value in active then p.category else None
  {
  }

  lemma NoMembers(active: set<nat>)
    ensures forall group :: Members([], active, group) == []
  {
  }

  lemma MembersGrow(products: seq<Product>, i: nat, active: set<nat>)
    requires i < |products|
    ensures forall group :: Members(products[..i + 1], active, group) ==
              if GroupOf(products[i], active) == group then Members(products[..i], active, group) + [products[i]]
              else Members(products[..i], active, group)
  {
    assert products[..i + 1][..i] == products[..i];
  }

  /** The products of the first group with this name, or none. */
  method ProductsForCategory(order: seq<nat>, table: seq<Product>, category: Option<nat>)
    returns (products: seq<Product>)
    requires NoRepeats(order)
    ensures category.None? || category.value in order ==> products == Members(Browsable(table), Ids(order), category)
    ensures category.Some? && category.value !in order ==> products == []
  {
    var groups := GroupedForBot(order, table);
    GroupsSound(order, Browsable(table));
    EveryMemberShown(order, Browsable(table), category);
    for i := 0 to |groups|
      invariant forall k :: 0 <= k < i ==> groups[k].category != category
    {
      if groups[i].category == category {
        return groups[i].products;
      }
    }
    return [];
  }

  // ---------------------------------------------------------------------------
  // A stable partition
  // ---------------------------------------------------------------------------

  function Concat(groups: seq<Group>): seq<Product> {
    if groups == [] then [] else Concat(groups[..|groups| - 1]) + groups[|groups| - 1].products
  }

  lemma {:induction false} ConcatAppend(a: seq<Group>, b: seq<Group>)
    ensures Concat(a + b) == Concat(a) + Concat(b)
  {
    if b == [] {
      assert a + b == a;
    } else {
      assert (a + b)[..|a + b| - 1] == a + b[..|b| - 1];
      ConcatAppend(a, b[..|b| - 1]);
    }
  }

  /** The products a set of groups would show. */
  function Count(products: seq<Product>, active: set<nat>, shown: set<Option<nat>>): multiset<Product> {
    if products == [] then multiset{}
    else
      var last := products[|products| - 1];
      Count(products[..|products| - 1], active, shown)
      + (if GroupOf(last, active) in shown then multiset{last} else multiset{})
  }

  lemma {:induction false} CountMembers(
    products: seq<Product>, active: set<nat>, shown: set<Option<nat>>, group: Option<nat>)
    requires group !in shown
    ensures Count(products, active, shown + {group}) ==
            Count(products, active, shown) + multiset(Members(products, active, group))
  {
    if products == [] {
    } else {
      CountMembers(products[..|products| - 1], active, shown, group);
    }
  }

  lemma {:induction false} CountNothing(products: seq<Product>, active: set<nat>)
    ensures Count(products, active, {}) == multiset{}
  {
    if products == [] {
    } else {
      CountNothing(products[..|products| - 1], active);
    }
  }

  lemma {:induction false} CountEverything(products: seq<Product>, active: set<nat>, shown: set<Option<nat>>)
    requires forall p :: GroupOf(p, active) in shown
    ensures Count(products, active, shown) == multiset(products)
  {
    if products == [] {
    } else {
      CountEverything(products[..|products| - 1], active, shown);
      assert products == products[..|products| - 1] + [products[|products| - 1]];
    }
  }

  function Named(order: seq<nat>): set<Option<nat>> {
    set i | 0 <= i < |order| :: Some(order[i])
  }

  lemma ConcatOne(category: Option<nat>, products: seq<Product>)
    ensures Concat(GroupIfAny(category, products)) == products
  {
    if products != [] {
      assert [Group(category, products)][..0] == [];
    }
  }

  lemma {:induction false} CategoryGroupsShow(order: seq<nat>, active: set<nat>, products: seq<Product>)
    requires NoRepeats(order)
    ensures multiset(Concat(CategoryGroups(order, active, products))) == Count(products, active, Named(order))
  {
    if order == [] {
      CountNothing(products, active);
      assert Named(order) == {};
    } else {
      var n := |order| - 1;
      var members := Members(products, active, Some(order[n]));
      hide Members, Count, Concat, GroupIfAny;
      NamedGrow(order);
      CategoryGroupsShow(order[..n], active, products);
      ConcatAppend(CategoryGroups(order[..n], active, products), GroupIfAny(Some(order[n]), members));
      ConcatOne(Some(order[n]), members);
      CountMembers(products, active, Named(order[..n]), Some(order[n]));
      assert Concat(CategoryGroups(order, active, products)) ==
             Concat(CategoryGroups(order[..n], active, products)) + members;
    }
  }

  lemma NamedGrow(order: seq<nat>)
    requires order != [] && NoRepeats(order)
    ensures var n := |order| - 1;
            && Named(order) == Named(order[..n]) + {Some(order[n])}
            && Some(order[n]) !in Named(order[..n])
            && NoRepeats(order[..n])
  {
    var n := |order| - 1;
    assert forall k :: 0 <= k < n ==> order[..n][k] == order[k];
    forall c | c in Named(order)
      ensures c in Named(order[..n]) + {Some(order[n])}
    {
      var k :| 0 <= k < |order| && c == Some(order[k]);
      assert k < n ==> c == Some(order[..n][k]);
    }
  }

  /** Putting the groups one after the other gives every browsable product exactly once. */
  lemma GroupingIsPermutation(order: seq<nat>, products: seq<Product>)
    requires NoRepeats(order)
    ensures multiset(Concat(Groups(order, products))) == multiset(products)
  {
    var active := Ids(order);
    var others := Members(products, active, None);
    CategoryGroupsShow(order, active, products);
    ConcatAppend(CategoryGroups(order, active, products), GroupIfAny(None, others));
    ConcatOne(None, others);
    CountMembers(products, active, Named(order), None);
    forall p: Product
      ensures GroupOf(p, active) in Named(order) + {None}
    {
      if p.category.Some? && p.category.value in active {
        var i :| 0 <= i < |order| && order[i] == p.category.value;
        assert Some(order[i]) in Named(order);
      }
    }
    CountEverything(products, active, Named(order) + {None});
  }

  /** A group is all and only its members in display order, and is never empty. */
  ghost predicate SoundGroup(g: Group, order: seq<nat>, products: seq<Product>) {
    && g.products == Members(products, Ids(order), g.category) && g.products != []
    && (g.category.Some? ==> g.category.value in order)
  }

  lemma {:induction false} CategoryGroupsSound(part: seq<nat>, order: seq<nat>, products: seq<Product>)
    requires part <= order
    ensures forall g :: g in CategoryGroups(part, Ids(order), products) ==>
              SoundGroup(g, order, products) && g.category.Some? && g.category.value in part
  {
    if part == [] {
    } else {
      var n := |part| - 1;
      CategoryGroupsSound(part[..n], order, products);
      assert part[n] in order;
    }
  }

  /** Category groups come in category order: where each stands says which category it is. */
  lemma {:induction false} CategoryGroupsDiffer(part: seq<nat>, active: set<nat>, products: seq<Product>)
    requires NoRepeats(part)
    ensures forall g :: g in CategoryGroups(part, active, products) ==> g.category.Some? && g.category.value in part
    ensures forall i, j :: 0 <= i < j < |CategoryGroups(part, active, products)| ==>
              CategoryGroups(part, active, products)[i].category != CategoryGroups(part, active, products)[j].category
  {
    if part == [] {
    } else {
      var n := |part| - 1;
      var groups := CategoryGroups(part, active, products);
      var earlier := CategoryGroups(part[..n], active, products);
      CategoryGroupsDiffer(part[..n], active, products);
      forall i, j | 0 <= i < j < |groups|
        ensures groups[i].category != groups[j].category
      {
        assert groups[i] == earlier[i] && earlier[i] in earlier;
        if j == |earlier| {
          assert part[n] !in part[..n];
        }
      }
    }
  }

  /** Groups are sound, none comes twice, and the others come last. */
  lemma GroupsSound(order: seq<nat>, products: seq<Product>)
    requires NoRepeats(order)
    ensures forall i :: 0 <= i < |Groups(order, products)| ==> SoundGroup(Groups(order, products)[i], order, products)
    ensures forall i, j :: 0 <= i < j < |Groups(order, products)| ==>
              && Groups(order, products)[i].category.Some?
              && Groups(order, products)[i].category != Groups(order, products)[j].category
  {
    CategoryGroupsSound(order, order, products);
    CategoryGroupsDiffer(order, Ids(order), products);
    var groups := Groups(order, products);
    var named := CategoryGroups(order, Ids(order), products);
    forall i, j | 0 <= i < j < |groups|
      ensures groups[i].category.Some? && groups[i].category != groups[j].category
    {
      assert groups[i] == named[i] && named[i] in named;
      if j < |named| {
        assert groups[j] == named[j];
      }
    }
    forall i | 0 <= i < |groups|
      ensures SoundGroup(groups[i], order, products)
    {
      if i < |named| {
        assert groups[i] == named[i] && named[i] in named;
      }
    }
  }

  lemma {:induction false} CategoryGroupShown(part: seq<nat>, active: set<nat>, products: seq<Product>, id: nat)
    requires id in part && Members(products, active, Some(id)) != []
    ensures exists k :: 0 <= k < |CategoryGroups(part, active, products)|
              && CategoryGroups(part, active, products)[k].category == Some(id)
  {
    var n := |part| - 1;
    var groups := CategoryGroups(part, active, products);
    if part[n] == id {
      assert groups[|groups| - 1].category == Some(id);
    } else {
      CategoryGroupShown(part[..n], active, products, id);
      var earlier := CategoryGroups(part[..n], active, products);
      var k :| 0 <= k < |earlier| && earlier[k].category == Some(id);
      assert groups[k].category == Some(id);
    }
  }

  /** A group with members is shown, so no browsable product is out of reach. */
  lemma EveryMemberShown(order: seq<nat>, products: seq<Product>, category: Option<nat>)
    requires NoRepeats(order)
    ensures (category.None? || category.value in order) && Members(products, Ids(order), category) != [] ==>
              exists k :: 0 <= k < |Groups(order, products)| && Groups(order, products)[k].category == category
  {
    var groups := Groups(order, products);
    var named := CategoryGroups(order, Ids(order), products);
    if Members(products, Ids(order), category) != [] {
      if category.None? {
        assert groups[|groups| - 1].category == category;
      } else if category.value in order {
        CategoryGroupShown(order, Ids(order), products, category.value);
        var k :| 0 <= k < |named| && named[k].category == category;
        assert groups[k].category == category;
      }
    }
  }

  lemma {:induction false} BrowsableAre(table: seq<Product>, p: Product)
    ensures p in Browsable(table) <==> p in table && p.active && !p.hidden && !p.forService
  {
    if table == [] {
    } else {
      var n := |table| - 1;
      BrowsableAre(table[..n], p);
      assert table == table[..n] + [table[n]];
    }
  }

  /** The groups show a product exactly if it is in the table, active, not hidden, and not bought for a service. */
  lemma ShownIffOnSale(order: seq<nat>, table: seq<Product>, p: Product)
    requires NoRepeats(order)
    ensures p in Concat(Groups(order, Browsable(table))) <==>
            p in table && p.active && !p.hidden && !p.forService
  {
    var shown := Concat(Groups(order, Browsable(table)));
    GroupingIsPermutation(order, Browsable(table));
    BrowsableAre(table, p);
    assert p in shown <==> p in multiset(shown);
    assert p in Browsable(table) <==> p in multiset(Browsable(table));
  }

  /** Titles are cut at two hundred characters. */
  lemma ShorteningMeans(title: string)
    ensures Shortened(title) <= title
    ensures |Shortened(title)| == if |title| < 200 then |title| else 200
  {
  }
}
