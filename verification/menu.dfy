/** The menu catalog and the filter behind the menu grid
    (src/pages/Index.tsx:14-24, 78-145, 177-183). */
module Menu {
  import opened Seqs
  import opened Text

  datatype Category = Sushi | Pizza | Rolls

  /** A catalog entry; `price` is in whole roubles. */
  datatype MenuItem = MenuItem(
    id: int,
    name: string,
    description: string,
    price: int,
    category: Category,
    image: string,
    calories: int,
    ingredients: seq<string>,
    weight: string)

  /** The category buttons: `'all'` or one category. */
  datatype CategorySelector = All | Only(category: Category)

  /** The static catalog of the page. */
  const Catalog: seq<MenuItem> := [
    MenuItem(1, "Лосось нигири", "Свежий лосось на рисовой подушке", 120, Sushi,
      "/img/08fdbaa0-2f2b-43d1-81d7-969140a14918.jpg", 45,
      ["Лосось", "Рис", "Васаби", "Имбирь"], "30г"),
    MenuItem(2, "Филадельфия ролл", "Лосось, сливочный сыр, огурец", 350, Rolls,
      "/img/08fdbaa0-2f2b-43d1-81d7-969140a14918.jpg", 255,
      ["Лосось", "Сливочный сыр", "Огурец", "Нори", "Рис"], "180г"),
    MenuItem(3, "Японская пицца", "Лосось, нори, кунжут, соус унаги", 480, Pizza,
      "/img/bb9fefb1-f936-4994-be61-91f751aea1b2.jpg", 320,
      ["Лосось", "Нори", "Кунжут", "Соус унаги", "Тесто"], "250г"),
    MenuItem(4, "Калифорния ролл", "Краб, авокадо, огурец, икра тобико", 320, Rolls,
      "/img/08fdbaa0-2f2b-43d1-81d7-969140a14918.jpg", 230,
      ["Краб", "Авокадо", "Огурец", "Икра тобико", "Нори", "Рис"], "170г"),
    MenuItem(5, "Тунец сашими", "Свежайший тунец, васаби, имбирь", 280, Sushi,
      "/img/08fdbaa0-2f2b-43d1-81d7-969140a14918.jpg", 65,
      ["Тунец", "Васаби", "Имбирь"], "40г"),
    MenuItem(6, "Пицца Токио", "Угорь, авокадо, кунжут, соус терияки", 520, Pizza,
      "/img/bb9fefb1-f936-4994-be61-91f751aea1b2.jpg", 380,
      ["Угорь", "Авокадо", "Кунжут", "Соус терияки", "Тесто"], "270г")
  ]

  /** The first filter: the item belongs to the selected category, or all are selected. */
  predicate InCategory(item: MenuItem, selected: CategorySelector)
  {
    selected == All || item.category == selected.category
  }

  /** The second filter: the query is empty, or its lower-cased form occurs in
      the lower-cased name or description. */
  predicate MatchesQuery(item: MenuItem, query: string)
  {
    query == "" ||
    Contains(Lower(item.name), Lower(query)) ||
    Contains(Lower(item.description), Lower(query))
  }

  /** `filteredMenuItems`: the category filter followed by the search filter. */
  function FilteredMenuItems(items: seq<MenuItem>, selected: CategorySelector, query: string): (r: seq<MenuItem>)
    ensures IsSubseq(r, items)
    ensures forall x :: x in r <==> x in items && InCategory(x, selected) && MatchesQuery(x, query)
  {
    var byCategory := Filter(items, item => InCategory(item, selected));
    var r := Filter(byCategory, item => MatchesQuery(item, query));
    FilterFilter(items, item => InCategory(item, selected), item => MatchesQuery(item, query),
      item => InCategory(item, selected) && MatchesQuery(item, query));
    FilterIsSubseq(items, item => InCategory(item, selected) && MatchesQuery(item, query));
    r
  }

  /** With `'all'` and an empty query the whole catalog is shown, in order. */
  lemma ShowAll(items: seq<MenuItem>)
    ensures FilteredMenuItems(items, All, "") == items
  {
    FilterKeepsAll(items, item => InCategory(item, All));
    FilterKeepsAll(items, item => MatchesQuery(item, ""));
  }

  /** The search ignores the letter case of the query. */
  lemma QueryCaseInsensitive(item: MenuItem, query: string)
    ensures MatchesQuery(item, Lower(query)) == MatchesQuery(item, query)
  {
    LowerIdempotent(query);
    assert |Lower(query)| == |query|;
  }

  /** Selecting one category shows no item of another. */
  lemma OnlySelectedCategory(items: seq<MenuItem>, c: Category, query: string, i: int)
    requires 0 <= i < |FilteredMenuItems(items, Only(c), query)|
    ensures FilteredMenuItems(items, Only(c), query)[i].category == c
  {
    var r := FilteredMenuItems(items, Only(c), query);
    assert r[i] in r;
  }

  /** Searching for an item's own name, in any letter case, shows that item. */
  lemma SearchByName(items: seq<MenuItem>, k: int, query: string)
    requires 0 <= k < |items| && Lower(query) == Lower(items[k].name)
    ensures items[k] in FilteredMenuItems(items, All, query)
  {
    var name := Lower(items[k].name);
    ContainsSlice(name, 0, |name|);
    assert name[0..|name|] == name;
  }

  /** The upper-case Russian query "ЛОСОСЬ" (salmon) lower-cases to "лосось"
      and brings up the salmon nigiri, whose name starts with that word. */
  lemma SalmonSearch()
    ensures Lower("ЛОСОСЬ") == "лосось"
    ensures Catalog[0] in FilteredMenuItems(Catalog, All, "ЛОСОСЬ")
  {
    var query := "ЛОСОСЬ";
    assert Lower(query) == "лосось";
    var item := Catalog[0];
    assert item.name == "Лосось нигири";
    var name := Lower(item.name);
    assert name[..6] == "лосось";
    assert OccursAt(name, Lower(query), 0);
    assert MatchesQuery(item, query);
  }
}
