/** The templates page: its own search-and-category filter over the template list, the
    list of categories it offers, and "use this template", which adds a new book. */
module TemplatesPage {
  import opened Wrappers
  import opened Seqs
  import opened Text
  import opened Types
  import Store

  /** The page's search: the lowercased query occurs in the lowercased name, description
      or some tag. The category is not searched. */
  predicate PageSearchMatches(t: Template, q: string) {
    Contains(Lower(t.name), Lower(q))
    || Contains(Lower(t.description), Lower(q))
    || Store.TagMatches(t, q)
  }

  /** The category filter: no selection (absent or empty) lets everything through, a
      selection is compared with the category's stored string. */
  predicate CategoryMatches(t: Template, selected: Option<string>) {
    selected == None || selected.value == [] || CategoryName(t.category) == selected.value
  }

  predicate PageMatches(t: Template, query: string, selected: Option<string>) {
    (query == [] || PageSearchMatches(t, query)) && CategoryMatches(t, selected)
  }

  /** `filteredTemplates`: the templates passing both filters, in their original order. */
  function FilteredTemplates(templates: seq<Template>, query: string, selected: Option<string>)
    : (r: seq<Template>)
    ensures forall t :: t in r <==> t in templates && PageMatches(t, query, selected)
    ensures IsSubsequence(r, templates)
    ensures query == [] && (selected == None || selected == Some([])) ==> r == templates
  {
    var keep := (t: Template) => PageMatches(t, query, selected);
    forall t ensures t in Filter(templates, keep) <==> t in templates && keep(t) {
      FilterMember(templates, keep, t);
    }
    FilterSubsequence(templates, keep);
    assert query == [] && (selected == None || selected == Some([])) ==> Filter(templates, keep) == templates by {
      if query == [] && (selected == None || selected == Some([])) {
        FilterAll(templates, keep);
      }
    }
    Filter(templates, keep)
  }

  /** Selecting a category keeps exactly the templates of that category. */
  lemma SelectCategory(templates: seq<Template>, c: Category, t: Template)
    ensures t in FilteredTemplates(templates, [], Some(CategoryName(c))) <==> t in templates && t.category == c
  {
    CategoryNameInjective(t.category, c);
  }

  /** Everything the page's search keeps, the store's search keeps too. */
  lemma PageSearchWithinStoreSearch(templates: seq<Template>, query: string, t: Template)
    ensures t in FilteredTemplates(templates, query, None) ==> t in Store.SearchTemplates(templates, query)
  {
  }

  /** The converse fails: a template that matches only through its category is found by
      the store's search and not by the page's. */
  lemma {:induction false} CategoryOnlyMatch(t: Template)
    requires t.name == [] && t.description == [] && t.tags == []
    ensures Store.StoreSearchMatches(t, CategoryName(t.category))
    ensures !PageSearchMatches(t, CategoryName(t.category))
  {
    var q := Lower(CategoryName(t.category));
    assert |q| > 0 by {
      match t.category
      case HowTo =>
      case Business =>
      case Fiction =>
      case Memoir =>
      case Academic =>
      case SelfHelp =>
    }
    assert OccursAt(q, q, 0) by {
      assert q[0..|q|] == q;
    }
    ContainsOccurs(q, q, 0);
    assert IndexOf(Lower(t.name), q, 0) == -1;
    assert IndexOf(Lower(t.description), q, 0) == -1;
  }

  /** The category of each template, in template order. */
  function CategoriesOf(templates: seq<Template>): (r: seq<Category>)
    ensures |r| == |templates| && forall i :: 0 <= i < |r| ==> r[i] == templates[i].category
  {
    seq(|templates|, i requires 0 <= i < |templates| => templates[i].category)
  }

  /** `categories`: each category used by some template, once, in order of first use. */
  function Categories(templates: seq<Template>): (r: seq<Category>)
    ensures Distinct(r)
    ensures forall c :: c in r <==> exists t :: t in templates && t.category == c
    ensures InFirstOrder(CategoriesOf(templates), r)
  {
    var cs := CategoriesOf(templates);
    UniqueMembers(cs);
    UniqueOrder(cs);
    assert forall c :: c in cs <==> exists t :: t in templates && t.category == c by {
      forall c ensures c in cs <==> exists t :: t in templates && t.category == c {
        if c in cs {
          var i :| 0 <= i < |cs| && cs[i] == c;
          assert templates[i] in templates;
        }
        if exists t :: t in templates && t.category == c {
          var t :| t in templates && t.category == c;
          var i :| 0 <= i < |templates| && templates[i] == t;
          assert cs[i] == c;
        }
      }
    }
    Unique(cs)
  }

  /** The book `handleUseTemplate` creates: titled after the template, in English for a
      general audience, with empty subtitle and author and no cover. */
  function TemplateBook(template: Template, id: Id, now: string): (b: Book)
    ensures b.id == id && b.title == "My " + template.name
    ensures b.subtitle == Some([]) && b.author == Some([]) && b.coverUrl == None
    ensures b.language == "en" && b.audience == "general"
    ensures b.createdAt == now && b.updatedAt == now
  {
    Book(id, "My " + template.name, Some([]), Some([]), None, "en", "general", now, now)
  }

  /** `handleUseTemplate`: adds exactly that one book, and nothing of the template's
      structure: no chapter and no section is created. */
  method UseTemplate(store: Store.BooksStore, template: Template, id: Id, now: string) returns (book: Book)
    modifies store
    ensures book == TemplateBook(template, id, now)
    ensures store.books == old(store.books) + [book]
    ensures store.chapters == old(store.chapters) && store.sections == old(store.sections)
    ensures store.currentBook == old(store.currentBook)
  {
    book := TemplateBook(template, id, now);
    store.AddBook(book);
  }
}
