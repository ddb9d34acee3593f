/** The portfolio grid: web and graphic-design projects, the tab that filters them, and the
    choices made when a project card is drawn (placeholder badge, "Live" link, empty state). */
module Portfolio {
  import opened Wrappers

  const WebDevelopment := "Web Development"
  const GraphicDesign := "Graphic Design"

  /** `Project = WebProject | GraphicProject`; the union is tagged by `category`, and only a web
      project has a `liveLink`. `image` is the optional `image?: string`. */
  datatype Project =
    | WebProject(title: string, description: string, color: string, liveLink: string, image: Option<string>)
    | GraphicProject(title: string, description: string, color: string, image: Option<string>)
  {
    /** The `category` tag each variant is declared with. */
    function Category(): (c: string)
      ensures c == WebDevelopment <==> WebProject?
      ensures c == GraphicDesign <==> GraphicProject?
    {
      if WebProject? then WebDevelopment else GraphicDesign
    }
  }

  /** The element types of the two props. */
  type WebProj = p: Project | p.WebProject? witness WebProject("", "", "", "", None)
  type GraphicProj = p: Project | p.GraphicProject? witness GraphicProject("", "", "", None)

  /** `activeTab`: 'all' | 'web' | 'graphics'. */
  datatype Tab = All | Web | Graphics

  /** `useState('all')` */
  const InitialTab := All

  /** `[...webProjects, ...graphicProjects]`: every web project, in order, then every graphic
      project, in order. */
  function AllProjects(web: seq<WebProj>, graphic: seq<GraphicProj>): (r: seq<Project>)
    ensures |r| == |web| + |graphic|
    ensures forall i :: 0 <= i < |web| ==> r[i] == web[i]
    ensures forall j :: 0 <= j < |graphic| ==> r[|web| + j] == graphic[j]
  {
    var w: seq<Project> := web;
    var g: seq<Project> := graphic;
    w + g
  }

  /** `filteredProjects`: the list the grid shows for the active tab. */
  function Filtered(tab: Tab, web: seq<WebProj>, graphic: seq<GraphicProj>): (r: seq<Project>)
    ensures forall p :: p in r ==> p in AllProjects(web, graphic)
  {
    if tab == Web then web
    else if tab == Graphics then graphic
    else AllProjects(web, graphic)
  }

  /** The projects of `s` whose category is `cat`, in their order: an independent description
      of what a category tab should show. */
  function OfCategory(s: seq<Project>, cat: string): (r: seq<Project>)
    ensures |r| <= |s|
    ensures forall p :: p in r ==> p in s && p.Category() == cat
  {
    if s == [] then []
    else if s[0].Category() == cat then [s[0]] + OfCategory(s[1..], cat)
    else OfCategory(s[1..], cat)
  }

  /** Filtering distributes over concatenation. */
  lemma {:induction false} OfCategoryAppend(a: seq<Project>, b: seq<Project>, cat: string)
    ensures OfCategory(a + b, cat) == OfCategory(a, cat) + OfCategory(b, cat)
  {
    if a == [] {
      assert a + b == b;
    } else {
      var ab := a + b;
      assert ab[0] == a[0] && ab[1..] == a[1..] + b;
      OfCategoryAppend(a[1..], b, cat);
      if a[0].Category() == cat {
        calc {
          OfCategory(ab, cat);
          [a[0]] + OfCategory(a[1..] + b, cat);
          [a[0]] + (OfCategory(a[1..], cat) + OfCategory(b, cat));
          ([a[0]] + OfCategory(a[1..], cat)) + OfCategory(b, cat);
        }
      } else {
        assert OfCategory(ab, cat) == OfCategory(a[1..] + b, cat);
      }
    }
  }

  /** A list whose projects all have category `cat` is its own filter; one with none of them
      filters to nothing. */
  lemma {:induction false} OfCategoryUniform(s: seq<Project>, cat: string)
    ensures (forall p :: p in s ==> p.Category() == cat) ==> OfCategory(s, cat) == s
    ensures (forall p :: p in s ==> p.Category() != cat) ==> OfCategory(s, cat) == []
  {
    if s != [] {
      assert forall p :: p in s[1..] ==> p in s;
      OfCategoryUniform(s[1..], cat);
      assert s == [s[0]] + s[1..];
    }
  }

  /** The category a tab selects, for the two category tabs. */
  function TabCategory(tab: Tab): string
    requires tab != All
  {
    if tab == Web then WebDevelopment else GraphicDesign
  }

  /** The web tab shows exactly the web-development projects of "All Projects" and the graphics
      tab exactly the graphic-design ones, each in the order "All Projects" has them. */
  lemma TabShowsItsCategory(tab: Tab, web: seq<WebProj>, graphic: seq<GraphicProj>)
    requires tab != All
    ensures Filtered(tab, web, graphic) == OfCategory(AllProjects(web, graphic), TabCategory(tab))
  {
    var w: seq<Project> := web;
    var g: seq<Project> := graphic;
    assert AllProjects(web, graphic) == w + g;
    OfCategoryAppend(w, g, TabCategory(tab));
    OfCategoryUniform(w, TabCategory(tab));
    OfCategoryUniform(g, TabCategory(tab));
  }

  /** `a` can be obtained from `b` by deleting elements. */
  ghost predicate IsSubsequence(a: seq<Project>, b: seq<Project>)
    decreases |b|
  {
    a == [] || (b != [] && ((a[0] == b[0] && IsSubsequence(a[1..], b[1..])) || IsSubsequence(a, b[1..])))
  }

  lemma {:induction false} SubsequenceOfSelf(a: seq<Project>)
    ensures IsSubsequence(a, a)
    decreases |a|
  {
    if a != [] {
      SubsequenceOfSelf(a[1..]);
    }
  }

  /** A subsequence of `b` is a subsequence of `b` with anything put in front or behind. */
  lemma {:induction false} SubsequenceExtend(a: seq<Project>, b: seq<Project>, pre: seq<Project>, post: seq<Project>)
    requires IsSubsequence(a, b)
    ensures IsSubsequence(a, pre + b + post)
    decreases |pre|, |b|
  {
    if pre != [] {
      SubsequenceExtend(a, b, pre[1..], post);
      assert (pre + b + post)[1..] == pre[1..] + b + post;
    } else if a != [] {
      assert pre + b + post == b + post;
      if a[0] == b[0] && IsSubsequence(a[1..], b[1..]) {
        SubsequenceExtend(a[1..], b[1..], [], post);
        assert [] + b[1..] + post == (b + post)[1..];
      } else {
        SubsequenceExtend(a, b[1..], [], post);
        assert [] + b[1..] + post == (b + post)[1..];
      }
    }
  }

  /** Whatever the tab, the grid shows a subsequence of "All Projects". */
  lemma FilteredIsSubsequence(tab: Tab, web: seq<WebProj>, graphic: seq<GraphicProj>)
    ensures IsSubsequence(Filtered(tab, web, graphic), AllProjects(web, graphic))
  {
    var w: seq<Project> := web;
    var g: seq<Project> := graphic;
    assert AllProjects(web, graphic) == [] + w + g;
    assert w + g == w + g + [];
    SubsequenceOfSelf(w);
    SubsequenceOfSelf(g);
    SubsequenceOfSelf(w + g);
    if tab == Web {
      SubsequenceExtend(w, w, [], g);
    } else if tab == Graphics {
      SubsequenceExtend(g, g, w, []);
    } else {
      SubsequenceExtend(w + g, w + g, [], []);
    }
  }

  /** What the grid shows for each tab, and that each category tab shows only its category. */
  lemma FilteredContents(tab: Tab, web: seq<WebProj>, graphic: seq<GraphicProj>)
    ensures Filtered(InitialTab, web, graphic) == AllProjects(web, graphic)
    ensures tab == Web ==> Filtered(tab, web, graphic) == web
    ensures tab == Graphics ==> Filtered(tab, web, graphic) == graphic
    ensures tab == All ==> Filtered(tab, web, graphic) == AllProjects(web, graphic)
    ensures tab == Web ==> forall p :: p in Filtered(tab, web, graphic) ==> p.Category() == WebDevelopment
    ensures tab == Graphics ==> forall p :: p in Filtered(tab, web, graphic) ==> p.Category() == GraphicDesign
  {
  }

  /** A filter button: its text and, for the two category tabs, the count in parentheses. */
  datatype TabButton = TabButton(caption: string, count: Option<nat>)

  /** The three filter buttons' contents. The count on a category button is the number of cards
      that selecting it shows. */
  function Button(tab: Tab, web: seq<WebProj>, graphic: seq<GraphicProj>): (b: TabButton)
    ensures tab == All ==> b.count == None
    ensures tab != All ==> b.count == Some(|Filtered(tab, web, graphic)|)
  {
    match tab
    case All => TabButton("All Projects", None)
    case Web => TabButton(WebDevelopment, Some(|web|))
    case Graphics => TabButton(GraphicDesign, Some(|graphic|))
  }

  /** `project.image ?`: a present but empty image path is falsy, as in JavaScript. */
  predicate HasImage(p: Project) {
    p.image.Some? && p.image.value != ""
  }

  /** The large letters shown in place of a missing image. */
  function Placeholder(p: Project): (badge: Option<string>)
    ensures badge == None <==> HasImage(p)
    ensures badge == Some("GD") <==> !HasImage(p) && p.GraphicProject?
    ensures badge == Some("WD") <==> !HasImage(p) && p.WebProject?
  {
    if HasImage(p) then None
    else if p.Category() == GraphicDesign then Some("GD")
    else Some("WD")
  }

  /** The "Live" link: present exactly for web-development projects, pointing at their `liveLink`. */
  function LiveLink(p: Project): (link: Option<string>)
    ensures link.Some? <==> p.Category() == WebDevelopment
    ensures p.WebProject? ==> link == Some(p.liveLink)
  {
    if p.Category() == WebDevelopment then Some(p.liveLink) else None
  }

  /** One project card as drawn. */
  datatype Card = Card(
    title: string,
    category: string,
    description: string,
    image: Option<string>,
    placeholder: Option<string>,
    liveLink: Option<string>)

  function RenderCard(p: Project): (c: Card)
    ensures c.title == p.title && c.description == p.description && c.category == p.Category()
    ensures c.image.Some? <==> c.placeholder.None?
    ensures c.image.Some? <==> HasImage(p)
    ensures HasImage(p) ==> c.image == p.image
    ensures !HasImage(p) ==> c.placeholder == Some(if p.GraphicProject? then "GD" else "WD")
    ensures c.liveLink == (if p.WebProject? then Some(p.liveLink) else None)
  {
    Card(p.title, p.Category(), p.description, if HasImage(p) then p.image else None,
         Placeholder(p), LiveLink(p))
  }

  /** "No projects to display yet." is shown when the filtered list is empty. */
  predicate ShowsEmptyState(tab: Tab, web: seq<WebProj>, graphic: seq<GraphicProj>) {
    |Filtered(tab, web, graphic)| == 0
  }

  /** The empty state appears on "All Projects" only when both lists are empty, and on a
      category tab exactly when that category has no projects. */
  lemma EmptyStateCases(tab: Tab, web: seq<WebProj>, graphic: seq<GraphicProj>)
    ensures ShowsEmptyState(tab, web, graphic) <==>
      match tab
      case All => web == [] && graphic == []
      case Web => web == []
      case Graphics => graphic == []
  {
  }
}
