/**
 * The blog: the `Blog` schema (collection `blogs`, unique slug) and the two read routes of
 * routes/blogs.js, the list with its category filter and the lookup by slug.
 */
module BlogModel {
  import opened Wrappers
  import opened Strings

  datatype Blog = Blog(id: string, title: string, slug: string, excerpt: string, content: string,
                       coverImageUrl: string, author: string, category: string, publishedDate: nat,
                       readTimeMinutes: int, isPublished: bool)

  /** The schema's defaults for the optional paths. */
  const DefaultAuthor: string := "Research Team"
  const DefaultCategory: string := "Research"
  const DefaultReadTime: int := 5

  /** What a new document may leave out: the paths with a default. */
  datatype Optional = Optional(author: Option<string>, category: Option<string>, publishedDate: Option<nat>,
                               readTimeMinutes: Option<int>, isPublished: Option<bool>)

  /**
   * A document as the schema builds it: `trim` on title, slug, excerpt, author and category;
   * `required` refusing an empty title, slug, excerpt, content or cover image; the defaults
   * for what is left out (`published_date` is the creation time).
   */
  function NewBlog(id: string, title: string, slug: string, excerpt: string, content: string, cover: string,
                   opt: Optional, now: nat): (r: Option<Blog>)
    ensures r.Some? <==> Trim(title) != "" && Trim(slug) != "" && Trim(excerpt) != "" && content != "" && cover != ""
    ensures r.Some? ==> r.value.slug == Trim(slug) && r.value.title == Trim(title) && r.value.content == content
    ensures r.Some? ==> r.value.author == (if opt.author.Some? then Trim(opt.author.value) else DefaultAuthor)
    ensures r.Some? ==> r.value.category == (if opt.category.Some? then Trim(opt.category.value) else DefaultCategory)
    ensures r.Some? ==> r.value.publishedDate == opt.publishedDate.GetOr(now)
    ensures r.Some? ==> r.value.readTimeMinutes == opt.readTimeMinutes.GetOr(DefaultReadTime)
    ensures r.Some? ==> r.value.isPublished == opt.isPublished.GetOr(true)
  {
    if Trim(title) == "" || Trim(slug) == "" || Trim(excerpt) == "" || content == "" || cover == "" then None
    else
      Some(Blog(id, Trim(title), Trim(slug), Trim(excerpt), content, cover,
                if opt.author.Some? then Trim(opt.author.value) else DefaultAuthor,
                if opt.category.Some? then Trim(opt.category.value) else DefaultCategory,
                opt.publishedDate.GetOr(now), opt.readTimeMinutes.GetOr(DefaultReadTime), opt.isPublished.GetOr(true)))
  }

  /** The collection, in the order the store holds it; the unique index keeps slugs distinct. */
  ghost predicate UniqueSlugs(rows: seq<Blog>) {
    forall i, j :: 0 <= i < j < |rows| ==> rows[i].slug != rows[j].slug
  }

  predicate HasSlug(rows: seq<Blog>, slug: string) {
    exists i :: 0 <= i < |rows| && rows[i].slug == slug
  }

  /** `Blog.create(b)`: refused with a duplicate-key error when the slug is taken. */
  function Insert(rows: seq<Blog>, b: Blog): (r: Option<seq<Blog>>)
    ensures r.None? <==> HasSlug(rows, b.slug)
    ensures r.Some? ==> r.value == rows + [b]
    ensures UniqueSlugs(rows) && r.Some? ==> UniqueSlugs(r.value)
  {
    if HasSlug(rows, b.slug) then None else Some(rows + [b])
  }
}

module BlogFlow {
  import opened Wrappers
  import opened Strings
  import opened Messages
  import opened BlogModel

  /**
   * `is_published: true` plus, unless the query's category is absent, empty or 'All', the
   * category, which the path's `trim` setter trims before matching.
   */
  predicate Listed(b: Blog, category: Option<string>) {
    b.isPublished && (category.None? || category.value == "" || category.value == "All" || b.category == Trim(category.value))
  }

  /**
   * The documents the list query matches, in store order: each listed document as often as
   * it is stored, and nothing else.
   */
  function Matching(rows: seq<Blog>, category: Option<string>): (r: seq<Blog>)
    ensures forall i :: 0 <= i < |r| ==> Listed(r[i], category)
    ensures multiset(r) <= multiset(rows)
    ensures forall b :: b in rows && Listed(b, category) ==> b in r
    ensures forall b :: multiset(r)[b] == if Listed(b, category) then multiset(rows)[b] else 0
  {
    if rows == [] then []
    else
      var rest := Matching(rows[1..], category);
      assert rows == [rows[0]] + rows[1..];
      if Listed(rows[0], category) then [rows[0]] + rest else rest
  }

  /** A listed blog: every path but `content`. */
  datatype Summary = Summary(id: string, title: string, slug: string, excerpt: string, coverImageUrl: string,
                             author: string, category: string, publishedDate: nat, readTimeMinutes: int,
                             isPublished: bool)

  function Summarize(b: Blog): (s: Summary)
    ensures s.id == b.id && s.slug == b.slug && s.title == b.title && s.category == b.category
    ensures s.publishedDate == b.publishedDate && s.isPublished == b.isPublished
  {
    Summary(b.id, b.title, b.slug, b.excerpt, b.coverImageUrl, b.author, b.category, b.publishedDate,
            b.readTimeMinutes, b.isPublished)
  }

  /** `sort({ published_date: -1 })`: newest first. */
  ghost predicate NewestFirst(s: seq<Summary>) {
    forall i, j :: 0 <= i < j < |s| ==> s[i].publishedDate >= s[j].publishedDate
  }

  /** A summary no older than the head of a newest-first sequence can go in front of it. */
  lemma ConsNewestFirst(h: Summary, s: seq<Summary>)
    requires NewestFirst(s) && (s == [] || h.publishedDate >= s[0].publishedDate)
    ensures NewestFirst([h] + s)
  {
    var r := [h] + s;
    forall i, j | 0 <= i < j < |r| ensures r[i].publishedDate >= r[j].publishedDate {
      if i == 0 && j > 1 {
        assert r[j] == s[j - 1] && r[1] == s[0];
      }
    }
  }

  function InsertByDate(x: Summary, s: seq<Summary>): (r: seq<Summary>)
    requires NewestFirst(s)
    ensures NewestFirst(r)
    ensures multiset(r) == multiset(s) + multiset{x}
    ensures |r| == |s| + 1 && (r[0] == x || (s != [] && r[0] == s[0]))
  {
    if s == [] || x.publishedDate >= s[0].publishedDate then
      ConsNewestFirst(x, s);
      [x] + s
    else
      assert s == [s[0]] + s[1..];
      var rest := InsertByDate(x, s[1..]);
      ConsNewestFirst(s[0], rest);
      [s[0]] + rest
  }

  /** The summaries of `rows`, in the same order. */
  function Summaries(rows: seq<Blog>): (r: seq<Summary>)
    ensures |r| == |rows| && forall i :: 0 <= i < |rows| ==> r[i] == Summarize(rows[i])
  {
    seq(|rows|, i requires 0 <= i < |rows| => Summarize(rows[i]))
  }

  /** The summaries of `rows`, newest first. */
  function SortNewestFirst(rows: seq<Blog>): (r: seq<Summary>)
    ensures NewestFirst(r)
    ensures |r| == |rows|
    ensures multiset(r) == multiset(Summaries(rows))
  {
    if rows == [] then []
    else
      var rest := SortNewestFirst(rows[1..]);
      assert Summaries(rows) == [Summarize(rows[0])] + Summaries(rows[1..]);
      InsertByDate(Summarize(rows[0]), rest)
  }

  /** `GET /blogs?category=...`. */
  function ListBlogs(rows: seq<Blog>, category: Option<string>): (r: seq<Summary>)
    ensures NewestFirst(r)
    ensures multiset(r) == multiset(Summaries(Matching(rows, category)))
  {
    SortNewestFirst(Matching(rows, category))
  }

  datatype Lookup = Found(blog: Blog) | NotFound(status: nat, message: Message)

  /** `findOne({ slug, is_published: true })` over `rows`: the first published post with that slug. */
  function FindPublished(rows: seq<Blog>, slug: string): (r: Option<Blog>)
    ensures r.Some? ==> r.value in rows && r.value.slug == slug && r.value.isPublished
    ensures r.None? ==> forall b :: b in rows && b.slug == slug ==> !b.isPublished
  {
    if rows == [] then None
    else if rows[0].slug == slug && rows[0].isPublished then Some(rows[0])
    else
      assert forall b :: b in rows ==> b == rows[0] || b in rows[1..];
      FindPublished(rows[1..], slug)
  }

  /** `GET /blogs/:slug`: the published blog with that (trimmed) slug, otherwise 404. */
  function BySlug(rows: seq<Blog>, slug: string): (r: Lookup)
    ensures r.Found? ==> r.blog in rows && r.blog.slug == Trim(slug) && r.blog.isPublished
    ensures r.NotFound? ==> r == NotFound(404, BlogNotFound)
    ensures r.NotFound? <==> forall b :: b in rows && b.slug == Trim(slug) ==> !b.isPublished
  {
    match FindPublished(rows, Trim(slug))
    case Some(b) => Found(b)
    case None => NotFound(404, BlogNotFound)
  }
}

module BlogProperties {
  import opened Wrappers
  import opened Strings
  import opened Messages
  import opened BlogModel
  import opened BlogFlow

  /**
   * The list holds exactly the summaries of the published blogs the filter admits, each as
   * often as it is stored, newest first, and none carries the content.
   */
  lemma ListIsFilteredAndSorted(rows: seq<Blog>, category: Option<string>)
    ensures var r := ListBlogs(rows, category);
            && NewestFirst(r)
            && (forall s :: s in r ==> exists b :: b in rows && Listed(b, category) && s == Summarize(b))
            && (forall b :: b in rows && Listed(b, category) ==> Summarize(b) in r)
            && multiset(r) == multiset(Summaries(Matching(rows, category)))
            && (forall b :: multiset(Matching(rows, category))[b] == if Listed(b, category) then multiset(rows)[b] else 0)
  {
    var m := Matching(rows, category);
    SortKeepsSummaries(m);
    forall b | b in m ensures b in rows && Listed(b, category) {
      assert b in multiset(m);
    }
  }

  /** Sorting neither loses nor invents a summary. */
  lemma SortKeepsSummaries(m: seq<Blog>)
    ensures forall s :: s in SortNewestFirst(m) ==> exists b :: b in m && s == Summarize(b)
    ensures forall b :: b in m ==> Summarize(b) in SortNewestFirst(m)
  {
    var r := SortNewestFirst(m);
    var all := seq(|m|, i requires 0 <= i < |m| => Summarize(m[i]));
    assert multiset(r) == multiset(all);
    forall s | s in r ensures exists b :: b in m && s == Summarize(b) {
      assert s in multiset(all);
      var i :| 0 <= i < |all| && all[i] == s;
    }
    forall b | b in m ensures Summarize(b) in r {
      var i :| 0 <= i < |m| && m[i] == b;
      assert all[i] == Summarize(b);
      assert Summarize(b) in multiset(all);
    }
  }

  /** Without a category, or with 'All', the list holds every published blog. */
  lemma AllMeansEveryPublished(rows: seq<Blog>, b: Blog)
    requires b in rows && b.isPublished
    ensures Summarize(b) in ListBlogs(rows, None)
    ensures Summarize(b) in ListBlogs(rows, Some("All"))
  {
    ListIsFilteredAndSorted(rows, None);
    ListIsFilteredAndSorted(rows, Some("All"));
  }

  /** An unpublished blog is never listed, and its slug answers 404 when no published blog shares it. */
  lemma UnpublishedHidden(rows: seq<Blog>, b: Blog, category: Option<string>)
    requires b in rows && !b.isPublished && UniqueSlugs(rows)
    ensures forall s :: s in ListBlogs(rows, category) ==> s.isPublished
    ensures BySlug(rows, b.slug) == NotFound(404, BlogNotFound) <== Trim(b.slug) == b.slug
  {
    ListIsFilteredAndSorted(rows, category);
    if Trim(b.slug) == b.slug {
      forall c | c in rows && c.slug == b.slug ensures !c.isPublished {
        var i :| 0 <= i < |rows| && rows[i] == b;
        var j :| 0 <= j < |rows| && rows[j] == c;
        assert i == j;
      }
    }
  }

  /** Once created, a published blog is found by its slug. */
  lemma CreatedBlogFoundBySlug(rows: seq<Blog>, b: Blog)
    requires UniqueSlugs(rows) && b.isPublished && Trim(b.slug) == b.slug
    ensures var r := Insert(rows, b);
            r.Some? ==> BySlug(r.value, b.slug) == Found(b)
  {
    var r := Insert(rows, b);
    if r.Some? {
      var rows' := r.value;
      var found := BySlug(rows', b.slug);
      assert b in rows' && b.slug == Trim(b.slug);
      if found.Found? {
        var j :| 0 <= j < |rows'| && rows'[j] == found.blog;
        assert j == |rows|;
      }
    }
  }

  /** A new document that leaves the optional paths out takes the schema's defaults. */
  lemma DefaultsApplied(id: string, title: string, slug: string, excerpt: string, content: string, cover: string, now: nat)
    ensures var r := NewBlog(id, title, slug, excerpt, content, cover, Optional(None, None, None, None, None), now);
            r.Some? ==> && r.value.author == "Research Team" && r.value.category == "Research"
                        && r.value.readTimeMinutes == 5 && r.value.isPublished && r.value.publishedDate == now
  {
  }
}
