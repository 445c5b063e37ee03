/**
 The public reading surface: paginated listing of all posts, newest first, and
 search with a sanitised term matched case-insensitively against title and
 description.
 */
module PublicListing {
  import opened Wrappers
  import opened PostModel
  import opened PostStore

  /** Posts per listing page. */
  const PerPage: nat := 6

  /** `req.query.page || 1`: an absent or empty page parameter means page 1. */
  function PageOf(param: Option<int>): int {
    param.GetOr(1)
  }

  /** The `$skip` of a page: `perPage * page - perPage`. */
  function SkipOf(page: int): int {
    PerPage * page - PerPage
  }

  /** The largest `$skip` the database accepts: a signed 64-bit integer. */
  const MaxSkip: int := 0x7FFF_FFFF_FFFF_FFFF

  /** `Math.ceil(count / perPage)`: the least number of pages that holds `count` posts. */
  function PageCount(count: nat): (n: nat)
    ensures n * PerPage >= count
    ensures n == 0 || (n - 1) * PerPage < count
  {
    (count + PerPage - 1) / PerPage
  }

  /** The `nextPage` link: `page + 1` when `page + 1 <= ceil(count / perPage)`, else none. */
  function NextPage(page: int, count: nat): (r: Option<int>)
    ensures r.Some? <==> PerPage * page < count
    ensures r.Some? ==> r.value == page + 1
  {
    if page + 1 <= PageCount(count) then Some(page + 1) else None
  }

  /** `.skip(skip).limit(perPage)` over a sorted listing. */
  function Window(es: seq<Entry>, skip: nat): (r: seq<Entry>)
    ensures skip >= |es| ==> r == []
    ensures skip < |es| ==> |r| == if |es| - skip < PerPage then |es| - skip else PerPage
    ensures forall i :: 0 <= i < |r| ==> skip + i < |es| && r[i] == es[skip + i]
  {
    if skip >= |es| then []
    else if |es| - skip < PerPage then es[skip..]
    else es[skip..skip + PerPage]
  }

  /** What the home page renders. */
  datatype HomeView = HomeView(posts: seq<Entry>, current: int, nextPage: Option<int>)

  /** All posts, newest first by `createdAt`; no owner filter. */
  function Listing(st: Store): (r: seq<Entry>)
    requires Valid(st)
    ensures SortedDesc(r, ByCreatedAt)
    ensures forall e :: e in r <==> e.0 in st.posts && st.posts[e.0] == e.1
    ensures multiset(r) == multiset(Entries(st))
  {
    var all := Entries(st);
    var r := SortDesc(all, ByCreatedAt);
    SameElements(r, all);
    r
  }

  /** `GET /`. A page below 1 makes the `$skip` negative, and a page so large that the `$skip` leaves the
      signed 64-bit range is refused as well; either way the aggregation fails and the handler logs the
      error without answering: `None`. */
  function Home(st: Store, pageParam: Option<int>): (r: Option<HomeView>)
    requires Valid(st)
    ensures r.Some? <==> 1 <= PageOf(pageParam) <= 1537228672809129302
    ensures r.Some? ==>
      && r.value.current == PageOf(pageParam)
      && r.value.posts == Window(Listing(st), SkipOf(PageOf(pageParam)))
      && r.value.nextPage == NextPage(PageOf(pageParam), |st.posts|)
  {
    var page := PageOf(pageParam);
    if SkipOf(page) < 0 || SkipOf(page) > MaxSkip then None
    else Some(HomeView(Window(Listing(st), SkipOf(page)), page, NextPage(page, |st.posts|)))
  }

  /** The listing holds one entry per stored post. */
  lemma ListingCount(st: Store)
    requires Valid(st)
    ensures |Listing(st)| == |st.posts|
  {
    EntriesBelowCount(st.posts, st.nextId);
    assert |Listing(st)| == |multiset(Listing(st))| == |multiset(Entries(st))| == |Entries(st)|;
    assert (set id | id in st.posts && id < st.nextId) == st.posts.Keys;
  }

  lemma {:induction false} EntriesBelowCount(posts: map<PostId, Post>, n: nat)
    ensures |EntriesBelow(posts, n)| == |set id | id in posts && id < n|
  {
    if n > 0 {
      EntriesBelowCount(posts, n - 1);
      var below := set id | id in posts && id < n - 1;
      if n - 1 in posts {
        assert (set id | id in posts && id < n) == below + {n - 1};
      } else {
        assert (set id | id in posts && id < n) == below;
      }
    }
  }

  /** A next-page link is offered exactly when the next page would show at least one post. */
  lemma NextPageIffMorePosts(st: Store, page: int)
    requires Valid(st)
    requires page >= 1
    ensures NextPage(page, |st.posts|).Some? <==> Window(Listing(st), SkipOf(page + 1)) != []
  {
    ListingCount(st);
  }

  /** The first `k` pages, one after the other. */
  function FirstPages(all: seq<Entry>, k: nat): seq<Entry> {
    if k == 0 then [] else FirstPages(all, k - 1) + Window(all, SkipOf(k))
  }

  /** Pages 1..k show the first `6k` posts of the listing, in order, with no gap and no repeat. */
  lemma {:induction false} FirstPagesArePrefix(all: seq<Entry>, k: nat)
    ensures FirstPages(all, k) == all[..if PerPage * k < |all| then PerPage * k else |all|]
  {
    if k > 0 {
      FirstPagesArePrefix(all, k - 1);
      var skip := SkipOf(k);
      if skip < |all| {
        var end := if |all| - skip < PerPage then |all| else skip + PerPage;
        assert all[..end] == all[..skip] + all[skip..end];
      }
    }
  }

  /** Walking the pages from 1 up to `ceil(count / 6)` shows every post exactly once, in listing order. */
  lemma PagesCoverListing(st: Store)
    requires Valid(st)
    ensures FirstPages(Listing(st), PageCount(|st.posts|)) == Listing(st)
  {
    ListingCount(st);
    FirstPagesArePrefix(Listing(st), PageCount(|st.posts|));
  }

  /** The characters the search sanitiser keeps: `[a-zA-Z0-9 ]`. */
  predicate SearchChar(c: char) {
    ('a' <= c <= 'z') || ('A' <= c <= 'Z') || ('0' <= c <= '9') || c == ' '
  }

  /** The characters with a meaning in a regular expression. */
  predicate RegexMeta(c: char) {
    c in "\\^$.|?*+()[]{}"
  }

  /** `a` can be obtained from `b` by deleting characters. */
  predicate IsSubsequence(a: string, b: string)
    decreases |b|
  {
    if a == [] then true
    else if b == [] then false
    else if a[0] == b[0] then IsSubsequence(a[1..], b[1..])
    else IsSubsequence(a, b[1..])
  }

  /** `searchTerm.replace(/[^a-zA-Z0-9 ]/g, '')`. */
  function Sanitize(s: string): (r: string)
    ensures forall i :: 0 <= i < |r| ==> SearchChar(r[i]) && !RegexMeta(r[i])
    ensures IsSubsequence(r, s)
  {
    if s == [] then []
    else if SearchChar(s[0]) then [s[0]] + Sanitize(s[1..])
    else Sanitize(s[1..])
  }

  /** Sanitising works character by character: it distributes over concatenation. */
  lemma {:induction false} SanitizeAppend(a: string, b: string)
    ensures Sanitize(a + b) == Sanitize(a) + Sanitize(b)
  {
    if a == [] {
      assert a + b == b;
    } else {
      assert (a + b)[0] == a[0];
      assert (a + b)[1..] == a[1..] + b;
      SanitizeAppend(a[1..], b);
    }
  }

  /** A term made of allowed characters only is left as it is. */
  lemma {:induction false} SanitizeKeepsAllowed(s: string)
    requires forall i :: 0 <= i < |s| ==> SearchChar(s[i])
    ensures Sanitize(s) == s
  {
    if s != [] {
      SanitizeKeepsAllowed(s[1..]);
    }
  }

  /** Sanitising twice is sanitising once. */
  lemma SanitizeIdempotent(s: string)
    ensures Sanitize(Sanitize(s)) == Sanitize(s)
  {
    SanitizeKeepsAllowed(Sanitize(s));
  }

  /** ASCII lower-casing; every other character is left as it is. */
  function LowerAscii(c: char): char {
    if 'A' <= c <= 'Z' then (c as int + 32) as char else c
  }

  function Fold(s: string): (r: string)
    ensures |r| == |s|
    ensures forall i :: 0 <= i < |s| ==> r[i] == LowerAscii(s[i])
  {
    if s == [] then [] else [LowerAscii(s[0])] + Fold(s[1..])
  }

  /** `pat` occurs in `text` starting at position `i`. */
  ghost predicate OccursAt(text: string, pat: string, i: int) {
    0 <= i && i + |pat| <= |text| && text[i..i + |pat|] == pat
  }

  /** Substring search, scanning the start position from left to right. */
  predicate Contains(text: string, pat: string)
    decreases |text|
  {
    (|pat| <= |text| && text[..|pat|] == pat) || (text != [] && Contains(text[1..], pat))
  }

  /** The scan finds `pat` exactly when it occurs somewhere in `text`. */
  lemma {:induction false} ContainsIffOccurs(text: string, pat: string)
    ensures Contains(text, pat) <==> exists i :: OccursAt(text, pat, i)
  {
    if |pat| <= |text| && text[..|pat|] == pat {
      assert OccursAt(text, pat, 0);
    } else if text == [] {
    } else {
      ContainsIffOccurs(text[1..], pat);
      if Contains(text[1..], pat) {
        var i :| OccursAt(text[1..], pat, i);
        assert text[1..][i..i + |pat|] == text[i + 1..i + 1 + |pat|];
        assert OccursAt(text, pat, i + 1);
      }
      if i :| OccursAt(text, pat, i) {
        assert i != 0;
        assert text[1..][i - 1..i - 1 + |pat|] == text[i..i + |pat|];
        assert OccursAt(text[1..], pat, i - 1);
      }
    }
  }

  /** `new RegExp(term, 'i')` applied to the title and to the description. The term holds no regular-expression
      metacharacter, so the pattern is a literal matched ignoring ASCII case. */
  predicate Matches(p: Post, term: string) {
    Contains(Fold(p.title), Fold(term)) || Contains(Fold(p.description), Fold(term))
  }

  /** An empty term (a term of special characters only, for one) matches every post. */
  lemma EmptyTermMatchesAll(p: Post, raw: string)
    requires Sanitize(raw) == ""
    ensures Matches(p, Sanitize(raw))
  {
  }

  /** A post matches iff the folded term occurs in its folded title or its folded description. */
  lemma MatchesIffOccurs(p: Post, term: string)
    ensures Matches(p, term) <==>
      (exists i :: OccursAt(Fold(p.title), Fold(term), i)) || (exists i :: OccursAt(Fold(p.description), Fold(term), i))
  {
    assert Matches(p, term) <==> Contains(Fold(p.title), Fold(term)) || Contains(Fold(p.description), Fold(term));
    ContainsIffOccurs(Fold(p.title), Fold(term));
    ContainsIffOccurs(Fold(p.description), Fold(term));
  }

  /** The posts of `es` that match, in the order of `es`. */
  function MatchingPosts(es: seq<Entry>, term: string): (r: seq<Entry>)
    ensures forall e :: e in r <==> e in es && Matches(e.1, term)
    ensures IdsIncreasing(es) ==> IdsIncreasing(r)
  {
    if es == [] then []
    else
      var rest := MatchingPosts(es[1..], term);
      if Matches(es[0].1, term) then
        assert forall e :: e in rest ==> e in es[1..];
        [es[0]] + rest
      else rest
  }

  /** `POST /search`. A missing `searchTerm` makes `replace` throw; the handler logs it without answering. */
  function Search(st: Store, searchTerm: Option<string>): (r: Option<seq<Entry>>)
    requires Valid(st)
    ensures r.Some? <==> searchTerm.Some?
    ensures r.Some? ==> forall e :: e in r.value <==>
      e.0 in st.posts && st.posts[e.0] == e.1 && Matches(e.1, Sanitize(searchTerm.value))
    ensures r.Some? ==> IdsIncreasing(r.value)
  {
    match searchTerm
    case None => None
    case Some(t) => Some(MatchingPosts(Entries(st), Sanitize(t)))
  }
}
