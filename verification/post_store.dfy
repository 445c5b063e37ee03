/**
 The post collection as seen by the admin routes: a map from post id to post,
 ids handed out in increasing order, and every read, update and delete filtered
 on `{ _id, user: actingId }`.
 */
module PostStore {
  import opened Wrappers
  import opened Tokens
  import opened PostModel

  /** Identifier of a post document. */
  type PostId = nat

  /** A post together with its id, as a query returns it. */
  type Entry = (PostId, Post)

  /** The collection: the documents by id, and the id the next insertion receives. */
  datatype Store = Store(posts: map<PostId, Post>, nextId: PostId)

  /** Ids are allocated in increasing order, so every stored id lies below `nextId`. */
  ghost predicate Valid(st: Store) {
    forall id :: id in st.posts ==> id < st.nextId
  }

  /** Every stored post satisfies the schema's required/trim rules. */
  ghost predicate AllPostsValid(st: Store) {
    forall id :: id in st.posts ==> ValidPost(st.posts[id])
  }

  predicate IdsIncreasing(es: seq<Entry>) {
    forall i, j :: 0 <= i < j < |es| ==> es[i].0 < es[j].0
  }

  predicate UniqueIds(es: seq<Entry>) {
    forall i, j :: 0 <= i < j < |es| ==> es[i].0 != es[j].0
  }

  /** The documents with id below `n`, in natural (insertion) order. */
  function EntriesBelow(posts: map<PostId, Post>, n: nat): (r: seq<Entry>)
    ensures forall e :: e in r <==> e.0 < n && e.0 in posts && posts[e.0] == e.1
    ensures IdsIncreasing(r)
  {
    if n == 0 then []
    else
      var prefix := EntriesBelow(posts, n - 1);
      if n - 1 in posts then prefix + [(n - 1, posts[n - 1])] else prefix
  }

  /** The whole collection in natural order. */
  function Entries(st: Store): (r: seq<Entry>)
    requires Valid(st)
    ensures forall e :: e in r <==> e.0 in st.posts && st.posts[e.0] == e.1
    ensures IdsIncreasing(r)
  {
    EntriesBelow(st.posts, st.nextId)
  }

  /** The filter `{ user: owner }`, keeping the order of `es`. */
  function OwnedBy(es: seq<Entry>, owner: UserId): (r: seq<Entry>)
    ensures forall e :: e in r <==> e in es && e.1.user == owner
    ensures IdsIncreasing(es) ==> IdsIncreasing(r)
  {
    if es == [] then []
    else
      var rest := OwnedBy(es[1..], owner);
      if es[0].1.user == owner then
        assert forall e :: e in rest ==> e in es[1..];
        [es[0]] + rest
      else rest
  }

  /** The date fields a query can sort on. */
  datatype SortField = ByDate | ByCreatedAt

  function Key(f: SortField, p: Post): int {
    match f
    case ByDate => p.date
    case ByCreatedAt => p.createdAt
  }

  /** `sort({ f: -1 })`: newest first. */
  predicate SortedDesc(es: seq<Entry>, f: SortField) {
    forall i, j :: 0 <= i < j < |es| ==> Key(f, es[i].1) >= Key(f, es[j].1)
  }

  /** Inserts `e` into a newest-first sequence ahead of every entry it is not older than. */
  function InsertDesc(e: Entry, es: seq<Entry>, f: SortField): (r: seq<Entry>)
    ensures multiset(r) == multiset(es) + multiset{e}
  {
    if es == [] || Key(f, e.1) >= Key(f, es[0].1) then
      [e] + es
    else
      assert es == [es[0]] + es[1..];
      [es[0]] + InsertDesc(e, es[1..], f)
  }

  /** No entry of `es` is newer than `k` on field `f`. */
  predicate NoneNewer(es: seq<Entry>, f: SortField, k: int) {
    forall i :: 0 <= i < |es| ==> Key(f, es[i].1) <= k
  }

  /** Insertion adds nothing newer than the inserted entry and what was there. */
  lemma {:induction false} InsertDescNoneNewer(e: Entry, es: seq<Entry>, f: SortField, k: int)
    requires NoneNewer(es, f, k) && Key(f, e.1) <= k
    ensures NoneNewer(InsertDesc(e, es, f), f, k)
  {
    if es != [] && Key(f, e.1) < Key(f, es[0].1) {
      InsertDescNoneNewer(e, es[1..], f, k);
    }
  }

  /** Insertion keeps a newest-first sequence newest-first. */
  lemma {:induction false} InsertDescSorted(e: Entry, es: seq<Entry>, f: SortField)
    requires SortedDesc(es, f)
    ensures SortedDesc(InsertDesc(e, es, f), f)
  {
    if es != [] && Key(f, e.1) < Key(f, es[0].1) {
      var h := es[0];
      var rest := InsertDesc(e, es[1..], f);
      InsertDescSorted(e, es[1..], f);
      InsertDescNoneNewer(e, es[1..], f, Key(f, h.1));
      assert InsertDesc(e, es, f) == [h] + rest;
    }
  }

  /** Inserting an entry whose id is new keeps the ids distinct. */
  lemma {:induction false} InsertDescUnique(e: Entry, es: seq<Entry>, f: SortField)
    requires UniqueIds(es)
    requires forall x :: x in es ==> x.0 != e.0
    ensures UniqueIds(InsertDesc(e, es, f))
  {
    if es == [] || Key(f, e.1) >= Key(f, es[0].1) {
    } else {
      var h := es[0];
      assert es == [h] + es[1..];
      var rest := InsertDesc(e, es[1..], f);
      InsertDescUnique(e, es[1..], f);
      forall x | x in rest
        ensures x.0 != h.0
      {
        assert x in multiset(rest);
        if x != e {
          assert x in es[1..];
          var k :| 0 <= k < |es[1..]| && es[1..][k] == x;
          assert es[k + 1] == x;
        }
      }
    }
  }

  /** Orders `es` newest first on field `f` (insertion sort, stable on ties): a permutation of `es`. */
  function SortDesc(es: seq<Entry>, f: SortField): (r: seq<Entry>)
    ensures SortedDesc(r, f)
    ensures multiset(r) == multiset(es)
  {
    if es == [] then []
    else
      assert es == [es[0]] + es[1..];
      var rest := SortDesc(es[1..], f);
      InsertDescSorted(es[0], rest, f);
      InsertDesc(es[0], rest, f)
  }

  /** Sorting never duplicates an id. */
  lemma {:induction false} SortDescUnique(es: seq<Entry>, f: SortField)
    requires UniqueIds(es)
    ensures UniqueIds(SortDesc(es, f))
  {
    if es != [] {
      assert es == [es[0]] + es[1..];
      var rest := SortDesc(es[1..], f);
      SortDescUnique(es[1..], f);
      forall x | x in rest
        ensures x.0 != es[0].0
      {
        assert x in multiset(es[1..]);
        var k :| 0 <= k < |es[1..]| && es[1..][k] == x;
        assert es[k + 1] == x;
      }
      InsertDescUnique(es[0], rest, f);
    }
  }

  /** Two sequences with the same multiset hold the same elements. */
  lemma SameElements<T>(a: seq<T>, b: seq<T>)
    requires multiset(a) == multiset(b)
    ensures forall x :: x in a <==> x in b
  {
    forall x
      ensures x in a <==> x in b
    {
      assert x in a <==> x in multiset(a);
      assert x in b <==> x in multiset(b);
    }
  }

  /** The owner filter `{ _id: id, user: owner }` finds a document. */
  predicate Owns(st: Store, owner: UserId, id: PostId) {
    id in st.posts && st.posts[id].user == owner
  }

  /** The dashboard query `find({ user: owner }).sort({ date: -1 })`. */
  function ListByOwner(st: Store, owner: UserId): (r: seq<Entry>)
    requires Valid(st)
    ensures forall e :: e in r <==> Owns(st, owner, e.0) && st.posts[e.0] == e.1
    ensures SortedDesc(r, ByDate)
    ensures UniqueIds(r)
    ensures multiset(r) == multiset(OwnedBy(Entries(st), owner))
  {
    var owned := OwnedBy(Entries(st), owner);
    var r := SortDesc(owned, ByDate);
    SameElements(r, owned);
    SortDescUnique(owned, ByDate);
    r
  }

  /** `findOne({ _id: id, user: owner })`. */
  function FindOwned(st: Store, owner: UserId, id: PostId): (r: Option<Post>)
    ensures r.Some? <==> Owns(st, owner, id)
    ensures r.Some? ==> r.value == st.posts[id]
  {
    if Owns(st, owner, id) then Some(st.posts[id]) else None
  }

  /** A post owned by someone else and a post that does not exist look the same to the caller. */
  lemma NotFoundIndistinguishable(st: Store, owner: UserId, othersId: PostId, missingId: PostId)
    requires othersId in st.posts && st.posts[othersId].user != owner
    requires missingId !in st.posts
    ensures FindOwned(st, owner, othersId) == FindOwned(st, owner, missingId) == None
  {
  }

  /** The public path of an uploaded file, when the request carried one. */
  function UploadedPath(upload: Option<string>): Option<string> {
    match upload
    case None => None
    case Some(name) => Some("/uploads/" + name)
  }

  /** Inserts a new post built from the create form; the owner is the guard's user, never a form field. */
  function CreatePost(st: Store, owner: UserId, title: Option<string>, description: Option<string>,
                      upload: Option<string>, now: int): (r: Result<Store, set<PostField>>)
    ensures r.Err? <==> ValidationErrors(PostInput(title, description, ImageNull, Some(owner))) != {}
    ensures r.Err? ==> r.error == ValidationErrors(PostInput(title, description, ImageNull, Some(owner)))
    ensures r.Ok? ==>
      && title.Some? && description.Some?
      && r.value.nextId == st.nextId + 1
      && st.nextId in r.value.posts
      && r.value.posts == st.posts[st.nextId := r.value.posts[st.nextId]]
      && (Valid(st) ==> st.nextId !in st.posts && |r.value.posts| == |st.posts| + 1)
      && var p := r.value.posts[st.nextId];
      && p.user == owner
      && ValidPost(p)
      && p.title == Trim(title.value)
      && p.description == description.value
      && p.image == UploadedPath(upload)
      && p.date == now && p.createdAt == now && p.updatedAt == now
  {
    var image := match UploadedPath(upload) case None => ImageNull case Some(path) => ImageGiven(path);
    match NewPost(PostInput(title, description, image, Some(owner)), now)
    case Err(errs) => Err(errs)
    case Ok(p) => Ok(Store(st.posts[st.nextId := p], st.nextId + 1))
  }

  /** The update document of the edit route: title and description from the form, the image only
      when a file was uploaded. */
  datatype Patch = Patch(title: Option<string>, description: Option<string>, image: Option<string>)

  /** A post after `patch` is applied at time `now`: the title goes through the trim setter, a field the
      form left out (`undefined`) is dropped from the update, and the timestamps plugin refreshes `updatedAt`. */
  function Patched(p: Post, patch: Patch, now: int): Post {
    p.(title := if patch.title.Some? then Trim(patch.title.value) else p.title,
       description := patch.description.GetOr(p.description),
       image := if patch.image.Some? then patch.image else p.image,
       updatedAt := now)
  }

  /** `findOneAndUpdate({ _id: id, user: owner }, patch)` as the edit route issues it, with no
      update validators. */
  function UpdateOwnedAsWritten(st: Store, owner: UserId, id: PostId, patch: Patch, now: int): (r: Store)
    ensures r.nextId == st.nextId && r.posts.Keys == st.posts.Keys
    ensures forall k :: k in st.posts && k != id ==> r.posts[k] == st.posts[k]
    ensures !Owns(st, owner, id) ==> r == st
    ensures Owns(st, owner, id) ==>
      var p, q := st.posts[id], r.posts[id];
      && q.user == owner && q.date == p.date && q.createdAt == p.createdAt && q.updatedAt == now
      && q.title == (if patch.title.Some? then Trim(patch.title.value) else p.title)
      && q.description == (if patch.description.Some? then patch.description.value else p.description)
      && q.image == (if patch.image.Some? then patch.image else p.image)
  {
    if Owns(st, owner, id) then st.(posts := st.posts[id := Patched(st.posts[id], patch, now)]) else st
  }

  /** The `required` validators of the paths the patch sets (update validators ignore absent paths). */
  function PatchErrors(patch: Patch): (errs: set<PostField>)
    ensures TitleField in errs <==> patch.title.Some? && AllWhitespace(patch.title.value)
    ensures DescriptionField in errs <==> patch.description == Some("")
    ensures UserField !in errs
  {
    (if patch.title.Some? then TrimBlank(patch.title.value);
       (if Trim(patch.title.value) == "" then {TitleField} else {})
     else {})
    + (if patch.description == Some("") then {DescriptionField} else {})
  }

  /** The edit update with the schema's validators applied: a patch that would blank a required field
      is refused whether or not the filter matches; otherwise it is the owner-filtered update. */
  function UpdateOwned(st: Store, owner: UserId, id: PostId, patch: Patch, now: int): (r: Result<Store, set<PostField>>)
    ensures r.Err? <==> PatchErrors(patch) != {}
    ensures r.Err? ==> r.error == PatchErrors(patch)
    ensures r.Ok? ==> r.value == UpdateOwnedAsWritten(st, owner, id, patch, now)
  {
    var errs := PatchErrors(patch);
    if errs != {} then Err(errs) else Ok(UpdateOwnedAsWritten(st, owner, id, patch, now))
  }

  /** The validated update keeps every stored post valid. */
  lemma UpdateOwnedPreservesValidity(st: Store, owner: UserId, id: PostId, patch: Patch, now: int)
    requires AllPostsValid(st)
    requires UpdateOwned(st, owner, id, patch, now).Ok?
    ensures AllPostsValid(UpdateOwned(st, owner, id, patch, now).value)
  {
  }

  /** The update as written stores a blank title: a whitespace-only title on the edit form of a valid
      post leaves the post with title `""`, which the schema would never have accepted on creation. */
  lemma UpdateAsWrittenStoresBlankTitle(now: int)
    ensures var st := Store(map[0 := Post("Hello", "World", Some(""), 7, 0, 0, 0)], 1);
            var after := UpdateOwnedAsWritten(st, 7, 0, Patch(Some("   "), Some("World"), None), now);
            && AllPostsValid(st)
            && after.posts[0].title == ""
            && !AllPostsValid(after)
  {
    var p := Post("Hello", "World", Some(""), 7, 0, 0, 0);
    var st := Store(map[0 := p], 1);
    var blank := "   ";
    assert AllWhitespace(blank);
    TrimBlank(blank);
    TrimKeepsInner("Hello");
    assert ValidPost(p);
    var after := UpdateOwnedAsWritten(st, 7, 0, Patch(Some(blank), Some("World"), None), now);
    assert after.posts[0].title == "";
  }

  /** The validated update refuses the same patch and leaves the post alone. */
  lemma UpdateOwnedRefusesBlankTitle(st: Store, owner: UserId, id: PostId, title: string, description: Option<string>, image: Option<string>, now: int)
    requires AllWhitespace(title)
    ensures UpdateOwned(st, owner, id, Patch(Some(title), description, image), now).Err?
  {
  }

  /** `findOneAndDelete({ _id: id, user: owner })`. */
  function DeleteOwned(st: Store, owner: UserId, id: PostId): (r: Store)
    ensures r.nextId == st.nextId
    ensures forall k :: k in st.posts && k != id ==> k in r.posts && r.posts[k] == st.posts[k]
    ensures id !in r.posts ==> Owns(st, owner, id) || id !in st.posts
    ensures Owns(st, owner, id) ==> r.posts == st.posts - {id}
    ensures !Owns(st, owner, id) ==> r == st
  {
    if Owns(st, owner, id) then st.(posts := st.posts - {id}) else st
  }

  /** After a delete the target is gone for its owner, and every other owner sees the same posts. */
  lemma DeleteOwnedScope(st: Store, owner: UserId, id: PostId, other: UserId, k: PostId)
    requires other != owner || k != id
    ensures FindOwned(DeleteOwned(st, owner, id), owner, id) == None
    ensures FindOwned(DeleteOwned(st, owner, id), other, k) == FindOwned(st, other, k)
  {
  }

  /** Two users' updates cannot touch each other's posts: a non-owner's update and delete are no-ops. */
  lemma ForeignWritesAreNoOps(st: Store, owner: UserId, intruder: UserId, id: PostId, patch: Patch, now: int)
    requires Owns(st, owner, id)
    requires intruder != owner
    ensures UpdateOwnedAsWritten(st, intruder, id, patch, now) == st
    ensures DeleteOwned(st, intruder, id) == st
    ensures FindOwned(st, owner, id) == Some(st.posts[id])
  {
  }

  /** Creating a post keeps ids below the counter. */
  lemma CreateKeepsIdsBelow(st: Store, owner: UserId, title: Option<string>, description: Option<string>,
                            upload: Option<string>, now: int)
    requires Valid(st)
    ensures var r := CreatePost(st, owner, title, description, upload, now);
      r.Ok? ==> Valid(r.value)
  {
  }

  /** Creating a post keeps every post valid. */
  lemma CreateKeepsPostsValid(st: Store, owner: UserId, title: Option<string>, description: Option<string>,
                              upload: Option<string>, now: int)
    requires AllPostsValid(st)
    ensures var r := CreatePost(st, owner, title, description, upload, now);
      r.Ok? ==> AllPostsValid(r.value)
  {
  }

  /** Deleting a post keeps ids below the counter and every post valid. */
  lemma DeletePreservesInvariants(st: Store, owner: UserId, id: PostId)
    requires Valid(st) && AllPostsValid(st)
    ensures Valid(DeleteOwned(st, owner, id)) && AllPostsValid(DeleteOwned(st, owner, id))
  {
  }
}
