/**
 The post schema: field shapes, the `trim` setter on the title, the `required`
 checks, the image default and the date/timestamp defaults applied when a post
 document is constructed.
 */
module PostModel {
  import opened Wrappers
  import opened Tokens

  /** The characters `String.prototype.trim` removes: ECMAScript WhiteSpace and LineTerminator. */
  predicate IsWhitespace(c: char) {
    var n := c as int;
    || n == 0x09 || n == 0x0A || n == 0x0B || n == 0x0C || n == 0x0D || n == 0x20
    || n == 0xA0 || n == 0x1680 || (0x2000 <= n <= 0x200A)
    || n == 0x2028 || n == 0x2029 || n == 0x202F || n == 0x205F || n == 0x3000 || n == 0xFEFF
  }

  predicate AllWhitespace(s: string) {
    forall i :: 0 <= i < |s| ==> IsWhitespace(s[i])
  }

  /** The first index at or after `i` that does not hold whitespace, or `|s|`. */
  function SkipWhitespace(s: string, i: nat): (k: nat)
    requires i <= |s|
    ensures i <= k <= |s|
    ensures forall j :: i <= j < k ==> IsWhitespace(s[j])
    ensures k == |s| || !IsWhitespace(s[k])
    decreases |s| - i
  {
    if i == |s| || !IsWhitespace(s[i]) then i else SkipWhitespace(s, i + 1)
  }

  /** Moving down from `hi` to no lower than `lo`, the index just past the last non-whitespace character. */
  function BackWhitespace(s: string, lo: nat, hi: nat): (k: nat)
    requires lo <= hi <= |s|
    ensures lo <= k <= hi
    ensures forall j :: k <= j < hi ==> IsWhitespace(s[j])
    ensures k == lo || !IsWhitespace(s[k - 1])
    decreases hi
  {
    if hi == lo || !IsWhitespace(s[hi - 1]) then hi else BackWhitespace(s, lo, hi - 1)
  }

  /** `String.prototype.trim`: `s` without its leading and trailing whitespace. */
  function Trim(s: string): (r: string)
    ensures r == [] || (!IsWhitespace(r[0]) && !IsWhitespace(r[|r| - 1]))
    ensures |r| <= |s|
  {
    var a := SkipWhitespace(s, 0);
    var b := BackWhitespace(s, a, |s|);
    s[a..b]
  }

  /** The trim is the middle of `s`: what it drops on either side is whitespace. */
  lemma TrimIsMiddle(s: string)
    ensures exists a, b :: && 0 <= a <= b <= |s|
                           && Trim(s) == s[a..b]
                           && (forall i :: 0 <= i < a ==> IsWhitespace(s[i]))
                           && (forall i :: b <= i < |s| ==> IsWhitespace(s[i]))
  {
    var a := SkipWhitespace(s, 0);
    var b := BackWhitespace(s, a, |s|);
    assert Trim(s) == s[a..b];
  }

  /** A string trims to nothing exactly when it is all whitespace. */
  lemma TrimBlank(s: string)
    ensures Trim(s) == [] <==> AllWhitespace(s)
  {
  }

  /** A string with no whitespace at either end is its own trim. */
  lemma TrimKeepsInner(s: string)
    requires s != [] && !IsWhitespace(s[0]) && !IsWhitespace(s[|s| - 1])
    ensures Trim(s) == s
  {
  }

  /** Trimming a trimmed string changes nothing. */
  lemma TrimIdempotent(s: string)
    ensures Trim(Trim(s)) == Trim(s)
  {
  }

  /** A stored post document. `image` is `None` when the document holds `null`. */
  datatype Post = Post(
    title: string,
    description: string,
    image: Option<string>,
    user: UserId,
    date: int,
    createdAt: int,
    updatedAt: int)

  /** The `image` value handed to the constructor: left out, explicitly `null`, or a path. */
  datatype ImageField = ImageOmitted | ImageNull | ImageGiven(path: string)

  /** The fields handed to `new Post({...})`; `None` is an `undefined` field. */
  datatype PostInput = PostInput(
    title: Option<string>,
    description: Option<string>,
    image: ImageField,
    user: Option<UserId>)

  /** The schema paths that carry a `required` validator. */
  datatype PostField = TitleField | DescriptionField | UserField

  /** Mongoose's `required` check for a String path: a string of non-zero length. */
  predicate RequiredString(v: Option<string>) {
    v.Some? && v.value != ""
  }

  /** The title as the `trim: true` setter stores it. */
  function CastTitle(v: Option<string>): Option<string> {
    match v
    case None => None
    case Some(t) => Some(Trim(t))
  }

  /** What every post built by the schema satisfies: a non-empty title with no surrounding whitespace
      (that is, a non-empty trimmed title) and a non-empty description. */
  predicate ValidPost(p: Post) {
    && p.title != "" && !IsWhitespace(p.title[0]) && !IsWhitespace(p.title[|p.title| - 1])
    && p.description != ""
  }

  /** The set of paths whose `required` validator fails; validation reports all of them at once. */
  function ValidationErrors(input: PostInput): (errs: set<PostField>)
    ensures TitleField in errs <==> input.title.None? || AllWhitespace(input.title.value)
    ensures DescriptionField in errs <==> input.description.None? || input.description.value == ""
    ensures UserField in errs <==> input.user.None?
  {
    TitleRequired(input.title);
    (if RequiredString(CastTitle(input.title)) then {} else {TitleField})
    + (if RequiredString(input.description) then {} else {DescriptionField})
    + (if input.user.Some? then {} else {UserField})
  }

  /** The trimmed title passes `required` exactly when the given title is present and not all whitespace. */
  lemma TitleRequired(title: Option<string>)
    ensures RequiredString(CastTitle(title)) <==> title.Some? && !AllWhitespace(title.value)
  {
    if title.Some? {
      TrimBlank(title.value);
    }
  }

  /** The stored image: the `''` default applies only to a field left out, so an explicit `null` stays. */
  function StoredImage(f: ImageField): Option<string> {
    match f
    case ImageOmitted => Some("")
    case ImageNull => None
    case ImageGiven(p) => Some(p)
  }

  /** Builds and validates a post document at time `now`; `date`, `createdAt` and `updatedAt` default to `now`. */
  function NewPost(input: PostInput, now: int): (r: Result<Post, set<PostField>>)
    ensures r.Err? <==> ValidationErrors(input) != {}
    ensures r.Err? ==> r.error == ValidationErrors(input)
    ensures r.Ok? ==>
      && input.title.Some? && input.description.Some? && input.user.Some?
      && ValidPost(r.value)
      && r.value.title == Trim(input.title.value)
      && r.value.description == input.description.value
      && r.value.user == input.user.value
      && (input.image.ImageOmitted? ==> r.value.image == Some(""))
      && (input.image.ImageNull? ==> r.value.image == None)
      && (input.image.ImageGiven? ==> r.value.image == Some(input.image.path))
      && r.value.date == now && r.value.createdAt == now && r.value.updatedAt == now
  {
    var errs := ValidationErrors(input);
    if errs != {} then Err(errs)
    else
      TrimBlank(input.title.value);
      Ok(Post(Trim(input.title.value), input.description.value, StoredImage(input.image),
              input.user.value, now, now, now))
  }

  /** A title that is empty or only whitespace is refused, even though the description and owner are fine. */
  lemma BlankTitleRejected(title: string, description: string, image: ImageField, user: UserId, now: int)
    requires AllWhitespace(title)
    ensures NewPost(PostInput(Some(title), Some(description), image, Some(user)), now).Err?
  {
  }

  /** The description is not trimmed: any non-empty description, whitespace included, is kept verbatim. */
  lemma DescriptionKeptVerbatim(title: string, description: string, user: UserId, now: int)
    requires !AllWhitespace(title)
    requires description != ""
    ensures NewPost(PostInput(Some(title), Some(description), ImageOmitted, Some(user)), now)
         == Ok(Post(Trim(title), description, Some(""), user, now, now, now))
  {
  }
}
