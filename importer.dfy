/** The import run, `fgp_monitor_facebook_group`: its guards, the call to
    the feed client, and per feed item the duplicate check, the draft
    article, its category, thumbnail, image and video markup and comments.
    The site's posts and comments are a `Site` object updated in place;
    the HTTP checks, the media download and `esc_attr` are functions the
    run is given. */
module Importer {
  import opened Wrappers
  import opened Strings
  import opened Urls
  import opened Keywords
  import opened Classifier
  import opened FeedClient

  // ---------------------------------------------------------------------
  // The site's data

  datatype Status = Draft | Publish | OtherStatus(name: string)

  /** A post of type `post`. `sourceId` is its `facebook_post_id` meta,
      `categories` the category terms set on it, `thumbnail` the
      attachment ID of its featured image. */
  datatype Article = Article(
    title: string,
    content: string,
    status: Status,
    sourceId: Option<string>,
    categories: seq<string>,
    thumbnail: Option<nat>)

  datatype StoredComment = StoredComment(
    articleId: nat,
    author: string,
    authorEmail: string,
    content: string,
    date: string,
    approved: bool)

  /** The whole state a run can change. The article at position k has
      ID k + 1. */
  datatype Store = Store(articles: seq<Article>, comments: seq<StoredComment>)

  /** Everything outside the plugin a run consults: the answer to a HEAD
      request, the attachment ID `media_sideload_image` gives for a URL
      (None for an error), `esc_attr`, and the stored keyword table. */
  datatype World = World(
    head: string -> HeadResponse,
    sideload: string -> Option<nat>,
    escAttr: string -> string,
    keywords: KeywordTable)

  /** The options the run reads. An unset text option is "";
      `postLimit` is None when `fgp_post_limit` is unset. */
  datatype Config = Config(
    enableImport: string,
    apiToken: string,
    groupId: string,
    postLimit: Option<int>,
    importComments: string)

  datatype RunStatus = Disabled | MissingConfig | FetchFailed(error: FeedError) | NoPosts | Processed

  const NoReplyEmail := "no-reply@example.com"
  const UnknownAuthor := "Unknown"
  const DefaultTitle := "New Post"
  const ImageLimit := 10

  // ---------------------------------------------------------------------
  // Duplicate detection

  /** The article is an imported copy of feed item `id` that the duplicate
      query sees: published or draft, with that `facebook_post_id`. */
  predicate IsCopyOf(a: Article, id: string) {
    (a.status == Draft || a.status == Publish) && a.sourceId == Some(id)
  }

  predicate HasCopy(articles: seq<Article>, id: string) {
    exists k :: 0 <= k < |articles| && IsCopyOf(articles[k], id)
  }

  /** No two articles the duplicate query sees share a source ID. */
  ghost predicate UniqueCopies(articles: seq<Article>) {
    forall i, j, id :: 0 <= i < j < |articles| && IsCopyOf(articles[i], id) ==> !IsCopyOf(articles[j], id)
  }

  // ---------------------------------------------------------------------
  // The new article

  /** `absint`, on an option already read as an integer. */
  function AbsInt(i: int): (n: nat)
    ensures n == i || n == -i
  {
    if i < 0 then -i else i
  }

  /** The post limit the run uses: `fgp_post_limit`, 10 when unset. */
  function PostLimit(config: Config): nat {
    AbsInt(config.postLimit.GetOr(10))
  }

  /** The title: the message, or "New Post" when it is falsy, cut to its
      first 80 characters. */
  function Title(message: string): (title: string)
    ensures |title| <= 80
    ensures Truthy(message) && |message| <= 80 ==> title == message
    ensures Truthy(message) && |message| > 80 ==> title == message[..80]
    ensures !Truthy(message) ==> title == DefaultTitle
  {
    var full := if Truthy(message) then message else DefaultTitle;
    if |full| <= 80 then full else full[..80]
  }

  /** The content the draft is inserted with. */
  function InitialContent(message: string): string {
    if Truthy(message) then message else ""
  }

  const ImgOpen := "<img class=\"wp-image-"
  const ImgSrc := "\" src=\""
  const ImgAlt := "\" alt=\""
  const ImgClose := "\">"

  /** The markup for an attached image. */
  function ImgTag(attachmentId: nat, src: string, alt: string): string {
    ImgOpen + NatToString(attachmentId) + ImgSrc + src + ImgAlt + alt + ImgClose
  }

  const VideoOpen := "<video controls><source src=\""
  const VideoClose := "\" type=\"video/mp4\"></video>"

  /** The markup for the video. */
  function VideoTag(url: string): string {
    VideoOpen + url + VideoClose
  }

  /** The featured image: the cleaned `image_url`, when it passes the
      image check and downloads. */
  function Thumbnail(imageUrl: string, w: World): (t: Option<nat>)
    ensures t.Some? <==> Truthy(imageUrl) && IsValidImage(w.head(Clean(imageUrl))) && w.sideload(Clean(imageUrl)).Some?
    ensures t.Some? ==> t == w.sideload(Clean(imageUrl))
  {
    if !Truthy(imageUrl) then None
    else
      var url := Clean(imageUrl);
      if IsValidImage(w.head(url)) then w.sideload(url) else None
  }

  /** The markup one entry of `images` contributes, if any. */
  function ImageTag(imageUrl: string, alt: string, w: World): (tag: Option<string>)
    ensures tag.Some? <==> IsValidImage(w.head(Clean(imageUrl))) && w.sideload(Clean(imageUrl)).Some?
    ensures tag.Some? ==> tag.value == ImgTag(w.sideload(Clean(imageUrl)).value, Clean(imageUrl), alt)
  {
    var url := Clean(imageUrl);
    if !IsValidImage(w.head(url)) then None
    else
      match w.sideload(url)
      case None => None
      case Some(id) => Some(ImgTag(id, url, alt))
  }

  /** The markup of the given entries, in the order they are read. */
  function Tags(images: seq<string>, alt: string, w: World): seq<string> {
    if images == [] then []
    else
      var tag := ImageTag(images[|images| - 1], alt, w);
      Tags(images[..|images| - 1], alt, w) + (if tag.Some? then [tag.value] else [])
  }

  /** The entries the run reads: the first ten. */
  function UsedImages(images: seq<string>): (used: seq<string>)
    ensures |images| <= ImageLimit ==> used == images
    ensures |images| > ImageLimit ==> used == images[..ImageLimit]
  {
    if |images| <= ImageLimit then images else images[..ImageLimit]
  }

  /** Each tag in turn put on top of `content`, blank-line separated. */
  function PrependAll(tags: seq<string>, content: string): string {
    if tags == [] then content
    else tags[|tags| - 1] + "\n\n" + PrependAll(tags[..|tags| - 1], content)
  }

  /** `content` with the markup of one entry of `images` on top, if it
      has any. */
  function WithImage(content: string, imageUrl: string, alt: string, w: World): string {
    var tag := ImageTag(imageUrl, alt, w);
    if tag.Some? then tag.value + "\n\n" + content else content
  }

  /** The tags stacked with the first one lowest, each followed by a
      blank line. */
  function Stack(tags: seq<string>): string {
    if tags == [] then "" else tags[|tags| - 1] + "\n\n" + Stack(tags[..|tags| - 1])
  }

  /** The article's final content. */
  function Content(p: Post, w: World): string {
    var withImages := PrependAll(Tags(UsedImages(p.images), w.escAttr(p.message), w), InitialContent(p.message));
    if Truthy(p.videoUrl) then VideoTag(p.videoUrl) + "\n\n" + withImages else withImages
  }

  /** The article imported for feed item `p`. */
  function NewArticle(p: Post, w: World): Article {
    Article(Title(p.message), Content(p, w), Draft, Some(p.id),
            DetermineSubcategory(p.message, w.keywords), Thumbnail(p.imageUrl, w))
  }

  function CommentOf(articleId: nat, c: RawComment): StoredComment {
    StoredComment(articleId, c.authorName.GetOr(UnknownAuthor), NoReplyEmail, c.message.GetOr(""), c.createdTime, true)
  }

  /** The comments stored for a new article with ID `articleId`. */
  function CommentsFor(articleId: nat, p: Post, importComments: bool): (cs: seq<StoredComment>)
    ensures |cs| == (if importComments then |p.comments| else 0)
    ensures forall i :: 0 <= i < |cs| ==> cs[i].articleId == articleId && cs[i].approved && cs[i].authorEmail == NoReplyEmail
  {
    if importComments && p.comments != [] then
      seq(|p.comments|, i requires 0 <= i < |p.comments| => CommentOf(articleId, p.comments[i]))
    else []
  }

  /** One pass of the loop over the feed. */
  function ImportStep(s: Store, p: Post, w: World, importComments: bool): Store {
    if HasCopy(s.articles, p.id) then s
    else Store(s.articles + [NewArticle(p, w)], s.comments + CommentsFor(|s.articles| + 1, p, importComments))
  }

  /** The whole loop over the feed. */
  function ImportPosts(s: Store, posts: seq<Post>, w: World, importComments: bool): Store {
    if posts == [] then s
    else ImportStep(ImportPosts(s, posts[..|posts| - 1], w, importComments), posts[|posts| - 1], w, importComments)
  }

  // ---------------------------------------------------------------------
  // The site, updated in place

  class Site {
    var articles: seq<Article>
    var comments: seq<StoredComment>

    function State(): Store
      reads this
    {
      Store(articles, comments)
    }

    /** `get_posts` with the meta query on `facebook_post_id`, statuses
        publish and draft: is there such an article? */
    method FindCopy(id: string) returns (found: bool)
      ensures found <==> HasCopy(articles, id)
    {
      var k := 0;
      while k < |articles|
        invariant k <= |articles|
        invariant forall j :: 0 <= j < k ==> !IsCopyOf(articles[j], id)
      {
        if IsCopyOf(articles[k], id) {
          return true;
        }
        k := k + 1;
      }
      return false;
    }

    /** `wp_insert_post` of a draft; the new article's ID. */
    method InsertDraft(title: string, content: string) returns (id: nat)
      modifies this
      ensures articles == old(articles) + [Article(title, content, Draft, None, [], None)]
      ensures comments == old(comments)
      ensures id == |articles|
    {
      articles := articles + [Article(title, content, Draft, None, [], None)];
      id := |articles|;
    }

    /** `update_post_meta($id, 'facebook_post_id', ...)`. */
    method SetSourceId(id: nat, sourceId: string)
      requires 1 <= id <= |articles|
      modifies this
      ensures articles == old(articles)[id - 1 := old(articles)[id - 1].(sourceId := Some(sourceId))]
      ensures comments == old(comments)
    {
      articles := articles[id - 1 := articles[id - 1].(sourceId := Some(sourceId))];
    }

    /** `wp_set_object_terms($id, $terms, 'category')`. */
    method SetCategories(id: nat, terms: seq<string>)
      requires 1 <= id <= |articles|
      modifies this
      ensures articles == old(articles)[id - 1 := old(articles)[id - 1].(categories := terms)]
      ensures comments == old(comments)
    {
      articles := articles[id - 1 := articles[id - 1].(categories := terms)];
    }

    /** `set_post_thumbnail`. */
    method SetThumbnail(id: nat, attachmentId: nat)
      requires 1 <= id <= |articles|
      modifies this
      ensures articles == old(articles)[id - 1 := old(articles)[id - 1].(thumbnail := Some(attachmentId))]
      ensures comments == old(comments)
    {
      articles := articles[id - 1 := articles[id - 1].(thumbnail := Some(attachmentId))];
    }

    /** `get_post_field('post_content', $id)`. */
    function ContentOf(id: nat): string
      requires 1 <= id <= |articles|
      reads this
    {
      articles[id - 1].content
    }

    /** `wp_update_post` of the content. */
    method UpdateContent(id: nat, content: string)
      requires 1 <= id <= |articles|
      modifies this
      ensures articles == old(articles)[id - 1 := old(articles)[id - 1].(content := content)]
      ensures comments == old(comments)
    {
      articles := articles[id - 1 := articles[id - 1].(content := content)];
    }

    /** `wp_insert_comment`. */
    method InsertComment(c: StoredComment)
      modifies this
      ensures articles == old(articles)
      ensures comments == old(comments) + [c]
    {
      comments := comments + [c];
    }

    /** The draft for feed item `p`, with its source ID, its category and
        its featured image. */
    method CreateDraft(p: Post, w: World) returns (id: nat)
      modifies this
      ensures articles == old(articles) + [Article(Title(p.message), InitialContent(p.message), Draft, Some(p.id),
                                                   DetermineSubcategory(p.message, w.keywords), Thumbnail(p.imageUrl, w))]
      ensures comments == old(comments)
      ensures id == |articles|
    {
      var title := Title(p.message);
      id := InsertDraft(title, InitialContent(p.message));
      SetSourceId(id, p.id);

      var categories := DetermineSubcategory(p.message, w.keywords);
      if categories != [] {
        SetCategories(id, categories);
      }

      if Truthy(p.imageUrl) {
        var mainImageUrl := Clean(p.imageUrl);
        if IsValidImage(w.head(mainImageUrl)) {
          var attachment := w.sideload(mainImageUrl);
          if attachment.Some? {
            SetThumbnail(id, attachment.value);
          }
        }
      }
    }

    /** One entry of `images`: clean the URL, check it, download it and
        put its markup on top of the content. */
    method AddImage(id: nat, imageUrl: string, alt: string, w: World)
      requires 1 <= id <= |articles|
      modifies this
      ensures articles == old(articles)[id - 1 := old(articles)[id - 1].(
                content := WithImage(old(articles)[id - 1].content, imageUrl, alt, w))]
      ensures comments == old(comments)
    {
      var cleanUrl := Clean(imageUrl);
      if IsValidImage(w.head(cleanUrl)) {
        var attachment := w.sideload(cleanUrl);
        if attachment.Some? {
          var html := ImgTag(attachment.value, cleanUrl, alt);
          var current := ContentOf(id);
          UpdateContent(id, html + "\n\n" + current);
          return;
        }
      }
      assert articles == old(articles)[id - 1 := old(articles)[id - 1]];
    }

    /** The loop over `images`: at most the first ten are read, and the
        markup of each one that downloads goes on top of the content. */
    method AddImages(id: nat, images: seq<string>, alt: string, w: World)
      requires 1 <= id <= |articles|
      modifies this
      ensures articles == old(articles)[id - 1 := old(articles)[id - 1].(
                content := PrependAll(Tags(UsedImages(images), alt, w), old(articles)[id - 1].content))]
      ensures comments == old(comments)
    {
      ghost var start := articles[id - 1];
      ghost var content := start.content;
      ghost var used := 0;
      if images != [] {
        for i := 0 to |images|
          invariant i <= ImageLimit && used == i
          invariant content == PrependAll(Tags(images[..i], alt, w), start.content)
          invariant articles == old(articles)[id - 1 := start.(content := content)]
          invariant comments == old(comments)
        {
          if i >= ImageLimit {
            break;
          }
          PrependTagsStep(images, i, alt, w, start.content);
          ghost var before := articles;
          assert before[id - 1] == start.(content := content);
          AddImage(id, images[i], alt, w);
          content := WithImage(content, images[i], alt, w);
          assert articles == before[id - 1 := start.(content := content)];
          used := i + 1;
        }
      }
      assert images[..used] == UsedImages(images);
    }

    /** The video markup goes on top of everything else. */
    method AddVideo(id: nat, videoUrl: string)
      requires 1 <= id <= |articles|
      modifies this
      ensures articles == old(articles)[id - 1 := old(articles)[id - 1].(
                content := if Truthy(videoUrl) then VideoTag(videoUrl) + "\n\n" + old(articles)[id - 1].content
                           else old(articles)[id - 1].content)]
      ensures comments == old(comments)
    {
      if Truthy(videoUrl) {
        var videoHtml := VideoTag(videoUrl);
        var current := ContentOf(id);
        UpdateContent(id, videoHtml + "\n\n" + current);
      }
    }

    /** The comment import, when `fgp_import_comments` is set. */
    method AddComments(id: nat, p: Post, importComments: bool)
      modifies this
      ensures articles == old(articles)
      ensures comments == old(comments) + CommentsFor(id, p, importComments)
    {
      if importComments {
        if p.comments != [] {
          for j := 0 to |p.comments|
            invariant articles == old(articles)
            invariant comments == old(comments) + CommentsFor(id, p, true)[..j]
          {
            assert CommentsFor(id, p, true)[..j + 1] == CommentsFor(id, p, true)[..j] + [CommentOf(id, p.comments[j])];
            InsertComment(CommentOf(id, p.comments[j]));
          }
          assert CommentsFor(id, p, true)[..|p.comments|] == CommentsFor(id, p, true);
        }
      }
    }

    /** A new item's article: the draft, then its images, then its video. */
    method CreateArticle(p: Post, w: World) returns (id: nat)
      modifies this
      ensures articles == old(articles) + [NewArticle(p, w)]
      ensures comments == old(comments)
      ensures id == |articles|
    {
      id := CreateDraft(p, w);
      ghost var draft := articles[id - 1];
      AddImages(id, p.images, w.escAttr(p.message), w);
      ghost var withImages := PrependAll(Tags(UsedImages(p.images), w.escAttr(p.message), w), InitialContent(p.message));
      assert articles == old(articles) + [draft.(content := withImages)];
      AddVideo(id, p.videoUrl);
      assert articles[id - 1].content == Content(p, w);
    }

    /** One pass of the loop over the feed: skip an item already imported,
        otherwise create its article and store its comments. */
    method ProcessPost(p: Post, w: World, importComments: bool)
      modifies this
      ensures State() == ImportStep(old(State()), p, w, importComments)
    {
      var existing := FindCopy(p.id);
      if existing {
        return;
      }
      var id := CreateArticle(p, w);
      AddComments(id, p, importComments);
    }

    /** The loop over the fetched feed items. */
    method ImportAll(posts: seq<Post>, w: World, importComments: bool)
      modifies this
      ensures State() == ImportPosts(old(State()), posts, w, importComments)
    {
      for i := 0 to |posts|
        invariant State() == ImportPosts(old(State()), posts[..i], w, importComments)
      {
        ImportPostsSnoc(old(State()), posts, i, w, importComments);
        ProcessPost(posts[i], w, importComments);
      }
      assert posts[..|posts|] == posts;
    }

    /** `fgp_monitor_facebook_group`. `response` is what the Graph API
        answers; `requested` is the feed URL the run fetched, if any. */
    method Monitor(config: Config, response: FeedResponse, w: World)
      returns (status: RunStatus, requested: Option<string>)
      modifies this
      ensures !Truthy(config.enableImport)
              ==> status == Disabled && requested.None? && unchanged(this)
      ensures Truthy(config.enableImport) && !(Truthy(config.apiToken) && Truthy(config.groupId) && PostLimit(config) != 0)
              ==> status == MissingConfig && requested.None? && unchanged(this)
      ensures Truthy(config.enableImport) && Truthy(config.apiToken) && Truthy(config.groupId) && PostLimit(config) != 0
              ==> var fetched := Fetch(config.apiToken, response);
                  && requested == Some(FeedUrl(config.groupId, config.apiToken, PostLimit(config)))
                  && (fetched.Failure? ==> status == FetchFailed(fetched.error) && unchanged(this))
                  && (fetched.Success? && fetched.value == [] ==> status == NoPosts && unchanged(this))
                  && (fetched.Success? && fetched.value != [] ==>
                        status == Processed
                        && State() == ImportPosts(old(State()), fetched.value, w, Truthy(config.importComments)))
      ensures comments == old(comments)
    {
      if !Truthy(config.enableImport) {
        return Disabled, None;
      }
      var apiToken := config.apiToken;
      var groupId := config.groupId;
      var postLimit := AbsInt(config.postLimit.GetOr(10));
      if !Truthy(apiToken) || !Truthy(groupId) || postLimit == 0 {
        return MissingConfig, None;
      }
      var api := new FacebookApi(apiToken, groupId);
      var fetched;
      fetched, requested := api.GetGroupPosts(postLimit, response);
      if fetched.Failure? {
        return FetchFailed(fetched.error), requested;
      }
      var posts := fetched.value;
      if posts == [] {
        return NoPosts, requested;
      }
      ImportAll(posts, w, Truthy(config.importComments));
      FetchedCommentsEmpty(apiToken, response);
      ImportPostsNoComments(old(State()), posts, w, Truthy(config.importComments));
      status := Processed;
    }
  }

  // ---------------------------------------------------------------------
  // Properties of the import

  /** Reading entry `i` puts its markup, if any, on top. */
  lemma PrependTagsStep(images: seq<string>, i: nat, alt: string, w: World, content: string)
    requires i < |images|
    ensures PrependAll(Tags(images[..i + 1], alt, w), content)
            == WithImage(PrependAll(Tags(images[..i], alt, w), content), images[i], alt, w)
  {
    var prefix := images[..i + 1];
    assert prefix[..|prefix| - 1] == images[..i];
    assert prefix[|prefix| - 1] == images[i];
    var tags := Tags(images[..i], alt, w);
    var tag := ImageTag(images[i], alt, w);
    assert Tags(prefix, alt, w) == tags + (if tag.Some? then [tag.value] else []);
    if tag.Some? {
      var all := tags + [tag.value];
      assert all[..|all| - 1] == tags;
    } else {
      assert tags + [] == tags;
    }
  }

  /** The loop reads the feed items one by one. */
  lemma ImportPostsSnoc(s: Store, posts: seq<Post>, i: nat, w: World, importComments: bool)
    requires i < |posts|
    ensures ImportPosts(s, posts[..i + 1], w, importComments)
            == ImportStep(ImportPosts(s, posts[..i], w, importComments), posts[i], w, importComments)
  {
    assert posts[..i + 1][..i] == posts[..i];
  }

  /** Articles only ever get added, and at most one per feed item; stored
      comments only ever get added. */
  lemma {:induction false} ImportPostsExtends(s: Store, posts: seq<Post>, w: World, importComments: bool)
    ensures var r := ImportPosts(s, posts, w, importComments);
            && s.articles <= r.articles && |r.articles| <= |s.articles| + |posts|
            && s.comments <= r.comments
  {
    if posts != [] {
      ImportPostsExtends(s, posts[..|posts| - 1], w, importComments);
    }
  }

  lemma HasCopyExtends(a: seq<Article>, b: seq<Article>, id: string)
    requires a <= b && HasCopy(a, id)
    ensures HasCopy(b, id)
  {
    var k :| 0 <= k < |a| && IsCopyOf(a[k], id);
    assert b[k] == a[k];
  }

  /** After the loop every feed item has an article the duplicate query
      sees: the one found, or the one just created. */
  lemma {:induction false} ImportPostsCovers(s: Store, posts: seq<Post>, w: World, importComments: bool)
    ensures forall i :: 0 <= i < |posts| ==> HasCopy(ImportPosts(s, posts, w, importComments).articles, posts[i].id)
  {
    if posts != [] {
      var init := posts[..|posts| - 1];
      var p := posts[|posts| - 1];
      var mid := ImportPosts(s, init, w, importComments);
      var r := ImportStep(mid, p, w, importComments);
      ImportPostsCovers(s, init, w, importComments);
      ImportStepCovers(mid, p, w, importComments);
      assert posts == init + [p];
      CoversGrow(mid.articles, r.articles, init, p);
    }
  }

  /** Coverage of a feed survives growing the articles, and one more
      covered item extends it. */
  lemma CoversGrow(a: seq<Article>, b: seq<Article>, init: seq<Post>, p: Post)
    requires a <= b && HasCopy(b, p.id)
    requires forall i :: 0 <= i < |init| ==> HasCopy(a, init[i].id)
    ensures forall i :: 0 <= i < |init + [p]| ==> HasCopy(b, (init + [p])[i].id)
  {
    forall i | 0 <= i < |init + [p]|
      ensures HasCopy(b, (init + [p])[i].id)
    {
      if i < |init| {
        assert (init + [p])[i] == init[i];
        HasCopyExtends(a, b, init[i].id);
      }
    }
  }

  /** One step keeps the articles it finds and leaves the feed item with
      a visible copy. */
  lemma ImportStepCovers(s: Store, p: Post, w: World, importComments: bool)
    ensures s.articles <= ImportStep(s, p, w, importComments).articles
    ensures HasCopy(ImportStep(s, p, w, importComments).articles, p.id)
  {
    if !HasCopy(s.articles, p.id) {
      var a := NewArticle(p, w);
      assert IsCopyOf(a, p.id);
      assert (s.articles + [a])[|s.articles|] == a;
    }
  }

  /** A run never creates a second visible copy of a feed item. */
  lemma {:induction false} ImportPostsUnique(s: Store, posts: seq<Post>, w: World, importComments: bool)
    requires UniqueCopies(s.articles)
    ensures UniqueCopies(ImportPosts(s, posts, w, importComments).articles)
  {
    if posts != [] {
      var init := posts[..|posts| - 1];
      var p := posts[|posts| - 1];
      var mid := ImportPosts(s, init, w, importComments);
      ImportPostsUnique(s, init, w, importComments);
      if !HasCopy(mid.articles, p.id) {
        var a := mid.articles + [NewArticle(p, w)];
        forall i, j, id | 0 <= i < j < |a| && IsCopyOf(a[i], id)
          ensures !IsCopyOf(a[j], id)
        {
          if j == |mid.articles| {
            assert a[i] == mid.articles[i];
          }
        }
      }
    }
  }

  /** Every article a run creates is a draft imported from one of the
      feed items, with a title of at most 80 characters. */
  lemma {:induction false} ImportPostsNewDrafts(s: Store, posts: seq<Post>, w: World, importComments: bool)
    ensures var r := ImportPosts(s, posts, w, importComments);
            forall k :: |s.articles| <= k < |r.articles| ==>
              && r.articles[k].status == Draft
              && |r.articles[k].title| <= 80
              && exists i :: 0 <= i < |posts| && r.articles[k] == NewArticle(posts[i], w)
  {
    if posts != [] {
      var init := posts[..|posts| - 1];
      var p := posts[|posts| - 1];
      var mid := ImportPosts(s, init, w, importComments);
      var r := ImportStep(mid, p, w, importComments);
      ImportPostsNewDrafts(s, init, w, importComments);
      ImportPostsExtends(s, init, w, importComments);
      forall k | |s.articles| <= k < |r.articles|
        ensures r.articles[k].status == Draft && |r.articles[k].title| <= 80
        ensures exists i :: 0 <= i < |posts| && r.articles[k] == NewArticle(posts[i], w)
      {
        if k < |mid.articles| {
          var i :| 0 <= i < |init| && mid.articles[k] == NewArticle(init[i], w);
          assert posts[i] == init[i];
        } else {
          assert r.articles[k] == NewArticle(posts[|posts| - 1], w);
        }
      }
    }
  }

  /** Feed items that all have a visible copy already change nothing. */
  lemma {:induction false} ImportPostsCovered(s: Store, posts: seq<Post>, w: World, importComments: bool)
    requires forall i :: 0 <= i < |posts| ==> HasCopy(s.articles, posts[i].id)
    ensures ImportPosts(s, posts, w, importComments) == s
  {
    if posts != [] {
      var init := posts[..|posts| - 1];
      assert forall i :: 0 <= i < |init| ==> init[i] == posts[i];
      ImportPostsCovered(s, init, w, importComments);
    }
  }

  /** A second run over the same feed changes nothing. */
  lemma ImportPostsRerun(s: Store, posts: seq<Post>, w: World, importComments: bool)
    ensures var r := ImportPosts(s, posts, w, importComments);
            ImportPosts(r, posts, w, importComments) == r
  {
    ImportPostsCovers(s, posts, w, importComments);
    ImportPostsCovered(ImportPosts(s, posts, w, importComments), posts, w, importComments);
  }

  /** A feed item repeated within one feed is imported once. */
  lemma RepeatedItemImportedOnce(s: Store, p: Post, q: Post, w: World, importComments: bool)
    requires q.id == p.id
    ensures ImportPosts(s, [p, q], w, importComments) == ImportPosts(s, [p], w, importComments)
  {
    assert [p, q][..1] == [p];
    assert [p][..0] == [];
    ImportPostsCovers(s, [p], w, importComments);
    assert HasCopy(ImportPosts(s, [p], w, importComments).articles, q.id);
  }

  /** Feed items without comments leave the stored comments as they are,
      whatever `fgp_import_comments` says. */
  lemma {:induction false} ImportPostsNoComments(s: Store, posts: seq<Post>, w: World, importComments: bool)
    requires forall i :: 0 <= i < |posts| ==> posts[i].comments == []
    ensures ImportPosts(s, posts, w, importComments).comments == s.comments
  {
    if posts != [] {
      var init := posts[..|posts| - 1];
      assert forall i :: 0 <= i < |init| ==> init[i] == posts[i];
      ImportPostsNoComments(s, init, w, importComments);
    }
  }

  /** With comments and the option set, one approved comment is stored per
      feed comment, attached to the new article, in feed order. */
  lemma ImportStepComments(s: Store, p: Post, w: World)
    requires !HasCopy(s.articles, p.id)
    ensures var r := ImportStep(s, p, w, true);
            && r.comments[..|s.comments|] == s.comments
            && |r.comments| == |s.comments| + |p.comments|
            && forall i :: 0 <= i < |p.comments| ==>
                 r.comments[|s.comments| + i] == CommentOf(|r.articles|, p.comments[i])
  {
  }

  // ---------------------------------------------------------------------
  // The layout of the content

  /** Putting the tags on top one by one stacks them over the content. */
  lemma {:induction false} PrependAllIsStack(tags: seq<string>, content: string)
    ensures PrependAll(tags, content) == Stack(tags) + content
  {
    if tags != [] {
      PrependAllIsStack(tags[..|tags| - 1], content);
    }
  }

  /** The first tag ends up lowest, just above the content. */
  lemma {:induction false} StackFirstLowest(t: string, rest: seq<string>)
    ensures Stack([t] + rest) == Stack(rest) + t + "\n\n"
    decreases |rest|
  {
    if rest == [] {
      assert [t] + rest == [t];
      assert [t][..0] == [];
    } else {
      var all := [t] + rest;
      assert all[..|all| - 1] == [t] + rest[..|rest| - 1];
      StackFirstLowest(t, rest[..|rest| - 1]);
    }
  }

  /** There is at most one tag per entry read. */
  lemma {:induction false} TagsBound(images: seq<string>, alt: string, w: World)
    ensures |Tags(images, alt, w)| <= |images|
  {
    if images != [] {
      TagsBound(images[..|images| - 1], alt, w);
    }
  }

  /** The video markup, when there is a video, sits on top of the images
      and the message. */
  lemma ContentVideoOnTop(p: Post, w: World)
    ensures Content(p, w) == (if Truthy(p.videoUrl) then VideoTag(p.videoUrl) + "\n\n" else "")
                             + PrependAll(Tags(UsedImages(p.images), w.escAttr(p.message), w), InitialContent(p.message))
  {
    var below := PrependAll(Tags(UsedImages(p.images), w.escAttr(p.message), w), InitialContent(p.message));
    if !Truthy(p.videoUrl) {
      assert "" + below == below;
    }
  }

  /** At most ten image tags make it into the content. */
  lemma ContentTagsAtMostTen(p: Post, w: World)
    ensures |Tags(UsedImages(p.images), w.escAttr(p.message), w)| <= ImageLimit
  {
    TagsBound(UsedImages(p.images), w.escAttr(p.message), w);
  }

  /** The final content: the video markup on top when there is a video,
      then the image tags, the last one read highest, and the message (or
      nothing) at the bottom. */
  lemma ContentLayout(p: Post, w: World)
    ensures Content(p, w) == (if Truthy(p.videoUrl) then VideoTag(p.videoUrl) + "\n\n" else "")
                             + (Stack(Tags(UsedImages(p.images), w.escAttr(p.message), w)) + InitialContent(p.message))
  {
    ContentVideoOnTop(p, w);
    PrependAllIsStack(Tags(UsedImages(p.images), w.escAttr(p.message), w), InitialContent(p.message));
  }

}
