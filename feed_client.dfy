/** The feed client: class `FacebookAPI` and its `getGroupPosts`, which
    guards on the access token, maps error payloads to errors and
    normalises every item of the decoded feed. The HTTP exchange and JSON
    decoding are outside the model: the decoded response is an input. */
module FeedClient {
  import opened Wrappers
  import opened Strings

  // ---------------------------------------------------------------------
  // The decoded feed

  /** One entry of `attachments.data`: `media.image.src` and
      `media.playable_url`, None when unset. */
  datatype Attachment = Attachment(imageSrc: Option<string>, playableUrl: Option<string>)

  /** One entry of `comments.data`: `from.name`, `message`, `created_time`. */
  datatype RawComment = RawComment(authorName: Option<string>, message: Option<string>, createdTime: string)

  /** One item of the feed's `data` array. An unset message reads as "",
      which every use of it treats like PHP's null; unset attachments or
      comments read as empty lists. */
  datatype RawPost = RawPost(
    id: string,
    message: string,
    picture: Option<string>,
    attachments: seq<Attachment>,
    comments: seq<RawComment>)

  /** The `error` member of an error payload. */
  datatype ApiErrorBody = ApiErrorBody(message: string)

  /** The decoded body: its `error` and `data` members, None when unset
      (a body that is not JSON has neither). */
  datatype FeedPayload = FeedPayload(error: Option<ApiErrorBody>, data: Option<seq<RawPost>>)

  /** What `wp_remote_get` gives back. */
  datatype FeedResponse = TransportError(message: string) | Body(payload: FeedPayload)

  /** The three ways `getGroupPosts` fails. */
  datatype FeedError = MissingApiToken | Transport(message: string) | FacebookApiError(message: string)

  // ---------------------------------------------------------------------
  // The normalised item

  /** A feed item after normalisation, with the keys the importer reads. */
  datatype Post = Post(
    id: string,
    message: string,
    imageUrl: string,
    images: seq<string>,
    videoUrl: string,
    comments: seq<RawComment>)

  /** The attachment carries a non-empty image source. */
  predicate HasImage(a: Attachment) {
    a.imageSrc.Some? && Truthy(a.imageSrc.value)
  }

  /** The attachment is read as a video: no image, a non-empty playable URL. */
  predicate HasVideo(a: Attachment) {
    !HasImage(a) && a.playableUrl.Some? && Truthy(a.playableUrl.value)
  }

  /** The image sources, in attachment order. */
  function ImageSources(atts: seq<Attachment>): seq<string> {
    if atts == [] then []
    else
      var last := atts[|atts| - 1];
      ImageSources(atts[..|atts| - 1]) + (if HasImage(last) then [last.imageSrc.value] else [])
  }

  /** The playable URL of the video attachment seen last, or "". */
  function VideoUrl(atts: seq<Attachment>): string {
    if atts == [] then ""
    else
      var last := atts[|atts| - 1];
      if HasVideo(last) then last.playableUrl.value else VideoUrl(atts[..|atts| - 1])
  }

  /** What normalising a raw item yields. */
  function Normalised(raw: RawPost): Post {
    Post(raw.id, raw.message, raw.picture.GetOr(""), ImageSources(raw.attachments), VideoUrl(raw.attachments), [])
  }

  /** The value of `$post['comments']` inside the loop: the API's
      `{data: [...]}` object as fetched, or the plain list it is reset
      to. */
  datatype CommentsValue = Envelope(data: seq<RawComment>) | List(items: seq<RawComment>)

  /** `$v['data']`; a plain list has no such key. */
  function DataEntry(v: CommentsValue): seq<RawComment> {
    match v
    case Envelope(data) => data
    case List(_) => []
  }

  function Items(v: CommentsValue): seq<RawComment> {
    match v
    case Envelope(_) => []
    case List(items) => items
  }

  /** The body of the `foreach ($posts as &$post)` loop: `image_url` from
      `picture`, an image list and a video slot filled from the
      attachments, and `comments` reset to an empty list before it is
      read, so the comment data is never carried over. */
  method NormaliseItem(raw: RawPost) returns (p: Post)
    ensures p == Normalised(raw)
    ensures p.comments == []
  {
    var imageUrl := raw.picture.GetOr("");
    var images: seq<string> := [];
    var videoUrl := "";
    var comments: CommentsValue := Envelope(raw.comments);
    comments := List([]);
    var atts := raw.attachments;
    for i := 0 to |atts|
      invariant images == ImageSources(atts[..i])
      invariant videoUrl == VideoUrl(atts[..i])
    {
      var attachment := atts[i];
      assert atts[..i + 1][..i] == atts[..i];
      if attachment.imageSrc.Some? && Truthy(attachment.imageSrc.value) {
        images := images + [attachment.imageSrc.value];
      } else if attachment.playableUrl.Some? && Truthy(attachment.playableUrl.value) {
        videoUrl := attachment.playableUrl.value;
      }
    }
    assert atts[..|atts|] == atts;
    if |DataEntry(comments)| > 0 {
      comments := List(DataEntry(comments));
    }
    p := Post(raw.id, raw.message, imageUrl, images, videoUrl, Items(comments));
  }

  // ---------------------------------------------------------------------
  // Properties of the normalisation

  /** The image list keeps attachment order: it distributes over
      concatenation of attachment lists. */
  lemma {:induction false} ImageSourcesAppend(a: seq<Attachment>, b: seq<Attachment>)
    ensures ImageSources(a + b) == ImageSources(a) + ImageSources(b)
    decreases |b|
  {
    if b == [] {
      assert a + b == a;
    } else {
      var init := b[..|b| - 1];
      assert (a + b)[..|a + b| - 1] == a + init;
      ImageSourcesAppend(a, init);
    }
  }

  /** The image list holds exactly the non-empty image sources. */
  lemma {:induction false} ImageSourcesMembers(atts: seq<Attachment>, src: string)
    ensures src in ImageSources(atts) <==>
            exists k :: 0 <= k < |atts| && HasImage(atts[k]) && atts[k].imageSrc.value == src
  {
    if atts != [] {
      var init := atts[..|atts| - 1];
      ImageSourcesMembers(init, src);
      assert forall k :: 0 <= k < |init| ==> init[k] == atts[k];
    }
  }

  /** The video slot holds the playable URL of the last attachment read as
      a video, and is "" when there is none. An attachment with an image
      never counts as a video. */
  lemma {:induction false} VideoUrlIsLastVideo(atts: seq<Attachment>)
    ensures (forall k :: 0 <= k < |atts| ==> !HasVideo(atts[k])) ==> VideoUrl(atts) == ""
    ensures forall k :: 0 <= k < |atts| && HasVideo(atts[k]) && (forall j :: k < j < |atts| ==> !HasVideo(atts[j]))
                        ==> VideoUrl(atts) == atts[k].playableUrl.value
  {
    if atts != [] {
      var init := atts[..|atts| - 1];
      VideoUrlIsLastVideo(init);
      assert forall k :: 0 <= k < |init| ==> init[k] == atts[k];
    }
  }

  /** Normalisation keeps `id` and `message`, takes `image_url` from
      `picture` (or ""), and always leaves `comments` empty, whatever
      comment data the item carried. */
  lemma NormalisedFields(raw: RawPost)
    ensures Normalised(raw).id == raw.id && Normalised(raw).message == raw.message
    ensures Normalised(raw).imageUrl == if raw.picture.Some? then raw.picture.value else ""
    ensures Normalised(raw).comments == []
  {
  }

  // ---------------------------------------------------------------------
  // getGroupPosts

  /** The request URL, with the fixed field list and the limit. */
  const GraphRoot := "https://graph.facebook.com/v16.0/"
  const FeedPath := "/feed?access_token="
  const FeedQuery := "&fields=id,message,picture,attachments{media},comments{message,from,created_time},created_time&limit="

  function FeedUrl(groupId: string, apiToken: string, limit: int): string {
    GraphRoot + groupId + FeedPath + apiToken + FeedQuery + IntToString(limit)
  }

  /** Every item of the feed normalised, in feed order. */
  function NormalisedAll(data: seq<RawPost>): seq<Post> {
    if data == [] then []
    else NormalisedAll(data[..|data| - 1]) + [Normalised(data[|data| - 1])]
  }

  /** One normalised item per feed item, in the same order. */
  lemma {:induction false} NormalisedAllItems(data: seq<RawPost>)
    ensures |NormalisedAll(data)| == |data|
    ensures forall i :: 0 <= i < |data| ==> NormalisedAll(data)[i] == Normalised(data[i])
  {
    if data != [] {
      var init := data[..|data| - 1];
      NormalisedAllItems(init);
      assert forall i :: 0 <= i < |init| ==> init[i] == data[i];
    }
  }

  /** The outcome of `getGroupPosts` for a given token and response. */
  function Fetch(apiToken: string, response: FeedResponse): Result<seq<Post>, FeedError> {
    if !Truthy(apiToken) then Failure(MissingApiToken)
    else
      match response
      case TransportError(message) => Failure(Transport(message))
      case Body(payload) =>
        if payload.error.Some? then Failure(FacebookApiError(payload.error.value.message))
        else Success(NormalisedAll(payload.data.GetOr([])))
  }

  /** The outcomes: no token, a transport error and an error payload each
      give their error; otherwise every item of `data` (none when `data`
      is unset) is normalised, in feed order. */
  lemma FetchOutcomes(apiToken: string, response: FeedResponse)
    ensures !Truthy(apiToken) ==> Fetch(apiToken, response) == Failure(MissingApiToken)
    ensures Truthy(apiToken) && response.TransportError? ==> Fetch(apiToken, response) == Failure(Transport(response.message))
    ensures Truthy(apiToken) && response.Body? && response.payload.error.Some?
            ==> Fetch(apiToken, response) == Failure(FacebookApiError(response.payload.error.value.message))
    ensures Truthy(apiToken) && response.Body? && response.payload.error.None? && response.payload.data.None?
            ==> Fetch(apiToken, response) == Success([])
    ensures Truthy(apiToken) && response.Body? && response.payload.error.None? && response.payload.data.Some?
            ==> var data := response.payload.data.value;
                && Fetch(apiToken, response).Success? && |Fetch(apiToken, response).value| == |data|
                && forall i :: 0 <= i < |data| ==> Fetch(apiToken, response).value[i] == Normalised(data[i])
  {
    if response.Body? && response.payload.data.Some? {
      NormalisedAllItems(response.payload.data.value);
    }
  }

  /** The feed client never hands over comment data. */
  lemma FetchedCommentsEmpty(apiToken: string, response: FeedResponse)
    ensures Fetch(apiToken, response).Success? ==>
            forall i :: 0 <= i < |Fetch(apiToken, response).value| ==> Fetch(apiToken, response).value[i].comments == []
  {
    if response.Body? {
      NormalisedAllItems(response.payload.data.GetOr([]));
    }
  }

  class FacebookApi {
    var apiToken: string
    var groupId: string

    constructor (apiToken: string, groupId: string)
      ensures this.apiToken == apiToken && this.groupId == groupId
    {
      this.apiToken := apiToken;
      this.groupId := groupId;
    }

    /** `getGroupPosts($limit)`. `request` is the URL it fetches (None when
        it sends nothing); `response` is what the transport answers. */
    method GetGroupPosts(limit: int, response: FeedResponse)
      returns (r: Result<seq<Post>, FeedError>, request: Option<string>)
      ensures r == Fetch(apiToken, response)
      ensures request == if Truthy(apiToken) then Some(FeedUrl(groupId, apiToken, limit)) else None
    {
      if !Truthy(apiToken) {
        return Failure(MissingApiToken), None;
      }
      var url := FeedUrl(groupId, apiToken, limit);
      request := Some(url);
      if response.TransportError? {
        return Failure(Transport(response.message)), request;
      }
      var payload := response.payload;
      if payload.error.Some? {
        return Failure(FacebookApiError(payload.error.value.message)), request;
      }
      var data := payload.data.GetOr([]);
      var posts: seq<Post> := [];
      for i := 0 to |data|
        invariant posts == NormalisedAll(data[..i])
      {
        assert data[..i + 1][..i] == data[..i];
        var post := NormaliseItem(data[i]);
        posts := posts + [post];
      }
      assert data[..|data|] == data;
      r := Success(posts);
    }
  }
}
