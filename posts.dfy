/** The raw post and profile values the scraping library hands over, and the
    flat record `scrape_account` builds from each post. */
module Posts {
  import opened Wrappers

  /** The post fields the scraper reads. `timestamp` is the post date as whole
      seconds; `date` is its ISO text. */
  datatype Post = Post(
    shortcode: string,
    date: string,
    timestamp: int,
    caption: Option<string>,
    likes: int,
    comments: int,
    isVideo: bool,
    mediaCount: int,
    hashtags: seq<string>,
    mentions: seq<string>,
    taggedUsers: seq<string>,
    videoViewCount: Option<int>)

  /** The profile fields copied into `profile_info`. */
  datatype Profile = Profile(
    username: string,
    fullName: string,
    biography: string,
    followers: int,
    followees: int,
    mediaCount: int,
    isVerified: bool,
    isPrivate: bool,
    externalUrl: Option<string>)

  datatype MediaType = Video | Image

  /** One entry of `posts_data`. */
  datatype PostRecord = PostRecord(
    username: string,
    shortcode: string,
    url: string,
    date: string,
    timestamp: int,
    caption: Option<string>,
    likes: int,
    commentsCount: int,
    isVideo: bool,
    mediaType: MediaType,
    mediaCount: int,
    hashtags: seq<string>,
    mentions: seq<string>,
    hashtagCount: nat,
    mentionCount: nat,
    captionLength: nat,
    locationName: Option<string>,
    taggedUsers: seq<string>,
    taggedCount: nat,
    engagementScore: int,
    videoViewCount: Option<int>)

  const UrlPrefix: string := "https://www.instagram.com/p/"

  function PostUrl(shortcode: string): string
  {
    UrlPrefix + shortcode + "/"
  }

  /** Length of a caption; Python's truthiness makes an absent and an empty caption both 0. */
  function CaptionLength(caption: Option<string>): nat
  {
    if caption.Some? && caption.value != "" then |caption.value| else 0
  }

  /** The relations among the fields of every record the scraper writes. */
  predicate Consistent(r: PostRecord)
  {
    && r.url == PostUrl(r.shortcode)
    && r.hashtagCount == |r.hashtags|
    && r.mentionCount == |r.mentions|
    && r.taggedCount == |r.taggedUsers|
    && r.captionLength == (if r.caption.Some? then |r.caption.value| else 0)
    && r.engagementScore == r.likes + r.commentsCount
    && (r.mediaType == Video <==> r.isVideo)
    && (!r.isVideo ==> r.videoViewCount == None)
    && r.locationName == None
  }

  /** The post as far as a record shows it: the view count of a non-video is dropped. */
  function Visible(p: Post): Post
  {
    p.(videoViewCount := if p.isVideo then p.videoViewCount else None)
  }

  /** Reads the post's own fields back out of a record. */
  function PostOf(r: PostRecord): Post
  {
    Post(r.shortcode, r.date, r.timestamp, r.caption, r.likes, r.commentsCount, r.isVideo,
         r.mediaCount, r.hashtags, r.mentions, r.taggedUsers, r.videoViewCount)
  }

  /** The `post_data` dictionary built for one post of `target`: the record is
      internally consistent, names the target account, and loses nothing of the
      post but the view count of a non-video. */
  function BuildRecord(target: string, p: Post): (r: PostRecord)
    ensures Consistent(r)
    ensures r.username == target
    ensures PostOf(r) == Visible(p)
  {
    PostRecord(
      username := target,
      shortcode := p.shortcode,
      url := PostUrl(p.shortcode),
      date := p.date,
      timestamp := p.timestamp,
      caption := p.caption,
      likes := p.likes,
      commentsCount := p.comments,
      isVideo := p.isVideo,
      mediaType := if p.isVideo then Video else Image,
      mediaCount := p.mediaCount,
      hashtags := p.hashtags,
      mentions := p.mentions,
      hashtagCount := |p.hashtags|,
      mentionCount := |p.mentions|,
      captionLength := CaptionLength(p.caption),
      locationName := None,
      taggedUsers := p.taggedUsers,
      taggedCount := |p.taggedUsers|,
      engagementScore := p.likes + p.comments,
      videoViewCount := if p.isVideo then p.videoViewCount else None)
  }
}
