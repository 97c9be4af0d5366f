// frontend/src/components/Feed.jsx: the avatar colour per gender, the relative
// timestamp, the like counter and the construction of a new post.  The posts
// list is React state that handleLike and handleSubmit replace; the clock, the
// signed-in user and the submission delay are parameters or left out.

module Feed {
  import opened Base
  import opened Text
  import Theme

  // ----- getThemeColorForGender -----

  function ThemeColorForGender(gender: string): (c: string)
    ensures gender != "male" && gender != "female" && gender != "other" ==> c == "#374151"
  {
    match gender
    case "male" => "#2563eb"
    case "female" => "#ec4899"
    case "other" => "#7c3aed"
    case _ => "#374151"
  }

  /** The avatar colour is the primary colour of the theme the same gender selects. */
  lemma AvatarMatchesTheme(gender: string)
    ensures ThemeColorForGender(gender) == Theme.ThemeFor(gender).primary
  {
  }

  // ----- formatTimestamp -----

  const MinuteMs := 60000
  const HourMs := 3600000
  const DayMs := 86400000

  /** Which unit the label uses and how many of it. */
  datatype Ago = MinutesAgo(n: int) | HoursAgo(n: int) | DaysAgo(n: int)

  /** The unit choice for a millisecond difference `now - timestamp`; Math.floor of a division by a positive unit. */
  function AgoOf(diff: int): (a: Ago)
    ensures a.MinutesAgo? <==> diff < HourMs
    ensures a.HoursAgo? <==> HourMs <= diff < DayMs
    ensures a.DaysAgo? <==> DayMs <= diff
    ensures a.MinutesAgo? ==> a.n * MinuteMs <= diff < (a.n + 1) * MinuteMs
    ensures a.HoursAgo? ==> a.n * HourMs <= diff < (a.n + 1) * HourMs && 1 <= a.n < 24
    ensures a.DaysAgo? ==> a.n * DayMs <= diff < (a.n + 1) * DayMs && a.n >= 1
  {
    var minutes := diff / 60000;
    var hours := diff / 3600000;
    var days := diff / 86400000;
    if minutes < 60 then MinutesAgo(minutes)
    else if hours < 24 then HoursAgo(hours)
    else DaysAgo(days)
  }

  /** The unit suffix the label ends with. */
  function UnitSuffix(a: Ago): string
  {
    match a
    case MinutesAgo(_) => "m ago"
    case HoursAgo(_) => "h ago"
    case DaysAgo(_) => "d ago"
  }

  /**
   * formatTimestamp: the count in decimal followed by the unit; for a past
   * timestamp the digits read back as the whole number of units elapsed.
   */
  function FormatTimestamp(diff: int): (r: string)
    ensures |r| > 5 && r[|r| - 5..] == UnitSuffix(AgoOf(diff))
    ensures diff < HourMs ==> r[|r| - 5..] == "m ago"
    ensures HourMs <= diff < DayMs ==> r[|r| - 5..] == "h ago"
    ensures DayMs <= diff ==> r[|r| - 5..] == "d ago"
    ensures diff >= 0 ==> AllDigits(r[..|r| - 5]) && DecimalValue(r[..|r| - 5]) == AgoOf(diff).n
  {
    var a := AgoOf(diff);
    LabelParts(a.n, UnitSuffix(a));
    IntToDecimal(a.n) + UnitSuffix(a)
  }

  /** A count followed by a suffix splits back into the two, and a non-negative count reads back. */
  lemma LabelParts(n: int, suffix: string)
    ensures var count := IntToDecimal(n);
      (count + suffix)[..|count|] == count && (count + suffix)[|count|..] == suffix
    ensures n >= 0 ==> AllDigits(IntToDecimal(n)) && DecimalValue(IntToDecimal(n)) == n
  {
    if n >= 0 {
      DecimalRoundTrip(n);
    }
  }

  /** An older post never shows a smaller age in the same unit, and never a finer unit. */
  lemma AgoMonotonic(d1: int, d2: int)
    requires d1 <= d2
    ensures AgoOf(d1).MinutesAgo? && AgoOf(d2).MinutesAgo? ==> AgoOf(d1).n <= AgoOf(d2).n
    ensures AgoOf(d1).HoursAgo? ==> !AgoOf(d2).MinutesAgo?
    ensures AgoOf(d1).HoursAgo? && AgoOf(d2).HoursAgo? ==> AgoOf(d1).n <= AgoOf(d2).n
    ensures AgoOf(d1).DaysAgo? ==> AgoOf(d2).DaysAgo? && AgoOf(d1).n <= AgoOf(d2).n
  {
  }

  // ----- posts -----

  /** A post; its timestamp is milliseconds since the epoch. */
  datatype Post = Post(id: int, username: string, gender: string, content: string, timestamp: int, likes: int)

  /** The ids of n posts are 1..n, each used once. */
  ghost predicate WellNumbered(posts: seq<Post>)
  {
    && (forall i :: 0 <= i < |posts| ==> 1 <= posts[i].id <= |posts|)
    && (forall i, j :: 0 <= i < j < |posts| ==> posts[i].id != posts[j].id)
  }

  // ----- handleLike -----

  /** `posts.map(post => post.id === postId ? {...post, likes: post.likes + 1} : post)`. */
  function HandleLike(posts: seq<Post>, postId: int): (r: seq<Post>)
    ensures |r| == |posts|
    ensures forall i :: 0 <= i < |posts| && posts[i].id == postId ==> r[i] == posts[i].(likes := posts[i].likes + 1)
    ensures forall i :: 0 <= i < |posts| && posts[i].id != postId ==> r[i] == posts[i]
  {
    seq(|posts|, i requires 0 <= i < |posts| => if posts[i].id == postId then posts[i].(likes := posts[i].likes + 1) else posts[i])
  }

  function TotalLikes(posts: seq<Post>): int
  {
    if posts == [] then 0 else TotalLikes(posts[..|posts| - 1]) + posts[|posts| - 1].likes
  }

  function CountId(posts: seq<Post>, postId: int): nat
  {
    if posts == [] then 0 else CountId(posts[..|posts| - 1], postId) + (if posts[|posts| - 1].id == postId then 1 else 0)
  }

  /** A like adds one to the total for each post carrying the id. */
  lemma {:induction false} LikeTotal(posts: seq<Post>, postId: int)
    ensures TotalLikes(HandleLike(posts, postId)) == TotalLikes(posts) + CountId(posts, postId)
  {
    if posts != [] {
      var n := |posts| - 1;
      LikeTotal(posts[..n], postId);
      assert HandleLike(posts, postId)[..n] == HandleLike(posts[..n], postId);
    }
  }

  /** With distinct ids, an id occurs at most once, and exactly once when some post carries it. */
  lemma {:induction false} CountIdDistinct(posts: seq<Post>, postId: int)
    requires forall i, j :: 0 <= i < j < |posts| ==> posts[i].id != posts[j].id
    ensures CountId(posts, postId) <= 1
    ensures CountId(posts, postId) == 1 <==> exists i :: 0 <= i < |posts| && posts[i].id == postId
  {
    if posts != [] {
      var n := |posts| - 1;
      CountIdDistinct(posts[..n], postId);
      if posts[n].id != postId {
        if exists i :: 0 <= i < |posts| && posts[i].id == postId {
          var i :| 0 <= i < |posts| && posts[i].id == postId;
          assert posts[..n][i].id == postId;
        }
      }
    }
  }

  /** In a well-numbered feed, liking post k (1 <= k <= n) adds exactly one like in total, and liking an unknown id adds none. */
  lemma LikeAddsOne(posts: seq<Post>, postId: int)
    requires WellNumbered(posts)
    ensures 1 <= postId <= |posts| ==> TotalLikes(HandleLike(posts, postId)) == TotalLikes(posts) + 1
    ensures !(1 <= postId <= |posts|) ==> HandleLike(posts, postId) == posts
  {
    LikeTotal(posts, postId);
    CountIdDistinct(posts, postId);
    if 1 <= postId <= |posts| {
      IdsCoverRange(posts, postId);
    }
  }

  /** n distinct ids in 1..n cover all of 1..n. */
  lemma IdsCoverRange(posts: seq<Post>, k: int)
    requires WellNumbered(posts) && 1 <= k <= |posts|
    ensures exists i :: 0 <= i < |posts| && posts[i].id == k
  {
    var ids := set i | 0 <= i < |posts| :: posts[i].id;
    UptoMembers(|posts|);
    assert ids <= Upto(|posts|);
    IndexImageSize(posts);
    if k !in ids {
      assert ids <= Upto(|posts|) - {k};
      SubsetSize(ids, Upto(|posts|) - {k});
      assert false;
    }
  }

  lemma {:induction false} IndexImageSize(posts: seq<Post>)
    requires forall i, j :: 0 <= i < j < |posts| ==> posts[i].id != posts[j].id
    ensures |set i | 0 <= i < |posts| :: posts[i].id| == |posts|
  {
    if posts != [] {
      var n := |posts| - 1;
      IndexImageSize(posts[..n]);
      var before := set i | 0 <= i < n :: posts[..n][i].id;
      assert (set i | 0 <= i < |posts| :: posts[i].id) == before + {posts[n].id};
      assert posts[n].id !in before;
    }
  }

  /** The ids 1..n. */
  function Upto(n: nat): set<int>
  {
    if n == 0 then {} else Upto(n - 1) + {n}
  }

  lemma {:induction false} UptoMembers(n: nat)
    ensures forall x :: x in Upto(n) <==> 1 <= x <= n
    ensures |Upto(n)| == n
  {
    if n > 0 {
      UptoMembers(n - 1);
    }
  }

  lemma SubsetSize(a: set<int>, b: set<int>)
    requires a <= b
    ensures |a| <= |b|
  {
    assert b == a + (b - a);
  }

  /** Liking changes no id, so it keeps the numbering. */
  lemma LikeKeepsNumbering(posts: seq<Post>, postId: int)
    requires WellNumbered(posts)
    ensures WellNumbered(HandleLike(posts, postId))
  {
  }

  // ----- handleSubmit -----

  /** Characters String.prototype.trim removes: white space and line terminators. */
  predicate IsJsSpace(c: char)
  {
    || c == '\t' || c == '\n' || c == '\U{B}' || c == '\U{C}' || c == '\r' || c == ' '
    || c == '\U{A0}' || c == '\U{1680}' || ('\U{2000}' <= c <= '\U{200A}')
    || c == '\U{2028}' || c == '\U{2029}' || c == '\U{202F}' || c == '\U{205F}'
    || c == '\U{3000}' || c == '\U{FEFF}'
  }

  function TrimStart(s: string): (r: string)
    ensures |r| <= |s| && r == s[|s| - |r|..]
    ensures r == [] || !IsJsSpace(r[0])
  {
    if s != [] && IsJsSpace(s[0]) then TrimStart(s[1..]) else s
  }

  function TrimEnd(s: string): (r: string)
    ensures |r| <= |s| && r == s[..|r|]
    ensures r == [] || !IsJsSpace(r[|r| - 1])
  {
    if s != [] && IsJsSpace(s[|s| - 1]) then TrimEnd(s[..|s| - 1]) else s
  }

  function Trim(s: string): string
  {
    TrimEnd(TrimStart(s))
  }

  /** `!newPost.trim()` holds exactly when every character is white space. */
  lemma {:induction false} TrimEmptyIffBlank(s: string)
    ensures Trim(s) == [] <==> forall i :: 0 <= i < |s| ==> IsJsSpace(s[i])
  {
    if s != [] && IsJsSpace(s[0]) {
      TrimEmptyIffBlank(s[1..]);
      assert forall i :: 1 <= i < |s| ==> s[i] == s[1..][i - 1];
    } else if s != [] {
      var t := TrimStart(s);
      assert t == s;
      assert TrimEnd(t) != [] by {
        TrimEndKeepsHead(t);
      }
    }
  }

  lemma {:induction false} TrimEndKeepsHead(s: string)
    requires s != [] && !IsJsSpace(s[0])
    ensures TrimEnd(s) != [] && TrimEnd(s)[0] == s[0]
  {
    if |s| > 1 && IsJsSpace(s[|s| - 1]) {
      TrimEndKeepsHead(s[..|s| - 1]);
    }
  }

  /** `user?.user?.username`, `user?.user?.gender`: None when the chain hits null or undefined. */
  datatype Author = Author(username: Option<string>, gender: Option<string>)

  /** `v || fallback`: the fallback when v is missing or the empty string. */
  function OrElse(v: Option<string>, fallback: string): (r: string)
    ensures r == fallback || (v.Some? && r == v.value)
    ensures r == fallback <==> v.None? || v.value == "" || v.value == fallback
  {
    if v.Some? && v.value != "" then v.value else fallback
  }

  /**
   * The post handleSubmit builds: numbered one past the current count, with no
   * likes, the signed-in user's name and gender or 'You' and 'default'.
   */
  function NewPost(posts: seq<Post>, author: Author, content: string, now: int): (p: Post)
    ensures p.id == |posts| + 1 && p.likes == 0 && p.content == content && p.timestamp == now
    ensures author.username.Some? && author.username.value != "" ==> p.username == author.username.value
    ensures author.username.None? || author.username.value == "" ==> p.username == "You"
    ensures author.gender.Some? && author.gender.value != "" ==> p.gender == author.gender.value
    ensures author.gender.None? || author.gender.value == "" ==> p.gender == "default"
  {
    Post(|posts| + 1, OrElse(author.username, "You"), OrElse(author.gender, "default"), content, now, 0)
  }

  /**
   * A blank draft changes nothing; otherwise the new post goes first, numbered
   * one past the current count, with no likes and the untrimmed text.
   */
  function HandleSubmit(posts: seq<Post>, draft: string, author: Author, now: int): (r: seq<Post>)
    ensures Trim(draft) == [] ==> r == posts
    ensures Trim(draft) != [] ==> |r| == |posts| + 1 && r[1..] == posts
    ensures Trim(draft) != [] ==> r[0].id == |posts| + 1 && r[0].likes == 0 && r[0].content == draft && r[0].timestamp == now
    ensures Trim(draft) != [] ==> r[0].username == OrElse(author.username, "You") && r[0].gender == OrElse(author.gender, "default")
  {
    if Trim(draft) == [] then posts else [NewPost(posts, author, draft, now)] + posts
  }

  /** Submitting keeps the numbering: the new id is the one 1..n lacked. */
  lemma SubmitKeepsNumbering(posts: seq<Post>, draft: string, author: Author, now: int)
    requires WellNumbered(posts)
    ensures WellNumbered(HandleSubmit(posts, draft, author, now))
  {
    var r := HandleSubmit(posts, draft, author, now);
    if Trim(draft) != [] {
      assert forall i :: 1 <= i < |r| ==> r[i] == posts[i - 1];
    }
  }

  /** The component's posts state. */
  class FeedState {
    var posts: seq<Post>

    constructor(initial: seq<Post>)
      ensures posts == initial
    {
      posts := initial;
    }

    method Like(postId: int)
      modifies this
      ensures posts == HandleLike(old(posts), postId)
      ensures WellNumbered(old(posts)) ==> WellNumbered(posts)
    {
      if WellNumbered(posts) {
        LikeKeepsNumbering(posts, postId);
      }
      posts := HandleLike(posts, postId);
    }

    method Submit(draft: string, author: Author, now: int)
      modifies this
      ensures posts == HandleSubmit(old(posts), draft, author, now)
      ensures WellNumbered(old(posts)) ==> WellNumbered(posts)
    {
      if WellNumbered(posts) {
        SubmitKeepsNumbering(posts, draft, author, now);
      }
      if Trim(draft) == [] {
        return;
      }
      var post := NewPost(posts, author, draft, now);
      posts := [post] + posts;
    }
  }
}
