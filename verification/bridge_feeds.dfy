/** The per-feed loop of `main` in client-radar/python_engine/auto_bridge.py:
    the first 500 feeds the driver returns are kept, each feed's content is
    parsed and its interactions split, and a feed whose processing raises is
    skipped. */
module BridgeFeeds {
  import opened Results
  import opened PyModel
  import opened XmlTree
  import opened Interactions
  import opened BridgeXml

  /** `{"wxid", "name", "content", "time", "reply_to_wxid"}`; the same shape
      for a like and for a comment. */
  datatype BridgeInteraction = BridgeInteraction(wxid: Value, name: string, content: Value, time: Value, replyTo: Value)

  /** One element of the output `feeds` list. */
  datatype BridgeFeed = BridgeFeed(
    id: string,
    timestamp: Value,
    author: Value,
    content: BridgeContent,
    likesCount: int,
    commentsCount: int,
    likes: seq<BridgeInteraction>,
    comments: seq<BridgeInteraction>)

  /** The `stats` block agrees with the `interactions` lists. */
  predicate CountsMatch(f: BridgeFeed) {
    f.likesCount == |f.likes| && f.commentsCount == |f.comments|
  }

  /** `get_comment(feed_id)` of the database driver; `None` means it raised. */
  type CommentReader = Value -> Option<seq<Row>>

  const FeedCap := 500

  /** The interaction item: no display name, and a falsy content or reply-to
      becomes the empty string. */
  function ToInteraction(c: CommentFields): (r: BridgeInteraction)
    ensures r.name == "" && r.wxid == c.sender && r.time == c.time
    ensures r.content.Truthy() || r.content == Text("")
    ensures r.replyTo.Truthy() || r.replyTo == Text("")
    ensures c.content.Truthy() ==> r.content == c.content
    ensures c.replyTo.Truthy() ==> r.replyTo == c.replyTo
    ensures !c.content.Truthy() ==> r.content == Text("")
    ensures !c.replyTo.Truthy() ==> r.replyTo == Text("")
  {
    BridgeInteraction(c.sender, "", OrEmpty(c.content), c.time, OrEmpty(c.replyTo))
  }

  function ToInteractions(cs: seq<CommentFields>): (r: seq<BridgeInteraction>)
    ensures |r| == |cs|
    ensures forall i :: 0 <= i < |cs| ==> r[i] == ToInteraction(cs[i])
  {
    seq(|cs|, i requires 0 <= i < |cs| => ToInteraction(cs[i]))
  }

  /** The body of the `try` for one feed tuple `[FeedId, CreateTime, StrTime,
      Type, UserName, Status, StringId, Content]`. */
  function ProcessFeed(item: Row, getComment: CommentReader, xmlParse: string -> Option<Node>): (r: Result<BridgeFeed, PyError>)
    ensures r.Ok? <==> |item| >= 8 && getComment(item[0]).Some? && Partition(getComment(item[0]).value).Ok?
    ensures r.Ok? ==> CountsMatch(r.value)
    ensures r.Ok? ==> r.value.id == PyStr(item[6]) && r.value.timestamp == item[1] && r.value.author == item[4]
    ensures r.Ok? ==> r.value.content == ParseSnsXml(item[7], xmlParse)
    ensures r.Ok? ==> |r.value.likes| == CountCode(getComment(item[0]).value, Int(1))
    ensures r.Ok? ==> |r.value.comments| == CountCode(getComment(item[0]).value, Int(2))
    ensures r.Ok? ==> r.value.likes == ToInteractions(Partition(getComment(item[0]).value).value.likes)
    ensures r.Ok? ==> r.value.comments == ToInteractions(Partition(getComment(item[0]).value).value.comments)
  {
    if |item| < 8 then Err(IndexError)
    else
      var content := ParseSnsXml(item[7], xmlParse);
      var fetched := getComment(item[0]);
      if fetched.None? then Err(DriverError)
      else
        var split :- Partition(fetched.value);
        var likes, comments := ToInteractions(split.likes), ToInteractions(split.comments);
        Ok(BridgeFeed(PyStr(item[6]), item[1], item[4], content, |likes|, |comments|, likes, comments))
  }

  /** The records one feed contributes: its own when it processes, none when it raises. */
  function FeedOutcome(x: Row, getComment: CommentReader, xmlParse: string -> Option<Node>): (r: seq<BridgeFeed>)
    ensures |r| <= 1
    ensures ProcessFeed(x, getComment, xmlParse).Err? ==> r == []
    ensures ProcessFeed(x, getComment, xmlParse).Ok? ==> r == [ProcessFeed(x, getComment, xmlParse).value]
    ensures forall f :: f in r ==> CountsMatch(f)
  {
    match ProcessFeed(x, getComment, xmlParse)
    case Ok(f) => [f]
    case Err(_) => []
  }

  /** No feed of `items` raises. */
  predicate AllProcess(items: seq<Row>, getComment: CommentReader, xmlParse: string -> Option<Node>) {
    forall i :: 0 <= i < |items| ==> ProcessFeed(items[i], getComment, xmlParse).Ok?
  }

  /** The loop over the feed tuples; `except Exception: continue` drops a
      feed whose processing raised. */
  function CollectFeeds(items: seq<Row>, getComment: CommentReader, xmlParse: string -> Option<Node>): (r: seq<BridgeFeed>)
    ensures |r| <= |items|
    ensures AllProcess(items, getComment, xmlParse) ==> |r| == |items|
    ensures forall f :: f in r ==> CountsMatch(f)
    decreases |items|
  {
    if |items| == 0 then [] else FeedOutcome(items[0], getComment, xmlParse) + CollectFeeds(items[1..], getComment, xmlParse)
  }

  /** `raw_feeds[:500]` when there are more than 500. */
  function Capped(raw: seq<Row>): (r: seq<Row>)
    ensures |r| <= FeedCap
    ensures |r| <= |raw| && r == raw[..|r|]
    ensures |raw| <= FeedCap ==> r == raw
    ensures |raw| > FeedCap ==> |r| == FeedCap
  {
    if |raw| > FeedCap then raw[..FeedCap] else raw
  }

  /** The `feeds` list of the output. */
  function BridgeFeedList(raw: seq<Row>, getComment: CommentReader, xmlParse: string -> Option<Node>): (r: seq<BridgeFeed>)
    ensures |r| <= FeedCap && |r| <= |raw|
    ensures AllProcess(Capped(raw), getComment, xmlParse) ==> |r| == |Capped(raw)|
    ensures forall f :: f in r ==> CountsMatch(f)
  {
    CollectFeeds(Capped(raw), getComment, xmlParse)
  }

  /** The loop processes the feeds independently and in order: the output
      for a concatenation is the concatenation of the outputs. */
  lemma {:induction false} CollectFeedsAppend(a: seq<Row>, b: seq<Row>, getComment: CommentReader, xmlParse: string -> Option<Node>)
    ensures CollectFeeds(a + b, getComment, xmlParse) == CollectFeeds(a, getComment, xmlParse) + CollectFeeds(b, getComment, xmlParse)
    decreases |a|
  {
    if |a| == 0 {
      assert a + b == b;
    } else {
      assert (a + b)[0] == a[0];
      assert (a + b)[1..] == a[1..] + b;
      CollectFeedsAppend(a[1..], b, getComment, xmlParse);
    }
  }

  /** A feed that raises is dropped and the feeds around it keep their order. */
  lemma {:induction false} FailingFeedSkipped(a: seq<Row>, x: Row, b: seq<Row>, getComment: CommentReader, xmlParse: string -> Option<Node>)
    requires ProcessFeed(x, getComment, xmlParse).Err?
    ensures CollectFeeds(a + [x] + b, getComment, xmlParse) == CollectFeeds(a, getComment, xmlParse) + CollectFeeds(b, getComment, xmlParse)
  {
    CollectFeedsAppend(a + [x], b, getComment, xmlParse);
    CollectFeedsAppend(a, [x], getComment, xmlParse);
    assert [x][0] == x && [x][1..] == [];
    assert CollectFeeds([x], getComment, xmlParse) == FeedOutcome(x, getComment, xmlParse) + [];
    assert CollectFeeds(a, getComment, xmlParse) + [] == CollectFeeds(a, getComment, xmlParse);
  }

  /** Every feed contributes in its place exactly what it makes on its own:
      its record once when it processes, nothing when it raises. */
  lemma {:induction false} FeedInPlace(a: seq<Row>, x: Row, b: seq<Row>, getComment: CommentReader, xmlParse: string -> Option<Node>)
    ensures CollectFeeds(a + [x] + b, getComment, xmlParse)
         == CollectFeeds(a, getComment, xmlParse) + FeedOutcome(x, getComment, xmlParse) + CollectFeeds(b, getComment, xmlParse)
  {
    CollectFeedsAppend(a + [x], b, getComment, xmlParse);
    CollectFeedsAppend(a, [x], getComment, xmlParse);
    CollectFeedsOne(x, getComment, xmlParse);
  }

  /** A one-feed list yields what that feed contributes. */
  lemma CollectFeedsOne(x: Row, getComment: CommentReader, xmlParse: string -> Option<Node>)
    ensures CollectFeeds([x], getComment, xmlParse) == FeedOutcome(x, getComment, xmlParse)
  {
    assert [x][0] == x && [x][1..] == [];
    assert CollectFeeds([x], getComment, xmlParse) == FeedOutcome(x, getComment, xmlParse) + [];
  }

  /** Every feed that processes shows up in the output. */
  lemma {:induction false} ProcessedFeedKept(items: seq<Row>, i: nat, getComment: CommentReader, xmlParse: string -> Option<Node>)
    requires i < |items|
    ensures ProcessFeed(items[i], getComment, xmlParse).Ok? ==>
      ProcessFeed(items[i], getComment, xmlParse).value in CollectFeeds(items, getComment, xmlParse)
    decreases i
  {
    if ProcessFeed(items[i], getComment, xmlParse).Err? {
      return;
    }
    var head, rest := FeedOutcome(items[0], getComment, xmlParse), CollectFeeds(items[1..], getComment, xmlParse);
    assert CollectFeeds(items, getComment, xmlParse) == head + rest;
    if i == 0 {
      assert head == [ProcessFeed(items[0], getComment, xmlParse).value];
    } else {
      assert items[1..][i - 1] == items[i];
      ProcessedFeedKept(items[1..], i - 1, getComment, xmlParse);
    }
  }

  /** Feeds past the 500th never influence the output. */
  lemma {:induction false} BeyondCapIgnored(raw: seq<Row>, extra: seq<Row>, getComment: CommentReader, xmlParse: string -> Option<Node>)
    requires |raw| >= FeedCap
    ensures BridgeFeedList(raw + extra, getComment, xmlParse) == BridgeFeedList(raw, getComment, xmlParse)
  {
    assert Capped(raw + extra) == Capped(raw);
  }
}
