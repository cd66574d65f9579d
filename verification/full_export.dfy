/** export_full_data.py: its `parse_sns_xml`, `process_interactions` and the
    record built for each feed in `main`. Nothing in its loop catches an
    exception, so one bad feed stops the whole export. */
module FullExport {
  import opened Results
  import opened PyModel
  import opened XmlTree
  import opened Interactions
  import opened SnsShape
  import opened ExportXml
  import BridgeFeeds

  /** The returned `{"text": ..., "media": [...]}`. */
  datatype FullContent = FullContent(text: Node, media: seq<ExportMedia>)

  /** The result for a falsy input. */
  const EmptyContent := FullContent(Str(""), [])

  /** The result for every caught exception: the text becomes an error notice. */
  const FailedContent := FullContent(Str("XML解析异常"), [])

  /** `parse_sns_xml(xml_str)`: no cleaning and no cut before parsing. */
  function ParseSnsXml(input: Value, xmlParse: string -> Option<Node>): (r: FullContent)
    ensures !input.Truthy() ==> r == EmptyContent
    ensures input.Truthy() && ExportAttempt(input, xmlParse).Err? ==> r == FailedContent
    ensures input.Truthy() && ExportAttempt(input, xmlParse).Ok? ==>
      r.text == ExportAttempt(input, xmlParse).value.0 && r.media == ExportAttempt(input, xmlParse).value.1
  {
    if !input.Truthy() then EmptyContent
    else
      match ExportAttempt(input, xmlParse)
      case Ok(walked) => FullContent(walked.0, walked.1)
      case Err(_) => FailedContent
  }

  /** A like keeps only who and when. */
  datatype Like = Like(wxid: Value, time: Value)

  /** A comment keeps its raw content and reply target. */
  datatype Comment = Comment(wxid: Value, content: Value, time: Value, replyTo: Value)

  datatype FeedInteractions = FeedInteractions(likes: seq<Like>, comments: seq<Comment>)

  function ToLike(c: CommentFields): Like {
    Like(c.sender, c.time)
  }

  function ToComment(c: CommentFields): Comment {
    Comment(c.sender, c.content, c.time, c.replyTo)
  }

  /** `get_comment(feed_id)` of the database driver; `None` means it raised. */
  type CommentReader = Value -> Option<seq<Row>>

  /** `process_interactions(sns_driver, feed_id)`. */
  function ProcessInteractions(getComment: CommentReader, feedId: Value): (r: Result<FeedInteractions, PyError>)
    ensures r.Ok? <==> getComment(feedId).Some? && forall i :: 0 <= i < |getComment(feedId).value| ==> |getComment(feedId).value[i]| >= 8
    ensures r.Ok? ==> |r.value.likes| == CountCode(getComment(feedId).value, Int(1))
    ensures r.Ok? ==> |r.value.comments| == CountCode(getComment(feedId).value, Int(2))
    ensures r.Ok? ==> var split := Partition(getComment(feedId).value).value;
      && (forall i :: 0 <= i < |r.value.likes| ==> r.value.likes[i] == Like(split.likes[i].sender, split.likes[i].time))
      && (forall i :: 0 <= i < |r.value.comments| ==>
            r.value.comments[i] == Comment(split.comments[i].sender, split.comments[i].content, split.comments[i].time, split.comments[i].replyTo))
  {
    var rows := getComment(feedId);
    if rows.None? then Err(DriverError)
    else
      var split :- Partition(rows.value);
      Ok(FeedInteractions(
        seq(|split.likes|, i requires 0 <= i < |split.likes| => ToLike(split.likes[i])),
        seq(|split.comments|, i requires 0 <= i < |split.comments| => ToComment(split.comments[i]))))
  }

  /** One element of `export_list`. */
  datatype FullRecord = FullRecord(
    id: string,
    timestamp: Value,
    date: Value,
    author: Value,
    content: FullContent,
    likesCount: int,
    commentsCount: int,
    likes: seq<Like>,
    comments: seq<Comment>)

  predicate CountsMatch(f: FullRecord) {
    f.likesCount == |f.likes| && f.commentsCount == |f.comments|
  }

  /** The loop body for one feed tuple `[FeedId, CreateTime, StrTime, Type,
      UserName, Status, StringId, Content]`. */
  function BuildRecord(item: Row, getComment: CommentReader, xmlParse: string -> Option<Node>): (r: Result<FullRecord, PyError>)
    ensures r.Ok? <==> |item| >= 8 && ProcessInteractions(getComment, item[0]).Ok?
    ensures r.Ok? ==> CountsMatch(r.value)
    ensures r.Ok? ==> r.value.id == PyStr(item[6]) && r.value.timestamp == item[1] && r.value.date == item[2] && r.value.author == item[4]
    ensures r.Ok? ==> r.value.content == ParseSnsXml(item[7], xmlParse)
    ensures r.Ok? ==> r.value.likes == ProcessInteractions(getComment, item[0]).value.likes
    ensures r.Ok? ==> r.value.comments == ProcessInteractions(getComment, item[0]).value.comments
  {
    if |item| < 8 then Err(IndexError)
    else
      var content := ParseSnsXml(item[7], xmlParse);
      var inter :- ProcessInteractions(getComment, item[0]);
      Ok(FullRecord(PyStr(item[6]), item[1], item[2], item[4], content,
                    |inter.likes|, |inter.comments|, inter.likes, inter.comments))
  }

  /** The loop over all feeds; the first exception escapes. */
  function Records(feeds: seq<Row>, getComment: CommentReader, xmlParse: string -> Option<Node>): (r: Result<seq<FullRecord>, PyError>)
    ensures r.Ok? <==> forall i :: 0 <= i < |feeds| ==> BuildRecord(feeds[i], getComment, xmlParse).Ok?
    ensures r.Ok? ==> |r.value| == |feeds|
    ensures r.Ok? ==> forall i :: 0 <= i < |feeds| ==> r.value[i] == BuildRecord(feeds[i], getComment, xmlParse).value
    ensures r.Ok? ==> forall f :: f in r.value ==> CountsMatch(f)
    decreases |feeds|
  {
    if |feeds| == 0 then Ok([])
    else
      var head :- BuildRecord(feeds[0], getComment, xmlParse);
      var tail :- Records(feeds[1..], getComment, xmlParse);
      Ok([head] + tail)
  }

  /** `main` from the feed list on: nothing to do for an empty list, otherwise
      every feed becomes one record, or the run stops at the first exception. */
  function Export(feeds: seq<Row>, getComment: CommentReader, xmlParse: string -> Option<Node>): (r: ExportOutcome<FullRecord>)
    ensures r.NoFeeds? <==> |feeds| == 0
    ensures r.Written? ==> |r.records| == |feeds| && forall f :: f in r.records ==> CountsMatch(f)
    ensures |feeds| > 0 ==> (r.Written? <==> forall i :: 0 <= i < |feeds| ==> BuildRecord(feeds[i], getComment, xmlParse).Ok?)
    ensures r.Written? ==> forall i :: 0 <= i < |feeds| ==> r.records[i] == BuildRecord(feeds[i], getComment, xmlParse).value
  {
    if |feeds| == 0 then NoFeeds
    else
      match Records(feeds, getComment, xmlParse)
      case Ok(rs) => Written(rs)
      case Err(e) => Crashed(e)
  }

  /** This export and the bridge split a feed's interactions alike: a feed
      this export records is also processed by the bridge, with the same
      like and comment counts. */
  lemma CountsAgreeWithBridge(item: Row, getComment: CommentReader, xmlParse: string -> Option<Node>)
    requires BuildRecord(item, getComment, xmlParse).Ok?
    ensures BridgeFeeds.ProcessFeed(item, getComment, xmlParse).Ok?
    ensures BridgeFeeds.ProcessFeed(item, getComment, xmlParse).value.likesCount == BuildRecord(item, getComment, xmlParse).value.likesCount
    ensures BridgeFeeds.ProcessFeed(item, getComment, xmlParse).value.commentsCount == BuildRecord(item, getComment, xmlParse).value.commentsCount
  {
  }

  /** A plain-string `Url` in any media entry turns the text into the error notice. */
  lemma PlainUrlLosesText(s: string, xmlParse: string -> Option<Node>, u: string)
    requires s != ""
    requires xmlParse(s) == Some(Dict([("TimelineObject", Dict([
      ("contentDesc", Str("hello")),
      ("ContentObject", Dict([("MediaList", Dict([("Media", Dict([("Url", Str(u))]))]))]))]))]))
    ensures ParseSnsXml(Text(s), xmlParse) == FailedContent
  {
    var m := Dict([("Url", Str(u))]);
    var contentObj := Dict([("MediaList", Dict([("Media", m)]))]);
    var timeline := Dict([("contentDesc", Str("hello")), ("ContentObject", contentObj)]);
    var tree := Dict([("TimelineObject", timeline)]);
    assert Get(tree, "TimelineObject", Dict([])) == Ok(timeline);
    assert Lookup(timeline.entries, "ContentObject") == Some(contentObj);
    assert MediaElements(contentObj) == Ok([m]);
    PlainUrlRaises(m, u);
    assert Collect([m], ExportEntry).Err?;
    assert ExportWalk(tree).Err?;
  }

  /** Capitalised `ContentDesc` is ignored: only lowercase `contentDesc` gives text. */
  lemma CapitalisedDescIgnored(s: string, xmlParse: string -> Option<Node>)
    requires s != ""
    requires xmlParse(s) == Some(Dict([("TimelineObject", Dict([("ContentDesc", Str("hello"))]))]))
    ensures ParseSnsXml(Text(s), xmlParse) == EmptyContent
  {
  }
}
