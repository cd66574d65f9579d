/** export_json.py: its `parse_sns_xml` and the record built for each feed in
    `main`. The parser's success branch returns the media under the key
    `media`, but its two fallbacks return it under `images`, while `main`
    always reads `parsed_content['media']`. `ParseSnsXml` and `Export` model
    the code as written; `ParseSnsXmlFixed` and `ExportFixed` use `media` in
    every branch. */
module JsonExport {
  import opened Results
  import opened PyModel
  import opened XmlTree
  import opened ExportXml

  /** The returned dict: its text, the key its media list sits under, and the list. */
  datatype JsonContent = JsonContent(text: Node, listKey: string, media: seq<ExportMedia>)

  const MediaKey := "media"
  const ImagesKey := "images"

  /** The text of the fallback for a caught exception. */
  const ErrorNotice := "解析错误或非标准格式"

  /** `parse_sns_xml(xml_str)` as written. */
  function ParseSnsXml(input: Value, xmlParse: string -> Option<Node>): (r: JsonContent)
    ensures r.listKey == MediaKey <==> input.Truthy() && ExportAttempt(input, xmlParse).Ok?
    ensures !input.Truthy() ==> r == JsonContent(Str(""), ImagesKey, [])
    ensures input.Truthy() && ExportAttempt(input, xmlParse).Err? ==> r == JsonContent(Str(ErrorNotice), ImagesKey, [])
    ensures r.listKey == MediaKey ==>
      r.text == ExportAttempt(input, xmlParse).value.0 && r.media == ExportAttempt(input, xmlParse).value.1
  {
    if !input.Truthy() then JsonContent(Str(""), ImagesKey, [])
    else
      match ExportAttempt(input, xmlParse)
      case Ok(walked) => JsonContent(walked.0, MediaKey, walked.1)
      case Err(_) => JsonContent(Str(ErrorNotice), ImagesKey, [])
  }

  /** `parsed_content['media']`: a `KeyError` unless the list sits under `media`. */
  function MediaField(c: JsonContent): (r: Result<seq<ExportMedia>, PyError>)
    ensures r.Ok? <==> c.listKey == MediaKey
    ensures r.Ok? ==> r.value == c.media
  {
    if c.listKey == MediaKey then Ok(c.media) else Err(KeyError)
  }

  /** One element of `export_data`; the id is the raw `FeedId`, not a string. */
  datatype JsonRecord = JsonRecord(id: Value, date: Value, timestamp: Value, sender: Value, content: Node, media: seq<ExportMedia>)

  /** The loop body for one feed tuple, given the parser it calls. */
  function BuildRecordWith(item: Row, parse: Value -> JsonContent): (r: Result<JsonRecord, PyError>)
    ensures r.Ok? <==> |item| >= 8 && parse(item[7]).listKey == MediaKey
    ensures r.Ok? ==> r.value.id == item[0] && r.value.timestamp == item[1] && r.value.date == item[2] && r.value.sender == item[4]
    ensures r.Ok? ==> r.value.content == parse(item[7]).text && r.value.media == parse(item[7]).media
  {
    if |item| < 8 then Err(IndexError)
    else
      var parsed := parse(item[7]);
      var media :- MediaField(parsed);
      Ok(JsonRecord(item[0], item[2], item[1], item[4], parsed.text, media))
  }

  /** The loop over all feeds; the first exception escapes `main`. */
  function RecordsWith(feeds: seq<Row>, parse: Value -> JsonContent): (r: Result<seq<JsonRecord>, PyError>)
    ensures r.Ok? <==> forall i :: 0 <= i < |feeds| ==> BuildRecordWith(feeds[i], parse).Ok?
    ensures r.Ok? ==> |r.value| == |feeds|
    ensures r.Ok? ==> forall i :: 0 <= i < |feeds| ==> r.value[i] == BuildRecordWith(feeds[i], parse).value
    decreases |feeds|
  {
    if |feeds| == 0 then Ok([])
    else
      var head :- BuildRecordWith(feeds[0], parse);
      var tail :- RecordsWith(feeds[1..], parse);
      Ok([head] + tail)
  }

  function ExportWith(feeds: seq<Row>, parse: Value -> JsonContent): (r: ExportOutcome<JsonRecord>)
    ensures r.NoFeeds? <==> |feeds| == 0
    ensures r.Written? ==> |r.records| == |feeds|
    ensures |feeds| > 0 ==> (r.Written? <==> forall i :: 0 <= i < |feeds| ==> BuildRecordWith(feeds[i], parse).Ok?)
    ensures r.Written? ==> forall i :: 0 <= i < |feeds| ==> r.records[i] == BuildRecordWith(feeds[i], parse).value
  {
    if |feeds| == 0 then NoFeeds
    else
      match RecordsWith(feeds, parse)
      case Ok(rs) => Written(rs)
      case Err(e) => Crashed(e)
  }

  /** `main` from the feed list on, as written. */
  function Export(feeds: seq<Row>, xmlParse: string -> Option<Node>): (r: ExportOutcome<JsonRecord>)
    ensures r.NoFeeds? <==> |feeds| == 0
    ensures |feeds| > 0 ==>
      (r.Written? <==> forall i :: 0 <= i < |feeds| ==> |feeds[i]| >= 8 && feeds[i][7].Truthy() && ExportAttempt(feeds[i][7], xmlParse).Ok?)
  {
    ExportWith(feeds, v => ParseSnsXml(v, xmlParse))
  }

  /** A feed with empty content stops the whole export with a `KeyError`:
      the falsy branch of the parser has no `media` key. */
  lemma EmptyContentCrashesExport(item: Row, xmlParse: string -> Option<Node>)
    requires |item| >= 8 && item[7] == NoneV
    ensures Export([item], xmlParse) == Crashed(KeyError)
  {
    assert [item][1..] == [];
  }

  /** So does a feed whose XML does not parse, however many good feeds surround it. */
  lemma {:induction false} UnparsableContentCrashesExport(a: seq<Row>, item: Row, b: seq<Row>, xmlParse: string -> Option<Node>)
    requires |item| >= 8 && item[7].Text? && item[7].s != "" && xmlParse(item[7].s).None?
    ensures Export(a + [item] + b, xmlParse).Crashed?
  {
    var feeds := a + [item] + b;
    assert feeds[|a|] == item;
    assert !BuildRecordWith(feeds[|a|], v => ParseSnsXml(v, xmlParse)).Ok?;
  }

  /** `parse_sns_xml` with the fallbacks returning their empty list under `media`. */
  function ParseSnsXmlFixed(input: Value, xmlParse: string -> Option<Node>): (r: JsonContent)
    ensures r.listKey == MediaKey
    ensures !input.Truthy() ==> r == JsonContent(Str(""), MediaKey, [])
    ensures input.Truthy() && ExportAttempt(input, xmlParse).Err? ==> r == JsonContent(Str(ErrorNotice), MediaKey, [])
  {
    var asWritten := ParseSnsXml(input, xmlParse);
    JsonContent(asWritten.text, MediaKey, asWritten.media)
  }

  /** The fix changes only the key: text and media agree with the parser as written. */
  lemma FixKeepsContent(input: Value, xmlParse: string -> Option<Node>)
    ensures ParseSnsXmlFixed(input, xmlParse).text == ParseSnsXml(input, xmlParse).text
    ensures ParseSnsXmlFixed(input, xmlParse).media == ParseSnsXml(input, xmlParse).media
  {
  }

  /** `main` with the corrected parser. */
  function ExportFixed(feeds: seq<Row>, xmlParse: string -> Option<Node>): (r: ExportOutcome<JsonRecord>)
    ensures r.NoFeeds? <==> |feeds| == 0
    ensures r.Written? ==> |r.records| == |feeds|
    ensures |feeds| > 0 ==> (r.Written? <==> forall i :: 0 <= i < |feeds| ==> |feeds[i]| >= 8)
  {
    ExportWith(feeds, v => ParseSnsXmlFixed(v, xmlParse))
  }

  /** With the fix, an export of well-formed feed tuples always completes,
      one record per feed, in feed order, whatever their content. */
  lemma {:induction false} ExportFixedCompletes(feeds: seq<Row>, xmlParse: string -> Option<Node>)
    requires |feeds| > 0
    requires forall i :: 0 <= i < |feeds| ==> |feeds[i]| >= 8
    ensures ExportFixed(feeds, xmlParse).Written?
    ensures var rs := ExportFixed(feeds, xmlParse).records;
      |rs| == |feeds| &&
      forall i :: 0 <= i < |feeds| ==>
        rs[i].id == feeds[i][0] && rs[i].sender == feeds[i][4] &&
        rs[i].content == ParseSnsXml(feeds[i][7], xmlParse).text
  {
    var parse := v => ParseSnsXmlFixed(v, xmlParse);
    forall i | 0 <= i < |feeds|
      ensures BuildRecordWith(feeds[i], parse).Ok?
    {
      assert parse(feeds[i][7]).listKey == MediaKey;
    }
  }
}
