# wechatGalaxy moments extraction, modelled in Dafny

This project models how the wechatGalaxy tools read WeChat "moments" (the
social feed) from a local `Sns.db` and its `Contact` table, and turn them
into the records the desktop front end consumes.

- **Three copies of `parse_sns_xml`.** They turn the XML stored with a feed
  into text and a list of media references:
  - the bridge script `client-radar/python_engine/auto_bridge.py` (module
    `BridgeXml`);
  - `export_full_data.py` (modules `ExportXml` and `FullExport`);
  - `export_json.py` (module `JsonExport`, which reuses the walk of
    `ExportXml`: the two scripts' `try` blocks are the same).

  Each copy is modelled with its own lookups, fallbacks and exceptions. The
  tree `xmltodict` produces is the datatype `XmlTree.Node`, and the Python
  operations applied to it raise exactly where Python raises. The steps the
  copies share are defined once, in `SnsShape`.
- **Interaction split.** The comment tuples of each feed are split into
  likes (type code 1) and comments (type code 2) in `Interactions`.
- **Per-feed records.** The bridge keeps the first 500 feeds the driver
  returns and skips a feed whose processing raises (`BridgeFeeds`). The two
  export scripts have no such guard: one failing feed stops the export
  (`FullExport`, `JsonExport`).
- **The Rust readers of `client-radar/src-tauri/src/lib.rs`.**
  - `SnsSchema` chooses the feed table through five priority tiers, matches
    the id, time and content columns, and reports the errors.
  - `RadarDb` normalises each row (decimal ids, 32-bit wrap-around of times,
    BLOB-only content), reports an empty result, and keeps only contacts
    with a text, non-empty user name.

Supporting modules:
- `Results`: `Option` and `Result`.
- `Strings`: substring search, ASCII case folding, first index.
- `Decimal`: integer to decimal string and back.
- `PyModel`: Python values of database tuples and the exceptions the
  scripts can raise.

The database, the XML parser, `String::from_utf8_lossy` and the driver's
`get_comment` are parameters of the model. Nothing in it reads files or
talks to a database.

## Model

| member | source | states |
|---|---|---|
| Strings.Find | client-radar/python_engine/auto_bridge.py:36 | `str.find`: -1 exactly when the needle does not occur, otherwise the first position where it occurs |
| Strings.FirstIndexFrom | client-radar/src-tauri/src/lib.rs:72-78 | `Iterator::position`/`find` from a start index: the index found satisfies the predicate and no earlier one from the start does; none only when no element from the start does |
| Strings.AsciiLowerStr | client-radar/src-tauri/src/lib.rs:75-76 | lowercasing keeps the length and lowercases each character on its own, touching only `A`-`Z` |
| Strings.EqIgnoreAsciiCase | client-radar/src-tauri/src/lib.rs:72-74 | `eq_ignore_ascii_case`: equal lengths and equal characters position by position once ASCII letters are lowercased |
| Decimal.DecimalRoundTrip | client-radar/src-tauri/src/lib.rs:131 | the decimal rendering of an integer (`to_string`, `str`) parses back to the same integer, so distinct ids give distinct strings |
| Decimal.DecimalInjective | client-radar/src-tauri/src/lib.rs:131 | two integers with the same decimal rendering are equal |
| Decimal.Decimal | client-radar/src-tauri/src/lib.rs:131 | `to_string` of an integer: non-empty, a leading minus exactly for negatives, digits otherwise, no leading zero and no `-0`; zero is `0`; it parses back to the integer by `Decimal.DecimalRoundTrip` |
| Decimal.NoLeadingZeroIsNatDigits | client-radar/src-tauri/src/lib.rs:131 | a digit string without a leading zero is the rendering of the number it denotes |
| Decimal.CanonicalIsDecimal | client-radar/src-tauri/src/lib.rs:131 | a canonical decimal string (no leading zero, no `-0`) that parses to an integer is that integer's `to_string`, so canonicity plus the parsed value pin the rendering |
| PyModel.OrEmpty | client-radar/python_engine/auto_bridge.py:161-163 | `v if v else ""`: a truthy value passes unchanged, a falsy one becomes the empty string |
| PyModel.PyStr | client-radar/python_engine/auto_bridge.py:135 | `str(v)`: an integer becomes a canonical decimal string (hence, by `Decimal.CanonicalIsDecimal`, exactly its rendering) that parses back to it; text is kept; `None` becomes `None` |
| XmlTree.Lookup | client-radar/python_engine/auto_bridge.py:40 | the value under a key is found exactly when some entry carries that key, and it is one of the entries |
| XmlTree.Get | client-radar/python_engine/auto_bridge.py:40 | `.get` succeeds exactly on a dict; it returns the value under the key when the key is present and the default when it is absent |
| XmlTree.Has | client-radar/python_engine/auto_bridge.py:46 | `in` raises exactly on `None`; on a dict it is the key test, on a string the substring test, on a list the membership test |
| XmlTree.Index | client-radar/python_engine/auto_bridge.py:47 | `[key]` succeeds exactly on a dict holding the key, returning that key's value |
| XmlTree.Elements | client-radar/python_engine/auto_bridge.py:51 | iteration raises exactly on `None`; a list yields its items; a string yields its characters, each as a one-character string; a dict yields its keys in order |
| SnsShape.KindOf | client-radar/python_engine/auto_bridge.py:56-60 | an entry is a video exactly when its `Type` is the string `6` |
| SnsShape.MediaElements | client-radar/python_engine/auto_bridge.py:46-49 | a falsy content object or a missing `MediaList` gives no entries; a `MediaList` that is not a dict raises `AttributeError`; a dict `MediaList` without `Media` gives no entries; a single `Media` dict becomes a one-element list; a `Media` list is taken as is; a `None` `Media` raises `TypeError`; a string `Media` yields its characters; a string or list content object gives no entries unless it contains `MediaList`, and then raises `TypeError` |
| SnsShape.DictMediaIsSingletonList | client-radar/python_engine/auto_bridge.py:47-49 | a single `Media` dict is read exactly as the one-element list holding it |
| SnsShape.MissingMediaIsEmptyList | client-radar/python_engine/auto_bridge.py:47 | a `MediaList` without `Media` is read exactly as one whose `Media` is the empty list |
| SnsShape.Collect | client-radar/python_engine/auto_bridge.py:51-60 | the media loop completes exactly when no entry raises, and never yields more items than entries |
| SnsShape.CollectAppend | client-radar/python_engine/auto_bridge.py:51-60 | the media loop handles entries independently and in order: a concatenation yields the concatenated results |
| SnsShape.CollectSingle | client-radar/python_engine/auto_bridge.py:51-60 | a single entry contributes exactly what the entry reader makes of it |
| SnsShape.CollectKeepsEntry | client-radar/python_engine/auto_bridge.py:51-60 | when the loop completes, every entry the reader keeps appears in the output |
| SnsShape.CollectOnlyKept | client-radar/python_engine/auto_bridge.py:51-60 | every item in the output is what the reader made of some entry |
| BridgeXml.Clean | client-radar/python_engine/auto_bridge.py:33 | the cleaned text is no longer than the input and holds only tab, newline, carriage return and characters from space upwards |
| BridgeXml.CleanCounts | client-radar/python_engine/auto_bridge.py:33 | each allowed character keeps its number of occurrences and each other character disappears |
| BridgeXml.CleanIsSubsequence | client-radar/python_engine/auto_bridge.py:33 | cleaning only deletes characters and keeps the order of the rest |
| BridgeXml.CleanAppend | client-radar/python_engine/auto_bridge.py:33 | cleaning works per character, so it distributes over concatenation |
| BridgeXml.CleanKeepsAllowed | client-radar/python_engine/auto_bridge.py:33 | text made only of allowed characters passes unchanged |
| BridgeXml.CleanIdempotent | client-radar/python_engine/auto_bridge.py:33 | cleaning twice is the same as cleaning once |
| BridgeXml.FromRoot | client-radar/python_engine/auto_bridge.py:36-37 | the cut leaves the text unchanged when `<TimelineObject` is absent; otherwise it keeps the suffix that starts at the first occurrence |
| BridgeXml.CleanKeepsRootTag | client-radar/python_engine/auto_bridge.py:33-37 | a root tag present in the raw text is still found after cleaning |
| BridgeXml.CleanBeforeCutMatters | client-radar/python_engine/auto_bridge.py:33-37 | a control character inside the root tag hides it from a cut made before cleaning, but the cut made after cleaning finds it |
| BridgeXml.Prepare | client-radar/python_engine/auto_bridge.py:33-37 | the text handed to the parser is a suffix of the cleaned input: all of it when the cleaned text lacks `<TimelineObject`, otherwise the suffix starting at its first occurrence; it holds only allowed characters and starts with `<TimelineObject` whenever the raw input contains that tag |
| BridgeXml.PrepareIdempotent | client-radar/python_engine/auto_bridge.py:33-37 | preparing an already prepared text changes nothing |
| BridgeXml.DirectOrText | client-radar/python_engine/auto_bridge.py:52-54 | reading `Url` or `Thumb` succeeds exactly on a dict entry; an absent field gives the empty string, a dict field its `#text` (or the empty string), and any other field itself |
| BridgeXml.BridgeEntry | client-radar/python_engine/auto_bridge.py:51-60 | an entry succeeds exactly when it is a dict; it is kept exactly when its URL or thumbnail is truthy; its `src` is the URL when that is truthy and the thumbnail otherwise; kept entries have a truthy `src`; it is a video exactly when its `Type` is `6` |
| BridgeXml.BridgeReadsBothForms | client-radar/python_engine/auto_bridge.py:52-53 | a plain-text `Url` and the same text wrapped in a `#text` entry give the same media item |
| BridgeXml.Timeline | client-radar/python_engine/auto_bridge.py:40 | `data.get('TimelineObject', {})`: the value under the key when present, the empty dict when absent |
| BridgeXml.EitherCase | client-radar/python_engine/auto_bridge.py:42-44 | `a.get(Upper, d) or a.get(lower, d)`: a truthy capitalised value is returned; a falsy one falls through to the lowercase lookup with its default; the result is always the default or a value stored under one of the two keys |
| BridgeXml.Walk | client-radar/python_engine/auto_bridge.py:39-62 | the walk succeeds exactly when the tree and its `TimelineObject` are dicts and every media entry is a dict; the text is `ContentDesc` or `contentDesc`; the media are exactly what the entry reader keeps from the content object's entries, in order |
| BridgeXml.BridgeTextChoice | client-radar/python_engine/auto_bridge.py:42 | the text is a truthy `ContentDesc`; failing that, whatever `contentDesc` holds; failing both, the empty string |
| BridgeXml.Attempt | client-radar/python_engine/auto_bridge.py:31-62 | the `try` body succeeds exactly when the input is a string, the prepared text parses and the walk succeeds, and then yields the walk's content |
| BridgeXml.ParseSnsXml | client-radar/python_engine/auto_bridge.py:29-65 | a falsy input gives the empty result, and any exception gives it too; a truthy input whose `try` body succeeds gives that body's content; a non-empty result needs a string input that parsed after cleaning and cutting |
| BridgeXml.ExampleParses | client-radar/python_engine/auto_bridge.py:29-62 | a concrete document with text and one video entry gives that text and that video |
| BridgeXml.BadMediaLosesText | client-radar/python_engine/auto_bridge.py:51-65 | one malformed media entry discards the text as well |
| Interactions.ReadComment | client-radar/python_engine/auto_bridge.py:152-156 | reading a comment tuple succeeds exactly when it has at least eight positions, and then takes time, code, content, sender and reply-to from positions 3 to 7 |
| Interactions.BucketOf | client-radar/python_engine/auto_bridge.py:166-169 | code integer 1 is a like, code integer 2 a comment, and any other value (the text `1` included) neither |
| Interactions.Partition | client-radar/python_engine/auto_bridge.py:150-169 | the split completes exactly when every tuple has eight positions; likes carry code 1 and comments code 2; the bucket sizes equal the number of tuples with each code |
| Interactions.PartitionAppend | client-radar/python_engine/auto_bridge.py:150-169 | each bucket keeps tuple order: splitting a concatenation concatenates the buckets |
| Interactions.PartitionSingle | client-radar/python_engine/auto_bridge.py:150-169 | a single tuple lands in exactly the bucket its code names |
| BridgeFeeds.ToInteraction | client-radar/python_engine/auto_bridge.py:158-164 | an interaction keeps sender and time, has an empty name, keeps a truthy content or reply-to and replaces a falsy one with the empty string |
| BridgeFeeds.ProcessFeed | client-radar/python_engine/auto_bridge.py:133-185 | a feed is processed exactly when its tuple has eight positions, `get_comment` succeeds and every comment tuple is complete; the id is `str(item[6])`; the likes and comments are the interaction items of the partition's buckets, in order, and the counts match them |
| BridgeFeeds.FeedOutcome | client-radar/python_engine/auto_bridge.py:132-187 | one feed contributes exactly its record when it processes and nothing when it raises |
| BridgeFeeds.CollectFeeds | client-radar/python_engine/auto_bridge.py:132-187 | the loop yields at most one record per feed, exactly one per feed when none raises, and every record's counts match its lists |
| BridgeFeeds.Capped | client-radar/python_engine/auto_bridge.py:129-130 | at most 500 feeds remain; the kept feeds are a prefix; a list of 500 or fewer is kept whole |
| BridgeFeeds.BridgeFeedList | client-radar/python_engine/auto_bridge.py:129-187 | the bridge outputs at most 500 feeds, never more than it read, one per kept feed when none of them raises, all with matching counts |
| BridgeFeeds.CollectFeedsAppend | client-radar/python_engine/auto_bridge.py:132-187 | feeds are processed independently and in order |
| BridgeFeeds.FailingFeedSkipped | client-radar/python_engine/auto_bridge.py:186-187 | a feed that raises is dropped and the rest keep their order |
| BridgeFeeds.FeedInPlace | client-radar/python_engine/auto_bridge.py:132-187 | each feed contributes in its place exactly what it makes on its own: its record once when it processes, nothing when it raises |
| BridgeFeeds.ProcessedFeedKept | client-radar/python_engine/auto_bridge.py:132-187 | every feed that processes appears in the output |
| BridgeFeeds.BeyondCapIgnored | client-radar/python_engine/auto_bridge.py:129-130 | feeds after the 500th never influence the output |
| ExportXml.WrappedText | export_full_data.py:40-41 | `m.get(f, {}).get('#text', '')` succeeds exactly when the field is absent or a dict, gives the empty string when it is absent and the dict's `#text` (or the empty string) otherwise |
| ExportXml.ExportEntry | export_full_data.py:39-49 | an entry succeeds exactly when it and its `Url` and `Thumb` are dicts; it is kept exactly when either text is truthy; `url` is the URL text when truthy and the thumbnail text otherwise; `thumb` is always the thumbnail text; video exactly for `Type` `6` |
| ExportXml.ExportWalk | export_full_data.py:24-50 | the walk succeeds exactly when the tree and its `TimelineObject` are dicts, the capitalised `ContentObject` yields its entries and every entry reads without raising; the text is the lowercase `contentDesc` only; the media are exactly what the export entry reader keeps from those entries, in order |
| ExportXml.PlainUrlRaises | export_full_data.py:40 | a plain-string `Url` makes the entry raise |
| ExportXml.WrappedEntryAgrees | export_full_data.py:39-49 | on entries whose `Url` and `Thumb` are both `#text` wrappers, this walk and the bridge's keep the same entries, with the same kind, and `url` equals the bridge's `src` |
| ExportXml.ExportAttempt | export_full_data.py:24-50 | the `try` body succeeds exactly when the input is a string that parses and the walk succeeds, and then yields the walk's text and media |
| FullExport.ParseSnsXml | export_full_data.py:17-52 | a falsy input gives the empty result; any exception gives the `XML解析异常` notice and no media; otherwise the walk's text and media |
| FullExport.PlainUrlLosesText | export_full_data.py:40-52 | a document whose media entry has a plain-string `Url` yields the error notice instead of its text |
| FullExport.CapitalisedDescIgnored | export_full_data.py:29 | a document with only a capitalised `ContentDesc` yields the empty text |
| FullExport.ProcessInteractions | export_full_data.py:54-89 | the split succeeds exactly when the driver answers and every tuple is complete; likes keep sender and time; comments keep sender, raw content, time and reply-to; the list sizes equal the code counts |
| FullExport.BuildRecord | export_full_data.py:169-203 | a record is built exactly when the tuple has eight positions and the interactions succeed; its likes and comments are those of `process_interactions` and the counts match them; the id is `str(item[6])`; timestamp, date and author come from positions 1, 2 and 4 |
| FullExport.CountsAgreeWithBridge | export_full_data.py:54-89 | a feed this export records is also processed by the bridge, with the same like and comment counts |
| FullExport.Records | export_full_data.py:169-203 | the loop completes exactly when every feed builds, with one record per feed in order |
| FullExport.Export | export_full_data.py:153-208 | no feeds ends the run early; otherwise it writes exactly when every feed builds, and then the i-th record is the i-th feed's record, all with matching counts |
| JsonExport.ParseSnsXml | export_json.py:17-58 | the media list sits under `media` exactly when the input is truthy and the walk succeeds; the falsy and exception fallbacks put it under `images` |
| JsonExport.MediaField | export_json.py:133 | `parsed_content['media']` succeeds exactly when the list sits under `media` |
| JsonExport.BuildRecordWith | export_json.py:116-135 | a record is built exactly when the tuple has eight positions and the parser put its list under `media`; the id is the raw `FeedId` |
| JsonExport.RecordsWith | export_json.py:116-135 | the loop completes exactly when every feed builds, with one record per feed in order |
| JsonExport.ExportWith | export_json.py:110-135 | no feeds ends the run early; otherwise it writes exactly when every feed builds, and then the i-th record is the i-th feed's record |
| JsonExport.Export | export_json.py:108-135 | the export as written completes exactly when every feed has a truthy content that parses and walks without raising |
| JsonExport.EmptyContentCrashesExport | export_json.py:21-22 | a single feed with `NULL` content stops the export with a `KeyError` |
| JsonExport.UnparsableContentCrashesExport | export_json.py:56-58 | one feed whose XML does not parse stops the export, whatever feeds surround it |
| JsonExport.ParseSnsXmlFixed | export_json.py:17-58 | the corrected parser always puts the list under `media`, with the same fallbacks otherwise |
| JsonExport.FixKeepsContent | export_json.py:17-58 | the correction changes only the key: text and media are those of the parser as written |
| JsonExport.ExportFixed | export_json.py:108-135 | with the corrected parser, the export writes exactly when every feed tuple is complete, one record per feed |
| JsonExport.ExportFixedCompletes | export_json.py:116-135 | with the corrected parser, every record keeps the feed's id and sender and the parser's text |
| SnsSchema.SearchFrom | client-radar/src-tauri/src/lib.rs:72-78 | the tier search finds nothing exactly when no table falls in any tier; otherwise it finds a table in the lowest tier any table reaches, and the first such table |
| SnsSchema.SelectFeedTable | client-radar/src-tauri/src/lib.rs:72-83 | the table choice fails exactly when no name falls in any tier, reporting all names; otherwise it returns one of the names, in its own spelling |
| SnsSchema.InTier | client-radar/src-tauri/src/lib.rs:72-76 | the five tiers, in order: the lowercased name is `feedsv20`, `snsinfo`, `snsinfo2`, contains `feeds`, contains `snsinfo`; no name falls in a sixth tier |
| SnsSchema.ExactTiersInSubstringTiers | client-radar/src-tauri/src/lib.rs:72-76 | a name in an exact tier also falls in the substring tier that follows, so the substring tiers only widen the search |
| SnsSchema.RankFrom | client-radar/src-tauri/src/lib.rs:72-78 | the rank of a name is the first tier it falls in, or the tier count when it falls in none |
| SnsSchema.Rank | client-radar/src-tauri/src/lib.rs:72-78 | a name has a rank below the tier count exactly when it falls in some tier |
| SnsSchema.SelectionHasLeastRank | client-radar/src-tauri/src/lib.rs:72-78 | the chosen table has the least rank of all tables, and every table listed before it ranks strictly worse |
| SnsSchema.ExactNameBeatsSubstring | client-radar/src-tauri/src/lib.rs:74-76 | a table named `SnsInfo2` is chosen over an earlier table that only contains `feeds` |
| SnsSchema.ColumnIndexFrom | client-radar/src-tauri/src/lib.rs:94-105 | the column search returns the first column matching any candidate, ignoring ASCII case, or nothing exactly when none matches |
| SnsSchema.FindColumn | client-radar/src-tauri/src/lib.rs:94-105 | the column found is the earliest column matching a candidate, in its own spelling; none is found exactly when no column matches |
| SnsSchema.CandidateOrderIrrelevant | client-radar/src-tauri/src/lib.rs:94-105 | only the set of candidates matters, not their order |
| SnsSchema.ColumnOrderDecides | client-radar/src-tauri/src/lib.rs:98-100 | with columns `Time` then `CreateTime`, `Time` is chosen although `CreateTime` is listed first among the candidates |
| SnsSchema.PlanQuery | client-radar/src-tauri/src/lib.rs:94-111 | the plan fails exactly when no column matches a content candidate, reporting the table and all columns; otherwise content, id and time are the earliest matching columns, with id falling back to `rowid` and time to `0` only when no column matches |
| SnsSchema.FindColumnPrefix | client-radar/src-tauri/src/lib.rs:94-105 | columns listed after a match never change the column found |
| SnsSchema.ColumnIndexPrefix | client-radar/src-tauri/src/lib.rs:103-105 | a match found in a column list is found at the same place in any extension of that list |
| RadarDb.AsString | client-radar/src-tauri/src/lib.rs:42-44 | `String` conversion succeeds exactly on TEXT |
| RadarDb.Texts | client-radar/src-tauri/src/lib.rs:66-69 | `filter_map(Result::ok)` keeps exactly the TEXT values, and never more values than it was given |
| RadarDb.TextsAppend | client-radar/src-tauri/src/lib.rs:66-69 | the conversion works value by value and keeps the listing order |
| RadarDb.TextsSingle | client-radar/src-tauri/src/lib.rs:66-69 | a single TEXT value yields its string and any other value nothing |
| RadarDb.BlobBytes | client-radar/src-tauri/src/lib.rs:126 | a BLOB gives its bytes and anything else the empty vector |
| RadarDb.IdString | client-radar/src-tauri/src/lib.rs:129-134 | an INTEGER id becomes a canonical decimal string (no leading zero, no `-0`) that parses back to it, hence its `to_string` by `Decimal.CanonicalIsDecimal`; TEXT is kept; anything else becomes `0` |
| RadarDb.TimeU32 | client-radar/src-tauri/src/lib.rs:137-141 | the time is below 2^32 and congruent to the INTEGER modulo 2^32; any other value gives 0 |
| RadarDb.TimeInRangeUnchanged | client-radar/src-tauri/src/lib.rs:139 | a time that already fits in 32 bits is unchanged |
| RadarDb.NegativeTimeWraps | client-radar/src-tauri/src/lib.rs:139 | -1 becomes 4294967295 |
| RadarDb.ToRawItem | client-radar/src-tauri/src/lib.rs:125-147 | an INTEGER id becomes a canonical decimal string that parses back to it, a TEXT id is kept and any other id is `0`; the time is below 2^32, congruent to an INTEGER modulo 2^32 and 0 otherwise; the content is the lossy decoding of a BLOB and of the empty vector otherwise |
| RadarDb.KeepRows | client-radar/src-tauri/src/lib.rs:150-156 | the result is empty exactly when every row failed; no more items than rows; every time below 2^32 |
| RadarDb.KeepRowsAppend | client-radar/src-tauri/src/lib.rs:150-156 | rows are kept independently and in order |
| RadarDb.KeepRowsCount | client-radar/src-tauri/src/lib.rs:150-156 | the number of items equals the number of rows read without error |
| RadarDb.RowInPlace | client-radar/src-tauri/src/lib.rs:150-156 | each row contributes in its place exactly its item when it was read and nothing when the iterator yielded an error |
| RadarDb.PlanRead | client-radar/src-tauri/src/lib.rs:61-111 | a failed table listing, or a failed column listing of the chosen table, is a driver error; "no feed table" is reported, with all table names, exactly when the table choice fails; once the table and its columns are listed, the plan succeeds exactly when a content column matches, queries that table with the matched columns, and otherwise reports the table and its columns |
| RadarDb.RunQuery | client-radar/src-tauri/src/lib.rs:124-163 | a failed query is a driver error; once rows are read, the result is the rows read without error, and it is an error exactly when no row was read without error, naming the table, the content column and all columns |
| RadarDb.ReadMoments | client-radar/src-tauri/src/lib.rs:61-164 | planning errors pass through unchanged; a successful plan gives exactly the planned query's outcome; a success is non-empty |
| RadarDb.ReadMomentsCount | client-radar/src-tauri/src/lib.rs:113-163 | once the plan succeeds and the query runs, the read succeeds exactly when some row was read without error, with one item per such row |
| RadarDb.ToContact | client-radar/src-tauri/src/lib.rs:40-46 | a contact maps exactly when its user name is TEXT; remark and nickname are TEXT or the empty string |
| RadarDb.KeepContacts | client-radar/src-tauri/src/lib.rs:48-55 | a contact is in the result exactly when some row was read, mapped and has a non-empty user name |
| RadarDb.KeepContactsAppend | client-radar/src-tauri/src/lib.rs:48-55 | contacts are kept independently and in order |
| RadarDb.ReadContacts | client-radar/src-tauri/src/lib.rs:29-57 | the read fails exactly when the query fails; otherwise the result is the kept contacts |
| RadarDb.NullNamesKept | client-radar/src-tauri/src/lib.rs:43-44 | a contact with `NULL` remark and nickname is kept, with both empty |

## Left out

- **Key retrieval and decryption.** Reading the WeChat key and decrypting
  the databases (`read_info`, `decrypt_db_file_v3`) are outside the model,
  and so are the file-system probing of candidate paths and the JSON
  printing and writing. These are I/O.
- **The rest of the readers' sources.** `auto_decrypt_wechat`, `run`,
  `client-radar/src/main.ts` and `find_active_db.py` are not part of this
  model. They launch processes or locate files and contain no selection
  logic.
- **XML parsing.** `xmltodict.parse` is a parameter of the model, and its
  own tokenisation and attribute handling are not modelled. A non-string
  input makes the parse step raise.
- **SQL evaluation.** The database evaluates the SQL text, the
  `WHERE … IS NOT NULL` and `LIMIT 200` clauses of the moments query, and
  the `NOT LIKE` and `VerifyFlag` filters of the contacts query. Each query
  is a parameter whose answer is the rows it returned.
- **Query failures.** Opening, prepare and query failures are one error,
  `DbFailed`, without their message text. An open failure shows up as the
  failure of the first query.
- **`String::from_utf8_lossy`.** It is a parameter of the model.
- **ASCII case folding.** The table tiers lowercase names in
  ASCII, where the source uses Unicode `to_lowercase`. For the needles
  `feeds` and `snsinfo` the substring test gives the same answer, because
  no non-ASCII character lowercases to a lone ASCII letter of those needles.
- **SQL text.** The planned query records the chosen table and columns in
  place of the formatted SQL string.
- **Closing the driver.** `sns_driver.close()` and `sns.close()` have no
  effect on the output and are not modelled.
- **Progress output.** The `tqdm` progress bar of `export_full_data.py` is
  not modelled.
- **Exception types.** Exceptions are classified by type only. Their
  messages and tracebacks are not modelled.
- **The driver's `get_feeds` and `get_comment`.** They are parameters
  (`CommentReader`, the feed list). A `get_comment` that raises, or that
  returns something not iterable, is `None`.
- **Integer widths.** Python integers are unbounded and are modelled as
  such. Rust ids are `i64` (`RadarDb.Int64`), and the 32-bit truncation of
  times is written out.

## Findings

| source | as written | input that shows it | evidently intended | confidence | as-written member | corrected member |
|---|---|---|---|---|---|---|
| export_json.py:22 | the falsy-input and exception fallbacks of `parse_sns_xml` return their empty list under `images`, while `main` reads `parsed_content['media']` at line 133, so a `KeyError` ends the export and no file is written | one feed tuple whose content (position 7) is `NULL`, or whose XML does not parse | every branch returns the list under `media`, so such a feed exports with empty media | high; not executed | JsonExport.Export (shown by JsonExport.EmptyContentCrashesExport) | JsonExport.ExportFixed (proved by JsonExport.ExportFixedCompletes) |
