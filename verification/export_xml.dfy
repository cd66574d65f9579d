/** The tree walk that export_full_data.py and export_json.py share inside
    their `try` blocks (the two copies are identical there and differ only in
    what they return outside it): text from lowercase `contentDesc` only, the
    content object from capitalised `ContentObject` only, and `Url`/`Thumb`
    read only through `.get('#text')`, which raises on a plain string. */
module ExportXml {
  import opened Results
  import opened PyModel
  import opened XmlTree
  import opened SnsShape
  import BridgeXml

  /** How a run of an export script's `main` ends: it returns early when the
      reader found no feeds, stops on an uncaught exception (no file is
      written), or writes the records. */
  datatype ExportOutcome<T> = NoFeeds | Crashed(error: PyError) | Written(records: seq<T>)

  /** `{"type": ..., "url": ..., "thumb": ...}`. */
  datatype ExportMedia = ExportMedia(kind: MediaKind, url: Node, thumb: Node)

  /** `m.get(field, {}).get('#text', '')`. */
  function WrappedText(m: Node, field: string): (r: Result<Node, PyError>)
    requires m.Dict?
    ensures r.Ok? <==> Lookup(m.entries, field).None? || Lookup(m.entries, field).value.Dict?
    ensures Lookup(m.entries, field).None? ==> r == Ok(Str(""))
    ensures r.Ok? && Lookup(m.entries, field).Some? ==>
      r.value == Lookup(Lookup(m.entries, field).value.entries, "#text").GetOr(Str(""))
  {
    Get(Lookup(m.entries, field).GetOr(Dict([])), "#text", Str(""))
  }

  /** One `Media` entry: kept iff its `Url` or `Thumb` text is truthy, with
      `url` falling back to the thumbnail and `thumb` always the thumbnail. */
  function ExportEntry(m: Node): (r: Result<Option<ExportMedia>, PyError>)
    ensures r.Ok? <==> m.Dict? && WrappedText(m, "Url").Ok? && WrappedText(m, "Thumb").Ok?
    ensures r.Ok? ==>
      (r.value.Some? <==> WrappedText(m, "Url").value.Truthy() || WrappedText(m, "Thumb").value.Truthy())
    ensures r.Ok? && r.value.Some? ==> r.value.value.thumb == WrappedText(m, "Thumb").value
    ensures r.Ok? && r.value.Some? ==> r.value.value.url.Truthy()
    ensures r.Ok? && r.value.Some? && WrappedText(m, "Url").value.Truthy() ==> r.value.value.url == WrappedText(m, "Url").value
    ensures r.Ok? && r.value.Some? && !WrappedText(m, "Url").value.Truthy() ==> r.value.value.url == WrappedText(m, "Thumb").value
    ensures r.Ok? && r.value.Some? ==>
      (r.value.value.kind == Video <==> Lookup(m.entries, "Type") == Some(Str("6")))
  {
    match m
    case Dict(_) =>
      var url :- WrappedText(m, "Url");
      var thumb :- WrappedText(m, "Thumb");
      var typeCode := Lookup(m.entries, "Type").GetOr(Str("0"));
      Ok(if url.Truthy() || thumb.Truthy()
         then Some(ExportMedia(KindOf(typeCode), if url.Truthy() then url else thumb, thumb))
         else None)
    case _ => Err(AttributeError)
  }

  /** The walk from the parsed tree to the text and the media list. */
  function ExportWalk(data: Node): (r: Result<(Node, seq<ExportMedia>), PyError>)
    ensures r.Ok? <==> (data.Dict? && Lookup(data.entries, "TimelineObject").GetOr(Dict([])).Dict? &&
      var es := Lookup(data.entries, "TimelineObject").GetOr(Dict([])).entries;
      var medias := MediaElements(Lookup(es, "ContentObject").GetOr(Dict([])));
      medias.Ok? && forall i :: 0 <= i < |medias.value| ==> ExportEntry(medias.value[i]).Ok?)
    ensures r.Ok? ==>
      var es := Lookup(data.entries, "TimelineObject").GetOr(Dict([])).entries;
      r.value.0 == Lookup(es, "contentDesc").GetOr(Str(""))
    ensures r.Ok? ==>
      var es := Lookup(data.entries, "TimelineObject").GetOr(Dict([])).entries;
      var medias := MediaElements(Lookup(es, "ContentObject").GetOr(Dict([])));
      medias.Ok? && |r.value.1| <= |medias.value| &&
      forall i :: 0 <= i < |medias.value| ==> ExportEntry(medias.value[i]).Ok?
    ensures r.Ok? ==>
      var es := Lookup(data.entries, "TimelineObject").GetOr(Dict([])).entries;
      var medias := MediaElements(Lookup(es, "ContentObject").GetOr(Dict([])));
      Collect(medias.value, ExportEntry) == Ok(r.value.1)
  {
    var timeline :- Get(data, "TimelineObject", Dict([]));
    var text :- Get(timeline, "contentDesc", Str(""));
    var contentObj := Lookup(timeline.entries, "ContentObject").GetOr(Dict([]));
    var medias :- MediaElements(contentObj);
    var media :- Collect(medias, ExportEntry);
    Ok((text, media))
  }

  /** Everything inside the `try`: parsing, then walking. A non-string input
      makes `xmltodict.parse` raise. */
  function ExportAttempt(input: Value, xmlParse: string -> Option<Node>): (r: Result<(Node, seq<ExportMedia>), PyError>)
    ensures r.Ok? <==> input.Text? && xmlParse(input.s).Some? && ExportWalk(xmlParse(input.s).value).Ok?
    ensures r.Ok? ==> r.value == ExportWalk(xmlParse(input.s).value).value
  {
    if !input.Text? then Err(TypeError)
    else
      var tree := xmlParse(input.s);
      if tree.None? then Err(ParseError) else ExportWalk(tree.value)
  }

  /** A plain-string `Url` (an element without attributes) raises, so the whole walk fails. */
  lemma PlainUrlRaises(m: Node, u: string)
    requires m.Dict? && Lookup(m.entries, "Url") == Some(Str(u))
    ensures ExportEntry(m).Err?
  {
  }

  /** On entries whose `Url` and `Thumb` are both `#text` wrappers, this walk
      and the bridge's agree: the same entries are kept, with the same kind,
      and `url` is the bridge's `src`. */
  lemma WrappedEntryAgrees(m: Node)
    requires m.Dict?
    requires Lookup(m.entries, "Url").Some? && Lookup(m.entries, "Url").value.Dict?
    requires Lookup(m.entries, "Thumb").Some? && Lookup(m.entries, "Thumb").value.Dict?
    ensures ExportEntry(m).Ok? && BridgeXml.BridgeEntry(m).Ok?
    ensures ExportEntry(m).value.Some? <==> BridgeXml.BridgeEntry(m).value.Some?
    ensures ExportEntry(m).value.Some? ==>
      && ExportEntry(m).value.value.url == BridgeXml.BridgeEntry(m).value.value.src
      && ExportEntry(m).value.value.kind == BridgeXml.BridgeEntry(m).value.value.kind
  {
    assert WrappedText(m, "Url").value == BridgeXml.DirectOrText(m, "Url").value;
    assert WrappedText(m, "Thumb").value == BridgeXml.DirectOrText(m, "Thumb").value;
  }
}
