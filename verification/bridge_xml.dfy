/** `parse_sns_xml` of client-radar/python_engine/auto_bridge.py: a control
    character filter, a cut to the root tag, then a tree walk that accepts both
    `ContentDesc`/`contentDesc` and `ContentObject`/`contentObject`, and `Url`/
    `Thumb` given either as plain text or as a `#text` wrapper. */
module BridgeXml {
  import opened Results
  import opened Strings
  import opened PyModel
  import opened XmlTree
  import opened SnsShape

  /** One element of the output `media` list: `{"type": ..., "src": ...}`. */
  datatype MediaItem = MediaItem(kind: MediaKind, src: Node)

  /** The returned `{"text": ..., "media": [...]}`. */
  datatype BridgeContent = BridgeContent(text: Node, media: seq<MediaItem>)

  /** The result for a falsy input and for every caught exception. */
  const Empty := BridgeContent(Str(""), [])

  const RootTag := "<TimelineObject"

  /** A character the cleaning pass keeps: tab, newline, carriage return, or
      anything from the space character upwards. */
  predicate Allowed(c: char) {
    c == '\t' || c == '\n' || c == '\r' || c >= ' '
  }

  /** The cleaning comprehension over the characters of the input. */
  function Clean(s: string): (r: string)
    ensures |r| <= |s|
    ensures forall i :: 0 <= i < |r| ==> Allowed(r[i])
    decreases |s|
  {
    if |s| == 0 then [] else (if Allowed(s[0]) then [s[0]] else []) + Clean(s[1..])
  }

  /** `s[s.find(RootTag):]` when the tag occurs, `s` otherwise. */
  function FromRoot(s: string): (r: string)
    ensures |r| <= |s| && r == s[|s| - |r|..]
    ensures !Occurs(s, RootTag) ==> r == s
    ensures Occurs(s, RootTag) ==> |r| >= |RootTag| && r[..|RootTag|] == RootTag
    ensures Occurs(s, RootTag) ==> forall j :: 0 <= j < |s| - |r| ==> !OccursAt(s, RootTag, j)
  {
    var start := Find(s, RootTag);
    if start != -1 then s[start..] else s
  }

  /** The text handed to the XML parser: cleaned first, then cut. It holds
      only allowed characters, and starts at the root tag whenever the raw
      input contains one. */
  function Prepare(s: string): (r: string)
    ensures |r| <= |Clean(s)| && r == Clean(s)[|Clean(s)| - |r|..]
    ensures !Occurs(Clean(s), RootTag) ==> r == Clean(s)
    ensures Occurs(Clean(s), RootTag) ==> |r| >= |RootTag| && r[..|RootTag|] == RootTag
    ensures Occurs(Clean(s), RootTag) ==> forall j :: 0 <= j < |Clean(s)| - |r| ==> !OccursAt(Clean(s), RootTag, j)
    ensures |r| <= |s|
    ensures forall i :: 0 <= i < |r| ==> Allowed(r[i])
    ensures Occurs(s, RootTag) ==> |r| >= |RootTag| && r[..|RootTag|] == RootTag
  {
    assert Occurs(s, RootTag) ==> Occurs(Clean(s), RootTag) by {
      if Occurs(s, RootTag) {
        CleanKeepsRootTag(s);
      }
    }
    FromRoot(Clean(s))
  }

  /** `m.get(field, '')`, replaced by its `.get('#text', '')` when it is a dict. */
  function DirectOrText(m: Node, field: string): (r: Result<Node, PyError>)
    ensures r.Ok? <==> m.Dict?
    ensures r.Ok? && Lookup(m.entries, field).None? ==> r.value == Str("")
    ensures r.Ok? && Lookup(m.entries, field).Some? && !Lookup(m.entries, field).value.Dict? ==>
      r.value == Lookup(m.entries, field).value
    ensures r.Ok? && Lookup(m.entries, field).Some? && Lookup(m.entries, field).value.Dict? ==>
      r.value == Lookup(Lookup(m.entries, field).value.entries, "#text").GetOr(Str(""))
  {
    var v :- Get(m, field, Str(""));
    if v.Dict? then Get(v, "#text", Str("")) else Ok(v)
  }

  /** One `Media` entry: `src` is the URL when truthy, the thumbnail
      otherwise; an entry with a falsy `src` is dropped. Reading a field of an
      entry that is not a dict raises. */
  function BridgeEntry(m: Node): (r: Result<Option<MediaItem>, PyError>)
    ensures r.Ok? <==> m.Dict?
    ensures r.Ok? && r.value.Some? ==> r.value.value.src.Truthy()
    ensures r.Ok? && r.value.Some? ==>
      (r.value.value.kind == Video <==> Lookup(m.entries, "Type") == Some(Str("6")))
    ensures r.Ok? ==>
      (r.value.Some? <==> DirectOrText(m, "Url").value.Truthy() || DirectOrText(m, "Thumb").value.Truthy())
    ensures r.Ok? && r.value.Some? && DirectOrText(m, "Url").value.Truthy() ==> r.value.value.src == DirectOrText(m, "Url").value
    ensures r.Ok? && r.value.Some? && !DirectOrText(m, "Url").value.Truthy() ==> r.value.value.src == DirectOrText(m, "Thumb").value
  {
    match m
    case Dict(_) =>
      var url := DirectOrText(m, "Url").value;
      var thumb := DirectOrText(m, "Thumb").value;
      var typeCode := Lookup(m.entries, "Type").GetOr(Str("0"));
      var src := if url.Truthy() then url else thumb;
      Ok(if src.Truthy() then Some(MediaItem(KindOf(typeCode), src)) else None)
    case _ => Err(AttributeError)
  }

  /** `data.get('TimelineObject', {})`, read without raising. */
  function Timeline(data: Node): (r: Node)
    requires data.Dict?
    ensures Lookup(data.entries, "TimelineObject").Some? ==> r == Lookup(data.entries, "TimelineObject").value
    ensures Lookup(data.entries, "TimelineObject").None? ==> r == Dict([])
  {
    Lookup(data.entries, "TimelineObject").GetOr(Dict([]))
  }

  /** `a.get(upper, default) or a.get(lower, default)` on a dict. */
  function EitherCase(a: Node, upper: string, lower: string, default: Node): (r: Node)
    requires a.Dict?
    ensures Lookup(a.entries, upper).Some? && Lookup(a.entries, upper).value.Truthy() ==> r == Lookup(a.entries, upper).value
    ensures Lookup(a.entries, upper).Some? && !Lookup(a.entries, upper).value.Truthy() ==> r == Lookup(a.entries, lower).GetOr(default)
    ensures Lookup(a.entries, upper).None? && !default.Truthy() ==> r == Lookup(a.entries, lower).GetOr(default)
    ensures r == default || (upper, r) in a.entries || (lower, r) in a.entries
  {
    var u := Lookup(a.entries, upper).GetOr(default);
    if u.Truthy() then u else Lookup(a.entries, lower).GetOr(default)
  }

  /** The walk inside the `try`, from the parsed tree to `{text, media}`. */
  function Walk(data: Node): (r: Result<BridgeContent, PyError>)
    ensures r.Ok? <==> (data.Dict? && Timeline(data).Dict? &&
      var obj := EitherCase(Timeline(data), "ContentObject", "contentObject", Dict([]));
      MediaElements(obj).Ok? && forall i :: 0 <= i < |MediaElements(obj).value| ==> MediaElements(obj).value[i].Dict?)
    ensures r.Ok? ==> r.value.text == EitherCase(Timeline(data), "ContentDesc", "contentDesc", Str(""))
    ensures r.Ok? ==>
      var obj := EitherCase(Timeline(data), "ContentObject", "contentObject", Dict([]));
      |r.value.media| <= |MediaElements(obj).value|
    ensures r.Ok? ==>
      var obj := EitherCase(Timeline(data), "ContentObject", "contentObject", Dict([]));
      Collect(MediaElements(obj).value, BridgeEntry) == Ok(r.value.media)
  {
    match data
    case Dict(_) =>
      var timeline := Timeline(data);
      if !timeline.Dict? then Err(AttributeError)
      else
        var text := EitherCase(timeline, "ContentDesc", "contentDesc", Str(""));
        var contentObj := EitherCase(timeline, "ContentObject", "contentObject", Dict([]));
        var medias :- MediaElements(contentObj);
        var media :- Collect(medias, BridgeEntry);
        Ok(BridgeContent(text, media))
    case _ => Err(AttributeError)
  }

  /** Everything inside the `try`: iterating the input as characters (which
      raises for a non-string), cleaning, cutting, parsing and walking. */
  function Attempt(input: Value, xmlParse: string -> Option<Node>): (r: Result<BridgeContent, PyError>)
    ensures r.Ok? <==> input.Text? && xmlParse(Prepare(input.s)).Some? && Walk(xmlParse(Prepare(input.s)).value).Ok?
    ensures r.Ok? ==> r.value == Walk(xmlParse(Prepare(input.s)).value).value
  {
    if !input.Text? then Err(TypeError)
    else
      var tree := xmlParse(Prepare(input.s));
      if tree.None? then Err(ParseError) else Walk(tree.value)
  }

  /** `parse_sns_xml(xml_str)`; `xmlParse` stands for `xmltodict.parse`,
      `None` meaning that it raised. */
  function ParseSnsXml(input: Value, xmlParse: string -> Option<Node>): (r: BridgeContent)
    ensures !input.Truthy() ==> r == Empty
    ensures Attempt(input, xmlParse).Err? ==> r == Empty
    ensures r != Empty ==> input.Text? && xmlParse(Prepare(input.s)).Some?
    ensures input.Truthy() && Attempt(input, xmlParse).Ok? ==> r == Attempt(input, xmlParse).value
  {
    if !input.Truthy() then Empty
    else
      match Attempt(input, xmlParse)
      case Ok(c) => c
      case Err(_) => Empty
  }

  /** Preparing is idempotent: the prepared text is already clean and, when
      it holds the root tag, already starts with it. */
  lemma PrepareIdempotent(s: string)
    ensures Prepare(Prepare(s)) == Prepare(s)
  {
    var r := Prepare(s);
    CleanKeepsAllowed(r);
    if Occurs(Clean(s), RootTag) {
      assert OccursAt(r, RootTag, 0);
      assert Find(r, RootTag) == 0;
    } else {
      assert r == Clean(s);
    }
  }

  /** `a` can be obtained from `b` by deleting characters. */
  ghost predicate IsSubsequence(a: string, b: string)
    decreases |b|
  {
    |a| == 0 || (|b| > 0 && ((a[0] == b[0] && IsSubsequence(a[1..], b[1..])) || IsSubsequence(a, b[1..])))
  }

  /** Cleaning works character by character: it distributes over concatenation. */
  lemma {:induction false} CleanAppend(a: string, b: string)
    ensures Clean(a + b) == Clean(a) + Clean(b)
    decreases |a|
  {
    if |a| == 0 {
      assert a + b == b;
    } else {
      assert (a + b)[0] == a[0];
      assert (a + b)[1..] == a[1..] + b;
      CleanAppend(a[1..], b);
    }
  }

  /** A string of allowed characters passes the filter unchanged. */
  lemma {:induction false} CleanKeepsAllowed(s: string)
    requires forall i :: 0 <= i < |s| ==> Allowed(s[i])
    ensures Clean(s) == s
    decreases |s|
  {
    if |s| > 0 {
      CleanKeepsAllowed(s[1..]);
      assert s == [s[0]] + s[1..];
    }
  }

  /** Cleaning twice is cleaning once. */
  lemma CleanIdempotent(s: string)
    ensures Clean(Clean(s)) == Clean(s)
  {
    CleanKeepsAllowed(Clean(s));
  }

  /** The cleaned string is the input with some characters deleted. */
  lemma {:induction false} CleanIsSubsequence(s: string)
    ensures IsSubsequence(Clean(s), s)
    decreases |s|
  {
    if |s| > 0 {
      CleanIsSubsequence(s[1..]);
      if Allowed(s[0]) {
        assert Clean(s)[0] == s[0];
        assert Clean(s)[1..] == Clean(s[1..]);
      } else {
        assert Clean(s) == Clean(s[1..]);
      }
    }
  }

  /** The filter keeps exactly the allowed characters: every allowed
      character appears as often as in the input, every other one never. */
  lemma {:induction false} CleanCounts(s: string, c: char)
    ensures multiset(Clean(s))[c] == if Allowed(c) then multiset(s)[c] else 0
    decreases |s|
  {
    if |s| > 0 {
      CleanCounts(s[1..], c);
      assert s == [s[0]] + s[1..];
      assert multiset(s) == multiset([s[0]]) + multiset(s[1..]);
    }
  }

  /** An occurrence of a needle made of allowed characters survives cleaning. */
  lemma CleanKeepsOccurrence(s: string, needle: string, i: int)
    requires OccursAt(s, needle, i)
    requires forall k :: 0 <= k < |needle| ==> Allowed(needle[k])
    ensures OccursAt(Clean(s), needle, |Clean(s[..i])|)
  {
    var pre, post := s[..i], s[i + |needle|..];
    assert s == pre + (needle + post);
    CleanAppend(pre, needle + post);
    CleanAppend(needle, post);
    CleanKeepsAllowed(needle);
    var c := Clean(s);
    assert c == Clean(pre) + (needle + Clean(post));
    var n := |Clean(pre)|;
    assert c[n..n + |needle|] == needle;
  }

  /** The root tag is made of allowed characters, so an occurrence of it in
      the raw input is still found after cleaning. */
  lemma CleanKeepsRootTag(s: string)
    requires Occurs(s, RootTag)
    ensures Occurs(Clean(s), RootTag)
  {
    var i :| OccursAt(s, RootTag, i);
    CleanKeepsOccurrence(s, RootTag, i);
  }

  /** The root tag with a control character after its `<`. */
  function BrokenTag(): string {
    "<" + "\U{1}" + RootTag[1..]
  }

  lemma {:induction false} BrokenTagHidesRoot(s: string)
    requires s == "x" + BrokenTag()
    ensures FromRoot(s) == s
  {
    assert !OccursAt(s, RootTag, 0) by { assert s[0] != RootTag[0]; }
    assert !OccursAt(s, RootTag, 1) by { assert s[2] != RootTag[1]; }
    assert !OccursAt(s, RootTag, 2) by { assert s[2] != RootTag[0]; }
  }

  /** Cleaning drops a single disallowed character between allowed text. */
  lemma {:induction false} CleanDropsOne(p: string, c: char, q: string)
    requires forall i :: 0 <= i < |p| ==> Allowed(p[i])
    requires forall i :: 0 <= i < |q| ==> Allowed(q[i])
    requires !Allowed(c)
    ensures Clean(p + [c] + q) == p + q
  {
    var pc := p + [c];
    CleanAppend(pc, q);
    CleanAppend(p, [c]);
    CleanKeepsAllowed(p);
    CleanKeepsAllowed(q);
    assert Clean([c]) == [] by {
      assert [c][1..] == [];
    }
    assert Clean(pc) == p;
  }

  lemma CleanRepairsTag(s: string)
    requires s == "x" + BrokenTag()
    ensures Clean(s) == "x" + RootTag
  {
    var p, t := "x<", RootTag[1..];
    assert s == p + ['\U{1}'] + t;
    assert forall i :: 0 <= i < |RootTag| ==> RootTag[i] >= ' ';
    CleanDropsOne(p, '\U{1}', t);
    assert RootTag == [RootTag[0]] + t;
  }

  lemma {:induction false} CutAfterPrefix(c: string)
    requires c == "x" + RootTag
    ensures FromRoot(c) == RootTag
  {
    assert !OccursAt(c, RootTag, 0) by { assert c[0] != RootTag[0]; }
    assert c[1..1 + |RootTag|] == RootTag;
    assert OccursAt(c, RootTag, 1);
  }

  /** Cleaning must come before the cut: a control character inside the root
      tag hides it from a cut made first, but not from one made after cleaning. */
  lemma CleanBeforeCutMatters()
    ensures Prepare("x" + BrokenTag()) == RootTag
    ensures Clean(FromRoot("x" + BrokenTag())) == "x" + RootTag
  {
    var s := "x" + BrokenTag();
    BrokenTagHidesRoot(s);
    CleanRepairsTag(s);
    CutAfterPrefix(Clean(s));
  }

  /** A `Url` is read alike whether it is plain text or wrapped in a
      `#text` entry: both spellings give the same media item. */
  lemma BridgeReadsBothForms(u: Node, rest: seq<(string, Node)>)
    requires !u.Dict?
    ensures BridgeEntry(Dict([("Url", u)] + rest)) == BridgeEntry(Dict([("Url", Dict([("#text", u)]))] + rest))
  {
    var plain, wrapped := [("Url", u)] + rest, [("Url", Dict([("#text", u)]))] + rest;
    assert plain[0].0 == "Url" && plain[1..] == rest;
    assert wrapped[0].0 == "Url" && wrapped[1..] == rest;
    assert Lookup(plain, "Thumb") == Lookup(rest, "Thumb");
    assert Lookup(wrapped, "Thumb") == Lookup(rest, "Thumb");
    assert Lookup(plain, "Type") == Lookup(rest, "Type");
    assert Lookup(wrapped, "Type") == Lookup(rest, "Type");
    assert DirectOrText(Dict(wrapped), "Url") == Ok(u);
  }

  /** The text is `ContentDesc` when truthy, otherwise whatever `contentDesc`
      holds, otherwise the empty string. */
  lemma BridgeTextChoice(data: Node)
    requires Walk(data).Ok?
    ensures var es := Timeline(data).entries; var text := Walk(data).value.text;
      && (Lookup(es, "ContentDesc").Some? && Lookup(es, "ContentDesc").value.Truthy() ==> text == Lookup(es, "ContentDesc").value)
      && (!(Lookup(es, "ContentDesc").Some? && Lookup(es, "ContentDesc").value.Truthy()) && Lookup(es, "contentDesc").Some? ==> text == Lookup(es, "contentDesc").value)
      && (!(Lookup(es, "ContentDesc").Some? && Lookup(es, "ContentDesc").value.Truthy()) && Lookup(es, "contentDesc").None? ==> text == Str(""))
  {
  }

  /** The feed of the worked example: text `hello` and one video. */
  const ExampleTree := Dict([("TimelineObject", Dict([
    ("ContentDesc", Str("hello")),
    ("ContentObject", Dict([("MediaList", Dict([("Media", Dict([("Type", Str("6")), ("Url", Str("http://x/v.mp4"))]))]))]))]))])

  lemma ExampleWalks()
    ensures Walk(ExampleTree) == Ok(BridgeContent(Str("hello"), [MediaItem(Video, Str("http://x/v.mp4"))]))
  {
    var tl := Timeline(ExampleTree);
    var obj := EitherCase(tl, "ContentObject", "contentObject", Dict([]));
    var m := Dict([("Type", Str("6")), ("Url", Str("http://x/v.mp4"))]);
    var item := MediaItem(Video, Str("http://x/v.mp4"));
    assert MediaElements(obj) == Ok([m]);
    assert DirectOrText(m, "Url") == Ok(Str("http://x/v.mp4"));
    assert BridgeEntry(m) == Ok(Some(item));
    CollectSingle([m][0], BridgeEntry);
  }

  lemma ExampleParses(s: string, xmlParse: string -> Option<Node>)
    requires s != "" && xmlParse(Prepare(s)) == Some(ExampleTree)
    ensures ParseSnsXml(Text(s), xmlParse) == BridgeContent(Str("hello"), [MediaItem(Video, Str("http://x/v.mp4"))])
  {
    ExampleWalks();
    assert Attempt(Text(s), xmlParse) == Walk(ExampleTree);
  }

  /** One exception anywhere loses the text as well: the same document with a
      `Media` list holding a bare string instead of a dict yields the empty result. */
  lemma BadMediaLosesText(s: string, xmlParse: string -> Option<Node>)
    requires s != ""
    requires xmlParse(Prepare(s)) == Some(Dict([("TimelineObject", Dict([
      ("ContentDesc", Str("hello")),
      ("ContentObject", Dict([("MediaList", Dict([("Media", List([Str("x")]))]))]))]))]))
    ensures ParseSnsXml(Text(s), xmlParse) == Empty
  {
  }
}
