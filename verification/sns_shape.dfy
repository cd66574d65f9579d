/** The steps the three `parse_sns_xml` copies share: locating
    `ContentObject.MediaList.Media`, normalising a single `Media` dict to a
    one-element list, and walking the entries in order, dropping the ones an
    entry reader rejects and aborting on the first exception. */
module SnsShape {
  import opened Results
  import opened PyModel
  import opened XmlTree
  import opened Strings

  datatype MediaKind = Image | Video

  /** `"video" if type_code == '6' else "image"`: only the exact string `6` is a video. */
  function KindOf(typeCode: Node): (k: MediaKind)
    ensures k == Video <==> typeCode == Str("6")
  {
    if typeCode == Str("6") then Video else Image
  }

  /** The content object is a dict whose `MediaList` is a dict. */
  predicate HasMediaList(contentObj: Node) {
    contentObj.Dict? && Lookup(contentObj.entries, "MediaList").Some? && Lookup(contentObj.entries, "MediaList").value.Dict?
  }

  /** The `Media` value under `ContentObject.MediaList`, when the content
      object is a dict whose `MediaList` is a dict holding a `Media` entry. */
  function MediaValue(contentObj: Node): Option<Node> {
    if contentObj.Dict? then
      var ml := Lookup(contentObj.entries, "MediaList");
      if ml.Some? && ml.value.Dict? then Lookup(ml.value.entries, "Media") else None
    else None
  }

  /** `if content_obj and 'MediaList' in content_obj:` then
      `content_obj['MediaList'].get('Media', [])`, with a dict wrapped as
      `[dict]` and anything else iterated. */
  function MediaElements(contentObj: Node): (r: Result<seq<Node>, PyError>)
    ensures !contentObj.Truthy() ==> r == Ok([])
    ensures MediaValue(contentObj).Some? && MediaValue(contentObj).value.Dict? ==> r == Ok([MediaValue(contentObj).value])
    ensures MediaValue(contentObj).Some? && MediaValue(contentObj).value.List? ==> r == Ok(MediaValue(contentObj).value.items)
    ensures contentObj.Dict? && Lookup(contentObj.entries, "MediaList").None? ==> r == Ok([])
    ensures contentObj.Dict? && Lookup(contentObj.entries, "MediaList").Some? && !Lookup(contentObj.entries, "MediaList").value.Dict? ==>
      r == Err(AttributeError)
    ensures HasMediaList(contentObj) && MediaValue(contentObj).None? ==> r == Ok([])
    ensures MediaValue(contentObj) == Some(Null) ==> r == Err(TypeError)
    ensures MediaValue(contentObj).Some? && MediaValue(contentObj).value.Str? ==>
      var t := MediaValue(contentObj).value.s;
      r.Ok? && |r.value| == |t| && forall i :: 0 <= i < |t| ==> r.value[i] == Str([t[i]])
    ensures contentObj.Str? ==> r == if Contains(contentObj.s, "MediaList") then Err(TypeError) else Ok([])
    ensures contentObj.List? ==> r == if Str("MediaList") in contentObj.items then Err(TypeError) else Ok([])
  {
    if !contentObj.Truthy() then Ok([])
    else
      match Has(contentObj, "MediaList")
      case Err(e) => Err(e)
      case Ok(has) =>
        if !has then Ok([])
        else
          var mediaList :- Index(contentObj, "MediaList");
          var media :- Get(mediaList, "Media", List([]));
          if media.Dict? then Ok([media]) else Elements(media)
  }

  /** The entries `read` keeps from `ms`, in order; the first entry `read`
      raises on aborts the walk (the enclosing `try` then takes over). */
  function Collect<T>(ms: seq<Node>, read: Node -> Result<Option<T>, PyError>): (r: Result<seq<T>, PyError>)
    ensures r.Ok? <==> forall i :: 0 <= i < |ms| ==> read(ms[i]).Ok?
    ensures r.Ok? ==> |r.value| <= |ms|
    decreases |ms|
  {
    if |ms| == 0 then Ok([])
    else
      var head :- read(ms[0]);
      var tail :- Collect(ms[1..], read);
      Ok(Kept(head) + tail)
  }

  /** What one entry contributes: itself when `read` keeps it, nothing when it drops it. */
  function Kept<T>(o: Option<T>): seq<T> {
    if o.Some? then [o.value] else []
  }

  /** One step of the walk: the head's contribution, then the rest's. */
  lemma CollectStep<T>(ms: seq<Node>, read: Node -> Result<Option<T>, PyError>)
    requires |ms| > 0
    ensures Collect(ms, read).Ok? <==> read(ms[0]).Ok? && Collect(ms[1..], read).Ok?
    ensures Collect(ms, read).Ok? ==> Collect(ms, read).value == Kept(read(ms[0]).value) + Collect(ms[1..], read).value
  {
  }

  /** Walking a concatenation walks each part in turn: the output keeps the
      input order and each entry contributes independently of the others. */
  lemma {:induction false} CollectAppend<T>(a: seq<Node>, b: seq<Node>, read: Node -> Result<Option<T>, PyError>)
    requires Collect(a, read).Ok? && Collect(b, read).Ok?
    ensures Collect(a + b, read).Ok?
    ensures Collect(a + b, read).value == Collect(a, read).value + Collect(b, read).value
    decreases |a|
  {
    if |a| == 0 {
      assert a + b == b;
    } else {
      CollectStep(a, read);
      CollectAppend(a[1..], b, read);
      CollectAppendStep(a, b, read);
    }
  }

  /** The inductive step of `CollectAppend`: the head of `a` leads both walks. */
  lemma CollectAppendStep<T>(a: seq<Node>, b: seq<Node>, read: Node -> Result<Option<T>, PyError>)
    requires |a| > 0 && Collect(a, read).Ok? && Collect(b, read).Ok? && Collect(a[1..], read).Ok?
    requires Collect(a[1..] + b, read) == Ok(Collect(a[1..], read).value + Collect(b, read).value)
    ensures Collect(a + b, read) == Ok(Collect(a, read).value + Collect(b, read).value)
  {
    var head := Kept(read(a[0]).value);
    var tail, rest := Collect(a[1..], read).value, Collect(b, read).value;
    assert Collect(a, read) == Ok(head + tail) by { CollectStep(a, read); }
    assert Collect(a + b, read) == Ok(head + (tail + rest)) by {
      AppendTail(a, b);
      CollectStep(a + b, read);
    }
    AppendAssociates(head, tail, rest);
  }

  lemma AppendTail<T>(x: seq<T>, y: seq<T>)
    requires |x| > 0
    ensures (x + y)[0] == x[0] && (x + y)[1..] == x[1..] + y
  {
  }

  lemma AppendAssociates<T>(x: seq<T>, y: seq<T>, z: seq<T>)
    ensures x + (y + z) == (x + y) + z
  {
  }

  /** Every entry `read` keeps appears in the output. */
  lemma {:induction false} CollectKeepsEntry<T>(ms: seq<Node>, i: nat, read: Node -> Result<Option<T>, PyError>)
    requires i < |ms|
    ensures Collect(ms, read).Ok? && read(ms[i]).value.Some? ==> read(ms[i]).value.value in Collect(ms, read).value
    decreases i
  {
    if Collect(ms, read).Ok? && read(ms[i]).value.Some? {
      var head := read(ms[0]).value;
      assert Collect(ms, read).value == Kept(head) + Collect(ms[1..], read).value;
      if i > 0 {
        assert ms[1..][i - 1] == ms[i];
        CollectKeepsEntry(ms[1..], i - 1, read);
      }
    }
  }

  /** Nothing is invented: every output item is what `read` made of some entry. */
  lemma {:induction false} CollectOnlyKept<T>(ms: seq<Node>, x: T, read: Node -> Result<Option<T>, PyError>)
    ensures Collect(ms, read).Ok? && x in Collect(ms, read).value ==>
      exists i :: 0 <= i < |ms| && read(ms[i]) == Ok(Some(x))
    decreases |ms|
  {
    if |ms| > 0 && Collect(ms, read).Ok? && x in Collect(ms, read).value {
      var head := read(ms[0]).value;
      assert Collect(ms, read).value == Kept(head) + Collect(ms[1..], read).value;
      if head == Some(x) {
        assert read(ms[0]) == Ok(Some(x));
      } else {
        CollectOnlyKept(ms[1..], x, read);
        var j :| 0 <= j < |ms[1..]| && read(ms[1..][j]) == Ok(Some(x));
        assert ms[1..][j] == ms[j + 1];
      }
    }
  }

  /** A single `Media` dict is read as the one-element list holding it. */
  lemma DictMediaIsSingletonList(m: Node, rest: seq<(string, Node)>)
    requires m.Dict?
    ensures MediaElements(Dict([("MediaList", Dict([("Media", m)]))] + rest))
         == MediaElements(Dict([("MediaList", Dict([("Media", List([m]))]))] + rest))
  {
    var a, b := [("MediaList", Dict([("Media", m)]))] + rest, [("MediaList", Dict([("Media", List([m]))]))] + rest;
    assert a[0].0 == "MediaList" && b[0].0 == "MediaList";
    assert MediaValue(Dict(a)) == Some(m);
    assert MediaValue(Dict(b)) == Some(List([m]));
  }

  /** A `MediaList` without `Media` is read as an empty `Media` list. */
  lemma MissingMediaIsEmptyList(others: seq<(string, Node)>, rest: seq<(string, Node)>)
    requires forall k :: 0 <= k < |others| ==> others[k].0 != "Media"
    ensures MediaElements(Dict([("MediaList", Dict(others))] + rest))
         == MediaElements(Dict([("MediaList", Dict([("Media", List([]))] + others))] + rest))
  {
    var a, b := [("MediaList", Dict(others))] + rest, [("MediaList", Dict([("Media", List([]))] + others))] + rest;
    assert a[0].0 == "MediaList" && b[0].0 == "MediaList";
    assert HasMediaList(Dict(a)) && MediaValue(Dict(a)).None?;
    assert ([("Media", List([]))] + others)[0].0 == "Media";
    assert MediaValue(Dict(b)) == Some(List([]));
  }

  /** A single entry contributes exactly what `read` makes of it. */
  lemma CollectSingle<T>(m: Node, read: Node -> Result<Option<T>, PyError>)
    requires read(m).Ok?
    ensures Collect([m], read).Ok?
    ensures Collect([m], read).value == Kept(read(m).value)
  {
    assert [m][0] == m;
    assert [m][1..] == [];
    assert Collect([m], read).value == Kept(read(m).value) + [];
  }
}
