/** Splitting the comment tuples of one feed into likes and comments, as
    both client-radar/python_engine/auto_bridge.py and export_full_data.py do.
    A tuple is `[FeedId, CommentId, CreateTime, StrTime, CommentType, Content,
    FromUserName, ReplyUserName, ReplyId]`; the scripts read positions 3 to 7. */
module Interactions {
  import opened Results
  import opened PyModel

  /** The five positions of a comment tuple the scripts read. */
  datatype CommentFields = CommentFields(time: Value, code: Value, content: Value, sender: Value, replyTo: Value)

  /** `c[3]`, `c[4]`, `c[5]`, `c[6]`, `c[7]`, all read before any branching. */
  function ReadComment(c: Row): (r: Result<CommentFields, PyError>)
    ensures r.Ok? <==> |c| >= 8
    ensures r.Ok? ==> r.value.time == c[3] && r.value.code == c[4] && r.value.content == c[5]
    ensures r.Ok? ==> r.value.sender == c[6] && r.value.replyTo == c[7]
  {
    if |c| < 8 then Err(IndexError) else Ok(CommentFields(c[3], c[4], c[5], c[6], c[7]))
  }

  datatype Bucket = LikeBucket | CommentBucket | NoBucket

  /** `c_type == 1` is a like, `c_type == 2` a comment; every other code,
      including the same digits as text, goes nowhere. */
  function BucketOf(code: Value): (b: Bucket)
    ensures b == LikeBucket <==> code == Int(1)
    ensures b == CommentBucket <==> code == Int(2)
  {
    if code == Int(1) then LikeBucket else if code == Int(2) then CommentBucket else NoBucket
  }

  datatype Split = Split(likes: seq<CommentFields>, comments: seq<CommentFields>)

  /** Number of tuples whose type position holds `code`. */
  function CountCode(rows: seq<Row>, code: Value): nat
    decreases |rows|
  {
    if |rows| == 0 then 0
    else (if |rows[0]| > 4 && rows[0][4] == code then 1 else 0) + CountCode(rows[1..], code)
  }

  /** The partition loop: likes and comments in tuple order, any other code
      dropped; a short tuple raises and nothing is returned. */
  function Partition(rows: seq<Row>): (r: Result<Split, PyError>)
    ensures r.Ok? <==> forall i :: 0 <= i < |rows| ==> |rows[i]| >= 8
    ensures r.Ok? ==> forall c :: c in r.value.likes ==> c.code == Int(1)
    ensures r.Ok? ==> forall c :: c in r.value.comments ==> c.code == Int(2)
    ensures r.Ok? ==> |r.value.likes| == CountCode(rows, Int(1))
    ensures r.Ok? ==> |r.value.comments| == CountCode(rows, Int(2))
    decreases |rows|
  {
    if |rows| == 0 then Ok(Split([], []))
    else
      var c :- ReadComment(rows[0]);
      var rest :- Partition(rows[1..]);
      Ok(Push(c, rest))
  }

  /** Puts one tuple in front of the bucket its type code names. */
  function Push(c: CommentFields, rest: Split): Split {
    match BucketOf(c.code)
    case LikeBucket => Split([c] + rest.likes, rest.comments)
    case CommentBucket => Split(rest.likes, [c] + rest.comments)
    case NoBucket => rest
  }

  /** Partitioning a concatenation concatenates the partitions: each bucket
      keeps the relative order of the tuples it receives. */
  lemma {:induction false} PartitionAppend(a: seq<Row>, b: seq<Row>)
    requires Partition(a).Ok? && Partition(b).Ok?
    ensures Partition(a + b).Ok?
    ensures Partition(a + b).value.likes == Partition(a).value.likes + Partition(b).value.likes
    ensures Partition(a + b).value.comments == Partition(a).value.comments + Partition(b).value.comments
    decreases |a|
  {
    if |a| == 0 {
      assert a + b == b;
    } else {
      assert (a + b)[0] == a[0];
      assert (a + b)[1..] == a[1..] + b;
      PartitionAppend(a[1..], b);
      var f := ReadComment(a[0]).value;
      var pa, pb := Partition(a[1..]).value, Partition(b).value;
      assert Partition(a).value == Push(f, pa);
      assert Partition(a + b).value == Push(f, Partition(a[1..] + b).value);
      PushAppend(f, pa, pb);
    }
  }

  lemma PushAppend(f: CommentFields, x: Split, y: Split)
    ensures Push(f, Split(x.likes + y.likes, x.comments + y.comments))
         == Split(Push(f, x).likes + y.likes, Push(f, x).comments + y.comments)
  {
  }

  /** A single tuple lands in exactly the bucket its type code names. */
  lemma PartitionSingle(c: Row)
    requires |c| >= 8
    ensures var f := ReadComment(c).value;
      Partition([c]).Ok? && Partition([c]).value == (match BucketOf(c[4])
        case LikeBucket => Split([f], [])
        case CommentBucket => Split([], [f])
        case NoBucket => Split([], []))
  {
    assert [c][1..] == [];
  }
}
