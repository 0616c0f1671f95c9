/**
 * The last-resort error handler: always status 500, the error map with its
 * own null-message fallback and the request id read from the request's
 * X-Request-ID header, rendered by a hand-written JSON writer. The map is a
 * HashMap, so the order its entries are visited in is an input here: any
 * order that lists every key exactly once.
 */
module GlobalExceptionHandler {
  import opened Wrappers
  import opened Strings
  import opened Exceptions
  import opened ErrorRecords

  const Status: int := 500
  const NullMessageFallback: string := "An unexpected error occurred"

  /** `getFirst`: the first value of a header, or null when it is absent. */
  function FirstValue(values: seq<string>): Option<string> {
    if |values| == 0 then None else Some(values[0])
  }

  /** `createErrorResponse`: the request id comes from the request's header. */
  function CreateErrorResponse(exchange: Exchange, timestamp: string, ex: Throwable): (m: map<Key, Value>)
    ensures m.Keys - {RequestIdKey} == BaseKeys
    ensures m[TimestampKey] == Str(timestamp)
    ensures m[PathKey] == Str(exchange.path) && m[MethodKey] == Str(exchange.httpMethod)
    ensures m[StatusKey] == Int(500) && m[ErrorKey] == Str("Internal Server Error")
    ensures m[MessageKey] == Str(if ex.message.Some? then ex.message.value else "An unexpected error occurred")
    ensures m[ExceptionKey] == Str(SimpleName(ex.cls))
    ensures RequestIdKey in m <==> |exchange.requestIdHeader| > 0
    ensures RequestIdKey in m ==> m[RequestIdKey] == Str(exchange.requestIdHeader[0])
  {
    ErrorMap(timestamp, exchange, Status, "Internal Server Error", ex, NullMessageFallback,
             FirstValue(exchange.requestIdHeader))
  }

  // JSON rendering

  type Entry = (Key, Value)

  /** A String value is quoted verbatim (no escaping); anything else is its
      decimal text, unquoted. */
  function RenderValue(v: Value): string {
    match v
    case Str(s) => "\"" + s + "\""
    case Int(i) => IntToDecimal(i)
  }

  /** The text every entry opens with: the quoted key and a colon. */
  function EntryHead(k: Key): string {
    "\"" + KeyName(k) + "\":"
  }

  /** `"key":value`: after the head, a String value sits verbatim between two
      quotes, and an Integer is decimal text that reads back as the number. */
  function RenderEntry(e: Entry): (r: string)
    ensures EntryHead(e.0) <= r && |r| > |EntryHead(e.0)|
    ensures e.1.Str? ==>
      var h := |EntryHead(e.0)|;
      && |r| == h + |e.1.s| + 2
      && r[h] == '"' && r[|r| - 1] == '"'
      && r[h + 1..|r| - 1] == e.1.s
    ensures e.1.Int? ==> ParseDecimal(r[|EntryHead(e.0)|..]) == Some(e.1.i)
  {
    var v := RenderValue(e.1);
    var r := EntryHead(e.0) + v;
    assert r[|EntryHead(e.0)|..] == v;
    if e.1.Int? then IntRoundTrip(e.1.i); r else r
  }

  function Pieces(entries: seq<Entry>): (ps: seq<string>)
    ensures |ps| == |entries|
    ensures forall i :: 0 <= i < |entries| ==> ps[i] == RenderEntry(entries[i])
  {
    seq(|entries|, i requires 0 <= i < |entries| => RenderEntry(entries[i]))
  }

  /** Reference rendering: the entries joined by "," inside braces. */
  function Json(entries: seq<Entry>): string {
    "{" + Join(Pieces(entries), ",") + "}"
  }

  /** `convertToJson`, as the source writes it: a builder, and a flag that
      suppresses the comma before the first entry. */
  method ConvertToJson(entries: seq<Entry>) returns (json: string)
    ensures json == Json(entries)
  {
    json := "{";
    var first := true;
    var i := 0;
    while i < |entries|
      invariant 0 <= i <= |entries|
      invariant first <==> i == 0
      invariant json == "{" + Join(Pieces(entries[..i]), ",")
    {
      var (key, value) := entries[i];
      ghost var before := json;
      if !first {
        json := json + ",";
      }
      ghost var separated := json;
      var text := match value
        case Str(s) => "\"" + s + "\""
        case Int(n) => IntToDecimal(n);
      json := json + (EntryHead(key) + text);
      first := false;
      LoopStep(entries, i, before, separated, json);
      i := i + 1;
    }
    assert entries[..i] == entries;
    json := json + "}";
  }

  /** One turn of the `convertToJson` loop: the comma (after the first entry)
      and the next entry extend the joined prefix by that entry. */
  lemma LoopStep(entries: seq<Entry>, i: nat, before: string, separated: string, after: string)
    requires i < |entries|
    requires before == "{" + Join(Pieces(entries[..i]), ",")
    requires separated == if i == 0 then before else before + ","
    requires after == separated + RenderEntry(entries[i])
    ensures after == "{" + Join(Pieces(entries[..i + 1]), ",")
  {
    var ps := Pieces(entries[..i]);
    var p := RenderEntry(entries[i]);
    PiecesSnoc(entries, i);
    JoinSnoc(ps, p, ",");
    BraceStep(Join(ps, ","), Join(ps + [p], ","), p, before, separated, after, i == 0);
  }

  lemma PiecesSnoc(entries: seq<Entry>, i: nat)
    requires i < |entries|
    ensures Pieces(entries[..i + 1]) == Pieces(entries[..i]) + [RenderEntry(entries[i])]
  {
    assert entries[..i + 1] == entries[..i] + [entries[i]];
  }

  /** The string side of a loop turn: `j` is the joined prefix, `j2` the joined
      prefix with `p` added. */
  lemma BraceStep(j: string, j2: string, p: string, before: string, separated: string, after: string, empty: bool)
    requires before == "{" + j
    requires empty ==> j == "" && j2 == p
    requires !empty ==> j2 == j + "," + p
    requires separated == if empty then before else before + ","
    requires after == separated + p
    ensures after == "{" + j2
  {
    if empty {
      assert before == "{";
    } else {
      Assoc("{", j, ",");
      Assoc("{", j + ",", p);
    }
  }

  /** The entries of map `m` in the visiting order `order`. */
  function Entries(m: map<Key, Value>, order: seq<Key>): (es: seq<Entry>)
    requires forall k :: k in order ==> k in m
    ensures |es| == |order|
    ensures forall i :: 0 <= i < |order| ==> es[i] == (order[i], m[order[i]])
  {
    seq(|order|, i requires 0 <= i < |order| => (order[i], m[order[i]]))
  }

  /** `order` lists every key of `keys` exactly once: a possible HashMap
      iteration order. */
  predicate Enumerates(order: seq<Key>, keys: set<Key>) {
    && (forall i, j :: 0 <= i < j < |order| ==> order[i] != order[j])
    && (forall k :: k in order <==> k in keys)
  }

  /** The rendering is braces around the entries joined by single commas:
      "{}" exactly when there are no entries, and never a comma right after
      the opening brace or right before the closing one. */
  lemma JsonShape(entries: seq<Entry>)
    ensures |Json(entries)| >= 2
    ensures Json(entries)[0] == '{' && Json(entries)[|Json(entries)| - 1] == '}'
    ensures |entries| == 0 <==> Json(entries) == "{}"
    ensures |entries| > 0 ==> Json(entries)[1] == '"' && Json(entries)[|Json(entries)| - 2] != ','
  {
    JsonEmpty(entries);
    if |entries| > 0 {
      JsonInner(entries);
    }
  }

  lemma JsonEmpty(entries: seq<Entry>)
    ensures |Json(entries)| >= 2
    ensures Json(entries)[0] == '{' && Json(entries)[|Json(entries)| - 1] == '}'
    ensures |entries| == 0 <==> Json(entries) == "{}"
  {
    if |entries| > 0 {
      PieceEnds(entries[0]);
      JoinEnds(Pieces(entries), ",");
    }
  }

  lemma JsonInner(entries: seq<Entry>)
    requires |entries| > 0
    ensures Json(entries)[1] == '"' && Json(entries)[|Json(entries)| - 2] != ','
  {
    PieceEnds(entries[0]);
    PieceEnds(entries[|entries| - 1]);
    BracedJoin(Pieces(entries));
  }

  /** Braces around pieces joined by commas, where the first piece opens with
      a quote and the last one does not close with a comma. */
  lemma BracedJoin(ps: seq<string>)
    requires |ps| > 0 && |ps[0]| > 0 && |ps[|ps| - 1]| > 0
    requires ps[0][0] == '"' && ps[|ps| - 1][|ps[|ps| - 1]| - 1] != ','
    ensures var t := "{" + Join(ps, ",") + "}";
      |t| > 2 && t[1] == '"' && t[|t| - 2] != ','
  {
    var j := Join(ps, ",");
    JoinEnds(ps, ",");
    var last := ps[|ps| - 1];
    assert j[0] == ps[0][0];
    assert j[|j| - 1] == last[|last| - 1];
  }

  /** A rendered entry starts with a quote and ends with a quote or a digit. */
  lemma PieceEnds(e: Entry)
    ensures |RenderEntry(e)| > 1
    ensures RenderEntry(e)[0] == '"'
    ensures RenderEntry(e)[|RenderEntry(e)| - 1] == '"' || IsDigit(RenderEntry(e)[|RenderEntry(e)| - 1])
  {
    var r := RenderEntry(e);
    var h := EntryHead(e.0);
    assert r[0] == h[0];
    match e.1
    case Str(s) =>
    case Int(n) =>
      var t := IntToDecimal(n);
      assert r == h + t;
      assert |t| > 1 || t[0] != '-';
  }

  /** A visiting order with no repeats has each of its keys exactly once. */
  lemma {:induction false} DistinctMultiset(o: seq<Key>)
    requires forall i, j :: 0 <= i < j < |o| ==> o[i] != o[j]
    ensures multiset(o) == multiset(set k | k in o)
    decreases |o|
  {
    if |o| > 0 {
      var rest := o[1..];
      DistinctMultiset(rest);
      assert o == [o[0]] + rest;
      assert o[0] !in rest;
      assert (set k | k in o) == {o[0]} + (set k | k in rest);
    }
  }

  /** The rendered entries of two orders that are permutations of each other
      are permutations of each other. */
  lemma PermutedPieces(m: map<Key, Value>, a: seq<Key>, b: seq<Key>)
    requires forall k :: k in a ==> k in m
    requires forall k :: k in b ==> k in m
    requires multiset(a) == multiset(b)
    ensures multiset(Pieces(Entries(m, a))) == multiset(Pieces(Entries(m, b)))
  {
    var f := (k: Key) => if k in m then RenderEntry((k, m[k])) else "";
    MapPermutes(f, a, b);
    assert Pieces(Entries(m, a)) == MapSeq(f, a);
    assert Pieces(Entries(m, b)) == MapSeq(f, b);
  }

  /** `f` applied to every element, in order. */
  function MapSeq<A, B>(f: A -> B, s: seq<A>): (r: seq<B>)
    ensures |r| == |s|
    ensures forall i :: 0 <= i < |s| ==> r[i] == f(s[i])
  {
    seq(|s|, i requires 0 <= i < |s| => f(s[i]))
  }

  /** Mapping preserves permutation. */
  lemma {:induction false} MapPermutes<A, B>(f: A -> B, a: seq<A>, b: seq<A>)
    requires multiset(a) == multiset(b)
    ensures multiset(MapSeq(f, a)) == multiset(MapSeq(f, b))
    decreases |a|
  {
    if |a| > 0 {
      var x := a[0];
      assert x in multiset(b);
      var j :| 0 <= j < |b| && b[j] == x;
      var left, right := RemoveOne(a, b, j);
      MapPermutes(f, a[1..], left + right);
      MapConcat(f, [x], a[1..]);
      MapConcat(f, left, right);
      MapConcat(f, left + [x], right);
      MapConcat(f, left, [x]);
    }
  }

  /** Taking the first element of `a` out of `b`, where it sits at index `j`,
      leaves two permutations of each other. */
  lemma RemoveOne<A>(a: seq<A>, b: seq<A>, j: nat) returns (left: seq<A>, right: seq<A>)
    requires |a| > 0 && j < |b| && b[j] == a[0]
    requires multiset(a) == multiset(b)
    ensures a == [a[0]] + a[1..]
    ensures b == left + [a[0]] + right
    ensures multiset(a[1..]) == multiset(left + right)
  {
    left, right := b[..j], b[j + 1..];
    assert a == [a[0]] + a[1..];
    assert b == left + [b[j]] + right;
    assert multiset(a) == multiset{a[0]} + multiset(a[1..]);
    assert multiset(b) == multiset(left) + multiset{a[0]} + multiset(right);
    assert multiset(left + right) == multiset(left) + multiset(right);
    forall y
      ensures multiset(a[1..])[y] == multiset(left + right)[y]
    {
      assert multiset(a)[y] == multiset{a[0]}[y] + multiset(a[1..])[y];
      assert multiset(b)[y] == multiset(left)[y] + multiset{a[0]}[y] + multiset(right)[y];
    }
  }

  lemma MapConcat<A, B>(f: A -> B, a: seq<A>, b: seq<A>)
    ensures MapSeq(f, a + b) == MapSeq(f, a) + MapSeq(f, b)
  {
    var l, r := MapSeq(f, a + b), MapSeq(f, a) + MapSeq(f, b);
    assert |l| == |r|;
    forall i | 0 <= i < |l|
      ensures l[i] == r[i]
    {
      if i < |a| {
        assert (a + b)[i] == a[i];
      } else {
        assert (a + b)[i] == b[i - |a|];
      }
    }
  }

  /** Whatever order the map is visited in, the body holds one rendered entry
      per key, and the same entries: only their order can differ. */
  lemma JsonEntriesOnce(m: map<Key, Value>, o1: seq<Key>, o2: seq<Key>)
    requires Enumerates(o1, m.Keys) && Enumerates(o2, m.Keys)
    ensures |Pieces(Entries(m, o1))| == |m|
    ensures forall k :: k in m ==> RenderEntry((k, m[k])) in Pieces(Entries(m, o1))
    ensures multiset(Pieces(Entries(m, o1))) == multiset(Pieces(Entries(m, o2)))
  {
    EnumerationsPermuted(o1, o2, m.Keys);
    PermutedPieces(m, o1, o2);
    var ps := Pieces(Entries(m, o1));
    forall k | k in m
      ensures RenderEntry((k, m[k])) in ps
    {
      var i :| 0 <= i < |o1| && o1[i] == k;
      assert ps[i] == RenderEntry((k, m[k]));
    }
  }

  /** Two enumerations of the same keys are permutations of each other, as
      long as the key set. */
  lemma EnumerationsPermuted(o1: seq<Key>, o2: seq<Key>, keys: set<Key>)
    requires Enumerates(o1, keys) && Enumerates(o2, keys)
    ensures multiset(o1) == multiset(o2)
    ensures |o1| == |keys|
  {
    DistinctMultiset(o1);
    DistinctMultiset(o2);
    assert (set k | k in o1) == keys == (set k | k in o2);
    assert |multiset(o1)| == |o1|;
  }


  /** The handler's output: the status it sets and the body it writes. */
  datatype Response = Response(status: int, body: string)

  /** `handle`: status 500, and the error map written as JSON in the map's
      iteration order. */
  method Handle(exchange: Exchange, timestamp: string, ex: Throwable, order: seq<Key>) returns (r: Response)
    requires Enumerates(order, CreateErrorResponse(exchange, timestamp, ex).Keys)
    ensures r.status == 500
    ensures r.body == Json(Entries(CreateErrorResponse(exchange, timestamp, ex), order))
  {
    var m := CreateErrorResponse(exchange, timestamp, ex);
    var json := ConvertToJson(Entries(m, order));
    r := Response(Status, json);
  }
}
