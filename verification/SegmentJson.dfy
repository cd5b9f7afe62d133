/** The reader's streaming segment decoder over JSON tokens: fields in any order, unknown
    fields skipped by counting brackets. */
module SegmentJson {
  import opened Telemetry
  import opened CaptureModel
  import opened Container
  import ContainerReader

  /** A decoded JSON text. `Leaf` is any value that is neither an object nor an array, as it is
      written; a string keeps its quotes. */
  datatype Value = Leaf(text: string) | List(items: seq<Value>) | Object(fields: seq<Field>)

  datatype Field = Field(name: string, value: Value)

  datatype Token = Open(brace: bool) | Close(brace: bool) | Atom(text: string)

  const NULL := "null"

  function Tokens(v: Value): (ts: seq<Token>)
    ensures |ts| > 0
  {
    match v
    case Leaf(text) => [Atom(text)]
    case List(items) => [Open(false)] + ItemTokens(items) + [Close(false)]
    case Object(fields) => [Open(true)] + FieldTokens(fields) + [Close(true)]
  }

  function ItemTokens(items: seq<Value>): seq<Token> {
    if |items| == 0 then [] else Tokens(items[0]) + ItemTokens(items[1..])
  }

  function FieldTokens(fields: seq<Field>): seq<Token> {
    if |fields| == 0 then [] else [Atom(fields[0].name)] + Tokens(fields[0].value) + FieldTokens(fields[1..])
  }

  // ----- brackets -----

  function Weight(t: Token): int {
    if t.Open? then 1 else if t.Close? then -1 else 0
  }

  /** Opened minus closed brackets. */
  function Net(ts: seq<Token>): int {
    if |ts| == 0 then 0 else Net(ts[..|ts| - 1]) + Weight(ts[|ts| - 1])
  }

  lemma {:induction false} NetConcat(a: seq<Token>, b: seq<Token>)
    ensures Net(a + b) == Net(a) + Net(b)
    decreases |b|
  {
    if |b| == 0 {
      assert a + b == a;
    } else {
      assert (a + b)[..|a + b| - 1] == a + b[..|b| - 1];
      NetConcat(a, b[..|b| - 1]);
    }
  }

  /** Brackets balance over the whole and never go below the start before it. */
  predicate Level(ts: seq<Token>) {
    Net(ts) == 0 && forall k :: 0 <= k <= |ts| ==> Net(ts[..k]) >= 0
  }

  lemma LevelConcat(a: seq<Token>, b: seq<Token>)
    requires Level(a) && Level(b)
    ensures Level(a + b)
  {
    NetConcat(a, b);
    forall k | 0 <= k <= |a + b| ensures Net((a + b)[..k]) >= 0 {
      if k <= |a| {
        assert (a + b)[..k] == a[..k];
      } else {
        assert (a + b)[..k] == a + b[..k - |a|];
        NetConcat(a, b[..k - |a|]);
      }
    }
  }

  /** Inside its own brackets a value never returns to the depth outside them. */
  predicate Closed(ts: seq<Token>) {
    |ts| > 0 && Net(ts) == 0 && (|ts| > 1 <==> ts[0].Open?) && !ts[0].Close? &&
    forall k :: 0 < k < |ts| ==> Net(ts[..k]) >= 1
  }

  lemma WrapClosed(inner: seq<Token>, brace: bool)
    requires Level(inner)
    ensures Closed([Open(brace)] + inner + [Close(brace)])
  {
    var open, close := [Open(brace)], [Close(brace)];
    var ts := open + inner + close;
    NetConcat(open + inner, close);
    NetConcat(open, inner);
    assert Net(open) == 1 by { assert open[..0] == []; }
    assert Net(close) == -1 by { assert close[..0] == []; }
    forall k | 0 < k < |ts| ensures Net(ts[..k]) >= 1 {
      assert ts[..k] == open + inner[..k - 1];
      NetConcat(open, inner[..k - 1]);
    }
  }

  lemma ClosedLevel(ts: seq<Token>)
    requires Closed(ts)
    ensures Level(ts)
  {
    assert ts[..|ts|] == ts;
  }

  lemma {:induction false} TokensClosed(v: Value)
    ensures Closed(Tokens(v))
    decreases v, 0
  {
    match v
    case Leaf(text) =>
      assert Tokens(v)[..0] == [];
    case List(items) =>
      ItemsLevel(v, items);
      WrapClosed(ItemTokens(items), false);
    case Object(fields) =>
      FieldsLevel(v, fields);
      WrapClosed(FieldTokens(fields), true);
  }

  lemma {:induction false} ItemsLevel(v: Value, items: seq<Value>)
    requires v.List? && forall x :: x in items ==> x in v.items
    ensures Level(ItemTokens(items))
    decreases v, 0, |items|
  {
    if |items| > 0 {
      assert items[0] in v.items;
      TokensClosed(items[0]);
      ClosedLevel(Tokens(items[0]));
      ItemsLevel(v, items[1..]);
      LevelConcat(Tokens(items[0]), ItemTokens(items[1..]));
    }
  }

  lemma {:induction false} FieldsLevel(v: Value, fields: seq<Field>)
    requires v.Object? && forall f :: f in fields ==> f in v.fields
    ensures Level(FieldTokens(fields))
    decreases v, 0, |fields|
  {
    if |fields| > 0 {
      var f := fields[0];
      assert f in v.fields;
      TokensClosed(f.value);
      ClosedLevel(Tokens(f.value));
      FieldsLevel(v, fields[1..]);
      assert Level([Atom(f.name)]) by { assert [Atom(f.name)][..0] == [] && [Atom(f.name)][..1] == [Atom(f.name)]; }
      LevelConcat([Atom(f.name)], Tokens(f.value));
      LevelConcat([Atom(f.name)] + Tokens(f.value), FieldTokens(fields[1..]));
    }
  }

  lemma NetStep(ts: seq<Token>, k: nat)
    requires k < |ts|
    ensures Net(ts[..k + 1]) == Net(ts[..k]) + Weight(ts[k])
  {
    assert ts[..k + 1][..k] == ts[..k];
  }

  /** The depth returns to zero exactly at the end; after one token it tells the kind. */
  lemma ClosedAt(ts: seq<Token>, k: nat)
    requires Closed(ts) && 0 < k <= |ts|
    ensures Net(ts[..k]) >= 0 && (Net(ts[..k]) == 0 <==> k == |ts|)
    ensures |ts| > 0 && Net(ts[..1]) == if ts[0].Open? then 1 else 0
  {
    NetStep(ts, 0);
    assert ts[..0] == [];
    assert ts[..|ts|] == ts;
  }

  // ----- what a segment text means -----

  /** The JSON library: how one value of each kind decodes, and how names compare. */
  datatype Library = Library(nanos: seq<Token> -> Option<nat>, event: seq<Token> -> Option<Event>,
                             metric: seq<Token> -> Option<Metric>, same: (string, string) -> bool)

  const START := "start_mono_ns"
  const END := "end_mono_ns"
  const EVENTS := "events"
  const METRICS := "metrics"

  predicate Known(j: Library, name: string) {
    j.same(name, START) || j.same(name, END) || j.same(name, EVENTS) || j.same(name, METRICS)
  }

  function Each<T>(f: seq<Token> -> Option<T>, items: seq<Value>): Option<seq<T>> {
    if |items| == 0 then Some([])
    else
      var first, rest := f(Tokens(items[0])), Each(f, items[1..]);
      if first.Some? && rest.Some? then Some([first.value] + rest.value) else None
  }

  /** A null array is an empty one. */
  function ArrayOf<T>(f: seq<Token> -> Option<T>, v: Value): Option<seq<T>> {
    match v
    case Leaf(text) => if text == NULL then Some([]) else None
    case List(items) => Each(f, items)
    case Object(_) => None
  }

  /** A null time leaves what was read before. */
  function TimeOf(j: Library, v: Value, before: nat): Option<nat> {
    if v == Leaf(NULL) then Some(before) else j.nanos(Tokens(v))
  }

  /** One field: a known one replaces what was read before, an unknown one is ignored. */
  function ReadField(j: Library, f: Field, p: Piece): Option<Piece> {
    if j.same(f.name, START) then
      var n := TimeOf(j, f.value, p.start);
      if n.Some? then Some(p.(start := n.value)) else None
    else if j.same(f.name, END) then
      var n := TimeOf(j, f.value, p.end);
      if n.Some? then Some(p.(end := n.value)) else None
    else if j.same(f.name, EVENTS) then
      var es := ArrayOf(j.event, f.value);
      if es.Some? then Some(p.(events := es.value)) else None
    else if j.same(f.name, METRICS) then
      var ms := ArrayOf(j.metric, f.value);
      if ms.Some? then Some(p.(metrics := ms.value)) else None
    else Some(p)
  }

  function ReadFields(j: Library, fields: seq<Field>, p: Piece): Option<Piece> {
    if |fields| == 0 then Some(p)
    else
      var q := ReadField(j, fields[0], p);
      if q.Some? then ReadFields(j, fields[1..], q.value) else None
  }

  function EmptyPiece(): Piece {
    Piece(0, 0, [], [])
  }

  function SegmentOf(j: Library, v: Value): Option<Piece> {
    match v
    case Leaf(text) => if text == NULL then Some(EmptyPiece()) else None
    case List(_) => None
    case Object(fields) => ReadFields(j, fields, EmptyPiece())
  }

  /** The value of the last field of this name; a null counts only where `nulls` says so. */
  function LastOf(j: Library, fields: seq<Field>, name: string, nulls: bool): Option<Value> {
    if |fields| == 0 then None
    else
      var later, f := LastOf(j, fields[1..], name, nulls), fields[0];
      if later.Some? then later
      else if j.same(f.name, name) && (nulls || f.value != Leaf("null")) then Some(f.value)
      else None
  }

  /** `n` is the time in the last field of this name that is not null; without one it is `before`. */
  predicate TimeRead(j: Library, fields: seq<Field>, name: string, before: nat, n: nat) {
    match LastOf(j, fields, name, false)
    case None => n == before
    case Some(v) => j.nanos(Tokens(v)) == Some(n)
  }

  /** `xs` are the elements, one by one, of the last field of this name; none of a null. */
  predicate ArrayRead<T(==)>(j: Library, f: seq<Token> -> Option<T>, fields: seq<Field>, name: string,
                             before: seq<T>, xs: seq<T>)
  {
    match LastOf(j, fields, name, true)
    case None => xs == before
    case Some(v) =>
      if v == Leaf("null") then xs == []
      else v.List? && |xs| == |v.items| && forall i :: 0 <= i < |xs| ==> f(Tokens(v.items[i])) == Some(xs[i])
  }

  /** No name is same to two of the four. */
  ghost predicate Separate(j: Library) {
    forall name: string ::
      (j.same(name, "start_mono_ns") ==>
         !j.same(name, "end_mono_ns") && !j.same(name, "events") && !j.same(name, "metrics")) &&
      (j.same(name, "end_mono_ns") ==> !j.same(name, "events") && !j.same(name, "metrics")) &&
      (j.same(name, "events") ==> !j.same(name, "metrics"))
  }

  lemma {:induction false} EachRead<T>(f: seq<Token> -> Option<T>, items: seq<Value>)
    requires Each(f, items).Some?
    ensures var xs := Each(f, items).value;
            |xs| == |items| && forall i :: 0 <= i < |xs| ==> f(Tokens(items[i])) == Some(xs[i])
  {
    if |items| > 0 {
      EachRead(f, items[1..]);
      assert forall i :: 0 < i < |items| ==> items[i] == items[1..][i - 1];
    }
  }

  lemma {:induction false} FieldsRead(j: Library, fields: seq<Field>, p: Piece)
    requires Separate(j) && ReadFields(j, fields, p).Some?
    ensures var q := ReadFields(j, fields, p).value;
            TimeRead(j, fields, "start_mono_ns", p.start, q.start) &&
            TimeRead(j, fields, "end_mono_ns", p.end, q.end) &&
            ArrayRead(j, j.event, fields, "events", p.events, q.events) &&
            ArrayRead(j, j.metric, fields, "metrics", p.metrics, q.metrics)
  {
    if |fields| > 0 {
      var f := fields[0];
      FieldsRead(j, fields[1..], ReadField(j, f, p).value);
      if f.value.List? && j.same(f.name, "events") {
        EachRead(j.event, f.value.items);
      }
      if f.value.List? && j.same(f.name, "metrics") {
        EachRead(j.metric, f.value.items);
      }
    }
  }

  /** A time is null or a number, and an array null or a list of readable elements. */
  predicate ReadableField(j: Library, f: Field) {
    (j.same(f.name, "start_mono_ns") || j.same(f.name, "end_mono_ns") ==>
       f.value == Leaf("null") || j.nanos(Tokens(f.value)).Some?) &&
    (j.same(f.name, "events") ==> ReadableArray(j.event, f.value)) &&
    (j.same(f.name, "metrics") ==> ReadableArray(j.metric, f.value))
  }

  predicate ReadableArray<T>(f: seq<Token> -> Option<T>, v: Value) {
    v == Leaf("null") || (v.List? && forall i :: 0 <= i < |v.items| ==> f(Tokens(v.items[i])).Some?)
  }

  lemma {:induction false} EachReads<T>(f: seq<Token> -> Option<T>, items: seq<Value>)
    ensures Each(f, items).Some? <==> forall i :: 0 <= i < |items| ==> f(Tokens(items[i])).Some?
  {
    hide Tokens;
    if |items| > 0 {
      EachReads(f, items[1..]);
      assert forall i :: 0 < i < |items| ==> items[i] == items[1..][i - 1];
      assert forall i :: 0 <= i < |items| - 1 ==> items[1..][i] == items[i + 1];
    }
  }

  lemma ArrayReads<T>(f: seq<Token> -> Option<T>, v: Value)
    ensures ArrayOf(f, v).Some? <==> ReadableArray(f, v)
  {
    if v.List? {
      EachReads(f, v.items);
    }
  }

  lemma FieldReads(j: Library, f: Field, p: Piece)
    requires Separate(j)
    ensures ReadField(j, f, p).Some? <==> ReadableField(j, f)
  {
    hide ReadableArray, ArrayOf, Tokens;
    ArrayReads(j.event, f.value);
    ArrayReads(j.metric, f.value);
  }

  /** Fields are read exactly when each of a known name can be. */
  lemma {:induction false} FieldsReadExactly(j: Library, fields: seq<Field>, p: Piece)
    requires Separate(j)
    ensures ReadFields(j, fields, p).Some? <==> forall f :: f in fields ==> ReadableField(j, f)
  {
    hide ReadField, ReadableField, Separate;
    if |fields| > 0 {
      FieldReads(j, fields[0], p);
      assert forall f :: f in fields <==> f == fields[0] || f in fields[1..];
      if ReadField(j, fields[0], p).Some? {
        FieldsReadExactly(j, fields[1..], ReadField(j, fields[0], p).value);
      }
    }
  }

  /** What a decoded segment says, by the names of its fields: the last one of a name counts, a null
      time does not, and what is missing is zero or empty.
      It decodes exactly when each field of a known name does. */
  lemma SegmentMeans(j: Library, fields: seq<Field>)
    requires Separate(j)
    ensures SegmentOf(j, Object(fields)).Some? <==> forall f :: f in fields ==> ReadableField(j, f)
    ensures SegmentOf(j, Object(fields)).Some? ==>
              var q := SegmentOf(j, Object(fields)).value;
              TimeRead(j, fields, "start_mono_ns", 0, q.start) && TimeRead(j, fields, "end_mono_ns", 0, q.end) &&
              ArrayRead(j, j.event, fields, "events", [], q.events) &&
              ArrayRead(j, j.metric, fields, "metrics", [], q.metrics)
  {
    hide ReadableField, Separate, TimeRead, ArrayRead, ReadFields;
    FieldsReadExactly(j, fields, EmptyPiece());
    if SegmentOf(j, Object(fields)).Some? {
      FieldsRead(j, fields, EmptyPiece());
    }
  }

  // ----- the decoder -----

  /** Reads a token stream. The tokenizer stops at the first syntax error and at the end of the
      text, so the stream is the beginning of some well-formed text's tokens, `whole`. */
  class Decoder {
    const tokens: seq<Token>
    ghost const whole: seq<Token>
    var at: nat

    constructor (tokens: seq<Token>, ghost whole: seq<Token>)
      ensures this.tokens == tokens && this.whole == whole && at == 0
    {
      this.tokens, this.whole, at := tokens, whole, 0;
    }

    /** What is still to come is `ts` and then `rest`, as far as the stream goes. */
    ghost predicate Next(ts: seq<Token>, rest: seq<Token>)
      reads this
    {
      tokens <= whole && at <= |tokens| && whole[at..] == ts + rest
    }

    predicate More()
      reads this
    {
      at < |tokens| && !tokens[at].Close?
    }

    /** The next token, or none where the stream stops. */
    method Take(ghost t: Token, ghost ts: seq<Token>, ghost rest: seq<Token>) returns (r: Option<Token>)
      requires Next([t] + ts, rest)
      modifies this
      ensures old(at) < |tokens| ==> r == Some(t) && Next(ts, rest) && at == old(at) + 1
      ensures old(at) == |tokens| ==> r.None?
    {
      if at == |tokens| {
        return None;
      }
      ghost var before := whole[at..];
      assert before == [t] + ts + rest && before[0] == tokens[at];
      r := Some(tokens[at]);
      at := at + 1;
      assert whole[at..] == before[1..];
    }

    /** Counts brackets until the value's own are closed: passes exactly one value, if the stream
        holds all of it. */
    method SkipValue(ghost v: Value, ghost rest: seq<Token>) returns (ok: bool)
      requires Next(Tokens(v), rest)
      modifies this
      ensures ok <==> old(at) + |Tokens(v)| <= |tokens|
      ensures ok ==> Next([], rest) && at == old(at) + |Tokens(v)|
    {
      hide Tokens, Net, Closed;
      ghost var ts, from := Tokens(v), at;
      TokensClosed(v);
      ClosedAt(ts, 1);
      if at == |tokens| {
        return false;
      }
      Ahead(ts, rest, from, 0);
      var depth := 0;
      if tokens[at].Open? {
        depth := 1;
      }
      at := at + 1;
      while depth > 0
        invariant from < at <= from + |ts| && at <= |tokens| && depth == Net(ts[..at - from]) && Closed(ts)
        decreases from + |ts| - at
      {
        ClosedAt(ts, at - from);
        if at == |tokens| {
          return false;
        }
        Ahead(ts, rest, from, at - from);
        NetStep(ts, at - from);
        var t := tokens[at];
        if t.Open? {
          depth := depth + 1;
        } else if t.Close? {
          depth := depth - 1;
        }
        at := at + 1;
      }
      ClosedAt(ts, at - from);
      assert whole[at..] == whole[from..][|ts|..];
      return true;
    }

    lemma Ahead(ts: seq<Token>, rest: seq<Token>, from: nat, k: nat)
      requires tokens <= whole && from + k < |tokens| && whole[from..] == ts + rest && k < |ts|
      ensures tokens[from + k] == ts[k]
    {
      assert whole[from..][k] == (ts + rest)[k];
    }

    /** Reads one value and hands its tokens to the library. */
    method Decode<T>(f: seq<Token> -> Option<T>, ghost v: Value, ghost rest: seq<Token>) returns (r: Option<T>)
      requires Next(Tokens(v), rest)
      modifies this
      ensures r == if old(at) + |Tokens(v)| <= |tokens| then f(Tokens(v)) else None
      ensures r.Some? ==> Next([], rest) && at == old(at) + |Tokens(v)|
    {
      var from := at;
      ghost var before := whole[at..];
      var ok := SkipValue(v, rest);
      if !ok {
        return None;
      }
      assert tokens[from..at] == before[..at - from] == Tokens(v);
      r := f(tokens[from..at]);
    }

    /** Reads a time; null leaves the earlier one. */
    method DecodeTime(j: Library, earlier: nat, ghost v: Value, ghost rest: seq<Token>) returns (r: Option<nat>)
      requires Next(Tokens(v), rest)
      modifies this
      ensures r == if old(at) + |Tokens(v)| <= |tokens| then TimeOf(j, v, earlier) else None
      ensures r.Some? ==> Next([], rest) && at == old(at) + |Tokens(v)|
    {
      var from := at;
      ghost var before := whole[at..];
      var ok := SkipValue(v, rest);
      if !ok {
        return None;
      }
      assert tokens[from..at] == before[..at - from] == Tokens(v);
      NullTokens(v);
      return if tokens[from..at] == [Atom(NULL)] then Some(earlier) else j.nanos(tokens[from..at]);
    }

    /** Reads an array one element at a time; null is an empty one. */
    method DecodeArray<T>(f: seq<Token> -> Option<T>, ghost v: Value, ghost rest: seq<Token>)
        returns (r: Option<seq<T>>)
      requires Next(Tokens(v), rest)
      modifies this
      ensures r == if old(at) + |Tokens(v)| <= |tokens| then ArrayOf(f, v) else None
      ensures r.Some? ==> Next([], rest) && at == old(at) + |Tokens(v)|
    {
      ghost var end := at + |Tokens(v)|;
      Brackets(v);
      var start := Take(Tokens(v)[0], Tokens(v)[1..], rest);
      if start == Some(Atom(NULL)) {
        return Some([]);
      }
      if start != Some(Open(false)) {
        return None;
      }
      hide Tokens, ItemTokens;
      ghost var items := v.items;
      var values: seq<T> := [];
      PrefixedNone(Each(f, items));
      while More()
        invariant Next(ItemTokens(items) + [Close(false)], rest) && at + |ItemTokens(items)| + 1 == end
        invariant ArrayOf(f, v) == Prefixed(values, Each(f, items))
        decreases |tokens| - at
      {
        ItemsAhead(items, rest, whole[at..]);
        assert tokens[at] == whole[at..][0];
        var value := Decode(f, items[0], ItemTokens(items[1..]) + [Close(false)] + rest);
        if value.None? {
          return None;
        }
        PrefixedOne(values, value.value, Each(f, items[1..]));
        values := values + [value.value];
        items := items[1..];
      }
      if at == |tokens| {
        return None;
      }
      ItemsAhead(items, rest, whole[at..]);
      assert tokens[at] == whole[at..][0];
      assert ItemTokens(items) + [Close(false)] == [Close(false)] + [];
      var close := Take(Close(false), [], rest);
      assert values + [] == values;
      return if close == Some(Close(false)) then Some(values) else None;
    }

    method DecodeField(j: Library, name: string, p: Piece, ghost v: Value, ghost rest: seq<Token>)
        returns (r: Option<Piece>)
      requires Next(Tokens(v), rest)
      modifies this
      ensures r == if old(at) + |Tokens(v)| <= |tokens| then ReadField(j, Field(name, v), p) else None
      ensures r.Some? ==> Next([], rest) && at == old(at) + |Tokens(v)|
    {
      hide Tokens, ArrayOf, TimeOf;
      if j.same(name, START) {
        var n := DecodeTime(j, p.start, v, rest);
        return if n.Some? then Some(p.(start := n.value)) else None;
      }
      if j.same(name, END) {
        var n := DecodeTime(j, p.end, v, rest);
        return if n.Some? then Some(p.(end := n.value)) else None;
      }
      if j.same(name, EVENTS) {
        var es := DecodeArray(j.event, v, rest);
        return if es.Some? then Some(p.(events := es.value)) else None;
      }
      if j.same(name, METRICS) {
        var ms := DecodeArray(j.metric, v, rest);
        return if ms.Some? then Some(p.(metrics := ms.value)) else None;
      }
      var ok := SkipValue(v, rest);
      return if ok then Some(p) else None;
    }

    /** Streams a segment: the result is what its text means, and all of it is consumed; a stream
        that stops inside the segment is refused. */
    method DecodeSegment(j: Library, ghost v: Value, ghost rest: seq<Token>) returns (r: Option<Piece>)
      requires Next(Tokens(v), rest)
      modifies this
      ensures r == if old(at) + |Tokens(v)| <= |tokens| then SegmentOf(j, v) else None
      ensures r.Some? ==> Next([], rest) && at == old(at) + |Tokens(v)|
    {
      ghost var end := at + |Tokens(v)|;
      Brackets(v);
      var start := Take(Tokens(v)[0], Tokens(v)[1..], rest);
      if start == Some(Atom(NULL)) {
        return Some(EmptyPiece());
      }
      if start != Some(Open(true)) {
        return None;
      }
      hide Tokens, FieldTokens, ReadField;
      ghost var fields := v.fields;
      var segment := EmptyPiece();
      while More()
        invariant Next(FieldTokens(fields) + [Close(true)], rest) && at + |FieldTokens(fields)| + 1 == end
        invariant SegmentOf(j, v) == ReadFields(j, fields, segment)
        decreases |tokens| - at
      {
        FieldsAhead(fields, rest, whole[at..]);
        assert tokens[at] == whole[at..][0];
        FieldFirst(fields, rest, whole[at..]);
        ghost var after := FieldTokens(fields[1..]) + [Close(true)] + rest;
        var key := Take(Atom(fields[0].name), Tokens(fields[0].value), after);
        var read := DecodeField(j, key.value.text, segment, fields[0].value, after);
        if read.None? {
          return None;
        }
        segment := read.value;
        fields := fields[1..];
      }
      if at == |tokens| {
        return None;
      }
      FieldsAhead(fields, rest, whole[at..]);
      assert tokens[at] == whole[at..][0];
      assert FieldTokens(fields) + [Close(true)] == [Close(true)] + [];
      var close := Take(Close(true), [], rest);
      return if close == Some(Close(true)) then Some(segment) else None;
    }
  }

  lemma NullTokens(v: Value)
    ensures Tokens(v) == [Atom(NULL)] <==> v == Leaf(NULL)
  {
    if !v.Leaf? {
      assert Tokens(v)[0].Open?;
    }
  }

  /** The first and last tokens of a value tell its kind. */
  lemma Brackets(v: Value)
    ensures v.Leaf? ==> Tokens(v) == [Atom(v.text)]
    ensures v.List? ==> Tokens(v)[0] == Open(false) && Tokens(v)[1..] == ItemTokens(v.items) + [Close(false)]
    ensures v.Object? ==> Tokens(v)[0] == Open(true) && Tokens(v)[1..] == FieldTokens(v.fields) + [Close(true)]
    ensures Tokens(v) == [Tokens(v)[0]] + Tokens(v)[1..]
  {
    match v
    case Leaf(text) =>
    case List(items) => assert Tokens(v) == [Open(false)] + (ItemTokens(items) + [Close(false)]);
    case Object(fields) => assert Tokens(v) == [Open(true)] + (FieldTokens(fields) + [Close(true)]);
  }

  lemma FirstToken(v: Value)
    ensures |Tokens(v)| > 0 && !Tokens(v)[0].Close?
  {
    TokensClosed(v);
  }

  lemma ItemsAhead(items: seq<Value>, rest: seq<Token>, ts: seq<Token>)
    requires ts == ItemTokens(items) + [Close(false)] + rest
    ensures |ts| > 0 && (|items| == 0 <==> ts[0].Close?)
    ensures |items| == 0 ==> ItemTokens(items) == []
    ensures |items| > 0 ==> ts == Tokens(items[0]) + (ItemTokens(items[1..]) + [Close(false)] + rest) &&
                            |ItemTokens(items)| == |Tokens(items[0])| + |ItemTokens(items[1..])|
  {
    hide Tokens;
    if |items| > 0 {
      FirstToken(items[0]);
      assert ts[0] == Tokens(items[0])[0];
    }
  }

  /** Elements read so far, before those still to come. */
  function Prefixed<T>(done: seq<T>, rest: Option<seq<T>>): Option<seq<T>> {
    if rest.Some? then Some(done + rest.value) else None
  }

  lemma PrefixedNone<T>(rest: Option<seq<T>>)
    ensures Prefixed([], rest) == rest
  {
    if rest.Some? {
      assert [] + rest.value == rest.value;
    }
  }

  lemma PrefixedOne<T>(done: seq<T>, x: T, rest: Option<seq<T>>)
    ensures Prefixed(done + [x], rest) == Prefixed(done, if rest.Some? then Some([x] + rest.value) else None)
  {
    if rest.Some? {
      assert done + [x] + rest.value == done + ([x] + rest.value);
    }
  }

  lemma FieldsAhead(fields: seq<Field>, rest: seq<Token>, ts: seq<Token>)
    requires ts == FieldTokens(fields) + [Close(true)] + rest
    ensures |ts| > 0 && (|fields| == 0 <==> ts[0].Close?)
    ensures |fields| == 0 ==> FieldTokens(fields) == []
  {
    if |fields| > 0 {
      assert ts[0] == Atom(fields[0].name);
    }
  }

  lemma Reassociate(a: seq<Token>, b: seq<Token>, c: seq<Token>, d: seq<Token>, e: seq<Token>)
    ensures a + b + c + d + e == a + b + (c + d + e)
  {
  }

  lemma FieldFirst(fields: seq<Field>, rest: seq<Token>, ts: seq<Token>)
    requires ts == FieldTokens(fields) + [Close(true)] + rest && |fields| > 0
    ensures ts == [Atom(fields[0].name)] + Tokens(fields[0].value) + (FieldTokens(fields[1..]) + [Close(true)] + rest)
    ensures |FieldTokens(fields)| == 1 + |Tokens(fields[0].value)| + |FieldTokens(fields[1..])|
  {
    hide Tokens;
    Reassociate([Atom(fields[0].name)], Tokens(fields[0].value), FieldTokens(fields[1..]), [Close(true)], rest);
  }

  // ----- what the streaming form guarantees -----

  lemma {:induction false} ReadFieldsConcat(j: Library, a: seq<Field>, b: seq<Field>, p: Piece)
    ensures ReadFields(j, a + b, p) ==
              if ReadFields(j, a, p).Some? then ReadFields(j, b, ReadFields(j, a, p).value) else None
    decreases |a|
  {
    if |a| == 0 {
      assert a + b == b;
    } else {
      assert (a + b)[0] == a[0] && (a + b)[1..] == a[1..] + b;
      var q := ReadField(j, a[0], p);
      if q.Some? {
        ReadFieldsConcat(j, a[1..], b, q.value);
      }
    }
  }

  /** A field of a later format, anywhere and of any shape, changes nothing. */
  lemma UnknownFieldIgnored(j: Library, a: seq<Field>, f: Field, b: seq<Field>)
    requires !Known(j, f.name)
    ensures SegmentOf(j, Object(a + [f] + b)) == SegmentOf(j, Object(a + b))
  {
    var p := EmptyPiece();
    assert a + [f] + b == a + ([f] + b);
    ReadFieldsConcat(j, a, [f] + b, p);
    ReadFieldsConcat(j, a, b, p);
    if ReadFields(j, a, p).Some? {
      assert ([f] + b)[1..] == b;
    }
  }

  /** A null time changes nothing, wherever it stands. */
  lemma NullTimeIgnored(j: Library, a: seq<Field>, name: string, b: seq<Field>)
    requires j.same(name, START) || j.same(name, END)
    ensures SegmentOf(j, Object(a + [Field(name, Leaf(NULL))] + b)) == SegmentOf(j, Object(a + b))
  {
    var p, f := EmptyPiece(), Field(name, Leaf(NULL));
    assert a + [f] + b == a + ([f] + b);
    ReadFieldsConcat(j, a, [f] + b, p);
    ReadFieldsConcat(j, a, b, p);
    if ReadFields(j, a, p).Some? {
      assert ([f] + b)[1..] == b;
    }
  }

  /** Names compare as themselves and the four known names are told apart. */
  ghost predicate TellsApart(j: Library) {
    (forall n :: j.same(n, n)) && !j.same(END, START) && !j.same(EVENTS, START) && !j.same(EVENTS, END) &&
    !j.same(METRICS, START) && !j.same(METRICS, END) && !j.same(METRICS, EVENTS)
  }

  datatype Encoder = Encoder(nanos: nat -> Value, event: Event -> Value, metric: Metric -> Value)

  ghost predicate Inverse(j: Library, e: Encoder) {
    TellsApart(j) && (forall n: nat :: e.nanos(n) != Leaf(NULL) && j.nanos(Tokens(e.nanos(n))) == Some(n)) &&
    (forall x :: j.event(Tokens(e.event(x))) == Some(x)) && forall m :: j.metric(Tokens(e.metric(m))) == Some(m)
  }

  function EncodeEach<T>(f: T -> Value, xs: seq<T>): seq<Value> {
    if |xs| == 0 then [] else [f(xs[0])] + EncodeEach(f, xs[1..])
  }

  /** Empty events and metrics are left out of the text. */
  function Encoded(e: Encoder, p: Piece): Value {
    Object([Field(START, e.nanos(p.start)), Field(END, e.nanos(p.end))] +
           (if |p.events| == 0 then [] else [Field(EVENTS, List(EncodeEach(e.event, p.events)))]) +
           (if |p.metrics| == 0 then [] else [Field(METRICS, List(EncodeEach(e.metric, p.metrics)))]))
  }

  lemma {:induction false} EachInverse<T(!new)>(f: seq<Token> -> Option<T>, g: T -> Value, xs: seq<T>)
    requires forall x :: f(Tokens(g(x))) == Some(x)
    ensures Each(f, EncodeEach(g, xs)) == Some(xs)
  {
    if |xs| > 0 {
      EachInverse(f, g, xs[1..]);
      assert EncodeEach(g, xs)[1..] == EncodeEach(g, xs[1..]);
      assert xs == [xs[0]] + xs[1..];
    }
  }

  /** The writer's segment text means the segment. */
  lemma SegmentRoundTrip(j: Library, e: Encoder, p: Piece)
    requires Inverse(j, e)
    ensures SegmentOf(j, Encoded(e, p)) == Some(p)
  {
    var times := [Field(START, e.nanos(p.start)), Field(END, e.nanos(p.end))];
    var es := if |p.events| == 0 then [] else [Field(EVENTS, List(EncodeEach(e.event, p.events)))];
    var ms := if |p.metrics| == 0 then [] else [Field(METRICS, List(EncodeEach(e.metric, p.metrics)))];
    ReadFieldsConcat(j, times + es, ms, EmptyPiece());
    ReadFieldsConcat(j, times, es, EmptyPiece());
    EachInverse(j.event, e.event, p.events);
    EachInverse(j.metric, e.metric, p.metrics);
    ReadTwo(j, times[0], times[1], EmptyPiece());
    assert ReadFields(j, times, EmptyPiece()) == Some(Piece(p.start, p.end, [], []));
  }

  lemma ReadTwo(j: Library, f: Field, g: Field, p: Piece)
    ensures ReadFields(j, [f, g], p) ==
              if ReadField(j, f, p).Some? then ReadField(j, g, ReadField(j, f, p).value) else None
  {
    assert [f, g][1..] == [g];
    var q := ReadField(j, f, p);
    if q.Some? {
      assert [g][1..] == [];
      assert ReadFields(j, [g], q.value) == ReadField(j, g, q.value);
    }
  }

  /** Which part of the segment a name sets; zero is none. */
  function Kind(j: Library, name: string): nat {
    if j.same(name, START) then 1 else if j.same(name, END) then 2
    else if j.same(name, EVENTS) then 3 else if j.same(name, METRICS) then 4 else 0
  }

  /** Fields of different kinds may come in either order. */
  lemma OrderIsFree(j: Library, a: seq<Field>, f: Field, g: Field, b: seq<Field>)
    requires Kind(j, f.name) != Kind(j, g.name)
    ensures SegmentOf(j, Object(a + [f, g] + b)) == SegmentOf(j, Object(a + [g, f] + b))
  {
    var p := EmptyPiece();
    ReadFieldsConcat(j, a + [f, g], b, p);
    ReadFieldsConcat(j, a + [g, f], b, p);
    ReadFieldsConcat(j, a, [f, g], p);
    ReadFieldsConcat(j, a, [g, f], p);
    if ReadFields(j, a, p).Some? {
      hide ReadFields, ArrayOf;
      var q := ReadFields(j, a, p).value;
      ReadTwo(j, f, g, q);
      ReadTwo(j, g, f, q);
    }
  }

  // ----- segment entries of a container -----

  /** The JSON library at the level of text: the value a text begins with, and a value's text. */
  datatype Text = Text(parse: string -> Option<Parsed<Value>>, render: Value -> string)

  /** Parsing a segment's text gives back its value and uses all of it. */
  ghost predicate TextInverse(t: Text, e: Encoder) {
    forall p :: t.parse(t.render(Encoded(e, p))) == Some(Parsed(Encoded(e, p), |t.render(Encoded(e, p))|))
  }

  function GetSegment(t: Text, j: Library, text: string): Option<Parsed<Piece>> {
    var v := t.parse(text);
    var p := if v.Some? then SegmentOf(j, v.value.value) else None;
    if p.Some? then Some(Parsed(p.value, v.value.used)) else None
  }

  /** A container codec whose segment entries are read by this decoder. */
  function WithSegments(c: Codec, t: Text, j: Library, e: Encoder): Codec {
    c.(putSegment := p => t.render(Encoded(e, p)), getSegment := text => GetSegment(t, j, text))
  }

  /** The other three kinds of entry decode to what was encoded. */
  ghost predicate FaithfulRest(c: Codec) {
    (forall m :: c.getManifest(c.putManifest(m)) == Some(Parsed(m, |c.putManifest(m)|))) &&
    (forall h :: c.getHost(c.putHost(h)) == Some(Parsed(h, |c.putHost(h)|))) &&
    forall n :: c.getFooter(c.putFooter(n)) == Some(Parsed(n as int, |c.putFooter(n)|))
  }

  /** The streaming decoder makes a codec faithful: what the container's round trip asks of
      segment entries follows from the library's inverses. */
  lemma SegmentsAreFaithful(c: Codec, t: Text, j: Library, e: Encoder)
    requires FaithfulRest(c) && TextInverse(t, e) && Inverse(j, e)
    ensures Faithful(WithSegments(c, t, j, e))
  {
    var d := WithSegments(c, t, j, e);
    forall p: Piece ensures d.getSegment(d.putSegment(p)) == Some(Parsed(p, |d.putSegment(p)|)) {
      SegmentRoundTrip(j, e, p);
    }
    assert d.getManifest == c.getManifest && d.putManifest == c.putManifest;
    assert d.getHost == c.getHost && d.putHost == c.putHost;
    assert d.getFooter == c.getFooter && d.putFooter == c.putFooter;
  }

  /** A written capture reads back as itself through the streaming decoder. */
  lemma StreamedRoundTrip(l: Limits, c: Codec, t: Text, j: Library, e: Encoder, x: Capture)
    requires FaithfulRest(c) && TextInverse(t, e) && Inverse(j, e)
    ensures var d := WithSegments(c, t, j, e);
            Writable(l, d, x) && WindowsAgree(x) ==>
              ContainerReader.Readable(l, d, Written(d, x)) &&
              ContainerReader.Content(d, Written(d, x).entries) == x
  {
    hide WindowsAgree, ContainerReader.Content, ContainerReader.Readable, Written, Writable, Faithful, Inverse,
         FaithfulRest, TextInverse;
    SegmentsAreFaithful(c, t, j, e);
    if Writable(l, WithSegments(c, t, j, e), x) && WindowsAgree(x) {
      ContainerReader.RoundTrip(l, WithSegments(c, t, j, e), x);
    }
  }
}
