/** The reader: which archives it accepts, what it returns, and the round trip. */
module ContainerReader {
  import opened Telemetry
  import opened CaptureModel
  import opened Container

  // ----- the grammar -----

  /** Manifest, host, segments numbered from zero in order, then the completion marker. */
  predicate Grammar(es: seq<Entry>) {
    |es| >= 3 && es[0].name == ManifestName && es[1].name == HostName && es[|es| - 1].name == CompleteName &&
    forall i :: 2 <= i < |es| - 1 ==> es[i].name == SegmentName(i - 2)
  }

  function ManifestOf(j: Codec, e: Entry): Option<Manifest> {
    Whole(j.getManifest(e.text), e.text)
  }

  function HostOf(j: Codec, e: Entry): Option<Host> {
    Whole(j.getHost(e.text), e.text)
  }

  function SegmentOf(j: Codec, e: Entry): Option<Piece> {
    Whole(j.getSegment(e.text), e.text)
  }

  function FooterOf(j: Codec, e: Entry): Option<int> {
    Whole(j.getFooter(e.text), e.text)
  }

  /** The entry's text is one value of its kind; a manifest also has the current format. */
  predicate Decodes(j: Codec, e: Entry) {
    match e.name
    case ManifestName => ManifestOf(j, e).Some? && ManifestOf(j, e).value.formatVersion == FORMAT_VERSION
    case HostName => HostOf(j, e).Some?
    case SegmentName(_) => SegmentOf(j, e).Some?
    case CompleteName => FooterOf(j, e).Some?
    case OtherName(_) => false
  }

  function Content(j: Codec, es: seq<Entry>): Capture
    requires Grammar(es) && forall e :: e in es ==> Decodes(j, e)
  {
    assert forall i :: 0 <= i < |es| ==> Decodes(j, es[i]);
    Capture(ManifestOf(j, es[0]).value, HostOf(j, es[1]).value,
            seq(|es| - 3, i requires 0 <= i < |es| - 3 => SegmentOf(j, es[i + 2]).value))
  }

  /** Exactly the archives the reader accepts. */
  predicate Readable(l: Limits, j: Codec, a: Archive) {
    var es := a.entries;
    ValidLimits(l) && a.intact && a.bytes <= l.maxDecoded && Sizes(es) <= l.maxDecoded && |es| <= l.maxEntries &&
    (forall e :: e in es ==> e.regular && Decodes(j, e)) && Grammar(es) &&
    FooterOf(j, es[|es| - 1]) == Some(|es| - 3) &&
    ValidClock(Content(j, es).host) && WindowsAgree(Content(j, es))
  }

  // ----- one entry at a time -----

  /** Where an entry may stand: the manifest first, the host second, then the next segment or
      the marker, and nothing after the marker. */
  predicate InPlace(es: seq<Entry>, i: nat)
    requires i < |es|
  {
    (i > 0 ==> es[i - 1].name != CompleteName) &&
    if i == 0 then es[i].name == ManifestName
    else if i == 1 then es[i].name == HostName
    else es[i].name == SegmentName(i - 2) || es[i].name == CompleteName
  }

  /** What the loop demands of entry `i` after accepting those before it. */
  predicate Follows(l: Limits, j: Codec, es: seq<Entry>, i: nat)
    requires i < |es|
  {
    es[i].regular && Sizes(es[..i + 1]) <= l.maxDecoded && i < l.maxEntries && InPlace(es, i) && Decodes(j, es[i])
  }

  predicate Accepted(l: Limits, j: Codec, es: seq<Entry>, n: nat)
    requires n <= |es|
  {
    forall i :: 0 <= i < n ==> Follows(l, j, es, i)
  }

  lemma ReadableFollows(l: Limits, j: Codec, a: Archive, i: nat)
    requires Readable(l, j, a) && i < |a.entries|
    ensures Follows(l, j, a.entries, i)
  {
    hide WindowsAgree, Content, ValidClock, Decodes, Costs, Sizes, FooterOf;
    CostsGrow(a.entries, i + 1);
    assert a.entries[i] in a.entries;
  }

  /** Accepting every entry up to a completion marker is the grammar, and nothing else. */
  lemma AcceptedGrammar(l: Limits, j: Codec, es: seq<Entry>)
    requires Accepted(l, j, es, |es|) && |es| > 0 && es[|es| - 1].name == CompleteName
    ensures Grammar(es) && Sizes(es) <= l.maxDecoded && |es| <= l.maxEntries
    ensures forall e :: e in es ==> e.regular && Decodes(j, e)
  {
    assert Follows(l, j, es, |es| - 1);
    assert es[..|es| - 1 + 1] == es;
    assert |es| >= 3 by {
      assert Follows(l, j, es, 0);
      assert |es| > 1 ==> Follows(l, j, es, 1);
    }
    assert Follows(l, j, es, 0) && Follows(l, j, es, 1);
    forall i | 2 <= i < |es| - 1 ensures es[i].name == SegmentName(i - 2) {
      assert Follows(l, j, es, i) && Follows(l, j, es, i + 1);
    }
    forall e | e in es ensures e.regular && Decodes(j, e) {
      var i :| 0 <= i < |es| && es[i] == e;
      assert Follows(l, j, es, i);
    }
  }

  /** The entries before position `n` of an accepted prefix, other than manifest and host. */
  function SegmentsBefore(es: seq<Entry>, n: nat): nat
    requires n <= |es|
  {
    if n <= 2 then 0 else if es[n - 1].name == CompleteName then n - 3 else n - 2
  }

  /** The name that belongs at a position before the marker. */
  function NameAt(k: nat): Name {
    if k == 0 then ManifestName else if k == 1 then HostName else SegmentName(k - 2)
  }

  lemma NamesBefore(l: Limits, j: Codec, es: seq<Entry>, n: nat)
    requires n < |es| && Accepted(l, j, es, n) && (n > 0 ==> es[n - 1].name != CompleteName)
    ensures forall k :: 0 <= k < n ==> es[k].name == NameAt(k)
  {
    hide Decodes, Sizes;
    forall k | 0 <= k < n ensures es[k].name == NameAt(k) {
      assert Follows(l, j, es, k);
      if k + 1 < n {
        assert Follows(l, j, es, k + 1);
      }
    }
  }

  /** The header checks on entry `n`: no name seen before, and the first two fixed. */
  predicate Unseen(es: seq<Entry>, n: nat)
    requires n < |es|
  {
    (n > 0 ==> es[n - 1].name != CompleteName) && (n == 0 ==> es[n].name == ManifestName) &&
    (n == 1 ==> es[n].name == HostName) && forall k :: 0 <= k < n ==> es[k].name != es[n].name
  }

  /** After an accepted prefix an unseen name is in place exactly when it is the next segment,
      the marker, or one of the fixed two. */
  lemma InPlaceUnseen(l: Limits, j: Codec, es: seq<Entry>, n: nat)
    requires n < |es| && Accepted(l, j, es, n)
    ensures InPlace(es, n) <==>
              Unseen(es, n) && (n < 2 || es[n].name == SegmentName(n - 2) || es[n].name == CompleteName)
    ensures Unseen(es, n) ==> (n < 2 <==> es[n].name == ManifestName || es[n].name == HostName)
  {
    hide Accepted;
    if n == 0 || es[n - 1].name != CompleteName {
      NamesBefore(l, j, es, n);
      assert n > 0 ==> es[0].name == NameAt(0);
      assert n > 1 ==> es[1].name == NameAt(1);
    }
  }

  lemma SizesNext(l: Limits, j: Codec, es: seq<Entry>, n: nat)
    requires n < |es| && Accepted(l, j, es, n)
    ensures Sizes(es[..n + 1]) == Sizes(es[..n]) + |es[n].text| && (n > 0 ==> Sizes(es[..n]) <= l.maxDecoded)
  {
    hide InPlace, Decodes;
    assert es[..n + 1] == es[..n] + [es[n]];
    if n > 0 {
      assert Follows(l, j, es, n - 1);
    }
  }

  class Reader {
    var seen: set<Name>
    var total: nat
    var completed: bool
    var expected: int
    var manifest: Option<Manifest>
    var host: Option<Host>
    var segments: seq<Piece>

    constructor ()
      ensures seen == {} && total == 0 && !completed && manifest.None? && host.None? && segments == []
    {
      seen, total, completed, expected := {}, 0, false, 0;
      manifest, host, segments := None, None, [];
    }

    /** The names and sizes noted so far are those of the first `n` entries. */
    ghost predicate Names(es: seq<Entry>, n: nat)
      requires n <= |es|
      reads `seen, `total
    {
      |seen| == n && total == Sizes(es[..n]) && (forall k :: 0 <= k < n ==> es[k].name in seen) &&
      forall m :: m in seen ==> exists k :: 0 <= k < n && es[k].name == m
    }

    ghost predicate Headers(es: seq<Entry>, n: nat)
      requires n <= |es|
      reads `seen, `total, `completed
    {
      Names(es, n) && (completed <==> n > 0 && es[n - 1].name == CompleteName)
    }

    /** The values read so far are those of the first `n` entries. */
    ghost predicate Values(j: Codec, es: seq<Entry>, n: nat)
      requires n <= |es|
      reads `expected, `manifest, `host, `segments
    {
      (n > 0 && es[n - 1].name == CompleteName ==> FooterOf(j, es[n - 1]) == Some(expected)) &&
      (n > 0 ==> manifest == ManifestOf(j, es[0])) && (n > 1 ==> host == HostOf(j, es[1])) &&
      |segments| == SegmentsBefore(es, n) &&
      forall i :: 0 <= i < |segments| ==> SegmentOf(j, es[i + 2]) == Some(segments[i])
    }

    lemma NothingRead(j: Codec, es: seq<Entry>)
      requires seen == {} && total == 0 && !completed && segments == []
      ensures Headers(es, 0) && Values(j, es, 0)
    {
    }

    /** The checks on a header, up to the name of a later entry; what passes is noted. */
    method Header(l: Limits, ghost j: Codec, ghost es: seq<Entry>, ghost n: nat, e: Entry) returns (ok: bool)
      requires n < |es| && e == es[n] && Accepted(l, j, es, n) && Headers(es, n)
      modifies this`seen, this`total
      requires ValidLimits(l)
      ensures ok <==> e.regular && Sizes(es[..n + 1]) <= l.maxDecoded && n < l.maxEntries && Unseen(es, n)
      ensures ok ==> Names(es, n + 1) && (n > 0 ==> es[n - 1].name != CompleteName)
    {
      hide Accepted, Sizes;
      SizesNext(l, j, es, n);
      if completed {
        return false;
      }
      if !e.regular || e.name in seen || |e.text| > l.maxDecoded - total {
        return false;
      }
      if |seen| >= l.maxEntries {
        return false;
      }
      if |seen| == 0 && e.name != ManifestName {
        return false;
      }
      if |seen| == 1 && e.name != HostName {
        return false;
      }
      seen := seen + {e.name};
      total := total + |e.text|;
      return true;
    }

    method LoadFixed(j: Codec, ghost es: seq<Entry>, ghost n: nat, e: Entry) returns (ok: bool)
      requires n < |es| && n < 2 && e == es[n] && InPlace(es, n) && Values(j, es, n)
      modifies this`manifest, this`host
      ensures ok <==> Decodes(j, e)
      ensures ok ==> Values(j, es, n + 1)
    {
      if e.name == ManifestName {
        manifest := TakeWhole(j.getManifest(e.text), e.text);
        return manifest.Some? && manifest.value.formatVersion == FORMAT_VERSION;
      }
      host := TakeWhole(j.getHost(e.text), e.text);
      return host.Some?;
    }

    /** A segment must carry the next index. */
    method LoadLater(j: Codec, ghost es: seq<Entry>, ghost n: nat, e: Entry) returns (ok: bool)
      requires 2 <= n < |es| && e == es[n] && es[n - 1].name != CompleteName && Values(j, es, n)
      requires e.name != ManifestName && e.name != HostName
      modifies this`completed, this`expected, this`segments
      ensures ok <==> Decodes(j, e) && (e.name == SegmentName(n - 2) || e.name == CompleteName)
      ensures ok ==> Values(j, es, n + 1) && (completed <==> old(completed) || e.name == CompleteName)
    {
      match e.name
      case CompleteName =>
        var f := TakeWhole(j.getFooter(e.text), e.text);
        completed := true;
        if f.None? {
          return false;
        }
        expected := f.value;
        return true;
      case SegmentName(index) =>
        if index != |segments| {
          return false;
        }
        var p := TakeWhole(j.getSegment(e.text), e.text);
        if p.None? {
          return false;
        }
        segments := segments + [p.value];
        return true;
      case _ =>
        return false;
    }

    /** One turn of the entry loop. */
    method Next(l: Limits, j: Codec, ghost es: seq<Entry>, ghost n: nat, e: Entry) returns (ok: bool)
      requires n < |es| && e == es[n] && ValidLimits(l) && Accepted(l, j, es, n)
      requires Headers(es, n) && Values(j, es, n)
      modifies this
      ensures ok <==> Follows(l, j, es, n)
      ensures ok ==> Headers(es, n + 1) && Values(j, es, n + 1)
    {
      hide Decodes, Values, Accepted, Sizes, Names, Unseen, InPlace;
      InPlaceUnseen(l, j, es, n);
      ok := Header(l, j, es, n, e);
      if ok {
        if e.name == ManifestName || e.name == HostName {
          ok := LoadFixed(j, es, n, e);
        } else {
          ok := LoadLater(j, es, n, e);
        }
      }
    }
  }

  // ----- the whole archive -----

  predicate EventsInside(es: seq<Event>, m: Manifest) {
    forall e :: e in es ==> m.start <= e.mono <= m.end
  }

  predicate MetricsInside(ms: seq<Metric>, m: Manifest) {
    forall x :: x in ms ==> m.start <= x.start <= x.end <= m.end
  }

  method CheckEvents(es: seq<Event>, m: Manifest) returns (ok: bool)
    ensures ok <==> EventsInside(es, m)
  {
    for i := 0 to |es|
      invariant EventsInside(es[..i], m)
    {
      assert es[..i + 1] == es[..i] + [es[i]];
      if es[i].mono < m.start || es[i].mono > m.end {
        return false;
      }
    }
    assert es[..|es|] == es;
    return true;
  }

  method CheckMetrics(ms: seq<Metric>, m: Manifest) returns (ok: bool)
    ensures ok <==> MetricsInside(ms, m)
  {
    for i := 0 to |ms|
      invariant MetricsInside(ms[..i], m)
    {
      assert ms[..i + 1] == ms[..i] + [ms[i]];
      if ms[i].start > ms[i].end || ms[i].start < m.start || ms[i].end > m.end {
        return false;
      }
    }
    assert ms[..|ms|] == ms;
    return true;
  }

  /** The reader's window checks, in its order. */
  method CheckWindows(c: Capture) returns (ok: bool)
    ensures ok <==> WindowsAgree(c)
  {
    hide ValidIncident;
    var m := c.manifest;
    if m.end < m.start || m.requestedStart > m.end || m.recordingStart > m.start {
      return false;
    }
    if m.requestedStart > m.start && m.aggregateOnlyUntil <= m.requestedStart {
      return false;
    }
    if m.aggregateOnlyUntil != 0 && (m.aggregateOnlyUntil < m.start || m.aggregateOnlyUntil > m.end) {
      return false;
    }
    if m.incident.Some? {
      var valid := Validate(m.incident.value, m.end);
      if !valid {
        return false;
      }
    }
    for i := 0 to |c.segments|
      invariant forall p :: p in c.segments[..i] ==> EventsInside(p.events, m) && MetricsInside(p.metrics, m)
    {
      var p := c.segments[i];
      assert p in c.segments;
      assert c.segments[..i + 1] == c.segments[..i] + [p];
      var inside := CheckEvents(p.events, m);
      if !inside {
        return false;
      }
      inside := CheckMetrics(p.metrics, m);
      if !inside {
        return false;
      }
    }
    assert c.segments[..|c.segments|] == c.segments;
    return true;
  }

  lemma Refused(l: Limits, j: Codec, a: Archive, n: nat)
    requires n < |a.entries| && !Follows(l, j, a.entries, n)
    ensures !Readable(l, j, a)
  {
    hide Readable, Follows;
    if Readable(l, j, a) {
      ReadableFollows(l, j, a, n);
    }
  }

  /** A reader that took every entry up to the marker holds the content. */
  lemma HoldsContent(l: Limits, j: Codec, es: seq<Entry>, r: Reader)
    requires Accepted(l, j, es, |es|) && |es| > 0 && es[|es| - 1].name == CompleteName && r.Values(j, es, |es|)
    ensures Grammar(es) && (forall e :: e in es ==> Decodes(j, e))
    ensures r.manifest.Some? && r.host.Some? && Content(j, es) == Capture(r.manifest.value, r.host.value, r.segments)
    ensures r.manifest.value.formatVersion == FORMAT_VERSION
    ensures FooterOf(j, es[|es| - 1]) == Some(r.expected) && |es| - 3 == |r.segments|
  {
    AcceptedGrammar(l, j, es);
    assert Decodes(j, es[0]) && Decodes(j, es[1]);
    assert Content(j, es).segments == r.segments;
  }

  /** What follows the entry loop. */
  method Finish(l: Limits, j: Codec, a: Archive, reader: Reader) returns (r: Option<Capture>)
    requires ValidLimits(l) && Accepted(l, j, a.entries, |a.entries|)
    requires reader.Headers(a.entries, |a.entries|) && reader.Values(j, a.entries, |a.entries|)
    ensures r.Some? <==> Readable(l, j, a)
    ensures r.Some? ==> r.value == Content(j, a.entries)
  {
    hide Accepted, Decodes, WindowsAgree, ValidClock, Sizes, Content;
    if !a.intact || a.bytes > l.maxDecoded {
      return None;
    }
    if !reader.completed {
      return None;
    }
    AcceptedGrammar(l, j, a.entries);
    HoldsContent(l, j, a.entries, reader);
    if reader.expected != |reader.segments| {
      return None;
    }
    if ManifestName !in reader.seen || HostName !in reader.seen {
      return None;
    }
    var c := Capture(reader.manifest.value, reader.host.value, reader.segments);
    if c.manifest.formatVersion != FORMAT_VERSION || !ValidClock(c.host) {
      return None;
    }
    var agree := CheckWindows(c);
    return if agree then Some(c) else None;
  }

  lemma BadLimits(l: Limits, j: Codec, a: Archive)
    requires !ValidLimits(l)
    ensures !Readable(l, j, a)
  {
  }

  /** The reader accepts exactly the readable archives and returns their content. */
  method Read(l: Limits, j: Codec, a: Archive) returns (r: Option<Capture>)
    ensures r.Some? <==> Readable(l, j, a)
    ensures r.Some? ==> r.value == Content(j, a.entries)
  {
    hide Follows, Decodes, WindowsAgree, ValidClock, Sizes, Grammar, Content, Readable, Reader.Headers,
      Reader.Values;
    if !ValidLimits(l) {
      BadLimits(l, j, a);
      return None;
    }
    var reader := new Reader();
    reader.NothingRead(j, a.entries);
    var n := 0;
    while n < |a.entries|
      invariant n <= |a.entries| && fresh(reader)
      invariant Accepted(l, j, a.entries, n) && reader.Headers(a.entries, n) && reader.Values(j, a.entries, n)
    {
      var ok := reader.Next(l, j, a.entries, n, a.entries[n]);
      if !ok {
        Refused(l, j, a, n);
        return None;
      }
      n := n + 1;
    }
    r := Finish(l, j, a, reader);
  }

  // ----- the round trip -----

  lemma LayoutDecodes(j: Codec, c: Capture, i: nat)
    requires Faithful(j) && i < |c.segments| + 3 && c.manifest.formatVersion == FORMAT_VERSION
    ensures var es := Layout(j, c);
            es[i].regular && Decodes(j, es[i]) &&
            (i == 0 ==> es[i].name == ManifestName && ManifestOf(j, es[i]) == Some(c.manifest)) &&
            (i == 1 ==> es[i].name == HostName && HostOf(j, es[i]) == Some(c.host)) &&
            (2 <= i < |es| - 1 ==>
               es[i].name == SegmentName(i - 2) && SegmentOf(j, es[i]) == Some(c.segments[i - 2])) &&
            (i == |es| - 1 ==> es[i].name == CompleteName && FooterOf(j, es[i]) == Some(|c.segments|))
  {
    hide Layout, Costs;
    LayoutAt(j, c);
    var e := Layout(j, c)[i];
    if 2 <= i < |c.segments| + 2 {
      assert e == Entry(SegmentName(i - 2), true, j.putSegment(c.segments[i - 2]));
    }
    assert e.text[|e.text|..] == [];
  }

  lemma LayoutContent(j: Codec, c: Capture)
    requires Faithful(j) && c.manifest.formatVersion == FORMAT_VERSION
    ensures var es := Layout(j, c);
            Grammar(es) && (forall e :: e in es ==> e.regular && Decodes(j, e)) && Content(j, es) == c &&
            FooterOf(j, es[|es| - 1]) == Some(|es| - 3)
  {
    hide Layout, Decodes, Faithful;
    var es := Layout(j, c);
    forall i | 0 <= i < |es| ensures es[i].regular && Decodes(j, es[i]) {
      LayoutDecodes(j, c, i);
    }
    forall i | 2 <= i < |es| - 1
      ensures es[i].name == SegmentName(i - 2) && SegmentOf(j, es[i]) == Some(c.segments[i - 2])
    {
      LayoutDecodes(j, c, i);
    }
    LayoutDecodes(j, c, 0);
    LayoutDecodes(j, c, 1);
    LayoutDecodes(j, c, |es| - 1);
    forall e | e in es ensures e.regular && Decodes(j, e) {
      var i :| 0 <= i < |es| && es[i] == e;
    }
    assert Content(j, es).segments == c.segments;
  }

  /** Whatever the writer accepts stays within the reader's own byte and entry limits. */
  lemma WritableFits(l: Limits, j: Codec, c: Capture)
    requires Writable(l, j, c)
    ensures var a := Written(j, c);
            a.intact && a.bytes <= l.maxDecoded && Sizes(a.entries) <= l.maxDecoded && |a.entries| <= l.maxEntries
  {
    SizesWithin(Layout(j, c));
  }

  /** A written capture is read back as itself exactly when its windows agree, and is refused
      otherwise: the writer itself checks no window. */
  lemma RoundTrip(l: Limits, j: Codec, c: Capture)
    requires Faithful(j) && Writable(l, j, c)
    ensures Readable(l, j, Written(j, c)) <==> WindowsAgree(c)
    ensures Readable(l, j, Written(j, c)) ==> Content(j, Written(j, c).entries) == c
  {
    hide WindowsAgree, Faithful, Grammar, Decodes, Layout, Content;
    LayoutContent(j, c);
    WritableFits(l, j, c);
  }

  /** A trigger that counts nothing, spans nothing, ends past the incident or gives the wrong reason. */
  predicate BadTrigger(t: Trigger, end: nat) {
    t.count == 0 || t.lastEnd <= t.firstStart || end < t.lastEnd ||
    match t.family
    case "block_io" => t.reason != "critical_latency" || t.threshold == 0
    case "scheduler" => t.reason != "critical_latency" || t.threshold == 0
    case "oom" => t.reason != "oom_victim" || t.threshold > 0
    case _ => true
  }

  predicate BadIncident(a: Incident, end: nat) {
    a.before == 0 || a.end != end || a.end != a.detected + a.after || |a.triggers| == 0 || |a.triggers| > 3 ||
    (exists i, k :: 0 <= i < k < |a.triggers| && a.triggers[i].family == a.triggers[k].family) ||
    exists t :: t in a.triggers && BadTrigger(t, end)
  }

  predicate EventOutside(es: seq<Event>, lo: nat, hi: nat) {
    exists e :: e in es && (e.mono < lo || hi < e.mono)
  }

  predicate MetricOutside(ms: seq<Metric>, lo: nat, hi: nat) {
    exists x :: x in ms && (x.start < lo || x.end < x.start || hi < x.end)
  }

  /** A capture whose times contradict each other. */
  predicate Contradicts(c: Capture) {
    var m := c.manifest;
    m.end < m.start || m.end < m.requestedStart || m.start < m.recordingStart ||
    (m.start < m.requestedStart && m.aggregateOnlyUntil <= m.requestedStart) ||
    (m.aggregateOnlyUntil > 0 && (m.aggregateOnlyUntil < m.start || m.end < m.aggregateOnlyUntil)) ||
    (m.incident.Some? && BadIncident(m.incident.value, m.end)) ||
    exists p :: p in c.segments && (EventOutside(p.events, m.start, m.end) || MetricOutside(p.metrics, m.start, m.end))
  }

  lemma IncidentExactly(a: Incident, end: nat)
    ensures ValidIncident(a, end) <==> !BadIncident(a, end)
  {
    assert forall t :: ValidTrigger(t, end) <==> !BadTrigger(t, end);
  }

  lemma PieceExactly(p: Piece, lo: nat, hi: nat)
    ensures (forall e :: e in p.events ==> lo <= e.mono <= hi) <==> !EventOutside(p.events, lo, hi)
    ensures (forall x :: x in p.metrics ==> lo <= x.start <= x.end <= hi) <==> !MetricOutside(p.metrics, lo, hi)
  {
  }

  /** Of what the writer lets through, the reader refuses exactly the captures whose times contradict
      each other. */
  lemma RefusedExactly(l: Limits, j: Codec, c: Capture)
    requires Faithful(j) && Writable(l, j, c)
    ensures !Readable(l, j, Written(j, c)) <==> Contradicts(c)
  {
    RoundTrip(l, j, c);
    hide Readable, Writable, Faithful, Written, ValidIncident, BadIncident, EventOutside, MetricOutside;
    if c.manifest.incident.Some? {
      IncidentExactly(c.manifest.incident.value, c.manifest.end);
    }
    forall p | p in c.segments
      ensures (forall e :: e in p.events ==> c.manifest.start <= e.mono <= c.manifest.end) <==>
                !EventOutside(p.events, c.manifest.start, c.manifest.end)
      ensures (forall x :: x in p.metrics ==> c.manifest.start <= x.start <= x.end <= c.manifest.end) <==>
                !MetricOutside(p.metrics, c.manifest.start, c.manifest.end)
    {
      PieceExactly(p, c.manifest.start, c.manifest.end);
    }
  }

  /** An archive of written entries that lost its end is never accepted. */
  lemma TruncatedIsRefused(l: Limits, j: Codec, c: Capture, n: nat, intact: bool, bytes: nat)
    requires n < |Layout(j, c)|
    ensures !Readable(l, j, Archive(Layout(j, c)[..n], intact, bytes))
  {
    hide WindowsAgree, Content, Decodes;
    LayoutAt(j, c);
    var es := Layout(j, c)[..n];
    if n > 0 {
      assert es[n - 1].name != CompleteName;
    }
  }
}
