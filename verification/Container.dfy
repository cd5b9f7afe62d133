/** The capture container at the level of its entries: size accounting, the entry grammar,
    the reader's checks and the round trip. JSON is a pair of functions per entry kind. */
module Container {
  import opened Telemetry
  import opened CaptureModel

  // Framing: one 512-byte header block per entry, padded data, two end blocks
  // (ustar Interchange Format, pax section of IEEE Std 1003.1).
  const TAR_BLOCK: nat := 512
  const TAR_END: nat := 2 * TAR_BLOCK

  const MIN_MEMORY: nat := 1 * 1024 * 1024
  const MAX_CAPTURE_BYTES: nat := 1024 * 1024 * 1024
  const MAX_CAPTURE_ENTRIES: nat := 1_000_000

  datatype Limits = Limits(maxDecoded: nat, maxEntries: nat)

  predicate ValidLimits(l: Limits) {
    MIN_MEMORY <= l.maxDecoded <= MAX_CAPTURE_BYTES && 3 <= l.maxEntries <= MAX_CAPTURE_ENTRIES
  }

  datatype Name = ManifestName | HostName | SegmentName(index: nat) | CompleteName | OtherName(text: string)

  datatype Entry = Entry(name: Name, regular: bool, text: string)

  /** A decompressed archive: its entries, whether its framing is intact to the end, and its
      length in bytes. */
  datatype Archive = Archive(entries: seq<Entry>, intact: bool, bytes: nat)

  /** A decoder reads one value from the front of a text and says how much it used. */
  datatype Parsed<T> = Parsed(value: T, used: nat)

  datatype Codec = Codec(
    putManifest: Manifest -> string, getManifest: string -> Option<Parsed<Manifest>>,
    putHost: Host -> string, getHost: string -> Option<Parsed<Host>>,
    putSegment: Piece -> string, getSegment: string -> Option<Parsed<Piece>>,
    putFooter: nat -> string, getFooter: string -> Option<Parsed<int>>)

  /** Decoding what was encoded returns it and uses all of it. */
  ghost predicate Faithful(j: Codec) {
    (forall m :: j.getManifest(j.putManifest(m)) == Some(Parsed(m, |j.putManifest(m)|))) &&
    (forall h :: j.getHost(j.putHost(h)) == Some(Parsed(h, |j.putHost(h)|))) &&
    (forall p :: j.getSegment(j.putSegment(p)) == Some(Parsed(p, |j.putSegment(p)|))) &&
    (forall n :: j.getFooter(j.putFooter(n)) == Some(Parsed(n as int, |j.putFooter(n)|)))
  }

  // ----- trailing data -----

  predicate White(c: char) {
    c == ' ' || c == '\t' || c == '\n' || c == '\r'
  }

  predicate Blank(s: string) {
    forall c :: c in s ==> White(c)
  }

  /** Blanks, tabs and line ends only. */
  lemma BlankExactly(text: string, from: nat)
    requires from <= |text|
    ensures Blank(text[from..]) <==> forall i :: from <= i < |text| ==> text[i] in [' ', '\t', '\n', '\r']
  {
    var rest := text[from..];
    if Blank(rest) {
      forall i | from <= i < |text| ensures text[i] in [' ', '\t', '\n', '\r'] {
        assert rest[i - from] in rest;
      }
    }
    if forall i :: from <= i < |text| ==> text[i] in [' ', '\t', '\n', '\r'] {
      forall c | c in rest ensures White(c) {
        var k :| 0 <= k < |rest| && rest[k] == c;
        assert text[k + from] == c;
      }
    }
  }

  const BUFFER: nat := 4096

  /** Reads the rest of an entry in buffers; only JSON whitespace may follow the value. */
  method ConsumeTail(text: string, from: nat) returns (ok: bool)
    requires from <= |text|
    ensures ok <==> Blank(text[from..])
  {
    var at := from;
    while at < |text|
      invariant from <= at <= |text| && Blank(text[from..at])
    {
      var n := if |text| - at < BUFFER then |text| - at else BUFFER;
      var k := 0;
      while k < n
        invariant k <= n && Blank(text[from..at + k])
      {
        assert text[at + k] == text[from..][at + k - from];
        if !White(text[at + k]) {
          return false;
        }
        assert text[from..at + k + 1] == text[from..at + k] + [text[at + k]];
        k := k + 1;
      }
      at := at + n;
    }
    assert text[from..at] == text[from..];
    return true;
  }

  /** One value and nothing but whitespace after it. */
  function Whole<T>(p: Option<Parsed<T>>, text: string): Option<T> {
    if p.Some? && p.value.used <= |text| && Blank(text[p.value.used..]) then Some(p.value.value) else None
  }

  method TakeWhole<T>(p: Option<Parsed<T>>, text: string) returns (r: Option<T>)
    ensures r == Whole(p, text)
  {
    if p.None? || p.value.used > |text| {
      return None;
    }
    var blank := ConsumeTail(text, p.value.used);
    return if blank then Some(p.value.value) else None;
  }

  // ----- writing -----

  /** Bytes an entry takes in the archive: its header and its data in whole blocks. */
  function Cost(text: string): (n: nat)
    ensures n >= TAR_BLOCK + |text| && n % TAR_BLOCK == 0 && n < 2 * TAR_BLOCK + |text|
  {
    TAR_BLOCK + (|text| + TAR_BLOCK - 1) / TAR_BLOCK * TAR_BLOCK
  }

  function Costs(es: seq<Entry>): nat {
    if |es| == 0 then 0 else Costs(es[..|es| - 1]) + Cost(es[|es| - 1].text)
  }

  function Sizes(es: seq<Entry>): nat {
    if |es| == 0 then 0 else Sizes(es[..|es| - 1]) + |es[|es| - 1].text|
  }

  lemma {:induction false} SizesWithin(es: seq<Entry>)
    ensures Sizes(es) + TAR_BLOCK * |es| <= Costs(es)
  {
    if |es| > 0 {
      SizesWithin(es[..|es| - 1]);
    }
  }

  lemma {:induction false} CostsGrow(es: seq<Entry>, n: nat)
    requires n <= |es|
    ensures Costs(es[..n]) <= Costs(es) && Sizes(es[..n]) <= Sizes(es)
  {
    if n == |es| {
      assert es[..n] == es;
    } else {
      CostsGrow(es[..|es| - 1], n);
      assert es[..|es| - 1][..n] == es[..n];
    }
  }

  /** The entries of a capture, in the order they are written. */
  function Layout(j: Codec, c: Capture): (es: seq<Entry>)
    ensures |es| == |c.segments| + 3
  {
    [Entry(ManifestName, true, j.putManifest(c.manifest)), Entry(HostName, true, j.putHost(c.host))] +
    seq(|c.segments|, i requires 0 <= i < |c.segments| => Entry(SegmentName(i), true, j.putSegment(c.segments[i]))) +
    [Entry(CompleteName, true, j.putFooter(|c.segments|))]
  }

  /** What the writer demands of a capture under its limits. */
  predicate Writable(l: Limits, j: Codec, c: Capture) {
    ValidLimits(l) && c.manifest.formatVersion == FORMAT_VERSION && ValidClock(c.host) &&
    |c.segments| + 3 <= l.maxEntries && TAR_END + Costs(Layout(j, c)) <= l.maxDecoded
  }

  /** The bytes of entries: for each a header and its data, in blocks of 512. */
  function Octets(es: seq<Entry>): nat {
    if |es| == 0 then 0 else Octets(es[..|es| - 1]) + 512 * (1 + (|es[|es| - 1].text| + 511) / 512)
  }

  lemma {:induction false} OctetsExact(es: seq<Entry>)
    ensures Octets(es) == Costs(es)
  {
    if |es| > 0 {
      OctetsExact(es[..|es| - 1]);
    }
  }

  /** The writer's rules in numbers: limits between a mebibyte and a gibibyte and up to a million
      entries, format one, an anchored boot-time or synthetic clock, and an archive within the limits. */
  lemma WritableExactly(l: Limits, j: Codec, c: Capture)
    ensures Writable(l, j, c) <==>
              1_048_576 <= l.maxDecoded <= 1_073_741_824 && 3 <= l.maxEntries <= 1_000_000 &&
              c.manifest.formatVersion == 1 && c.host.clockSource in ["boottime", "synthetic"] && c.host.anchored &&
              |c.segments| + 3 <= l.maxEntries && 1024 + Octets(Layout(j, c)) <= l.maxDecoded
  {
    OctetsExact(Layout(j, c));
    hide Layout, Octets, Costs;
  }

  function Written(j: Codec, c: Capture): Archive {
    Archive(Layout(j, c), true, TAR_END + Costs(Layout(j, c)))
  }

  class Writer {
    var entries: seq<Entry>
    var total: nat

    constructor ()
      ensures entries == [] && total == TAR_END
    {
      entries, total := [], TAR_END;
    }

    /** Charges an entry before writing it; an entry that does not fit is not written. */
    method Put(l: Limits, name: Name, text: string) returns (ok: bool)
      requires total == TAR_END + Costs(entries)
      modifies this
      ensures total == TAR_END + Costs(old(entries) + [Entry(name, true, text)])
      ensures ok <==> total <= l.maxDecoded
      ensures entries == if ok then old(entries) + [Entry(name, true, text)] else old(entries)
    {
      assert (entries + [Entry(name, true, text)])[..|entries|] == entries;
      total := total + Cost(text);
      if total > l.maxDecoded {
        return false;
      }
      entries := entries + [Entry(name, true, text)];
      return true;
    }
  }

  lemma LayoutAt(j: Codec, c: Capture)
    ensures var es := Layout(j, c);
            es[0] == Entry(ManifestName, true, j.putManifest(c.manifest)) &&
            es[1] == Entry(HostName, true, j.putHost(c.host)) &&
            es[|c.segments| + 2] == Entry(CompleteName, true, j.putFooter(|c.segments|)) &&
            forall i :: 0 <= i < |c.segments| ==> es[i + 2] == Entry(SegmentName(i), true, j.putSegment(c.segments[i]))
  {
  }

  /** Writes the next entry of a layout whose first `n` are written. */
  method PutNext(w: Writer, l: Limits, ghost es: seq<Entry>, ghost n: nat, name: Name, text: string) returns (ok: bool)
    requires n < |es| && es[n] == Entry(name, true, text)
    requires w.entries == es[..n] && w.total == TAR_END + Costs(es[..n])
    modifies w
    ensures ok ==> w.entries == es[..n + 1] && w.total == TAR_END + Costs(es[..n + 1]) <= l.maxDecoded
    ensures !ok ==> TAR_END + Costs(es) > l.maxDecoded
  {
    assert es[..n + 1] == es[..n] + [es[n]];
    CostsGrow(es, n + 1);
    ok := w.Put(l, name, text);
  }

  /** Succeeds exactly on writable captures, and then with exactly their layout. */
  method Write(l: Limits, j: Codec, c: Capture) returns (r: Option<Archive>)
    ensures r == if Writable(l, j, c) then Some(Written(j, c)) else None
  {
    hide Layout, Costs, ValidClock;
    if !ValidLimits(l) || c.manifest.formatVersion != FORMAT_VERSION || !ValidClock(c.host) {
      return None;
    }
    if |c.segments| > l.maxEntries - 3 {
      return None;
    }
    ghost var es := Layout(j, c);
    LayoutAt(j, c);
    var w := new Writer();
    assert es[..0] == [];
    assert es[..|es|] == es;
    NoCosts();
    var ok := PutNext(w, l, es, 0, ManifestName, j.putManifest(c.manifest));
    if ok {
      ok := PutNext(w, l, es, 1, HostName, j.putHost(c.host));
    }
    var i := 0;
    while ok && i < |c.segments|
      invariant i <= |c.segments|
      invariant ok ==> w.entries == es[..i + 2] && w.total == TAR_END + Costs(es[..i + 2])
      invariant !ok ==> TAR_END + Costs(es) > l.maxDecoded
    {
      ok := PutNext(w, l, es, i + 2, SegmentName(i), j.putSegment(c.segments[i]));
      i := i + 1;
    }
    if ok {
      ok := PutNext(w, l, es, i + 2, CompleteName, j.putFooter(|c.segments|));
    }
    return if ok then Some(Archive(w.entries, true, w.total)) else None;
  }

  lemma NoCosts()
    ensures Costs([]) == 0
  {
  }
}
