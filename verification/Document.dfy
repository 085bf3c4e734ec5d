/** Writing a processed document: the canonical text, the manifest that points into it, the preview copy and
    the workbook preview, all under byte limits. Text arrives as its UTF-8 bytes; how a manifest entry is
    encoded into chunks is a parameter. */
module Document {
  import opened Common

  const MAX_OUTPUT := 256 * 1024 * 1024
  const MAX_MANIFEST := 64 * 1024 * 1024 - 64 * 1024
  const MAX_PAGE := 4 * 1024 * 1024
  const MAX_WORKBOOK := 16 * 1024 * 1024

  function Ascii(s: string): Bytes
  {
    seq(|s|, i requires 0 <= i < |s| => if (s[i] as int) < 128 then s[i] as int else 63)
  }

  function Digits(n: nat): Bytes
  {
    if n < 10 then [48 + n] else Digits(n / 10) + [48 + n % 10]
  }

  datatype Page = Page(number: nat, body: Bytes)

  datatype Entry = Entry(page: Page, startByte: nat, endByte: nat, startLine: nat, endLine: nat)

  type Encoder = Entry -> seq<Bytes>

  function Heading(name: Bytes): Bytes
  {
    Ascii("# ") + name + [LF, LF]
  }

  function Header(page: Page): Bytes
  {
    Ascii("## Page ") + Digits(page.number) + [LF, LF]
  }

  function Newlines(s: Bytes): nat
  {
    if s == [] then 0 else Newlines(s[..|s| - 1]) + if s[|s| - 1] == LF then 1 else 0
  }

  // ----- what is to be written -----

  function Written(before: Bytes, page: Page): Bytes
  {
    before + Header(page) + page.body + [LF, LF]
  }

  /** The text once these pages follow `before`. */
  function Text(before: Bytes, pages: seq<Page>): Bytes
    decreases |pages|
  {
    if pages == [] then before else Text(Written(before, pages[0]), pages[1..])
  }

  function Canonical(name: Bytes, pages: seq<Page>): Bytes
  {
    Text(Heading(name), pages)
  }

  /** The entry of a page written after `before`: where its text lies, and on which lines. */
  function EntryAfter(before: Bytes, page: Page): Entry
  {
    var start := before + Header(page);
    Entry(page, |start|, |start + page.body|, 1 + Newlines(start), 1 + Newlines(start + page.body))
  }

  function Entries(before: Bytes, pages: seq<Page>): seq<Entry>
    decreases |pages|
  {
    if pages == [] then [] else [EntryAfter(before, pages[0])] + Entries(Written(before, pages[0]), pages[1..])
  }

  function Flat(chunks: seq<Bytes>): Bytes
  {
    if chunks == [] then [] else Flat(chunks[..|chunks| - 1]) + chunks[|chunks| - 1]
  }

  const OPEN := "{\"schema\":\"knowledge.derived_manifest.v1\",\"pages\":["

  function Listed(encode: Encoder, before: Bytes, first: bool, entry: Entry): Bytes
  {
    before + (if first then [] else Ascii(",")) + Flat(encode(entry))
  }

  function Items(encode: Encoder, before: Bytes, first: bool, entries: seq<Entry>): Bytes
    decreases |entries|
  {
    if entries == [] then before else Items(encode, Listed(encode, before, first, entries[0]), false, entries[1..])
  }

  function Tail(pages: nat): Bytes
  {
    Ascii("],\"pageCount\":") + Digits(pages) + Ascii("}")
  }

  function Manifest(encode: Encoder, entries: seq<Entry>): Bytes
  {
    Items(encode, Ascii(OPEN), true, entries) + Tail(|entries|)
  }

  // ----- what the manifest says about the text -----

  lemma {:induction false} NewlinesAppend(a: Bytes, b: Bytes)
    ensures Newlines(a + b) == Newlines(a) + Newlines(b)
    decreases |b|
  {
    if b == [] {
      assert a + b == a;
    } else {
      assert (a + b)[..|a + b| - 1] == a + b[..|b| - 1];
      NewlinesAppend(a, b[..|b| - 1]);
    }
  }

  lemma {:induction false} TextGrows(before: Bytes, pages: seq<Page>)
    ensures before <= Text(before, pages)
    decreases |pages|
  {
    if pages != [] { TextGrows(Written(before, pages[0]), pages[1..]); }
  }

  /** An entry selects exactly its page's text, and its lines count the line feeds before each end. */
  ghost predicate Points(text: Bytes, page: Page, e: Entry)
  {
    && e.page == page && e.startByte <= e.endByte <= |text|
    && text[e.startByte..e.endByte] == page.body
    && e.startLine == 1 + Newlines(text[..e.startByte]) && e.endLine == 1 + Newlines(text[..e.endByte])
  }

  lemma EntryPoints(before: Bytes, page: Page, text: Bytes)
    requires Written(before, page) <= text
    ensures Points(text, page, EntryAfter(before, page))
  {
    var start := before + Header(page);
    var end := start + page.body;
    assert end <= text && start <= text;
    assert text[..|start|] == start && text[..|end|] == end;
    assert text[|start|..|end|] == end[|start|..];
  }

  /** Every page has one entry, which points at it in the finished text. */
  lemma {:induction false} EntriesPoint(before: Bytes, pages: seq<Page>)
    ensures |Entries(before, pages)| == |pages|
    ensures forall i :: 0 <= i < |pages| ==> Points(Text(before, pages), pages[i], Entries(before, pages)[i])
    decreases |pages|
  {
    if pages != [] {
      var next := Written(before, pages[0]);
      EntriesPoint(next, pages[1..]);
      TextGrows(next, pages[1..]);
      EntryPoints(before, pages[0], Text(before, pages));
      forall i | 0 <= i < |pages| ensures Points(Text(before, pages), pages[i], Entries(before, pages)[i]) {
        if i > 0 { assert Points(Text(next, pages[1..]), pages[1..][i - 1], Entries(next, pages[1..])[i - 1]); }
      }
    }
  }

  ghost predicate Increasing(from: nat, e: seq<Entry>)
  {
    && (forall i :: 0 <= i < |e| ==> from < e[i].startByte <= e[i].endByte)
    && (forall i, j :: 0 <= i < j < |e| ==> e[i].endByte + 2 < e[j].startByte)
  }

  lemma IncreasingFirst(from: nat, first: Entry, next: nat, rest: seq<Entry>)
    requires from < first.startByte <= first.endByte && next == first.endByte + 2 && Increasing(next, rest)
    ensures Increasing(from, [first] + rest)
  {
    var e := [first] + rest;
    assert forall i :: 0 < i < |e| ==> e[i] == rest[i - 1];
  }

  /** The ranges come in page order after `before`, with a blank line and a header between two of them. */
  lemma {:induction false} RangesIncrease(before: Bytes, pages: seq<Page>)
    ensures Increasing(|before|, Entries(before, pages))
    decreases |pages|
  {
    if pages != [] {
      var next := Written(before, pages[0]);
      RangesIncrease(next, pages[1..]);
      IncreasingFirst(|before|, EntryAfter(before, pages[0]), |next|, Entries(next, pages[1..]));
    }
  }

  // ----- writing within limits -----

  class Output {
    var content: Bytes

    constructor ()
      ensures content == []
    {
      content := [];
    }

    method WriteBounded(bytes: Bytes, maximum: int) returns (ok: bool)
      modifies this
      ensures ok <==> |old(content)| + |bytes| <= maximum
      ensures content == if ok then old(content) + bytes else old(content)
    {
      if |content| + |bytes| > maximum { return false; }
      content := content + bytes;
      ok := true;
    }

    /** Chunk by chunk: succeeds exactly when everything fits. */
    method WriteChunks(chunks: seq<Bytes>, maximum: int) returns (ok: bool)
      modifies this
      requires |content| <= maximum
      ensures ok <==> |old(content)| + |Flat(chunks)| <= maximum
      ensures ok ==> content == old(content) + Flat(chunks)
    {
      for i := 0 to |chunks|
        invariant content == old(content) + Flat(chunks[..i]) && |content| <= maximum
      {
        assert chunks[..i + 1][..i] == chunks[..i];
        ok := WriteBounded(chunks[i], maximum);
        if !ok {
          FlatGrows(chunks, i + 1);
          return;
        }
      }
      assert chunks[..|chunks|] == chunks;
      ok := true;
    }
  }

  lemma {:induction false} FlatGrows(chunks: seq<Bytes>, n: nat)
    requires n <= |chunks|
    ensures |Flat(chunks[..n])| <= |Flat(chunks)|
    decreases |chunks| - n
  {
    if n == |chunks| {
      assert chunks[..n] == chunks;
    } else {
      assert chunks[..n + 1][..n] == chunks[..n];
      FlatGrows(chunks, n + 1);
    }
  }

  /** The text and the manifest while they are being written. */
  datatype Draft = Draft(text: Bytes, entries: seq<Entry>, items: Bytes)

  function Added(d: Draft, page: Page, encode: Encoder): Draft
  {
    var entry := EntryAfter(d.text, page);
    Draft(Written(d.text, page), d.entries + [entry], Listed(encode, d.items, d.entries == [], entry))
  }

  predicate Fits(d: Draft, page: Page, encode: Encoder, limit: int)
  {
    |page.body| <= MAX_PAGE && |Added(d, page, encode).text| <= limit && |Added(d, page, encode).items| <= MAX_MANIFEST
  }

  function AddAll(d: Draft, pages: seq<Page>, encode: Encoder, limit: int): Option<Draft>
    decreases |pages|
  {
    if pages == [] then Some(d)
    else if Fits(d, pages[0], encode, limit) then AddAll(Added(d, pages[0], encode), pages[1..], encode, limit)
    else None
  }

  predicate ShortPages(pages: seq<Page>)
  {
    forall i :: 0 <= i < |pages| ==> |pages[i].body| <= MAX_PAGE
  }

  /** Checking page by page is checking the finished text and manifest. */
  lemma {:induction false} AddAllMeans(d: Draft, pages: seq<Page>, encode: Encoder, limit: int)
    requires |d.text| <= limit && |d.items| <= MAX_MANIFEST
    ensures var text, entries := Text(d.text, pages), Entries(d.text, pages);
            var items := Items(encode, d.items, d.entries == [], entries);
            && |d.items| <= |items|
            && AddAll(d, pages, encode, limit) ==
                 if ShortPages(pages) && |text| <= limit && |items| <= MAX_MANIFEST
                 then Some(Draft(text, d.entries + entries, items)) else None
    decreases |pages|
  {
    if pages == [] {
      assert d.entries + [] == d.entries;
    } else {
      var d' := Added(d, pages[0], encode);
      var rest := Entries(d'.text, pages[1..]);
      TextGrows(d'.text, pages[1..]);
      ItemsGrow(encode, d'.items, d'.entries == [], rest);
      assert d'.entries + rest == d.entries + Entries(d.text, pages);
      assert ShortPages(pages) <==> |pages[0].body| <= MAX_PAGE && ShortPages(pages[1..]) by { ShortHead(pages); }
      if Fits(d, pages[0], encode, limit) { AddAllMeans(d', pages[1..], encode, limit); }
    }
  }

  lemma ShortHead(pages: seq<Page>)
    requires pages != []
    ensures ShortPages(pages) <==> |pages[0].body| <= MAX_PAGE && ShortPages(pages[1..])
  {
    assert forall i :: 0 < i < |pages| ==> pages[1..][i - 1] == pages[i];
  }

  lemma {:induction false} ItemsGrow(encode: Encoder, before: Bytes, first: bool, entries: seq<Entry>)
    ensures |before| <= |Items(encode, before, first, entries)|
    decreases |entries|
  {
    if entries != [] { ItemsGrow(encode, Listed(encode, before, first, entries[0]), false, entries[1..]); }
  }

  lemma BlankLine()
    ensures Newlines([LF, LF]) == 2
  {
    assert [LF, LF][..1] == [LF];
    assert Newlines([LF]) == 1;
  }

  /** A page's part of the text, with its position and lines counted along the way. */
  method WriteText(canonical: Output, page: Page, line: nat, limit: int) returns (ok: bool, next: nat, entry: Entry)
    requires line == 1 + Newlines(canonical.content) && |canonical.content| <= limit
    modifies canonical
    ensures ok <==> |page.body| <= MAX_PAGE && |Written(old(canonical.content), page)| <= limit
    ensures ok ==> canonical.content == Written(old(canonical.content), page) && next == 1 + Newlines(canonical.content)
    ensures ok ==> entry == EntryAfter(old(canonical.content), page)
  {
    next, entry := line, Entry(page, 0, 0, 0, 0);
    if |page.body| > MAX_PAGE { return false, next, entry; }
    var header := Header(page);
    NewlinesAppend(canonical.content, header);
    NewlinesAppend(canonical.content + header, page.body);
    NewlinesAppend(canonical.content + header + page.body, [LF, LF]);
    BlankLine();
    ok := canonical.WriteBounded(header, limit);
    if !ok { return; }
    var startByte, startLine := |canonical.content|, line + Newlines(header);
    ok := canonical.WriteBounded(page.body, limit);
    if !ok { return; }
    var endByte, endLine := |canonical.content|, startLine + Newlines(page.body);
    ok := canonical.WriteBounded([LF, LF], limit);
    if !ok { return; }
    next, entry := endLine + 2, Entry(page, startByte, endByte, startLine, endLine);
  }

  method WriteEntry(manifest: Output, entry: Entry, first: bool, encode: Encoder) returns (ok: bool)
    requires |manifest.content| <= MAX_MANIFEST
    modifies manifest
    ensures ok <==> |Listed(encode, old(manifest.content), first, entry)| <= MAX_MANIFEST
    ensures ok ==> manifest.content == Listed(encode, old(manifest.content), first, entry)
  {
    if !first {
      ok := manifest.WriteBounded(Ascii(","), MAX_MANIFEST);
      if !ok { return; }
    }
    ok := manifest.WriteChunks(encode(entry), MAX_MANIFEST);
  }

  /** All pages in order; stops at the first that breaks a limit. */
  method WritePages(canonical: Output, manifest: Output, pages: seq<Page>, encode: Encoder, limit: int)
    returns (ok: bool, count: nat, entries: seq<Entry>)
    requires canonical != manifest && |canonical.content| <= limit && |manifest.content| <= MAX_MANIFEST
    modifies canonical, manifest
    ensures var start := Draft(old(canonical.content), [], old(manifest.content));
            && (ok <==> AddAll(start, pages, encode, limit).Some?)
            && (ok ==> AddAll(start, pages, encode, limit) == Some(Draft(canonical.content, entries, manifest.content)))
    ensures ok ==> count == |pages|
  {
    var line := 1 + Newlines(canonical.content);
    count, entries := 0, [];
    ghost var start := Draft(canonical.content, [], manifest.content);
    for i := 0 to |pages|
      invariant count == i && |entries| == i && line == 1 + Newlines(canonical.content)
      invariant |canonical.content| <= limit && |manifest.content| <= MAX_MANIFEST
      invariant AddAll(Draft(canonical.content, entries, manifest.content), pages[i..], encode, limit)
             == AddAll(start, pages, encode, limit)
    {
      var entry;
      assert pages[i..][0] == pages[i] && pages[i..][1..] == pages[i + 1..];
      ok, line, entry := WriteText(canonical, pages[i], line, limit);
      if !ok { return; }
      ok := WriteEntry(manifest, entry, count == 0, encode);
      if !ok { return; }
      entries := entries + [entry];
      count := count + 1;
    }
    ok := true;
  }

  // ----- the whole output -----

  /** What a successful run leaves behind. */
  datatype Outputs = Outputs(count: nat, canonical: Bytes, manifest: Bytes, preview: Option<Bytes>, workbook: Bytes,
                             entries: seq<Entry>)

  /** `size` is the preview's size when it was looked at; `preview` the chunks read when it was copied. */
  datatype Input = Input(name: Bytes, pages: seq<Page>, size: nat, preview: Option<seq<Bytes>>, workbook: Bytes)

  function Limit(input: Input): int
  {
    MAX_OUTPUT - input.size - |input.workbook|
  }

  function Copied(input: Input): nat
  {
    if input.preview.Some? then |Flat(input.preview.value)| else 0
  }

  /** Exactly when the run succeeds. */
  predicate Succeeds(input: Input, encode: Encoder)
  {
    && |input.workbook| <= MAX_WORKBOOK && Limit(input) >= 0
    && DocumentFits(input.name, input.pages, encode, Limit(input))
    && |Canonical(input.name, input.pages)| + Copied(input) <= MAX_OUTPUT
  }

  lemma OpenFits()
    ensures |Ascii(OPEN)| == |OPEN| <= 64
  {
  }

  /** The heading and the opening, all pages, and the end of the manifest. */
  method WriteDocument(name: Bytes, pages: seq<Page>, encode: Encoder, limit: nat)
    returns (ok: bool, canonical: Bytes, manifest: Bytes, entries: seq<Entry>)
    ensures ok <==> DocumentFits(name, pages, encode, limit)
    ensures ok ==> canonical == Canonical(name, pages) && entries == Entries(Heading(name), pages) && manifest == Manifest(encode, entries)
  {
    canonical, manifest, entries := [], [], [];
    var heading := Heading(name);
    var text := new Output();
    var list := new Output();
    DraftMeans(name, pages, encode, limit);
    ok := text.WriteBounded(heading, limit);
    if !ok { return; }
    ok := list.WriteBounded(Ascii(OPEN), MAX_MANIFEST);
    assert ok && text.content == heading && list.content == Ascii(OPEN);
    var count;
    ok, count, entries := WritePages(text, list, pages, encode, limit);
    if !ok { return; }
    if count == 0 { ok := false; return; }
    ok := list.WriteBounded(Tail(count), MAX_MANIFEST);
    canonical, manifest := text.content, list.content;
  }

  predicate DocumentFits(name: Bytes, pages: seq<Page>, encode: Encoder, limit: int)
  {
    && pages != [] && ShortPages(pages) && |Canonical(name, pages)| <= limit
    && |Manifest(encode, Entries(Heading(name), pages))| <= MAX_MANIFEST
  }

  lemma DraftMeans(name: Bytes, pages: seq<Page>, encode: Encoder, limit: nat)
    ensures |Ascii(OPEN)| <= MAX_MANIFEST && |Heading(name)| <= |Canonical(name, pages)|
    ensures |Entries(Heading(name), pages)| == |pages|
    ensures |Heading(name)| <= limit ==>
      var entries := Entries(Heading(name), pages);
      var items := Items(encode, Ascii(OPEN), true, entries);
      AddAll(Draft(Heading(name), [], Ascii(OPEN)), pages, encode, limit) ==
        if ShortPages(pages) && |Canonical(name, pages)| <= limit && |items| <= MAX_MANIFEST
        then Some(Draft(Canonical(name, pages), entries, items)) else None
  {
    OpenFits();
    TextGrows(Heading(name), pages);
    EntriesPoint(Heading(name), pages);
    if |Heading(name)| <= limit {
      AddAllMeans(Draft(Heading(name), [], Ascii(OPEN)), pages, encode, limit);
      assert [] + Entries(Heading(name), pages) == Entries(Heading(name), pages);
    }
  }

  method CopyPreview(chunks: seq<Bytes>, maximum: nat) returns (copy: Option<Bytes>)
    ensures copy == if |Flat(chunks)| <= maximum then Some(Flat(chunks)) else None
  {
    var target := new Output();
    var ok := target.WriteChunks(chunks, maximum);
    if !ok { return None; }
    assert target.content == Flat(chunks);
    return Some(target.content);
  }

  /** Writes everything, or fails; it succeeds exactly when every limit is kept, and then leaves the text, the
      manifest of its entries, the copied preview and the workbook. */
  method WriteOutputs(input: Input, encode: Encoder) returns (r: Option<Outputs>)
    ensures r.Some? <==> Succeeds(input, encode)
    ensures r.Some? ==>
      && r.value.count == |input.pages| && r.value.canonical == Canonical(input.name, input.pages)
      && r.value.entries == Entries(Heading(input.name), input.pages) && r.value.manifest == Manifest(encode, r.value.entries)
      && r.value.preview == (if input.preview.Some? then Some(Flat(input.preview.value)) else None)
      && r.value.workbook == input.workbook
  {
    if |input.workbook| > MAX_WORKBOOK || input.size + |input.workbook| > MAX_OUTPUT { return None; }
    var limit := MAX_OUTPUT - input.size - |input.workbook|;
    var ok, canonical, manifest, entries := WriteDocument(input.name, input.pages, encode, limit);
    if !ok { return None; }
    EntriesPoint(Heading(input.name), input.pages);
    var preview := None;
    if input.preview.Some? {
      preview := CopyPreview(input.preview.value, MAX_OUTPUT - |canonical|);
      if preview.None? { return None; }
    }
    return Some(Outputs(|entries|, canonical, manifest, preview, input.workbook, entries));
  }

  // ----- the total -----

  function Total(input: Input): nat
  {
    |Canonical(input.name, input.pages)| + Copied(input) + |input.workbook|
  }

  /** The shortest text there is: an empty name and one empty page with a one-digit number. */
  const SHORTEST := 17

  lemma TextAtLeast(name: Bytes, pages: seq<Page>)
    requires pages != []
    ensures |Canonical(name, pages)| >= SHORTEST + |name|
  {
    TextGrows(Written(Heading(name), pages[0]), pages[1..]);
    assert |Digits(pages[0].number)| >= 1;
  }

  /** A page with no text has a small manifest entry. */
  ghost predicate SmallEntries(encode: Encoder)
  {
    forall e: Entry :: e.page == Page(1, []) ==> |Flat(encode(e))| <= 1024
  }

  lemma NamedText(length: nat, encode: Encoder) returns (name: Bytes)
    requires SmallEntries(encode) && length >= SHORTEST
    ensures |Canonical(name, [Page(1, [])])| == length
    ensures |Manifest(encode, Entries(Heading(name), [Page(1, [])]))| <= MAX_MANIFEST
  {
    name := seq(length - SHORTEST, _ => 65);
    var page := Page(1, []);
    var pages := [page];
    var heading := Heading(name);
    assert pages[1..] == [];
    assert Text(heading, pages) == Text(Written(heading, page), []) == Written(heading, page);
    var entry := EntryAfter(heading, page);
    assert Entries(Written(heading, page), []) == [];
    assert Entries(heading, pages) == [entry];
    assert [entry][1..] == [];
    OpenFits();
    assert |Tail(1)| <= 32;
    assert Items(encode, Ascii(OPEN), true, [entry]) == Listed(encode, Ascii(OPEN), true, entry);
  }

  /** The same preview and workbook keep every document within the limit. */
  ghost predicate AlwaysWithin(size: nat, preview: Option<seq<Bytes>>, workbook: Bytes, encode: Encoder)
  {
    forall name, pages :: Succeeds(Input(name, pages, size, preview, workbook), encode) ==>
                            Total(Input(name, pages, size, preview, workbook)) <= MAX_OUTPUT
  }

  /** The outputs together stay within the limit for every document exactly when the preview did not grow
      while it was copied, or there is no workbook, or the run cannot succeed at all. */
  lemma TotalExact(size: nat, preview: Option<seq<Bytes>>, workbook: Bytes, encode: Encoder)
    requires SmallEntries(encode) && |workbook| <= MAX_WORKBOOK
    ensures var copied := if preview.Some? then |Flat(preview.value)| else 0;
            AlwaysWithin(size, preview, workbook, encode) <==>
              copied <= size || workbook == [] || copied > MAX_OUTPUT - SHORTEST || size + |workbook| > MAX_OUTPUT - SHORTEST
  {
    var copied := if preview.Some? then |Flat(preview.value)| else 0;
    if copied <= size || workbook == [] || copied > MAX_OUTPUT - SHORTEST || size + |workbook| > MAX_OUTPUT - SHORTEST {
      forall name, pages | Succeeds(Input(name, pages, size, preview, workbook), encode)
        ensures Total(Input(name, pages, size, preview, workbook)) <= MAX_OUTPUT
      {
        TextAtLeast(name, pages);
      }
    } else {
      var room := if size + |workbook| >= copied then MAX_OUTPUT - size - |workbook| else MAX_OUTPUT - copied;
      var name := NamedText(room, encode);
      var input := Input(name, [Page(1, [])], size, preview, workbook);
      assert Succeeds(input, encode) && Total(input) > MAX_OUTPUT;
    }
  }
}
