/**
 A WAL file as its writer lays it out: record lines and sync markers, and how
 such a file reads.

 How a line is written and read is a parameter (`Writer`); `Faithful` is what
 the line format guarantees of it.
 */
module WalFile {
  import opened MarkerRule

  /** The text of a record line and of a marker line, and the reader of both. */
  datatype Writer = Writer(reader: Reader, version: byte, plain: bytes -> bool,
                           record: bytes -> bytes, marker: nat -> bytes, limit: nat)

  predicate OneLine(text: bytes) {
    text != [] && NEWLINE !in text
  }

  predicate RecordReadsBack(w: Writer, payload: bytes, start: nat) {
    w.plain(payload) ==>
      && OneLine(w.record(payload))
      && w.reader.clean(Line(start, w.record(payload))) == Record(w.version, payload)
      && w.reader.past(Line(start, w.record(payload))) == Skipped
  }

  /** A marker is a proof only at the offset it claims. */
  predicate MarkerReadsBack(w: Writer, claimed: nat, start: nat) {
    claimed < w.limit ==>
      && OneLine(w.marker(claimed))
      && var line := Line(start, w.marker(claimed));
         if claimed == start then w.reader.clean(line) == w.reader.past(line) == Marker(start)
         else w.reader.clean(line) == w.reader.past(line) == Fatal(BadSyncMarker(w.reader.name, start, claimed))
  }

  ghost predicate Faithful(w: Writer) {
    && Coherent(w.reader)
    && (forall payload, start: nat :: RecordReadsBack(w, payload, start))
    && (forall claimed: nat, start: nat :: MarkerReadsBack(w, claimed, start))
  }

  // --- The file as the writer laid it out ------------------------------------------------------------

  /** A record line, a marker claiming its own offset, or an empty line left by an earlier crash. */
  datatype Item = Rec(payload: bytes) | Mark | Blank

  function Text(w: Writer, item: Item, offset: nat): bytes {
    match item
    case Rec(payload) => w.record(payload)
    case Mark => w.marker(offset)
    case Blank => []
  }

  function Render(w: Writer, items: seq<Item>): bytes {
    if items == [] then []
    else
      var front := Render(w, items[..|items| - 1]);
      front + Text(w, items[|items| - 1], |front|) + [NEWLINE]
  }

  function Offset(w: Writer, items: seq<Item>, i: nat): nat
    requires i <= |items|
  {
    |Render(w, items[..i])|
  }

  function TextAt(w: Writer, items: seq<Item>, i: nat): bytes
    requires i < |items|
  {
    Text(w, items[i], Offset(w, items, i))
  }

  /** The payloads of the record items. */
  function Recs(items: seq<Item>): seq<bytes> {
    if items == [] then []
    else
      var front := Recs(items[..|items| - 1]);
      match items[|items| - 1]
      case Rec(payload) => front + [payload]
      case _ => front
  }

  function Versioned(w: Writer, payloads: seq<bytes>): seq<(byte, bytes)> {
    seq(|payloads|, i requires 0 <= i < |payloads| => (w.version, payloads[i]))
  }

  /** The lines the writer laid down, blank ones left out. */
  function ItemLines(w: Writer, items: seq<Item>): seq<Line> {
    if items == [] then []
    else
      var front := items[..|items| - 1];
      var last := items[|items| - 1];
      ItemLines(w, front) + if last.Blank? then [] else [Line(|Render(w, front)|, Text(w, last, |Render(w, front)|))]
  }

  predicate Plain(w: Writer, items: seq<Item>) {
    forall i :: 0 <= i < |items| && items[i].Rec? ==> w.plain(items[i].payload)
  }

  predicate Unmarked(items: seq<Item>) {
    forall i :: 0 <= i < |items| ==> !items[i].Mark?
  }

  /** Plain payloads, and markers only in a file whose length they can name. */
  predicate Written(w: Writer, items: seq<Item>) {
    Plain(w, items) && (|Render(w, items)| < w.limit || Unmarked(items))
  }

  lemma {:induction false} RenderAppend(w: Writer, items: seq<Item>, item: Item)
    ensures Render(w, items + [item]) == Render(w, items) + Text(w, item, |Render(w, items)|) + [NEWLINE]
    ensures Recs(items + [item]) == Recs(items) + if item.Rec? then [item.payload] else []
    ensures ItemLines(w, items + [item]) ==
            ItemLines(w, items)
            + if item.Blank? then [] else [Line(|Render(w, items)|, Text(w, item, |Render(w, items)|))]
  {
    assert (items + [item])[..|items|] == items;
  }

  lemma RenderStep(w: Writer, items: seq<Item>, j: nat)
    requires j < |items|
    ensures Render(w, items[..j + 1]) == Render(w, items[..j]) + (TextAt(w, items, j) + [NEWLINE])
  {
    assert items[..j + 1] == items[..j] + [items[j]];
    RenderAppend(w, items[..j], items[j]);
  }

  lemma PrefixGrows(a: bytes, b: bytes, more: bytes)
    requires a <= b
    ensures a <= b + more
  {
  }

  lemma {:induction false} RenderGrows(w: Writer, items: seq<Item>, i: nat, j: nat)
    requires i <= j <= |items|
    ensures Render(w, items[..i]) <= Render(w, items[..j])
    ensures i < j ==> Offset(w, items, i) < Offset(w, items, j)
    decreases j
  {
    if i < j {
      RenderGrows(w, items, i, j - 1);
      RenderStep(w, items, j - 1);
      PrefixGrows(Render(w, items[..i]), Render(w, items[..j - 1]), TextAt(w, items, j - 1) + [NEWLINE]);
    }
  }

  lemma {:induction false} RenderEndsLine(w: Writer, items: seq<Item>)
    ensures Render(w, items) != [] ==> Render(w, items)[|Render(w, items)| - 1] == NEWLINE
  {
  }

  lemma {:induction false} ItemIsOneLine(w: Writer, item: Item, offset: nat)
    requires Faithful(w) && !item.Blank? && (item.Rec? ==> w.plain(item.payload)) && (item.Mark? ==> offset < w.limit)
    ensures OneLine(Text(w, item, offset))
    ensures w.reader.clean(Line(offset, Text(w, item, offset)))
            == if item.Rec? then Record(w.version, item.payload) else Marker(offset)
    ensures w.reader.past(Line(offset, Text(w, item, offset))) == if item.Rec? then Skipped else Marker(offset)
  {
    if item.Rec? {
      assert RecordReadsBack(w, item.payload, offset);
    } else {
      assert MarkerReadsBack(w, offset, offset);
    }
  }

  lemma WrittenPrefix(w: Writer, items: seq<Item>, n: nat)
    requires Written(w, items) && n <= |items|
    ensures Written(w, items[..n])
  {
    RenderGrows(w, items, n, |items|);
    assert items[..|items|] == items;
  }

  lemma SliceOfPrefix(file: bytes, before: bytes, text: bytes)
    requires before + text + [NEWLINE] <= file
    ensures file[|before|..|before| + |text|] == text && file[|before| + |text|] == NEWLINE
  {
    var whole := before + text + [NEWLINE];
    assert forall i :: 0 <= i < |text| ==> file[|before| + i] == whole[|before| + i] == text[i];
    assert file[|before| + |text|] == whole[|before| + |text|];
  }

  lemma LinesAfterPrefix(file: bytes, before: bytes, text: bytes)
    requires before + text + [NEWLINE] <= file && NEWLINE !in text
    ensures LinesFrom(file, |before|) ==
            (if text == [] then [] else [Line(|before|, text)]) + LinesFrom(file, |before| + |text| + 1)
  {
    SliceOfPrefix(file, before, text);
    FirstLineIs(file, |before|, text);
  }

  lemma TextIsOneLine(w: Writer, items: seq<Item>)
    requires Faithful(w) && Written(w, items) && items != []
    ensures var front := items[..|items| - 1];
            var text := Text(w, items[|items| - 1], |Render(w, front)|);
            && Written(w, front) && NEWLINE !in text && (text == [] <==> items[|items| - 1].Blank?)
  {
    WrittenPrefix(w, items, |items| - 1);
    if !items[|items| - 1].Blank? {
      ItemIsOneLine(w, items[|items| - 1], |Render(w, items[..|items| - 1])|);
    }
  }

  lemma PrefixOfPrefix(a: bytes, more: bytes, file: bytes)
    requires a + more <= file
    ensures a <= file
  {
    assert a == (a + more)[..|a|];
  }

  lemma Regroup(a: seq<Line>, b: seq<Line>, c: seq<Line>)
    ensures a + (b + c) == (a + b) + c
  {
  }

  /** A file that starts with laid-out items has their lines first. */
  lemma {:induction false} LinesOfRender(w: Writer, items: seq<Item>, file: bytes)
    requires Faithful(w) && Written(w, items) && Render(w, items) <= file
    ensures Lines(file) == ItemLines(w, items) + LinesFrom(file, |Render(w, items)|)
    decreases |items|
  {
    if items != [] {
      var front := items[..|items| - 1];
      var before := Render(w, front);
      var text := Text(w, items[|items| - 1], |before|);
      TextIsOneLine(w, items);
      assert before + text + [NEWLINE] == before + (text + [NEWLINE]);
      PrefixOfPrefix(before, text + [NEWLINE], file);
      LinesOfRender(w, front, file);
      LinesAfterPrefix(file, before, text);
      Regroup(ItemLines(w, front), if text == [] then [] else [Line(|before|, text)],
              LinesFrom(file, |before| + |text| + 1));
    }
  }

  /** Every line reads clean, and sits before `end`. */
  predicate AllClean(w: Writer, ls: seq<Line>, end: nat) {
    forall i :: 0 <= i < |ls| ==>
      !w.reader.clean(ls[i]).Fatal? && w.reader.clean(ls[i]) != Unframed && ls[i].start < end
  }

  lemma VersionedAppend(w: Writer, payloads: seq<bytes>, payload: bytes)
    ensures Versioned(w, payloads + [payload]) == Versioned(w, payloads) + [(w.version, payload)]
  {
  }

  lemma CleanAppend(w: Writer, ls: seq<Line>, line: Line, end: nat)
    requires AllClean(w, ls, line.start) && line.start < end
    requires w.reader.clean(line).Record? || w.reader.clean(line).Marker?
    ensures AllClean(w, ls + [line], end)
    ensures RecordsOf(w.reader, ls + [line]) ==
            RecordsOf(w.reader, ls)
            + if w.reader.clean(line).Record? then [(w.reader.clean(line).version, w.reader.clean(line).payload)]
              else []
  {
    assert (ls + [line])[..|ls|] == ls;
  }

  /** Laid-out lines read clean; records come out in order. */
  lemma {:induction false} ItemLinesReadClean(w: Writer, items: seq<Item>)
    requires Faithful(w) && Written(w, items)
    ensures RecordsOf(w.reader, ItemLines(w, items)) == Versioned(w, Recs(items))
    ensures AllClean(w, ItemLines(w, items), |Render(w, items)|)
    decreases |items|
  {
    if items != [] {
      var front, last := items[..|items| - 1], items[|items| - 1];
      TextIsOneLine(w, items);
      ItemLinesReadClean(w, front);
      if last.Blank? {
        assert ItemLines(w, items) == ItemLines(w, front);
      } else {
        var offset := |Render(w, front)|;
        ItemIsOneLine(w, last, offset);
        CleanAppend(w, ItemLines(w, front), Line(offset, Text(w, last, offset)), |Render(w, items)|);
        if last.Rec? {
          VersionedAppend(w, Recs(front), last.payload);
        }
      }
    }
  }
}
