/**
 When what recovery keeps is a prefix of what was written.

 The decoder skips empty lines, so damage that overwrites a whole line with
 newlines makes it vanish while later lines are still read.  That is the only
 way a gap can arise.
 */
module RecoveredPrefix {
  import opened MarkerRule
  import opened WalFile
  import opened CrashRecovery

  /** Nothing more is read from `pos` on: the next line that is not empty, if there is one, is bad. */
  predicate NothingRead(reader: Reader, file: bytes, pos: nat)
    requires pos <= |file|
    decreases |file| - pos
  {
    pos < |file| ==>
      var e := LineEnd(file, pos);
      if e == pos then NothingRead(reader, file, NextLine(file, pos))
      else reader.clean(Line(pos, file[pos..e])) == Unframed
  }

  /** From `pos` up to the first bad line, no empty line comes before a non-empty one. */
  predicate HoleFree(reader: Reader, file: bytes, pos: nat)
    requires pos <= |file|
    decreases |file| - pos
  {
    pos < |file| ==>
      var e := LineEnd(file, pos);
      if e == pos then NothingRead(reader, file, pos)
      else reader.clean(Line(pos, file[pos..e])) == Unframed || HoleFree(reader, file, NextLine(file, pos))
  }

  /** Item `j`'s line is in the repaired file, where it was written. */
  ghost predicate Kept(w: Writer, items: seq<Item>, done: seq<Item>, j: nat)
    requires j < |items|
  {
    exists p :: 0 <= p < |done| && done[p] == items[j] && Offset(w, done, p) == Offset(w, items, j)
  }

  /** No later line is kept where an earlier one is lost. */
  ghost predicate NoGap(w: Writer, items: seq<Item>, durable: nat, done: seq<Item>) {
    forall j, k :: durable <= j < k < |items| && Kept(w, items, done, k) ==> Kept(w, items, done, j)
  }

  predicate BlanksLast(done: seq<Item>, from: nat) {
    forall p, q :: from <= p < q < |done| && done[p].Blank? ==> done[q].Blank?
  }

  predicate AllBlank(done: seq<Item>, from: nat) {
    forall p :: from <= p < |done| ==> done[p].Blank?
  }

  // --- The byte condition and the item condition --------------------------------------------

  lemma ItemInFile(w: Writer, items: seq<Item>, p: nat)
    requires p < |items|
    ensures Render(w, items[..p]) + TextAt(w, items, p) + [NEWLINE] <= Render(w, items)
  {
    assert items[..p + 1] == items[..p] + [items[p]];
    RenderAppend(w, items[..p], items[p]);
    RenderGrows(w, items, p + 1, |items|);
    assert items[..|items|] == items;
  }

  lemma TextAtIsOneLine(w: Writer, items: seq<Item>, p: nat)
    requires Faithful(w) && Written(w, items) && p < |items|
    ensures NEWLINE !in TextAt(w, items, p) && (TextAt(w, items, p) == [] <==> items[p].Blank?)
  {
    WrittenPrefix(w, items, p + 1);
    var upTo := items[..p + 1];
    assert upTo[..|upTo| - 1] == items[..p];
    TextIsOneLine(w, upTo);
  }

  /** The line at `pos` is read, or empty, and `next` follows it. */
  predicate LineStep(reader: Reader, file: bytes, pos: nat, next: nat, blank: bool) {
    && pos < next <= |file| && NextLine(file, pos) == next
    && var e := LineEnd(file, pos);
       if blank then e == pos else e > pos && reader.clean(Line(pos, file[pos..e])) != Unframed
  }

  function Min(a: nat, b: nat): nat {
    if a < b then a else b
  }

  lemma SliceOfEnded(file: bytes, from: nat, to: nat)
    requires from <= to <= |file|
    ensures (file + [NEWLINE])[from..to] == file[from..to]
    ensures to < |file| ==> (file + [NEWLINE])[to] == file[to]
  {
  }

  /** A line at the end of a file may lack its terminator. */
  lemma TextInside(file: bytes, before: bytes, text: bytes, ended: bytes)
    requires ended == file + [NEWLINE] && before + text + [NEWLINE] <= ended
    ensures |before| + |text| <= |file| && file[|before|..|before| + |text|] == text
    ensures |before| + |text| < |file| ==> file[|before| + |text|] == NEWLINE
  {
    SliceOfPrefix(ended, before, text);
    SliceOfEnded(file, |before|, |before| + |text|);
  }

  lemma LineIs(file: bytes, from: nat, text: bytes)
    requires from + |text| <= |file| && file[from..from + |text|] == text && NEWLINE !in text && from < |file|
    requires from + |text| < |file| ==> file[from + |text|] == NEWLINE
    ensures LineEnd(file, from) == from + |text| && NextLine(file, from) == Min(from + |text| + 1, |file|)
  {
    forall i | from <= i < from + |text|
      ensures file[i] != NEWLINE
    {
      assert file[i] == text[i - from];
    }
    LineEndIs(file, from, from + |text|);
  }

  lemma ItemReads(w: Writer, items: seq<Item>, p: nat)
    requires Faithful(w) && Written(w, items) && p < |items| && !items[p].Blank?
    ensures w.reader.clean(Line(Offset(w, items, p), TextAt(w, items, p))) != Unframed
  {
    NextOffset(w, items, p);
    ItemIsOneLine(w, items[p], Offset(w, items, p));
  }

  lemma PrefixOfEnded(part: bytes, whole: bytes, after: bytes)
    requires part <= whole && (whole <= after || after + [NEWLINE] == whole)
    ensures part <= after + [NEWLINE]
  {
  }

  /** A survivor's text is in the crashed file at its offset, and terminated unless the file ends there. */
  lemma SurvivorInFile(w: Writer, after: bytes, done: seq<Item>, p: nat)
    requires Ended(w, after, done) && p < |done|
    ensures var pos, text := Offset(w, done, p), TextAt(w, done, p);
            && pos + |text| <= |after| && after[pos..pos + |text|] == text
            && (pos + |text| < |after| ==> after[pos + |text|] == NEWLINE)
  {
    var before, text := Render(w, done[..p]), TextAt(w, done, p);
    ItemInFile(w, done, p);
    PrefixOfEnded(before + text + [NEWLINE], Render(w, done), after);
    TextInside(after, before, text, after + [NEWLINE]);
  }

  lemma SurvivorStarts(w: Writer, after: bytes, done: seq<Item>, p: nat)
    requires Faithful(w) && Written(w, done) && Ended(w, after, done) && p < |done|
    ensures Offset(w, done, p) < |after|
  {
    NextOffset(w, done, p);
    TextAtIsOneLine(w, done, p);
    if after + [NEWLINE] == Render(w, done) && !done[|done| - 1].Blank? {
      NextOffset(w, done, |done| - 1);
      TextAtIsOneLine(w, done, |done| - 1);
      OffsetsAscend(w, done, p, |done| - 1);
    }
  }

  /** Where item `p` starts in the crashed file, or its end. */
  function StartIn(w: Writer, after: bytes, done: seq<Item>, p: nat): nat
    requires p <= |done|
  {
    Min(Offset(w, done, p), |after|)
  }

  lemma ReadLine(reader: Reader, file: bytes, pos: nat, text: bytes)
    requires pos < |file| && pos + |text| <= |file| && file[pos..pos + |text|] == text && NEWLINE !in text
    requires pos + |text| < |file| ==> file[pos + |text|] == NEWLINE
    requires text != [] ==> reader.clean(Line(pos, text)) != Unframed
    ensures LineStep(reader, file, pos, Min(pos + |text| + 1, |file|), text == [])
  {
    LineIs(file, pos, text);
  }

  /** Surviving item `p` is one line of the crashed file, and reads as it was written. */
  lemma LinesAtItem(w: Writer, after: bytes, done: seq<Item>, p: nat)
    requires Faithful(w) && Written(w, done) && Ended(w, after, done) && p < |done|
    ensures LineStep(w.reader, after, StartIn(w, after, done, p), StartIn(w, after, done, p + 1), done[p].Blank?)
  {
    SurvivorStarts(w, after, done, p);
    SurvivorInFile(w, after, done, p);
    TextAtIsOneLine(w, done, p);
    if !done[p].Blank? {
      ItemReads(w, done, p);
    }
    ReadLine(w.reader, after, Offset(w, done, p), TextAt(w, done, p));
    NextOffset(w, done, p);
  }

  lemma HoleStep(reader: Reader, file: bytes, pos: nat, next: nat, blank: bool)
    requires LineStep(reader, file, pos, next, blank)
    ensures NothingRead(reader, file, pos) <==> blank && NothingRead(reader, file, next)
    ensures HoleFree(reader, file, pos)
            <==> if blank then NothingRead(reader, file, pos) else HoleFree(reader, file, next)
  {
  }

  /** Past the survivors there is nothing, or a bad line. */
  lemma NothingPastSurvivors(w: Writer, after: bytes, done: seq<Item>)
    requires Ended(w, after, done)
    ensures NothingRead(w.reader, after, StartIn(w, after, done, |done|))
    ensures HoleFree(w.reader, after, StartIn(w, after, done, |done|))
  {
    assert done[..|done|] == done;
  }

  lemma {:induction false} NothingReadIffBlank(w: Writer, after: bytes, done: seq<Item>, p: nat)
    requires Faithful(w) && Written(w, done) && Ended(w, after, done) && p <= |done|
    ensures NothingRead(w.reader, after, StartIn(w, after, done, p)) <==> AllBlank(done, p)
    decreases |done| - p
  {
    if p < |done| {
      LinesAtItem(w, after, done, p);
      HoleStep(w.reader, after, StartIn(w, after, done, p), StartIn(w, after, done, p + 1), done[p].Blank?);
      NothingReadIffBlank(w, after, done, p + 1);
    } else {
      NothingPastSurvivors(w, after, done);
    }
  }

  /** The condition on the crashed bytes is one on the survivors. */
  lemma {:induction false} HoleFreeIffBlanksLast(w: Writer, after: bytes, done: seq<Item>, p: nat)
    requires Faithful(w) && Written(w, done) && Ended(w, after, done) && p <= |done|
    ensures HoleFree(w.reader, after, StartIn(w, after, done, p)) <==> BlanksLast(done, p)
    decreases |done| - p
  {
    if p < |done| {
      NothingReadIffBlank(w, after, done, p);
      LinesAtItem(w, after, done, p);
      HoleStep(w.reader, after, StartIn(w, after, done, p), StartIn(w, after, done, p + 1), done[p].Blank?);
      HoleFreeIffBlanksLast(w, after, done, p + 1);
    } else {
      NothingPastSurvivors(w, after, done);
    }
  }

  /** The end of the synced bytes, in the crashed file. */
  lemma SyncedEnd(w: Writer, items: seq<Item>, durable: nat, after: bytes, done: seq<Item>)
    requires durable <= |items| && Survives(w, items, durable, done) && Render(w, items[..durable]) <= after
    ensures Offset(w, items, durable) == StartIn(w, after, done, durable) <= |after|
  {
    OffsetOfShared(w, items, done, durable, durable);
  }

  // --- Blanks last is a kept prefix ------------------------------------------------------------

  lemma SameOffset(w: Writer, items: seq<Item>, i: nat, j: nat)
    requires i <= |items| && j <= |items| && Offset(w, items, i) == Offset(w, items, j)
    ensures i == j
  {
    if i < j {
      RenderGrows(w, items, i, j);
    } else {
      RenderGrows(w, items, j, i);
    }
  }

  lemma OffsetOfShared(w: Writer, items: seq<Item>, done: seq<Item>, n: nat, p: nat)
    requires p <= n <= |items| && n <= |done| && done[..n] == items[..n]
    ensures Offset(w, done, p) == Offset(w, items, p)
  {
    assert done[..p] == done[..n][..p] == items[..p];
  }

  /** With the blanks last, the survivors are the first `n` written items and then blanks. */
  lemma {:induction false} SurvivorsFrom(w: Writer, items: seq<Item>, durable: nat, done: seq<Item>, p: nat)
    returns (n: nat)
    requires Survives(w, items, durable, done) && BlanksLast(done, durable)
    requires durable <= p <= |done| && p <= |items| && done[..p] == items[..p]
    ensures p <= n <= |done| && n <= |items| && done[..n] == items[..n] && AllBlank(done, n)
    decreases |done| - p
  {
    if p == |done| || done[p].Blank? {
      n := p;
    } else {
      assert FromItem(w, items, durable, done, p);
      var j :| durable <= j < |items| && done[p] == items[j] && Offset(w, done, p) == Offset(w, items, j);
      OffsetOfShared(w, items, done, p, p);
      SameOffset(w, items, p, j);
      assert done[..p + 1] == done[..p] + [done[p]] == items[..p] + [items[p]] == items[..p + 1];
      n := SurvivorsFrom(w, items, durable, done, p + 1);
    }
  }

  lemma BlanksLastHasNoGap(w: Writer, items: seq<Item>, durable: nat, done: seq<Item>)
    requires Survives(w, items, durable, done) && OneMarkedTail(items, durable) && BlanksLast(done, durable)
    ensures NoGap(w, items, durable, done)
  {
    var n := SurvivorsFrom(w, items, durable, done, durable);
    forall j, k | durable <= j < k < |items| && Kept(w, items, done, k)
      ensures Kept(w, items, done, j)
    {
      var p :| 0 <= p < |done| && done[p] == items[k] && Offset(w, done, p) == Offset(w, items, k);
      OffsetOfShared(w, items, done, n, p);
      SameOffset(w, items, p, k);
      OffsetOfShared(w, items, done, n, j);
      assert done[j] == done[..n][j] == items[..n][j] == items[j];
    }
  }

  /** The written item an offset falls in. */
  lemma {:induction false} ItemAround(w: Writer, items: seq<Item>, x: nat, n: nat) returns (j: nat)
    requires n <= |items| && x < Offset(w, items, n)
    ensures j < n && Offset(w, items, j) <= x < Offset(w, items, j + 1)
    decreases n
  {
    if Offset(w, items, n - 1) <= x {
      j := n - 1;
    } else {
      j := ItemAround(w, items, x, n - 1);
    }
  }

  lemma GapFreeHasBlanksLast(w: Writer, items: seq<Item>, durable: nat, done: seq<Item>)
    requires Survives(w, items, durable, done) && OneMarkedTail(items, durable) && NoGap(w, items, durable, done)
    ensures BlanksLast(done, durable)
  {
    forall p, q | durable <= p < q < |done| && done[p].Blank?
      ensures done[q].Blank?
    {
      if !done[q].Blank? {
        HoleLosesALine(w, items, durable, done, p, q);
      }
    }
  }

  lemma OffsetsAscend(w: Writer, items: seq<Item>, i: nat, j: nat)
    requires i <= j <= |items|
    ensures Offset(w, items, i) + (j - i) <= Offset(w, items, j)
    decreases j
  {
    if i < j {
      OffsetsAscend(w, items, i, j - 1);
      NextOffset(w, items, j - 1);
    }
  }

  lemma BlankedItemIsLost(w: Writer, items: seq<Item>, done: seq<Item>, p: nat, j: nat)
    requires p < |done| && done[p].Blank? && j < |items| && !items[j].Blank?
    requires Offset(w, items, j) <= Offset(w, done, p) < Offset(w, items, j + 1)
    ensures !Kept(w, items, done, j)
  {
    if Kept(w, items, done, j) {
      var r :| 0 <= r < |done| && done[r] == items[j] && Offset(w, done, r) == Offset(w, items, j);
      NextOffset(w, items, j);
      NextOffset(w, done, r);
      if r < p {
        OffsetsAscend(w, done, r + 1, p);
      } else if p < r {
        OffsetsAscend(w, done, p, r);
      }
    }
  }

  /** An empty line before a kept one stands where a written line was lost. */
  lemma HoleLosesALine(w: Writer, items: seq<Item>, durable: nat, done: seq<Item>, p: nat, q: nat)
    requires Survives(w, items, durable, done) && OneMarkedTail(items, durable)
    requires durable <= p < q < |done| && done[p].Blank? && !done[q].Blank?
    ensures !NoGap(w, items, durable, done)
  {
    assert FromItem(w, items, durable, done, q);
    var k :| durable <= k < |items| && done[q] == items[k] && Offset(w, done, q) == Offset(w, items, k);
    assert Kept(w, items, done, k);
    OffsetsAscend(w, done, p, q);
    var j := ItemAround(w, items, Offset(w, done, p), k);
    OffsetOfShared(w, items, done, durable, durable);
    OffsetsAscend(w, done, durable, p);
    if j < durable {
      OffsetsAscend(w, items, j + 1, durable);
    }
    BlankedItemIsLost(w, items, done, p, j);
  }

  /**
   What recovery keeps of the un-synced lines is an initial run of them exactly when, in the
   crashed file, no empty line precedes a non-empty one before the first bad line.
   */
  lemma NoGapIffHoleFree(w: Writer, items: seq<Item>, durable: nat, after: bytes, done: seq<Item>)
    requires Faithful(w) && Written(w, done) && Survives(w, items, durable, done) && OneMarkedTail(items, durable)
    requires Ended(w, after, done) && Render(w, items[..durable]) <= after
    ensures HoleFree(w.reader, after, Offset(w, items, durable)) <==> NoGap(w, items, durable, done)
  {
    SyncedEnd(w, items, durable, after, done);
    HoleFreeIffBlanksLast(w, after, done, durable);
    if BlanksLast(done, durable) {
      BlanksLastHasNoGap(w, items, durable, done);
    } else if NoGap(w, items, durable, done) {
      GapFreeHasBlanksLast(w, items, durable, done);
    }
  }

  // --- Records -----------------------------------------------------------------------------------

  lemma {:induction false} RecsGrow(items: seq<Item>, n: nat)
    requires n <= |items|
    ensures Recs(items[..n]) <= Recs(items)
    decreases |items|
  {
    if n == |items| {
      assert items[..n] == items;
    } else {
      var front := items[..|items| - 1];
      assert front[..n] == items[..n];
      RecsGrow(front, n);
    }
  }

  lemma {:induction false} BlanksAddNoRecords(done: seq<Item>, n: nat)
    requires n <= |done| && AllBlank(done, n)
    ensures Recs(done) == Recs(done[..n])
    decreases |done|
  {
    if n == |done| {
      assert done[..n] == done;
    } else {
      var front := done[..|done| - 1];
      assert front[..n] == done[..n];
      BlanksAddNoRecords(front, n);
    }
  }

  /** Every synced record survives; without a hole, what survives is a prefix of what was written. */
  lemma RecoveredRecords(w: Writer, items: seq<Item>, durable: nat, after: bytes, done: seq<Item>)
    requires Faithful(w) && Written(w, done) && Survives(w, items, durable, done)
    requires Ended(w, after, done) && Render(w, items[..durable]) <= after
    ensures Recs(items[..durable]) <= Recs(done)
    ensures HoleFree(w.reader, after, Offset(w, items, durable)) ==> Recs(done) <= Recs(items)
  {
    RecsGrow(done, durable);
    SyncedEnd(w, items, durable, after, done);
    HoleFreeIffBlanksLast(w, after, done, durable);
    if BlanksLast(done, durable) {
      var n := SurvivorsFrom(w, items, durable, done, durable);
      BlanksAddNoRecords(done, n);
      RecsGrow(items, n);
    }
  }

  // --- One damaged byte leaves no hole ---------------------------------------------------------

  /** A tear, and at most one byte overwritten with anything. */
  ghost predicate OneByteDamage(written: bytes, after: bytes, fault: nat) {
    |after| <= |written| && forall x :: 0 <= x < |after| && x != fault ==> after[x] == written[x]
  }

  predicate TwoByteLines(w: Writer, items: seq<Item>) {
    forall j :: 0 <= j < |items| ==> items[j].Blank? || |TextAt(w, items, j)| >= 2
  }

  lemma LastByte(w: Writer, done: seq<Item>, p: nat)
    requires 0 < p <= |done|
    ensures 0 < Offset(w, done, p) <= |Render(w, done)| && Render(w, done)[Offset(w, done, p) - 1] == NEWLINE
  {
    OffsetsAscend(w, done, 0, p);
    OffsetsAscend(w, done, p, |done|);
    RenderGrows(w, done, p, |done|);
    assert done[..|done|] == done;
    RenderEndsLine(w, done[..p]);
  }

  lemma EndOfText(file: bytes, before: bytes, text: bytes)
    requires before + text + [NEWLINE] <= file && NEWLINE !in text && |text| >= 2
    ensures file[|before| + |text| - 1] != NEWLINE && file[|before| + |text| - 2] != NEWLINE
  {
    var whole := before + text + [NEWLINE];
    assert file[|before| + |text| - 1] == whole[|before| + |text| - 1] == text[|text| - 1];
    assert file[|before| + |text| - 2] == whole[|before| + |text| - 2] == text[|text| - 2];
  }

  /** Where each item starts, and the end. */
  ghost function Offsets(w: Writer, items: seq<Item>): seq<nat> {
    seq(|items| + 1, i requires 0 <= i <= |items| => Offset(w, items, i))
  }

  predicate Rising(o: seq<nat>) {
    forall i, j :: 0 <= i < j < |o| ==> o[i] < o[j]
  }

  predicate SamePlace(o: seq<nat>, j: nat, d: seq<nat>, p: nat) {
    j + 1 < |o| && p + 1 < |d| && d[p] == o[j] && d[p + 1] == o[j + 1]
  }

  ghost predicate PlacedAt(o: seq<nat>, durable: nat, item: Item, d: seq<nat>, p: nat) {
    && p + 1 < |d|
    && if item.Blank? then d[p + 1] == d[p] + 1 else exists j: nat :: durable <= j && SamePlace(o, j, d, p)
  }

  /** Item `j` takes three bytes or more, and the two before its terminator are no newlines. */
  predicate EndsInText(o: seq<nat>, file: bytes, j: nat) {
    && j + 1 < |o| && o[j] + 3 <= o[j + 1] <= |file|
    && file[o[j + 1] - 2] != NEWLINE && file[o[j + 1] - 3] != NEWLINE
  }

  predicate EndsInNewline(d: seq<nat>, file: bytes, p: nat) {
    p < |d| && 0 < d[p] <= |file| && file[d[p] - 1] == NEWLINE
  }

  predicate AllEndInText(o: seq<nat>, file: bytes, from: nat) {
    forall j :: from <= j < |o| - 1 ==> EndsInText(o, file, j)
  }

  predicate AllEndInNewline(d: seq<nat>, file: bytes) {
    forall p :: 0 < p < |d| ==> EndsInNewline(d, file, p)
  }

  /** `done` from `durable` on, in numbers: blanks take one byte, the rest are written items in place. */
  ghost predicate Placed(items: seq<Item>, o: seq<nat>, durable: nat, done: seq<Item>, d: seq<nat>) {
    && |o| == |items| + 1 && |d| == |done| + 1 && durable <= |items| && durable <= |done| && d[durable] == o[durable]
    && (forall p :: durable <= p < |done| ==> PlacedAt(o, durable, done[p], d, p))
  }

  lemma KeptIsPlaced(w: Writer, items: seq<Item>, done: seq<Item>, p: nat, j: nat)
    requires p < |done| && j < |items| && done[p] == items[j] && Offset(w, done, p) == Offset(w, items, j)
    ensures SamePlace(Offsets(w, items), j, Offsets(w, done), p)
  {
    NextOffset(w, items, j);
    NextOffset(w, done, p);
  }

  lemma SurvivorIsPlaced(w: Writer, items: seq<Item>, durable: nat, done: seq<Item>, p: nat)
    requires durable <= p < |done| && FromItem(w, items, durable, done, p)
    ensures PlacedAt(Offsets(w, items), durable, done[p], Offsets(w, done), p)
  {
    if done[p].Blank? {
      NextOffset(w, done, p);
    } else {
      var j :| durable <= j < |items| && done[p] == items[j] && Offset(w, done, p) == Offset(w, items, j);
      KeptIsPlaced(w, items, done, p, j);
    }
  }

  lemma SurvivorsArePlaced(w: Writer, items: seq<Item>, durable: nat, done: seq<Item>)
    requires Survives(w, items, durable, done)
    ensures Placed(items, Offsets(w, items), durable, done, Offsets(w, done))
  {
    OffsetOfShared(w, items, done, durable, durable);
    forall p | durable <= p < |done|
      ensures PlacedAt(Offsets(w, items), durable, done[p], Offsets(w, done), p)
    {
      SurvivorIsPlaced(w, items, durable, done, p);
    }
  }

  lemma OffsetsRise(w: Writer, items: seq<Item>)
    ensures Rising(Offsets(w, items))
  {
    forall i, j | 0 <= i < j < |items| + 1
      ensures Offset(w, items, i) < Offset(w, items, j)
    {
      OffsetsAscend(w, items, i, j);
    }
  }

  /** The empty line before a kept line has another before it, both over one lost line. */
  lemma HoleDamagesTwoBytes(items: seq<Item>, o: seq<nat>, written: bytes, durable: nat,
                            done: seq<Item>, d: seq<nat>, kept: bytes, q: nat) returns (x: nat)
    requires Placed(items, o, durable, done, d) && Rising(o) && Rising(d)
    requires AllEndInText(o, written, durable) && AllEndInNewline(d, kept)
    requires durable < q < |done| && done[q - 1].Blank? && !done[q].Blank?
    ensures 1 <= x && x + 1 < |written| && x + 1 < |kept|
    ensures written[x] != kept[x] && written[x - 1] != kept[x - 1]
  {
    assert PlacedAt(o, durable, done[q], d, q) && PlacedAt(o, durable, done[q - 1], d, q - 1);
    var next: nat :| durable <= next && SamePlace(o, next, d, q);
    assert durable < next;
    assert EndsInText(o, written, next - 1);
    assert durable + 2 <= q;
    assert PlacedAt(o, durable, done[q - 2], d, q - 2);
    assert EndsInNewline(d, kept, q - 1) && EndsInNewline(d, kept, q);
    assert q - 2 > 0;
    assert EndsInNewline(d, kept, q - 2);
    x := d[q] - 2;
  }

  lemma TwoBytesDiffer(written: bytes, after: bytes, kept: bytes, fault: nat, x: nat)
    requires kept <= after || after + [NEWLINE] == kept
    requires 1 <= x && x + 1 < |written| && x + 1 < |kept|
    requires written[x] != kept[x] && written[x - 1] != kept[x - 1]
    ensures !OneByteDamage(written, after, fault)
  {
    if after + [NEWLINE] == kept {
      assert (after + [NEWLINE])[x] == after[x] && (after + [NEWLINE])[x - 1] == after[x - 1];
    }
  }

  /** Neither of the last two bytes of a written line is a newline. */
  lemma LineEndsInText(w: Writer, items: seq<Item>, j: nat)
    requires Faithful(w) && Written(w, items) && j < |items| && |TextAt(w, items, j)| >= 2
    ensures EndsInText(Offsets(w, items), Render(w, items), j)
  {
    NextOffset(w, items, j);
    ItemInFile(w, items, j);
    TextAtIsOneLine(w, items, j);
    EndOfText(Render(w, items), Render(w, items[..j]), TextAt(w, items, j));
  }

  lemma WrittenLinesEndInText(w: Writer, items: seq<Item>, durable: nat)
    requires Faithful(w) && Written(w, items) && TwoByteLines(w, items) && OneMarkedTail(items, durable)
    ensures AllEndInText(Offsets(w, items), Render(w, items), durable)
  {
    forall j | durable <= j < |items|
      ensures EndsInText(Offsets(w, items), Render(w, items), j)
    {
      LineEndsInText(w, items, j);
    }
  }

  lemma FilesEndInNewlines(w: Writer, done: seq<Item>)
    ensures AllEndInNewline(Offsets(w, done), Render(w, done))
  {
    forall p | 0 < p <= |done|
      ensures EndsInNewline(Offsets(w, done), Render(w, done), p)
    {
      LastByte(w, done, p);
    }
  }

  lemma HoleTakesTwoBytes(w: Writer, items: seq<Item>, durable: nat, after: bytes, done: seq<Item>, q: nat, fault: nat)
    requires Faithful(w) && Written(w, items) && TwoByteLines(w, items) && OneMarkedTail(items, durable)
    requires Survives(w, items, durable, done) && Ended(w, after, done)
    requires durable < q < |done| && done[q - 1].Blank? && !done[q].Blank?
    ensures !OneByteDamage(Render(w, items), after, fault)
  {
    SurvivorsArePlaced(w, items, durable, done);
    OffsetsRise(w, items);
    OffsetsRise(w, done);
    WrittenLinesEndInText(w, items, durable);
    FilesEndInNewlines(w, done);
    var x := HoleDamagesTwoBytes(items, Offsets(w, items), Render(w, items), durable, done, Offsets(w, done),
                                 Render(w, done), q);
    TwoBytesDiffer(Render(w, items), after, Render(w, done), fault, x);
  }

  lemma FirstKeptAfter(done: seq<Item>, p: nat, q: nat) returns (r: nat)
    requires p < q < |done| && done[p].Blank? && !done[q].Blank?
    ensures p < r <= q && done[r - 1].Blank? && !done[r].Blank?
    decreases q - p
  {
    if done[p + 1].Blank? {
      r := FirstKeptAfter(done, p + 1, q);
    } else {
      r := p + 1;
    }
  }

  /** A torn tail with one overwritten byte recovers to a prefix: it can leave no hole. */
  lemma OneByteDamageIsHoleFree(w: Writer, items: seq<Item>, durable: nat, after: bytes, done: seq<Item>, fault: nat)
    requires Faithful(w) && Written(w, items) && TwoByteLines(w, items) && OneMarkedTail(items, durable)
    requires Survives(w, items, durable, done) && Ended(w, after, done) && Render(w, items[..durable]) <= after
    requires OneByteDamage(Render(w, items), after, fault)
    ensures HoleFree(w.reader, after, Offset(w, items, durable))
  {
    SurvivorsAreWritten(w, items, durable, done);
    SyncedEnd(w, items, durable, after, done);
    HoleFreeIffBlanksLast(w, after, done, durable);
    forall p, q | durable <= p < q < |done| && done[p].Blank?
      ensures done[q].Blank?
    {
      if !done[q].Blank? {
        var r := FirstKeptAfter(done, p, q);
        HoleTakesTwoBytes(w, items, durable, after, done, r, fault);
      }
    }
  }
}
