/**
 What a crash may do to the un-synced tail of a WAL file, and what recovery
 makes of it.
 */
module CrashRecovery {
  import opened Wrappers
  import opened MarkerRule
  import opened WalFile

  // --- Repairing the tail -------------------------------------------------------------------

  /** The bytes to replace the file with before appending to it again; none when it is clean. */
  function RepairedImage(file: bytes, validLen: nat): Option<bytes>
    requires validLen <= |file|
  {
    var kept := file[..validLen];
    var clean := if kept != [] && kept[|kept| - 1] != NEWLINE then kept + [NEWLINE] else kept;
    if clean != file then Some(clean) else None
  }

  function Repaired(file: bytes, validLen: nat): bytes
    requires validLen <= |file|
  {
    match RepairedImage(file, validLen)
    case Some(clean) => clean
    case None => file
  }

  // --- Damage --------------------------------------------------------------------------------

  predicate IsItem(w: Writer, items: seq<Item>, j: nat, line: Line)
    requires j < |items|
  {
    !items[j].Blank? && line == Line(Offset(w, items, j), TextAt(w, items, j))
  }

  /** Damage forges no framed line: a line that checks out is one the writer put there. */
  ghost predicate HonestLine(w: Writer, items: seq<Item>, durable: nat, line: Line) {
    w.reader.clean(line) == Unframed || exists j :: durable <= j < |items| && IsItem(w, items, j, line)
  }

  ghost predicate Honest(w: Writer, items: seq<Item>, durable: nat, after: bytes)
    requires durable <= |items|
  {
    forall i :: 0 <= i < |Lines(after)| && Lines(after)[i].start >= Offset(w, items, durable) ==>
      HonestLine(w, items, durable, Lines(after)[i])
  }

  /** The synced items are untouched; the rest may be cut anywhere and overwritten at will. */
  ghost predicate CrashImage(w: Writer, items: seq<Item>, durable: nat, after: bytes)
    requires durable <= |items|
  {
    && Render(w, items[..durable]) <= after
    && |after| <= |Render(w, items)|
    && Honest(w, items, durable, after)
  }

  /** The un-synced items hold no empty line, and a marker only at their head. */
  predicate OneMarkedTail(items: seq<Item>, durable: nat) {
    forall i :: durable <= i < |items| ==> !items[i].Blank? && (items[i].Mark? ==> i == durable)
  }

  // --- What survives ---------------------------------------------------------------------------

  ghost predicate FromItem(w: Writer, items: seq<Item>, durable: nat, final: seq<Item>, p: nat)
    requires p < |final|
  {
    || final[p].Blank?
    || exists j :: durable <= j < |items| && final[p] == items[j] && Offset(w, final, p) == Offset(w, items, j)
  }

  /** The synced items, then un-synced ones at their own offsets with empty lines between. */
  ghost predicate Survives(w: Writer, items: seq<Item>, durable: nat, final: seq<Item>) {
    && durable <= |items| && durable <= |final| && final[..durable] == items[..durable]
    && (forall p :: durable <= p < |final| ==> FromItem(w, items, durable, final, p))
    && |Render(w, final)| <= |Render(w, items)|
  }

  /** The survivors are all of the file, all but its last terminator, or all before its first bad line. */
  predicate Ended(w: Writer, after: bytes, final: seq<Item>) {
    var pos := |Render(w, final)|;
    || after == Render(w, final)
    || (final != [] && !final[|final| - 1].Blank? && after + [NEWLINE] == Render(w, final))
    || (&& Render(w, final) < after
        && LineEnd(after, pos) > pos
        && w.reader.clean(Line(pos, after[pos..LineEnd(after, pos)])) == Unframed)
  }

  lemma SurvivorsAreWritten(w: Writer, items: seq<Item>, durable: nat, final: seq<Item>)
    requires Written(w, items) && Survives(w, items, durable, final)
    ensures Written(w, final)
  {
    forall p | 0 <= p < |final|
      ensures final[p].Blank? || exists j :: 0 <= j < |items| && final[p] == items[j]
    {
      if p < durable {
        assert final[p] == final[..durable][p] == items[..durable][p] == items[p];
      } else {
        assert FromItem(w, items, durable, final, p);
      }
    }
  }

  lemma SurvivesAppend(w: Writer, items: seq<Item>, durable: nat, final: seq<Item>, item: Item)
    requires Survives(w, items, durable, final)
    requires item.Blank?
             || exists j :: durable <= j < |items| && item == items[j] && |Render(w, final)| == Offset(w, items, j)
    requires |Render(w, final + [item])| <= |Render(w, items)|
    ensures Survives(w, items, durable, final + [item])
  {
    var next := final + [item];
    assert next[..durable] == final[..durable];
    forall p | durable <= p < |next|
      ensures FromItem(w, items, durable, next, p)
    {
      assert next[..p] == final[..p];
      if p < |final| {
        assert FromItem(w, items, durable, final, p);
      } else {
        assert final[..p] == final;
      }
    }
  }

  lemma LineAt(w: Writer, items: seq<Item>, durable: nat, after: bytes, final: seq<Item>, line: Line)
    requires Faithful(w) && Written(w, final) && Render(w, final) < after
    requires durable <= |items| && Honest(w, items, durable, after)
    requires |Render(w, final)| >= Offset(w, items, durable)
    requires LineEnd(after, |Render(w, final)|) > |Render(w, final)|
    requires line == Line(|Render(w, final)|, after[|Render(w, final)|..LineEnd(after, |Render(w, final)|)])
    ensures HonestLine(w, items, durable, line)
  {
    LinesOfRender(w, final, after);
    assert Lines(after)[|ItemLines(w, final)|] == line;
  }

  lemma NextOffset(w: Writer, items: seq<Item>, j: nat)
    requires j < |items|
    ensures Offset(w, items, j + 1) == Offset(w, items, j) + |TextAt(w, items, j)| + 1 <= |Render(w, items)|
  {
    assert items[..j + 1] == items[..j] + [items[j]];
    RenderAppend(w, items[..j], items[j]);
    RenderGrows(w, items, j + 1, |items|);
    assert items[..|items|] == items;
  }

  /** The next line, when it is not bad, is empty or the text of a written item. */
  lemma NextItem(w: Writer, items: seq<Item>, durable: nat, after: bytes, final: seq<Item>, e: nat) returns (item: Item)
    requires Faithful(w) && Written(w, items) && durable <= |items| && CrashImage(w, items, durable, after)
    requires Survives(w, items, durable, final) && Render(w, final) < after && !Ended(w, after, final)
    requires e == LineEnd(after, |Render(w, final)|)
    ensures Text(w, item, |Render(w, final)|) == after[|Render(w, final)|..e]
    ensures item.Blank? <==> e == |Render(w, final)|
    ensures item.Blank?
            || exists j :: durable <= j < |items| && item == items[j] && |Render(w, final)| == Offset(w, items, j)
    ensures !item.Blank? ==> e + 1 <= |Render(w, items)|
  {
    var pos := |Render(w, final)|;
    if e == pos {
      item := Blank;
    } else {
      var line := Line(pos, after[pos..e]);
      SurvivorsAreWritten(w, items, durable, final);
      RenderGrows(w, final, durable, |final|);
      assert final[..|final|] == final;
      LineAt(w, items, durable, after, final, line);
      var j :| durable <= j < |items| && IsItem(w, items, j, line);
      item := items[j];
      NextOffset(w, items, j);
    }
  }

  lemma LineInFile(after: bytes, before: bytes, text: bytes, e: nat)
    requires |before| <= e <= |after| && after[..|before|] == before && text == after[|before|..e]
    requires e < |after| ==> after[e] == NEWLINE
    ensures e < |after| ==> before + text + [NEWLINE] == after[..e + 1]
    ensures e == |after| ==> after + [NEWLINE] == before + text + [NEWLINE]
  {
  }

  /** The next line, when there is one and it is not bad, extends the survivors. */
  lemma Extend(w: Writer, items: seq<Item>, durable: nat, after: bytes, final: seq<Item>) returns (item: Item)
    requires Faithful(w) && Written(w, items) && durable <= |items| && CrashImage(w, items, durable, after)
    requires Survives(w, items, durable, final) && Render(w, final) < after && !Ended(w, after, final)
    ensures Survives(w, items, durable, final + [item])
    ensures |Render(w, final + [item])| > |Render(w, final)|
    ensures Render(w, final + [item]) <= after || (!item.Blank? && after + [NEWLINE] == Render(w, final + [item]))
  {
    var before := Render(w, final);
    var e := LineEnd(after, |before|);
    item := NextItem(w, items, durable, after, final, e);
    RenderAppend(w, final, item);
    assert after[..|before|] == before;
    LineInFile(after, before, after[|before|..e], e);
    SurvivesAppend(w, items, durable, final, item);
  }

  lemma {:induction false} Walk(w: Writer, items: seq<Item>, durable: nat, after: bytes, final: seq<Item>)
    returns (done: seq<Item>)
    requires Faithful(w) && Written(w, items) && durable <= |items| && CrashImage(w, items, durable, after)
    requires Survives(w, items, durable, final) && Render(w, final) <= after
    ensures Survives(w, items, durable, done) && Ended(w, after, done)
    decreases |after| - |Render(w, final)|
  {
    if Ended(w, after, final) {
      done := final;
    } else {
      var item := Extend(w, items, durable, after, final);
      if Render(w, final + [item]) <= after {
        done := Walk(w, items, durable, after, final + [item]);
      } else {
        done := final + [item];
      }
    }
  }

  // --- The verdict on what survives ------------------------------------------------------------

  lemma CleanFileDecodes(w: Writer, file: bytes, ls: seq<Line>, end: nat)
    requires Lines(file) == ls && AllClean(w, ls, end)
    ensures Decides(w.reader, file, Ok(DecodedLines(RecordsOf(w.reader, ls), |file|)))
  {
    assert ls[..|ls|] == ls;
  }

  /** A line past the first bad one that names no error and proves nothing beyond it. */
  predicate Harmless(w: Writer, line: Line, bad: nat) {
    !w.reader.past(line).Fatal? && (w.reader.past(line).Marker? ==> w.reader.past(line).at <= bad)
  }

  lemma TornFileDecodes(w: Writer, file: bytes, good: seq<Line>, bad: Line, rest: seq<Line>)
    requires Coherent(w.reader) && Lines(file) == good + [bad] + rest
    requires AllClean(w, good, bad.start) && w.reader.clean(bad) == Unframed
    requires forall i :: 0 <= i < |rest| ==> Harmless(w, rest[i], bad.start)
    ensures Decides(w.reader, file, Ok(DecodedLines(RecordsOf(w.reader, good), bad.start)))
  {
    var ls, b := Lines(file), |good|;
    assert ls[b] == bad && ls[..b] == good;
    assert CoherentAt(w.reader, bad);
    assert FirstBad(w.reader, ls) == b by {
      forall i | 0 <= i < b
        ensures w.reader.clean(ls[i]) != Unframed
      {
        assert ls[i] == good[i];
      }
    }
    forall i | 0 <= i < |ls|
      ensures var r := ReadingAt(w.reader, ls, b, i);
              !r.Fatal? && (r.Marker? ==> r.at <= bad.start)
    {
      if i < b {
        assert ls[i] == good[i] && CoherentAt(w.reader, good[i]);
      } else if i > b {
        assert ls[i] == rest[i - b - 1] && Harmless(w, ls[i], bad.start);
      }
    }
  }

  /** Past the bad line no marker proves anything: the only un-synced marker leads the tail. */
  lemma DamagedLineIsHarmless(w: Writer, items: seq<Item>, durable: nat, line: Line, bad: nat)
    requires Faithful(w) && Written(w, items) && durable <= |items| && OneMarkedTail(items, durable)
    requires HonestLine(w, items, durable, line) && Offset(w, items, durable) <= bad
    ensures Harmless(w, line, bad)
  {
    assert CoherentAt(w.reader, line);
    if w.reader.clean(line) != Unframed {
      var j :| durable <= j < |items| && IsItem(w, items, j, line);
      NextOffset(w, items, j);
      ItemIsOneLine(w, items[j], Offset(w, items, j));
    }
  }

  lemma RepairsTo(w: Writer, after: bytes, done: seq<Item>, validLen: nat)
    requires validLen <= |after|
    requires after[..validLen] == Render(w, done)
             || (validLen == |after| > 0 && after[|after| - 1] != NEWLINE && after + [NEWLINE] == Render(w, done))
    ensures Repaired(after, validLen) == Render(w, done)
  {
    RenderEndsLine(w, done);
    assert after[..|after|] == after;
  }

  ghost predicate RecoversTo(w: Writer, after: bytes, done: seq<Item>) {
    exists n: nat ::
      && n <= |after| && Repaired(after, n) == Render(w, done)
      && Decides(w.reader, after, Ok(DecodedLines(Versioned(w, Recs(done)), n)))
  }

  lemma DropNewline(after: bytes, before: bytes, text: bytes)
    requires after + [NEWLINE] == before + text + [NEWLINE]
    ensures after == before + text
  {
    assert after == (after + [NEWLINE])[..|after|];
    assert before + text == (before + text + [NEWLINE])[..|after|];
  }

  lemma LastLine(after: bytes, pos: nat, text: bytes)
    requires pos + |text| == |after| && after[pos..] == text && text != [] && NEWLINE !in text
    ensures LinesFrom(after, pos) == [Line(pos, text)]
  {
    assert after[pos..pos + |text|] == after[pos..];
    FirstLineIs(after, pos, text);
    assert LinesFrom(after, |after|) == [];
  }

  lemma TextAtEnd(after: bytes, before: bytes, text: bytes)
    requires after == before + text && text != [] && NEWLINE !in text
    ensures after[|before|..] == text && after[|after| - 1] != NEWLINE
  {
    assert after[|after| - 1] == text[|text| - 1];
  }

  lemma UnterminatedLines(w: Writer, after: bytes, done: seq<Item>)
    requires Faithful(w) && Written(w, done) && done != [] && !done[|done| - 1].Blank?
    requires after + [NEWLINE] == Render(w, done)
    ensures Lines(after) == ItemLines(w, done)
    ensures after != [] && after[|after| - 1] != NEWLINE
  {
    var front, last := done[..|done| - 1], done[|done| - 1];
    var before := Render(w, front);
    var text := Text(w, last, |before|);
    TextIsOneLine(w, done);
    DropNewline(after, before, text);
    LinesOfRender(w, front, after);
    TextAtEnd(after, before, text);
    LastLine(after, |before|, text);
  }

  lemma UnterminatedRecovery(w: Writer, after: bytes, done: seq<Item>)
    requires Faithful(w) && Written(w, done) && done != [] && !done[|done| - 1].Blank?
    requires after + [NEWLINE] == Render(w, done)
    ensures RecoversTo(w, after, done)
  {
    ItemLinesReadClean(w, done);
    UnterminatedLines(w, after, done);
    CleanFileDecodes(w, after, ItemLines(w, done), |Render(w, done)|);
    RepairsTo(w, after, done, |after|);
  }

  lemma CleanRecovery(w: Writer, done: seq<Item>)
    requires Faithful(w) && Written(w, done)
    ensures RecoversTo(w, Render(w, done), done)
  {
    var after := Render(w, done);
    ItemLinesReadClean(w, done);
    LinesOfRender(w, done, after);
    CleanFileDecodes(w, after, ItemLines(w, done), |after|);
    assert after[..|after|] == after;
    RepairsTo(w, after, done, |after|);
  }

  lemma RestIsHarmless(w: Writer, items: seq<Item>, durable: nat, after: bytes, bad: nat, i: nat)
    requires Faithful(w) && Written(w, items) && durable <= |items| && OneMarkedTail(items, durable)
    requires Honest(w, items, durable, after) && Offset(w, items, durable) <= bad
    requires i < |Lines(after)| && bad <= Lines(after)[i].start
    ensures Harmless(w, Lines(after)[i], bad)
  {
    DamagedLineIsHarmless(w, items, durable, Lines(after)[i], bad);
  }

  lemma TornLines(w: Writer, after: bytes, done: seq<Item>, bad: Line, rest: seq<Line>)
    requires Faithful(w) && Written(w, done) && Render(w, done) < after
    requires LineEnd(after, |Render(w, done)|) > |Render(w, done)|
    requires bad == Line(|Render(w, done)|, after[|Render(w, done)|..LineEnd(after, |Render(w, done)|)])
    requires rest == LinesFrom(after, NextLine(after, |Render(w, done)|))
    ensures Lines(after) == ItemLines(w, done) + [bad] + rest
    ensures forall i :: 0 <= i < |rest| ==> bad.start <= rest[i].start
  {
    LinesOfRender(w, done, after);
    Regroup(ItemLines(w, done), [bad], rest);
    LinesAscend(after, NextLine(after, |Render(w, done)|));
  }

  lemma AllHarmless(w: Writer, items: seq<Item>, durable: nat, after: bytes, head: seq<Line>, rest: seq<Line>, bad: nat)
    requires Faithful(w) && Written(w, items) && durable <= |items| && OneMarkedTail(items, durable)
    requires Honest(w, items, durable, after) && Offset(w, items, durable) <= bad
    requires Lines(after) == head + rest && forall i :: 0 <= i < |rest| ==> bad <= rest[i].start
    ensures forall i :: 0 <= i < |rest| ==> Harmless(w, rest[i], bad)
  {
    forall i | 0 <= i < |rest|
      ensures Harmless(w, rest[i], bad)
    {
      assert Lines(after)[|head| + i] == rest[i];
      RestIsHarmless(w, items, durable, after, bad, |head| + i);
    }
  }

  lemma TornRecovery(w: Writer, items: seq<Item>, durable: nat, after: bytes, done: seq<Item>, bad: Line)
    requires Faithful(w) && Written(w, items) && durable <= |items| && OneMarkedTail(items, durable)
    requires Honest(w, items, durable, after) && Written(w, done) && Offset(w, items, durable) <= |Render(w, done)|
    requires Render(w, done) < after && LineEnd(after, |Render(w, done)|) > |Render(w, done)|
    requires bad == Line(|Render(w, done)|, after[|Render(w, done)|..LineEnd(after, |Render(w, done)|)])
    requires w.reader.clean(bad) == Unframed
    ensures RecoversTo(w, after, done)
  {
    var rest := LinesFrom(after, NextLine(after, bad.start));
    TornLines(w, after, done, bad, rest);
    ItemLinesReadClean(w, done);
    AllHarmless(w, items, durable, after, ItemLines(w, done) + [bad], rest, bad.start);
    TornFileDecodes(w, after, ItemLines(w, done), bad, rest);
    RepairsTo(w, after, done, bad.start);
  }

  lemma SurvivorsReach(w: Writer, items: seq<Item>, durable: nat, done: seq<Item>)
    requires Survives(w, items, durable, done)
    ensures Offset(w, items, durable) <= |Render(w, done)|
  {
    RenderGrows(w, done, durable, |done|);
    assert done[..|done|] == done;
  }

  /** Whatever the damage, recovery accepts the file and repairs it to the survivors. */
  lemma EndedRecovers(w: Writer, items: seq<Item>, durable: nat, after: bytes, done: seq<Item>)
    requires Faithful(w) && Written(w, items) && durable <= |items| && OneMarkedTail(items, durable)
    requires CrashImage(w, items, durable, after) && Survives(w, items, durable, done) && Ended(w, after, done)
    ensures RecoversTo(w, after, done)
  {
    SurvivorsAreWritten(w, items, durable, done);
    if after == Render(w, done) {
      CleanRecovery(w, done);
    } else if done != [] && !done[|done| - 1].Blank? && after + [NEWLINE] == Render(w, done) {
      UnterminatedRecovery(w, after, done);
    } else {
      SurvivorsReach(w, items, durable, done);
      var pos := |Render(w, done)|;
      TornRecovery(w, items, durable, after, done, Line(pos, after[pos..LineEnd(after, pos)]));
    }
  }
}
