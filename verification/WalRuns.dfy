/**
 One WAL file over its whole life: rounds that append and sync, failed rounds,
 whole-file replacements, restarts, crashes, and recoveries.
 */
module WalRuns {
  import opened Wrappers
  import opened MarkerRule
  import opened WalFile
  import opened CrashRecovery
  import opened RecoveredPrefix

  /** Between rounds; a round appended and not yet synced; or unusable until the file is replaced. */
  datatype Phase = Ready | InFlight | Suspect

  /** What was laid out, how many items of it are known on disk, and the writer's marker flag. */
  datatype Wal = Wal(items: seq<Item>, durable: nat, synced: bool, phase: Phase)

  datatype Step =
    | Append(payloads: seq<bytes>, sizeKnown: bool)
    | SyncOk
    | RoundFails
    | Replace(image: seq<bytes>)
    | ReplaceFails
    | Restart(kept: nat)
    | Crash(after: bytes)

  function RecItems(payloads: seq<bytes>): seq<Item> {
    seq(|payloads|, i requires 0 <= i < |payloads| => Rec(payloads[i]))
  }

  /** One append: the pending marker, if the file's length can be read, then the records. */
  function Appended(s: Wal, payloads: seq<bytes>, sizeKnown: bool): Wal {
    Wal(s.items + (if s.synced && sizeKnown then [Mark] else []) + RecItems(payloads), s.durable, false, InFlight)
  }

  function Replaced(image: seq<bytes>): Wal {
    Wal(RecItems(image), |image|, false, Ready)
  }

  function Reopened(items: seq<Item>, durable: nat): Wal {
    Wal(items, durable, false, Ready)
  }

  function NewFile(): Wal {
    Reopened([], 0)
  }

  /** `done` is what recovery makes of the crashed file. */
  ghost predicate CrashesTo(w: Writer, s: Wal, after: bytes, done: seq<Item>)
    requires s.durable <= |s.items|
  {
    && CrashImage(w, s.items, s.durable, after)
    && Survives(w, s.items, s.durable, done) && Ended(w, after, done) && RecoversTo(w, after, done)
  }

  ghost predicate Next(w: Writer, s: Wal, step: Step, s': Wal) {
    match step
    case Append(payloads, sizeKnown) =>
      s.phase.Ready? && s' == Appended(s, payloads, sizeKnown) && Written(w, s'.items)
    case SyncOk => s.phase.InFlight? && s' == Wal(s.items, |s.items|, true, Ready)
    case RoundFails => s.phase.InFlight? && s' == s.(phase := Suspect)
    case Replace(image) => !s.phase.InFlight? && s' == Replaced(image) && Written(w, s'.items)
    case ReplaceFails => !s.phase.InFlight? && s' == s.(synced := false, phase := Suspect)
    case Restart(kept) => s.durable <= kept <= |s.items| && s' == Reopened(s.items[..kept], s.durable)
    case Crash(after) =>
      s.durable <= |s.items| && exists done :: s' == Reopened(done, |done|) && CrashesTo(w, s, after, done)
  }

  ghost predicate Inv(w: Writer, s: Wal) {
    && s.durable <= |s.items| && Written(w, s.items) && OneMarkedTail(s.items, s.durable)
    && (s.synced ==> s.phase.Ready? && s.durable == |s.items|)
  }

  lemma InvNext(w: Writer, s: Wal, step: Step, s': Wal)
    requires Inv(w, s) && Next(w, s, step, s')
    ensures Inv(w, s')
  {
    match step
    case Restart(kept) =>
      WrittenPrefix(w, s.items, kept);
    case Crash(after) =>
      var done :| s' == Reopened(done, |done|) && CrashesTo(w, s, after, done);
      SurvivorsAreWritten(w, s.items, s.durable, done);
    case _ =>
  }

  ghost predicate Run(w: Writer, states: seq<Wal>, steps: seq<Step>) {
    && |states| == |steps| + 1 && states[0] == NewFile()
    && forall i :: 0 <= i < |steps| ==> Next(w, states[i], steps[i], states[i + 1])
  }

  lemma {:induction false} InvRun(w: Writer, states: seq<Wal>, steps: seq<Step>, i: nat)
    requires Run(w, states, steps) && i <= |steps|
    ensures Inv(w, states[i])
  {
    if i > 0 {
      InvRun(w, states, steps, i - 1);
      InvNext(w, states[i - 1], steps[i - 1], states[i]);
    }
  }

  /** The records known to be on disk. */
  function Synced(s: Wal): seq<bytes>
    requires s.durable <= |s.items|
  {
    Recs(s.items[..s.durable])
  }

  /** In the crashed file no un-synced line that is read comes after an empty one. */
  predicate Unholed(w: Writer, s: Wal, after: bytes) {
    && s.durable <= |s.items| && Offset(w, s.items, s.durable) <= |after|
    && HoleFree(w.reader, after, Offset(w, s.items, s.durable))
  }

  /**
   A crash at any point of any run: whatever verdict the decoder gives on the damaged file is Ok, with
   every synced record in it, and the repaired file is again a writer's file.  The un-synced lines it
   keeps are an initial run of those written exactly when the damage left no hole; the records are then
   a prefix of those written.
   */
  lemma EveryCrashRecovers(w: Writer, states: seq<Wal>, steps: seq<Step>, i: nat, after: bytes,
                           d: Result<DecodedLines, FormatError>) returns (done: seq<Item>)
    requires Faithful(w) && Run(w, states, steps) && i <= |steps|
    requires states[i].durable <= |states[i].items| && CrashImage(w, states[i].items, states[i].durable, after)
    requires Decides(w.reader, after, d)
    ensures var s := states[i];
            && CrashesTo(w, s, after, done) && Next(w, s, Crash(after), Reopened(done, |done|)) && Written(w, done)
            && d.Ok? && d.value.lines == Versioned(w, Recs(done))
            && d.value.validLen <= |after| && Repaired(after, d.value.validLen) == Render(w, done)
            && Synced(s) <= Recs(done)
            && (Unholed(w, s, after) <==> NoGap(w, s.items, s.durable, done))
            && (Unholed(w, s, after) ==> Recs(done) <= Recs(s.items))
  {
    var s := states[i];
    InvRun(w, states, steps, i);
    done := Survivors(w, s, after);
    VerdictIs(w, after, done, d);
    SurvivorsAreWritten(w, s.items, s.durable, done);
    RecoveredRecords(w, s.items, s.durable, after, done);
    NoGapIffHoleFree(w, s.items, s.durable, after, done);
  }

  lemma Survivors(w: Writer, s: Wal, after: bytes) returns (done: seq<Item>)
    requires Faithful(w) && Inv(w, s) && CrashImage(w, s.items, s.durable, after)
    ensures CrashesTo(w, s, after, done)
  {
    var base := s.items[..s.durable];
    RenderGrows(w, s.items, s.durable, |s.items|);
    assert s.items[..|s.items|] == s.items && base[..s.durable] == base;
    done := Walk(w, s.items, s.durable, after, base);
    EndedRecovers(w, s.items, s.durable, after, done);
  }

  lemma VerdictIs(w: Writer, after: bytes, done: seq<Item>, d: Result<DecodedLines, FormatError>)
    requires Faithful(w) && RecoversTo(w, after, done) && Decides(w.reader, after, d)
    ensures d.Ok? && d.value.lines == Versioned(w, Recs(done))
    ensures d.value.validLen <= |after| && Repaired(after, d.value.validLen) == Render(w, done)
  {
    var n: nat :| n <= |after| && Repaired(after, n) == Render(w, done)
                  && Decides(w.reader, after, Ok(DecodedLines(Versioned(w, Recs(done)), n)));
    DecidesIsFunctional(w.reader, after, d, Ok(DecodedLines(Versioned(w, Recs(done)), n)));
  }

  /** A tear with one overwritten byte leaves no hole. */
  lemma OneByteCrashIsUnholed(w: Writer, states: seq<Wal>, steps: seq<Step>, i: nat, after: bytes, fault: nat)
    requires Faithful(w) && Run(w, states, steps) && i <= |steps|
    requires states[i].durable <= |states[i].items| && CrashImage(w, states[i].items, states[i].durable, after)
    requires OneByteDamage(Render(w, states[i].items), after, fault) && TwoByteLines(w, states[i].items)
    ensures Unholed(w, states[i], after)
  {
    InvRun(w, states, steps, i);
    var done := Survivors(w, states[i], after);
    OneByteDamageIsHoleFree(w, states[i].items, states[i].durable, after, done, fault);
  }

  /** So the recovered records are then always a prefix of those written. */
  lemma OneByteCrashRecoversPrefix(w: Writer, states: seq<Wal>, steps: seq<Step>, i: nat, after: bytes,
                                   d: Result<DecodedLines, FormatError>, fault: nat) returns (n: nat)
    requires Faithful(w) && Run(w, states, steps) && i <= |steps|
    requires states[i].durable <= |states[i].items| && CrashImage(w, states[i].items, states[i].durable, after)
    requires Decides(w.reader, after, d)
    requires OneByteDamage(Render(w, states[i].items), after, fault) && TwoByteLines(w, states[i].items)
    ensures |Synced(states[i])| <= n <= |Recs(states[i].items)|
    ensures d.Ok? && d.value.lines == Versioned(w, Recs(states[i].items)[..n])
  {
    OneByteCrashIsUnholed(w, states, steps, i, after, fault);
    var done := EveryCrashRecovers(w, states, steps, i, after, d);
    n := |Recs(done)|;
  }

  lemma SyncedGrowsStep(w: Writer, s: Wal, step: Step, s': Wal)
    requires Inv(w, s) && Next(w, s, step, s') && !step.Replace?
    ensures s'.durable <= |s'.items| && Synced(s) <= Synced(s')
  {
    match step
    case Append(_, _) =>
      assert s'.items[..s.durable] == s.items[..s.durable];
    case SyncOk =>
      assert s.items[..|s.items|] == s.items;
      RecsGrow(s.items, s.durable);
    case Restart(kept) =>
      assert s.items[..kept][..s.durable] == s.items[..s.durable];
    case Crash(after) =>
      var done :| s' == Reopened(done, |done|) && CrashesTo(w, s, after, done);
      RecsGrow(done, s.durable);
      assert done[..|done|] == done;
    case _ =>
  }

  /** Between replacements of the file, no synced record is ever lost, through any crashes and recoveries. */
  lemma {:induction false} SyncedRecordsStay(w: Writer, states: seq<Wal>, steps: seq<Step>, i: nat, j: nat)
    requires Run(w, states, steps) && i <= j <= |steps|
    requires forall k :: i <= k < j ==> !steps[k].Replace?
    ensures states[i].durable <= |states[i].items| && states[j].durable <= |states[j].items|
    ensures Synced(states[i]) <= Synced(states[j])
    decreases j
  {
    InvRun(w, states, steps, i);
    if i < j {
      SyncedRecordsStay(w, states, steps, i, j - 1);
      InvRun(w, states, steps, j - 1);
      SyncedGrowsStep(w, states[j - 1], steps[j - 1], states[j]);
    }
  }

  // --- A wiped line is skipped ------------------------------------------------------------------

  function Blanks(n: nat): seq<Item> {
    seq(n, _ => Blank)
  }

  lemma {:induction false} BlanksRender(w: Writer, n: nat)
    ensures |Render(w, Blanks(n))| == n && ItemLines(w, Blanks(n)) == [] && Recs(Blanks(n)) == []
  {
    if n > 0 {
      BlanksRender(w, n - 1);
      assert Blanks(n) == Blanks(n - 1) + [Blank];
      RenderAppend(w, Blanks(n - 1), Blank);
    }
  }

  lemma TwoItems(w: Writer, first: bytes, second: bytes)
    ensures var items := [Rec(first), Rec(second)];
            && Offset(w, items, 0) == 0 && Render(w, items[..0]) == []
            && Offset(w, items, 1) == |w.record(first)| + 1
            && |Render(w, items)| == |w.record(first)| + 1 + |w.record(second)| + 1
  {
    var items := [Rec(first), Rec(second)];
    NextOffset(w, items, 0);
    NextOffset(w, items, 1);
    assert items[..2] == items;
  }

  lemma OneLineLeft(w: Writer, second: bytes, n: nat)
    requires Faithful(w) && w.plain(second)
    ensures var done := Blanks(n) + [Rec(second)];
            var after := Render(w, done);
            && |after| == n + |w.record(second)| + 1 && Lines(after) == [Line(n, w.record(second))]
            && Decides(w.reader, after, Ok(DecodedLines([(w.version, second)], |after|)))
  {
    var done := Blanks(n) + [Rec(second)];
    BlanksRender(w, n);
    RenderAppend(w, Blanks(n), Rec(second));
    var after := Render(w, done);
    LinesOfRender(w, done, after);
    ItemLinesReadClean(w, done);
    CleanFileDecodes(w, after, Lines(after), |after|);
    assert Versioned(w, Recs(done)) == [(w.version, second)];
  }

  lemma TwoRecs(first: bytes, second: bytes)
    ensures Recs([Rec(first), Rec(second)]) == [first, second]
  {
    var items, one := [Rec(first), Rec(second)], [Rec(first)];
    assert items[..1] == one && one[..0] == [];
    assert Recs(one) == Recs([]) + [first];
    assert Recs(items) == Recs(one) + [second];
  }

  /** A round of two records is appended and not yet synced. */
  lemma TwoAppended(w: Writer, first: bytes, second: bytes) returns (states: seq<Wal>, steps: seq<Step>)
    requires w.plain(first) && w.plain(second)
    ensures Run(w, states, steps) && |steps| == 1 && states[1].durable == 0
    ensures states[1].items == [Rec(first), Rec(second)] && Recs(states[1].items) == [first, second]
  {
    var s := Appended(NewFile(), [first, second], false);
    assert s.items == [Rec(first), Rec(second)];
    TwoRecs(first, second);
    states, steps := [NewFile(), s], [Append([first, second], false)];
  }

  /**
   Damage that turns the first of two un-synced lines into newlines: the file decodes
   without error to the second record alone, which is no prefix of what was written.
   */
  lemma WipedLineIsSkipped(w: Writer, first: bytes, second: bytes)
    returns (states: seq<Wal>, steps: seq<Step>, after: bytes)
    requires Faithful(w) && w.plain(first) && w.plain(second) && first != second
    ensures Run(w, states, steps) && |steps| == 1 && states[1].durable == 0 && Recs(states[1].items) == [first, second]
    ensures CrashImage(w, states[1].items, 0, after)
    ensures Decides(w.reader, after, Ok(DecodedLines([(w.version, second)], |after|)))
    ensures !([second] <= [first, second])
  {
    var items := [Rec(first), Rec(second)];
    states, steps := TwoAppended(w, first, second);
    var n := |w.record(first)| + 1;
    TwoItems(w, first, second);
    OneLineLeft(w, second, n);
    after := Render(w, Blanks(n) + [Rec(second)]);
    assert IsItem(w, items, 1, Lines(after)[0]);
    assert [second][0] != [first, second][0];
  }
}
