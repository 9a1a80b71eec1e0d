/**
 Messages and bytes: what a crashed file gives back of a run of the round
 protocol, whatever the crash did to the records in flight.
 */
module CrashedRounds {
  import opened Wrappers
  import opened WalRecords
  import opened PersistRound
  import opened RoundRuns
  import MarkerRule
  import Format
  import WalFile
  import WalRuns
  import WalWriter
  import CrashedLogs
  import StagedRewrite
  import StagedRounds

  type Verdict = Result<MarkerRule.DecodedLines, MarkerRule.FormatError>

  /** A framed log crashed at some point of its life, and what the decoder makes of it. */
  datatype Crash<!R> = Crash(tag: Format.FormatTag, crc: Format.Crc, codec: WalWriter.Codec<R>, files: seq<WalRuns.Wal>,
                             writes: seq<WalRuns.Step>, at: nat, after: MarkerRule.bytes, verdict: Verdict)

  /** The log held `synced`, all of it known on disk, and then `flight`. */
  ghost predicate CrashOf<R(!new)>(c: Crash<R>, synced: seq<R>, flight: seq<R>) {
    && CrashedLogs.Crashed(c.tag, c.crc, c.codec, c.files, c.writes, c.at, c.after, c.verdict, synced + flight)
    && CrashedLogs.SyncedCount(c.files[c.at]) == |synced|
  }

  ghost predicate Unholed<R(!new)>(c: Crash<R>) {
    c.at < |c.files| && WalRuns.Unholed(WalWriter.Framed(c.tag, c.crc, c.codec), c.files[c.at], c.after)
  }

  ghost predicate Gives<R(!new)>(c: Crash<R>, synced: seq<R>, flight: seq<R>, done: seq<WalFile.Item>, kept: seq<R>) {
    && c.at < |c.files|
    && CrashedLogs.Recovered(WalWriter.Framed(c.tag, c.crc, c.codec), c.codec, c.files[c.at], c.after, c.verdict,
                             synced + flight, done, kept)
  }

  lemma CutOf<R>(synced: seq<R>, flight: seq<R>, kept: seq<R>) returns (m: nat)
    requires synced <= kept <= synced + flight
    ensures m <= |flight| && kept == synced + flight[..m]
  {
    m := |kept| - |synced|;
    assert kept == (synced + flight)[..|kept|];
  }

  /** What is recovered starts with everything synced; without a hole, it is that and a cut of what was in flight. */
  lemma CrashGives<R(!new)>(c: Crash<R>, synced: seq<R>, flight: seq<R>)
    returns (done: seq<WalFile.Item>, kept: seq<R>, m: nat)
    requires CrashOf(c, synced, flight)
    ensures Gives(c, synced, flight, done, kept) && synced <= kept && m <= |flight|
    ensures Unholed(c) ==> kept == synced + flight[..m]
  {
    done, kept := CrashedLogs.CrashKeepsRecords(c.tag, c.crc, c.codec, c.files, c.writes, c.at, c.after, c.verdict,
                                                synced + flight);
    assert (synced + flight)[..|synced|] == synced;
    m := 0;
    if Unholed(c) {
      m := CutOf(synced, flight, kept);
    }
  }

  lemma ReplayOnward<C, S>(synced: seq<WalRecord<C, S>>, kept: seq<WalRecord<C, S>>)
    requires synced <= kept
    ensures ReplayFrom(Empty(), kept) == ReplayFrom(ReplayFrom(Empty(), synced), kept[|synced|..])
  {
    assert kept == synced + kept[|synced|..];
    ReplayAppend(Empty(), synced, kept[|synced|..]);
  }

  /**
   A node's file crashes in any way that forges no framed line, at any point of a run of the protocol.  What
   is recovered is the version on disk and whatever is left of the records in flight; without a hole, it is
   at or after the step of every message that has left and owes no install that is still off the disk.
   */
  lemma CrashedFileKeepsSentMessage<C(!new), S(!new)>(worlds: seq<World<C, S>>, steps: seq<Step<C, S>>, i: nat, k: nat,
                                                      c: Crash<WalRecord<C, S>>)
    returns (done: seq<WalFile.Item>, kept: seq<WalRecord<C, S>>)
    requires Run(worlds, steps) && i <= |steps| && k < |worlds[i].node.sent|
    requires !ShipsBeforeDurable(worlds[i].node.sent[k].kind)
    requires CrashOf(c, worlds[i].node.disk, worlds[i].node.tail)
    ensures Gives(c, worlds[i].node.disk, worlds[i].node.tail, done, kept)
    ensures var n, h := worlds[i].node, worlds[i].hist;
            && n.disk <= kept && h.onDisk < |h.states|
            && ReplayFrom(Empty(), kept) == ReplayFrom(h.states[h.onDisk], kept[|n.disk|..])
    ensures Unholed(c) && worlds[i].node.sent[k].owed <= worlds[i].hist.onDisk ==>
              AtOrAfter(worlds[i], ReplayFrom(Empty(), kept), worlds[i].node.sent[k].ver)
  {
    var n := worlds[i].node;
    var m: nat;
    done, kept, m := CrashGives(c, n.disk, n.tail);
    ReplayOnward(n.disk, kept);
    InvRun(worlds, steps, i);
    if Unholed(c) && n.sent[k].owed <= worlds[i].hist.onDisk {
      assert CrashState(n, ReplayFrom(Empty(), kept));
      EverySentMessageIsOnDisk(worlds, steps, i, k);
    }
  }

  /**
   The same for the live file of a group that compacts by staged rewrites: without a hole, what is recovered
   is the log promised exactly when no truncation was recorded while the file's base was behind.
   */
  lemma CrashedLiveFileAgreesIff<C(!new), S(!new)>(groups: seq<StagedRounds.Group<C, S>>,
                                                   steps: seq<StagedRounds.GroupStep<C, S>>, i: nat,
                                                   c: Crash<WalRecord<C, S>>)
    returns (done: seq<WalFile.Item>, kept: seq<WalRecord<C, S>>, m: nat)
    requires StagedRounds.GroupRun(groups, steps) && i <= |steps| && CrashOf(c, groups[i].live, groups[i].flight)
    ensures Gives(c, groups[i].live, groups[i].flight, done, kept) && groups[i].live <= kept
    ensures m <= |groups[i].flight| && StagedRounds.HasDisk(groups[i].w)
    ensures Unholed(c) ==>
              (StagedRewrite.Agrees(ReplayFrom(Empty(), kept), StagedRounds.Promised(groups[i], m))
               <==> !StagedRounds.LagAfter(groups[i], m).cut)
  {
    done, kept, m := CrashGives(c, groups[i].live, groups[i].flight);
    StagedRounds.LiveFileAgreesIff(groups, steps, i, m);
  }
}
