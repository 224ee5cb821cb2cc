/** What a restart of the broker does to offsets: the facts behind the restart steps of the group and client models. */
module Restarts {
  import opened Bytes
  import opened RecordCodec
  import opened PartitionModel
  import opened PartitionRuns
  import opened OffsetStore
  import GroupModel
  import GroupRuns

  /** A recovery brings back the log, and of an append that was cut off some first part. */
  lemma RecoveredLog(cfg: Config, s: State, s': State, lo: nat, hi: nat) returns (m: nat)
    requires Inv(cfg, s, lo, hi) && Ready(s, s')
    ensures m <= |s.inflight| && s'.log == s.log + s.inflight[..m]
  {
    hide Inv;
    ReadyInv(cfg, s, s', lo, hi);
    m := |s'.log| - |s.log|;
    assert s.log <= s'.log <= s.log + s.inflight;
    assert s'.log == (s.log + s.inflight)[..|s.log| + m];
  }

  /** A commit that is cut off after some of its records is a commit of the first of its entries. */
  lemma CutCommit(log: seq<Stored>, committed: map<GroupModel.CommitKey, uint64>, group: bytes, items: seq<CommitItem>,
                  es: seq<GroupModel.Entry>, batch: seq<Stored>, m: nat)
    requires Holds(Replay(log), committed) && SameEntries(items, es) && IsBatch(batch, group, items) && m <= |batch|
    ensures Holds(Replay(log + batch[..m]), GroupModel.Stored(committed, group, es[..m]))
  {
    hide Holds, Replay, KeyOf, EncodeValue, GroupModel.Stored;
    ReplayBatch(log, group, items[..m], batch[..m]);
    CommitRefines(Replay(log), committed, group, items[..m], es[..m]);
  }

  /** When the offsets log is recovered, what is committed is what was committed, and the first entries of a commit
      that the crash cut off. */
  lemma CommittedSurvives(cfg: Config, s: State, s': State, lo: nat, hi: nat,
                          committed: map<GroupModel.CommitKey, uint64>,
                          group: bytes, items: seq<CommitItem>, es: seq<GroupModel.Entry>) returns (kept: nat)
    requires Inv(cfg, s, lo, hi) && Ready(s, s') && Holds(Replay(s.log), committed)
    requires SameEntries(items, es) && IsBatch(s.inflight, group, items)
    ensures kept <= |es| && Holds(Replay(s'.log), GroupModel.Stored(committed, group, es[..kept]))
  {
    hide Inv, Ready, Holds, Replay, KeyOf, EncodeValue, GroupModel.Stored;
    kept := RecoveredLog(cfg, s, s', lo, hi);
    CutCommit(s.log, committed, group, items, es, s.inflight, kept);
  }

  /** After a restart every partition goes on from an offset that is no lower than before, and begins at one that is
      no higher: no lower than before either, if no dropped segment still had its files. */
  lemma RestartBounds(cfg: Config, run: seq<State>, i: nat, j: nat)
    requires IsRun(cfg, run) && i <= j < |run| && Quiet(run[i]) && Quiet(run[j])
    requires forall n :: i <= n < j ==> !Retains(run[n], run[n + 1])
    ensures run[i].phase.part.next <= run[j].phase.part.next
    ensures Earliest(run[j].phase.part) <= Earliest(run[i].phase.part)
    ensures run[i].phase.doomed == [] ==> Earliest(run[j].phase.part) == Earliest(run[i].phase.part)
  {
    hide IsRun, Retains;
    NextGrows(cfg, run, i, j);
    EarliestSteady(cfg, run, i, j);
  }

  /** A log that holds commits of members only is always readable: whatever commit of a member the coordinator
      accepts, in any reachable state, its records can be read back. */
  lemma MemberLogReadable(cfg: GroupModel.Config, ws: seq<GroupRuns.World>, events: seq<GroupRuns.Event>, n: nat,
                          id: GroupRuns.Id, generation: uint32, es: seq<GroupModel.Entry>,
                          log: seq<Stored>, items: seq<CommitItem>, batch: seq<Stored>)
    requires GroupRuns.Run(cfg, ws, events) && n < |ws| && !GroupRuns.Standalone(id, generation)
    requires var w := ws[n];
             GroupModel.CommitCode(w.cat, w.marks, w.s, id.group, id.member, generation, es) == 0
    requires SameEntries(items, es) && IsBatch(batch, id.group, items)
    requires forall i :: 0 <= i < |items| ==> items[i].topic != []
    requires AllReadable(log)
    ensures AllReadable(log + batch)
  {
    hide GroupRuns.Run, GroupModel.CommitCode, AllReadable, KeyOf, EncodeValue;
    GroupRuns.AcceptedOwner(ws[n], id, generation, es);
    GroupRuns.ReachableGroups(cfg, ws, events, n, id.group);
    MemberCommitsReadable(log, id.group, items, batch);
  }
}
