/**
 * The consumer on the live log (cmd/ingest/main.go): it reads whatever the running
 * log holds, flushed or not, and its tables outlive a power loss that the log's
 * unflushed records do not.
 */
module LiveConsumer {
  import opened Options
  import opened Record
  import opened Consumer
  import GroupCommit
  import GroupCommitSafety
  import GroupCommitGrowth

  /** The log, the tables, the stored offset, and the highest offset ever committed. */
  datatype Joint = Joint(log: GroupCommit.State, store: Store, next: nat, hi: nat)

  datatype Move =
    | OfLog(step: GroupCommit.Step)
    | Drained(start: nat, end: nat)
    | Aborted
    | Rewound(offset: nat)

  const START := Joint(GroupCommit.Init(), EMPTY, 0, 0)

  /** The state after a move, or None when it is not enabled. A batch reads a log that is up, to its end at most. */
  ghost function After(c: GroupCommit.Config, s: Joint, move: Move, decode: Decoder): Option<Joint> {
    match move
    case OfLog(step) =>
      if |s.log.disks| == 0 || GroupCommit.Apply(c, s.log, step).None? then None
      else Some(s.(log := GroupCommit.Apply(c, s.log, step).value))
    case Drained(start, end) =>
      var log := GroupCommit.Contents(s.log);
      if s.log.up && start <= s.hi && start < end <= |log| && Castable(log, start, end, decode) then
        Some(s.(store := ApplyRange(s.store, log, start, end, decode), next := end, hi := if end > s.hi then end else s.hi))
      else None
    case Aborted => Some(s)
    case Rewound(offset) => if offset <= s.next then Some(s.(next := offset)) else None
  }

  /** The state after running `moves` from an empty log and empty tables. */
  ghost function Trace(c: GroupCommit.Config, moves: seq<Move>, decode: Decoder): Option<Joint> {
    if moves == [] then Some(START)
    else
      var before := Trace(c, moves[..|moves| - 1], decode);
      if before.None? then None else After(c, before.value, moves[|moves| - 1], decode)
  }

  /** The run of the log alone. */
  function LogSteps(moves: seq<Move>): seq<GroupCommit.Step> {
    if moves == [] then []
    else
      var before, last := LogSteps(moves[..|moves| - 1]), moves[|moves| - 1];
      if last.OfLog? then before + [last.step] else before
  }

  lemma {:induction false} LogRuns(c: GroupCommit.Config, moves: seq<Move>, decode: Decoder)
    requires Trace(c, moves, decode).Some?
    ensures GroupCommitSafety.Run(c, LogSteps(moves)) == Some(Trace(c, moves, decode).value.log)
  {
    hide GroupCommit.Apply, GroupCommit.Contents, ApplyRange, GroupCommit.Init;
    if moves != [] {
      var init, last := moves[..|moves| - 1], moves[|moves| - 1];
      LogRuns(c, init, decode);
      if last.OfLog? {
        assert LogSteps(moves)[..|LogSteps(init)|] == LogSteps(init);
      }
    }
  }

  lemma TraceInv(c: GroupCommit.Config, moves: seq<Move>, decode: Decoder)
    requires Trace(c, moves, decode).Some?
    ensures GroupCommitSafety.Inv(c, Trace(c, moves, decode).value.log)
  {
    hide GroupCommitSafety.Run, Trace, GroupCommitSafety.Inv;
    LogRuns(c, moves, decode);
    GroupCommitSafety.RunInv(c, LogSteps(moves));
  }

  /** A prefix of a run is a run, one move short of the next. */
  lemma {:induction false} TracePrefix(c: GroupCommit.Config, moves: seq<Move>, i: nat, decode: Decoder)
    requires Trace(c, moves, decode).Some? && i <= |moves|
    ensures Trace(c, moves[..i], decode).Some?
    ensures i < |moves| ==>
              Trace(c, moves[..i + 1], decode) == After(c, Trace(c, moves[..i], decode).value, moves[i], decode)
    decreases |moves| - i
  {
    hide After;
    if i == |moves| {
      assert moves[..i] == moves;
    } else {
      TracePrefix(c, moves, i + 1, decode);
      assert moves[..i + 1][..i] == moves[..i];
    }
  }

  ghost function At(c: GroupCommit.Config, moves: seq<Move>, i: nat, decode: Decoder): Joint
    requires Trace(c, moves, decode).Some? && i <= |moves|
  {
    TracePrefix(c, moves, i, decode);
    Trace(c, moves[..i], decode).value
  }

  /** Each moment of a run is one move from the last, and the log is sound in it. */
  lemma AtStep(c: GroupCommit.Config, moves: seq<Move>, i: nat, decode: Decoder)
    requires Trace(c, moves, decode).Some? && i < |moves|
    ensures GroupCommitSafety.Inv(c, At(c, moves, i, decode).log)
    ensures After(c, At(c, moves, i, decode), moves[i], decode) == Some(At(c, moves, i + 1, decode))
  {
    hide After, Trace, GroupCommitSafety.Inv;
    TracePrefix(c, moves, i, decode);
    TracePrefix(c, moves, i + 1, decode);
    TraceInv(c, moves[..i], decode);
  }

  lemma AtStart(c: GroupCommit.Config, moves: seq<Move>, decode: Decoder)
    requires Trace(c, moves, decode).Some?
    ensures At(c, moves, 0, decode) == START
  {
  }

  // ---- tables against the log ----------------------------------------------------

  /** The consumer's view of a moment: the log is what a read would find in it. */
  ghost function View(s: Joint): Consumer.State {
    Consumer.State(GroupCommit.Contents(s.log), s.store, s.next, s.hi)
  }

  lemma {:induction false} FoldAgrees(a: seq<Payload>, b: seq<Payload>, n: nat, decode: Decoder)
    requires n <= |a| && n <= |b| && (a <= b || b <= a)
    ensures Fold(a, n, decode) == Fold(b, n, decode)
  {
    hide Fold;
    if a <= b {
      assert b == a + b[|a|..];
      FoldOfPrefix(a, b[|a|..], n, decode);
    } else {
      assert a == b + a[|b|..];
      FoldOfPrefix(b, a[|b|..], n, decode);
    }
  }

  lemma ViewAgrees(s: Consumer.State, t: Consumer.State, decode: Decoder)
    requires Exact(s, decode) && t == s.(log := t.log) && s.hi <= |t.log| && (s.log <= t.log || t.log <= s.log)
    ensures Exact(t, decode)
  {
    hide Fold;
    FoldAgrees(s.log, t.log, s.hi, decode);
    forall i | 0 <= i < s.hi
      ensures s.log[i] == t.log[i]
    {
    }
  }

  /** One move keeps the tables the fold of the log, unless it reopens a log shorter than what was committed. */
  lemma MoveExact(c: GroupCommit.Config, s: Joint, move: Move, decode: Decoder)
    requires GroupCommitSafety.Inv(c, s.log) && Exact(View(s), decode) && After(c, s, move, decode).Some?
    requires var t := After(c, s, move, decode).value;
             move == OfLog(GroupCommit.Reopen) ==> s.hi <= |GroupCommit.Contents(t.log)|
    ensures Exact(View(After(c, s, move, decode).value), decode)
  {
    hide GroupCommitSafety.Inv, GroupCommit.Apply, GroupCommit.Contents, GroupCommit.DurableCount, Exact, ApplyRange;
    var t := After(c, s, move, decode).value;
    match move
    case OfLog(step) =>
      GroupCommitGrowth.StepKeeps(c, s.log, step);
      HiWithin(View(s), decode);
      ViewAgrees(View(s), View(t), decode);
    case Drained(start, end) => StepStaysExact(View(s), Consumer.Batch(start, end), View(t), decode);
    case Aborted =>
    case Rewound(offset) => StepStaysExact(View(s), Consumer.Rewind(offset), View(t), decode);
  }

  lemma HiWithin(s: Consumer.State, decode: Decoder)
    requires Exact(s, decode)
    ensures s.hi <= |s.log|
  {
  }

  /** No reopening found the log shorter than the highest offset committed. */
  ghost predicate NeverBehind(c: GroupCommit.Config, moves: seq<Move>, decode: Decoder)
    requires Trace(c, moves, decode).Some?
  {
    forall i :: 0 <= i < |moves| && moves[i] == OfLog(GroupCommit.Reopen) ==>
      At(c, moves, i, decode).hi <= |GroupCommit.Contents(At(c, moves, i + 1, decode).log)|
  }

  lemma {:induction false} ExactAt(c: GroupCommit.Config, moves: seq<Move>, i: nat, decode: Decoder)
    requires Trace(c, moves, decode).Some? && NeverBehind(c, moves, decode) && i <= |moves|
    ensures Exact(View(At(c, moves, i, decode)), decode)
  {
    hide Exact, After, GroupCommit.Contents, GroupCommitSafety.Inv, At, Trace;
    if i == 0 {
      StartContents(decode);
      AtStart(c, moves, decode);
    } else {
      ExactAt(c, moves, i - 1, decode);
      AtStep(c, moves, i - 1, decode);
      MoveExact(c, At(c, moves, i - 1, decode), moves[i - 1], decode);
    }
  }

  lemma StartContents(decode: Decoder)
    ensures GroupCommit.Contents(START.log) == [] && Exact(View(START), decode)
  {
    hide GroupCommit.Contents;
    GroupCommitSafety.InitInv(GroupCommit.Config(GroupCommit.SyncGroup, 0));
    GroupCommitSafety.ContentsEnd(START.log);
  }

  /**
   * The tables are the fold of the log up to the highest offset committed, at
   * every moment of a joint run, exactly when no reopening found the log shorter
   * than that offset.
   */
  lemma TablesFollowLogIff(c: GroupCommit.Config, moves: seq<Move>, decode: Decoder)
    requires Trace(c, moves, decode).Some?
    ensures (forall i :: 0 <= i <= |moves| ==> Exact(View(At(c, moves, i, decode)), decode))
            <==> NeverBehind(c, moves, decode)
  {
    hide Trace;
    if NeverBehind(c, moves, decode) {
      forall i | 0 <= i <= |moves|
        ensures Exact(View(At(c, moves, i, decode)), decode)
      {
        ExactAt(c, moves, i, decode);
      }
    }
    if forall i :: 0 <= i <= |moves| ==> Exact(View(At(c, moves, i, decode)), decode) {
      forall i | 0 <= i < |moves| && moves[i] == OfLog(GroupCommit.Reopen)
        ensures At(c, moves, i, decode).hi <= |GroupCommit.Contents(At(c, moves, i + 1, decode).log)|
      {
        ReopenKeepsHi(c, moves, i, decode);
        assert Exact(View(At(c, moves, i + 1, decode)), decode);
      }
    }
  }

  lemma ReopenKeepsHi(c: GroupCommit.Config, moves: seq<Move>, i: nat, decode: Decoder)
    requires Trace(c, moves, decode).Some? && i < |moves| && moves[i] == OfLog(GroupCommit.Reopen)
    ensures At(c, moves, i + 1, decode).hi == At(c, moves, i, decode).hi
  {
    hide Trace, At, After, GroupCommitSafety.Inv;
    AtStep(c, moves, i, decode);
    LogKeepsHi(c, At(c, moves, i, decode), moves[i], decode);
  }

  // ---- reading only what is durable ------------------------------------------------

  /** Every batch ends within the part of the log no power loss can take. */
  ghost predicate ReadsDurable(c: GroupCommit.Config, moves: seq<Move>, decode: Decoder)
    requires Trace(c, moves, decode).Some?
  {
    forall i :: 0 <= i < |moves| && moves[i].Drained? ==>
      var log := At(c, moves, i, decode).log;
      |log.disks| > 0 && moves[i].end <= GroupCommit.DurableCount(log)
  }

  lemma MoveDurable(c: GroupCommit.Config, s: Joint, move: Move, decode: Decoder)
    requires GroupCommitSafety.Inv(c, s.log) && |s.log.disks| > 0 && s.hi <= GroupCommit.DurableCount(s.log)
    requires After(c, s, move, decode).Some? && (move.Drained? ==> move.end <= GroupCommit.DurableCount(s.log))
    ensures var t := After(c, s, move, decode).value;
            && |t.log.disks| > 0 && t.hi <= GroupCommit.DurableCount(t.log)
            && (move.OfLog? ==> t.hi <= |GroupCommit.Contents(t.log)|)
  {
    hide GroupCommitSafety.Inv, GroupCommit.Apply, GroupCommit.Contents, GroupCommit.DurableCount, ApplyRange;
    if move.OfLog? {
      GroupCommitGrowth.StepKeeps(c, s.log, move.step);
    }
  }

  lemma {:induction false} DurableAt(c: GroupCommit.Config, moves: seq<Move>, i: nat, decode: Decoder)
    requires Trace(c, moves, decode).Some? && ReadsDurable(c, moves, decode) && i <= |moves|
    ensures var s := At(c, moves, i, decode);
            |s.log.disks| > 0 && s.hi <= GroupCommit.DurableCount(s.log)
    ensures i > 0 && moves[i - 1].OfLog? ==>
              At(c, moves, i - 1, decode).hi <= |GroupCommit.Contents(At(c, moves, i, decode).log)|
  {
    hide After, GroupCommit.Contents, GroupCommitSafety.Inv, GroupCommit.DurableCount, At, Trace;
    if i == 0 {
      AtStart(c, moves, decode);
    } else {
      DurableAt(c, moves, i - 1, decode);
      AtStep(c, moves, i - 1, decode);
      MoveDurable(c, At(c, moves, i - 1, decode), moves[i - 1], decode);
      if moves[i - 1].OfLog? {
        LogKeepsHi(c, At(c, moves, i - 1, decode), moves[i - 1], decode);
      }
    }
  }

  lemma LogKeepsHi(c: GroupCommit.Config, s: Joint, move: Move, decode: Decoder)
    requires After(c, s, move, decode).Some? && move.OfLog?
    ensures After(c, s, move, decode).value.hi == s.hi
  {
    hide GroupCommit.Apply;
  }

  /** A consumer that reads only durable records is never behind: its tables always follow the log. */
  lemma DurableReadsNeverBehind(c: GroupCommit.Config, moves: seq<Move>, decode: Decoder)
    requires Trace(c, moves, decode).Some? && ReadsDurable(c, moves, decode)
    ensures NeverBehind(c, moves, decode)
  {
    hide Trace, ReadsDurable, GroupCommit.Contents;
    forall i | 0 <= i < |moves| && moves[i] == OfLog(GroupCommit.Reopen)
      ensures At(c, moves, i, decode).hi <= |GroupCommit.Contents(At(c, moves, i + 1, decode).log)|
    {
      DurableAt(c, moves, i + 1, decode);
    }
  }
}
