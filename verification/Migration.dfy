/** Live migration: the command state machine of control.c, the worker it starts, and the
    state-file calls of demu.c the worker makes. Each command handler and each demu_* call is
    one step; handlers run under the lock of the command socket. */
module Migration {
  datatype Mig = NotInit | Init | Track | Live | Paused | Restoring

  /** statefile_mode */
  datatype Mode = NotReady | Closed | ReadOpened | WriteOpened

  /** The worker's next call. */
  datatype Pc = AtStart | AtTop | AtPass | AtWait | AtLastPass | AtFinish | AtCleanup | AtReport | AtLeave

  /** What the worker's calls returned; a pass also says whether a pause had been posted when it began. */
  datatype Call = Started(ok: bool) | Passed(r: int, afterPause: bool) | Finished(ok: bool)

  /** `stopped` and `result` are locals of migrate_loop; the rest is history: the calls made,
      whether an abort was handled before the finish, whether the session began unpaused. */
  datatype Worker = Worker(pc: Pc, live: bool, stopped: bool, result: int, calls: seq<Call>, aborted: bool,
                           unpausedStart: bool)

  /** A completion event, with the history of the session it ends. */
  datatype Report = Report(success: bool, live: bool, calls: seq<Call>, aborted: bool)

  /** `posted`: a pause has been posted since the semaphore was last initialised. */
  datatype Sys = Sys(mig: Mig, paused: bool, mode: Mode, sem: nat, posted: bool, workers: map<nat, Worker>,
                     spawned: nat, reports: seq<Report>)

  // ------------------------------------------------------------------
  // Command handlers; the outcome of what they call is a parameter

  datatype Command =
    | CmdInit(fdGiven: bool)
    | CmdLive(semOk: bool)
    | CmdNonLive
    | CmdPause(stopOk: bool)
    | CmdAbort
    | CmdTrackDirty
    | CmdRestore(triggered: bool)
    | CmdQuit

  /** check_mig: only an initialised, idle state can start something. */
  predicate CanStart(m: Mig) {
    m == Init || m == Track
  }

  function DoInit(s: Sys, fdGiven: bool): Sys {
    if !fdGiven || s.mig != NotInit || s.mode != NotReady then s
    else s.(mig := Init, mode := Closed)
  }

  function Spawn(s: Sys, live: bool): Sys {
    s.(mig := if live then Live else Paused,
       workers := s.workers[s.spawned := Worker(AtStart, live, !live, 0, [], false, !s.paused)],
       spawned := s.spawned + 1)
  }

  function DoLive(s: Sys, semOk: bool): Sys {
    if !CanStart(s.mig) || !semOk then s else Spawn(s.(sem := 0, posted := false), true)
  }

  function DoNonLive(s: Sys): Sys {
    if !CanStart(s.mig) || !s.paused then s else Spawn(s, false)
  }

  /** The post comes before the I/O server is stopped, and stays if stopping it fails. */
  function DoPause(s: Sys, stopOk: bool): Sys {
    if s.paused then s else s.(paused := true, sem := s.sem + 1, posted := true)
  }

  /** The worker has not yet made its finishing call. */
  predicate BeforeFinish(pc: Pc) {
    pc != AtCleanup && pc != AtReport && pc != AtLeave
  }

  function MarkAborted(ws: map<nat, Worker>): map<nat, Worker> {
    map i | i in ws :: if BeforeFinish(ws[i].pc) then ws[i].(aborted := true) else ws[i]
  }

  /** Past initialisation the state file is closed under the worker's feet; a live worker that
      may be waiting for a pause is woken. */
  function DoAbort(s: Sys): Sys {
    s.(sem := if s.mig == Live && !s.paused then s.sem + 1 else s.sem,
       mode := if s.mig == NotInit || s.mig == Init then s.mode else NotReady,
       paused := false,
       workers := MarkAborted(s.workers))
  }

  function DoTrackDirty(s: Sys): Sys {
    if s.mig == Init then s.(mig := Track) else s
  }

  /** A refusal forgets the initialisation but leaves the state file as it is. */
  function DoRestore(s: Sys, triggered: bool): Sys {
    if !CanStart(s.mig) then s else s.(mig := if triggered then Restoring else NotInit)
  }

  function Handle(s: Sys, c: Command): Sys {
    match c
    case CmdInit(fdGiven) => DoInit(s, fdGiven)
    case CmdLive(semOk) => DoLive(s, semOk)
    case CmdNonLive => DoNonLive(s)
    case CmdPause(stopOk) => DoPause(s, stopOk)
    case CmdAbort => DoAbort(s)
    case CmdTrackDirty => DoTrackDirty(s)
    case CmdRestore(triggered) => DoRestore(s, triggered)
    case CmdQuit => s
  }

  // ------------------------------------------------------------------
  // The worker; `out` is what the call returns if the mode allows it

  /** demu_migrate: more to send, all sent, or failed. */
  function PassResult(s: Sys, out: int): int {
    if s.mode != WriteOpened then -1 else out
  }

  function AfterPass(w: Worker, r: int, posted: bool): Worker {
    w.(calls := w.calls + [Passed(r, posted)], result := r,
       pc := if r < 0 then AtCleanup
             else if r > 0 then AtTop
             else if w.stopped then AtFinish
             else AtWait)
  }

  /** One call of migrate_loop. */
  function WorkerNext(s: Sys, w: Worker, out: int): Worker {
    match w.pc
    case AtStart =>
      var ok := s.mode == Closed && out >= 0;
      w.(calls := w.calls + [Started(ok)], result := if ok then 1 else -1, pc := if ok then AtTop else AtCleanup)
    case AtTop =>
      if !w.stopped && out < 0 then w.(result := -1, pc := AtCleanup)
      else w.(stopped := w.stopped || s.sem > 0, pc := AtPass)
    case AtPass => AfterPass(w, PassResult(s, out), s.posted)
    case AtWait => if out < 0 then w.(result := -1, pc := AtCleanup) else w.(stopped := true, pc := AtLastPass)
    case AtLastPass => AfterPass(w, PassResult(s, out), s.posted)
    case AtFinish =>
      var ok := s.mode == WriteOpened && out >= 0;
      w.(calls := w.calls + [Finished(ok)], result := if ok then 0 else -1, pc := AtCleanup)
    case AtCleanup => w.(pc := AtReport)
    case AtReport => w.(pc := AtLeave)
    case AtLeave => w
  }

  /** Waiting blocks while the semaphore is zero. */
  predicate Enabled(s: Sys, w: Worker, out: int) {
    w.pc == AtWait && out >= 0 ==> s.sem > 0
  }

  function ModeNext(s: Sys, w: Worker): Mode {
    match w.pc
    case AtStart => if s.mode == Closed then WriteOpened else s.mode
    case AtFinish => if s.mode == WriteOpened then NotReady else s.mode
    case AtCleanup => NotReady
    case _ => s.mode
  }

  function StepWorker(s: Sys, i: nat, out: int): Sys
    requires i in s.workers && Enabled(s, s.workers[i], out)
  {
    var w := s.workers[i];
    if w.pc == AtLeave then s.(mig := NotInit, paused := false, workers := s.workers - {i})
    else
      s.(mode := ModeNext(s, w),
         sem := if w.pc == AtWait && out >= 0 then s.sem - 1 else s.sem,
         workers := s.workers[i := WorkerNext(s, w, out)],
         reports := if w.pc == AtReport then s.reports + [Report(w.result == 0, w.live, w.calls, w.aborted)]
                    else s.reports)
  }

  /** demu_read_header found the header it expects. */
  function HeaderDone(s: Sys): Sys {
    s.(mode := ReadOpened)
  }

  /** The restore path runs to its end: the state is closed and the outcome reported. */
  function ResumeDone(s: Sys): Sys {
    s.(mig := NotInit, mode := NotReady)
  }

  // ------------------------------------------------------------------
  // Runs

  datatype Step = Command(c: Command) | Work(i: nat, out: int) | HeaderRead | Resumed

  /** A restore reads and ends only where one was begun. */
  predicate StepOk(s: Sys, st: Step) {
    match st
    case Command(_) => true
    case Work(i, out) => i in s.workers && Enabled(s, s.workers[i], out)
    case HeaderRead => s.mig == Restoring && s.mode == Closed
    case Resumed => s.mig == Restoring
  }

  function Next(s: Sys, st: Step): Sys
    requires StepOk(s, st)
  {
    match st
    case Command(c) => Handle(s, c)
    case Work(i, out) => StepWorker(s, i, out)
    case HeaderRead => HeaderDone(s)
    case Resumed => ResumeDone(s)
  }

  ghost predicate RunOk(s: Sys, sts: seq<Step>)
    decreases |sts|
  {
    sts == [] || (StepOk(s, sts[0]) && RunOk(Next(s, sts[0]), sts[1..]))
  }

  function Run(s: Sys, sts: seq<Step>): Sys
    requires RunOk(s, sts)
    decreases |sts|
  {
    if sts == [] then s else Run(Next(s, sts[0]), sts[1..])
  }

  /** The semaphore is static storage and may hold anything. */
  function Initial(sem: nat): Sys {
    Sys(NotInit, false, NotReady, sem, false, map[], 0, [])
  }

  // ------------------------------------------------------------------
  // Invariant

  /** The calls of a session so far: a start, passes that did not fail, perhaps a finish. */
  ghost predicate Passes(calls: seq<Call>) {
    |calls| > 0 && calls[0] == Started(true) && forall k | 1 <= k < |calls| :: calls[k].Passed? && calls[k].r >= 0
  }

  /** The last call was a pass that found nothing more to send, begun after a pause was posted. */
  ghost predicate LastPassFinal(calls: seq<Call>, live: bool) {
    |calls| > 1 && calls[|calls| - 1].Passed? && calls[|calls| - 1].r == 0 && (live ==> calls[|calls| - 1].afterPause)
  }

  /** Start, passes, a final pass after the pause, one finish. */
  ghost predicate GoodSession(calls: seq<Call>, live: bool) {
    && |calls| > 0 && calls[|calls| - 1] == Finished(true)
    && Passes(calls[..|calls| - 1]) && LastPassFinal(calls[..|calls| - 1], live)
  }

  /** What holds of a worker at each point of its loop. */
  ghost predicate WorkerOk(s: Sys, w: Worker) {
    && (w.live ==> s.mig == Live) && (!w.live ==> s.mig == Paused && w.stopped)
    // the state file is the session's, unless an abort closed it
    && (w.pc == AtStart ==> s.mode == Closed || s.mode == NotReady)
    && (BeforeFinish(w.pc) && w.pc != AtStart ==> s.mode == WriteOpened || s.mode == NotReady)
    && (BeforeFinish(w.pc) && w.aborted ==> s.mode == NotReady)
    && (w.pc == AtReport || w.pc == AtLeave ==> s.mode == NotReady)
    && (!BeforeFinish(w.pc) && w.aborted ==> w.result != 0)
    // a stopped live worker has been told to stop
    && (w.live && BeforeFinish(w.pc) && (w.stopped || s.sem > 0) ==> s.posted || w.aborted)
    // the calls made
    && (w.pc == AtStart ==> w.calls == [])
    && (w.pc in {AtTop, AtPass, AtWait, AtLastPass, AtFinish} ==> Passes(w.calls))
    && (w.pc == AtLastPass ==> w.stopped) && (w.pc == AtWait ==> !w.stopped)
    && (w.pc == AtFinish && !w.aborted ==> LastPassFinal(w.calls, w.live))
    && (!BeforeFinish(w.pc) && w.result == 0 ==> GoodSession(w.calls, w.live))
  }

  /** A session begun unpaused never loses a wake-up, and no session loses that of a pause after an
      abort. */
  ghost predicate Woken(s: Sys, w: Worker) {
    && (w.live && w.unpausedStart && BeforeFinish(w.pc) && (s.paused || w.aborted) ==> s.sem > 0 || w.stopped)
    && (w.live && w.aborted && BeforeFinish(w.pc) && s.paused ==> s.sem > 0 || w.stopped)
  }

  ghost predicate ReportOk(r: Report) {
    (r.aborted ==> !r.success) && (r.success ==> GoodSession(r.calls, r.live))
  }

  ghost predicate Inv(s: Sys) {
    // exactly one worker while migrating, none otherwise
    && (s.mig == Live || s.mig == Paused <==> s.workers != map[])
    && (forall i, j | i in s.workers && j in s.workers :: i == j)
    && (forall i | i in s.workers :: i < s.spawned && WorkerOk(s, s.workers[i]) && Woken(s, s.workers[i]))
    && (forall r | r in s.reports :: ReportOk(r))
    && (s.mode == WriteOpened ==> s.mig == Live || s.mig == Paused)
    && (s.mode == ReadOpened ==> s.mig == Restoring)
  }

  /** A session is only begun where there is none. */
  lemma SpawnKeepsInv(s: Sys, live: bool)
    requires Inv(s) && CanStart(s.mig) && (live ==> s.sem == 0) && (!live ==> s.paused)
    ensures Inv(Spawn(s, live))
  {
    var t := Spawn(s, live);
    assert s.workers == map[];
    assert t.workers.Keys == {s.spawned};
    assert s.spawned in t.workers;
  }

  lemma CommandKeepsInv(s: Sys, c: Command)
    requires Inv(s) && !c.CmdAbort?
    ensures Inv(Handle(s, c))
  {
    match c
    case CmdLive(semOk) =>
      if CanStart(s.mig) && semOk {
        SpawnKeepsInv(s.(sem := 0, posted := false), true);
      }
    case CmdNonLive =>
      if CanStart(s.mig) && s.paused {
        SpawnKeepsInv(s, false);
      }
    case _ =>
  }

  lemma AbortKeepsInv(s: Sys)
    requires Inv(s)
    ensures Inv(DoAbort(s))
  {
    var t := DoAbort(s);
    if s.workers != map[] {
      var i :| i in s.workers;
      assert i in t.workers;
    }
  }

  /** A pass extends the history. */
  lemma PassExtends(calls: seq<Call>, r: int, posted: bool, live: bool)
    requires Passes(calls)
    ensures r >= 0 ==> Passes(calls + [Passed(r, posted)])
    ensures r == 0 && (live ==> posted) ==> LastPassFinal(calls + [Passed(r, posted)], live)
  {
  }

  lemma FinishCompletes(calls: seq<Call>, live: bool)
    requires Passes(calls) && LastPassFinal(calls, live)
    ensures GoodSession(calls + [Finished(true)], live)
  {
    var all := calls + [Finished(true)];
    assert all[..|all| - 1] == calls;
  }

  lemma WorkerKeepsOk(s: Sys, i: nat, out: int)
    requires Inv(s) && i in s.workers && Enabled(s, s.workers[i], out) && s.workers[i].pc != AtLeave
    ensures var t := StepWorker(s, i, out); WorkerOk(t, t.workers[i])
  {
    var w := s.workers[i];
    match w.pc
    case AtPass => PassKeepsOk(s, i, out);
    case AtLastPass => PassKeepsOk(s, i, out);
    case AtFinish => FinishKeepsOk(s, i, out);
    case AtStart => StartKeepsOk(s, i, out);
    case _ =>
  }

  lemma StartKeepsOk(s: Sys, i: nat, out: int)
    requires Inv(s) && i in s.workers && s.workers[i].pc == AtStart
    ensures var t := StepWorker(s, i, out); WorkerOk(t, t.workers[i])
  {
  }

  lemma FinishKeepsOk(s: Sys, i: nat, out: int)
    requires Inv(s) && i in s.workers && s.workers[i].pc == AtFinish
    ensures var t := StepWorker(s, i, out); WorkerOk(t, t.workers[i])
  {
    var w := s.workers[i];
    if s.mode == WriteOpened && out >= 0 {
      FinishCompletes(w.calls, w.live);
    }
  }

  lemma PassKeepsOk(s: Sys, i: nat, out: int)
    requires Inv(s) && i in s.workers && (s.workers[i].pc == AtPass || s.workers[i].pc == AtLastPass)
    ensures var t := StepWorker(s, i, out); WorkerOk(t, t.workers[i])
  {
    var w := s.workers[i];
    PassExtends(w.calls, PassResult(s, out), s.posted, w.live);
  }

  lemma WorkerKeepsWoken(s: Sys, i: nat, out: int)
    requires Inv(s) && i in s.workers && Enabled(s, s.workers[i], out) && s.workers[i].pc != AtLeave
    ensures var t := StepWorker(s, i, out); Woken(t, t.workers[i])
  {
  }

  lemma WorkKeepsInv(s: Sys, i: nat, out: int)
    requires Inv(s) && i in s.workers && Enabled(s, s.workers[i], out)
    ensures Inv(StepWorker(s, i, out))
  {
    var t := StepWorker(s, i, out);
    if s.workers[i].pc == AtLeave {
      assert t.workers == map[];
    } else {
      WorkerKeepsOk(s, i, out);
      WorkerKeepsWoken(s, i, out);
      assert i in t.workers;
    }
  }

  lemma NextKeepsInv(s: Sys, st: Step)
    requires Inv(s) && StepOk(s, st)
    ensures Inv(Next(s, st))
  {
    match st
    case Command(c) =>
      if c.CmdAbort? {
        AbortKeepsInv(s);
      } else {
        CommandKeepsInv(s, c);
      }
    case Work(i, out) => WorkKeepsInv(s, i, out);
    case HeaderRead =>
    case Resumed =>
  }

  lemma {:induction false} RunKeepsInv(s: Sys, sts: seq<Step>)
    requires Inv(s) && RunOk(s, sts)
    ensures Inv(Run(s, sts))
    decreases |sts|
  {
    if sts != [] {
      NextKeepsInv(s, sts[0]);
      RunKeepsInv(Next(s, sts[0]), sts[1..]);
    }
  }

  // ------------------------------------------------------------------
  // What every run keeps

  /** At most one worker exists, and one exists exactly while the state says migrating. */
  lemma OneWorker(sem: nat, sts: seq<Step>)
    requires RunOk(Initial(sem), sts)
    ensures var s := Run(Initial(sem), sts);
      && (s.mig == Live || s.mig == Paused <==> s.workers != map[])
      && (forall i, j | i in s.workers && j in s.workers :: i == j)
  {
    RunKeepsInv(Initial(sem), sts);
  }

  /** An abort handled before the worker's finishing call ends in a reported failure. */
  lemma AbortIsReported(sem: nat, sts: seq<Step>)
    requires RunOk(Initial(sem), sts)
    ensures forall r | r in Run(Initial(sem), sts).reports && r.aborted :: !r.success
  {
    RunKeepsInv(Initial(sem), sts);
  }

  /** Every reported success is a session whose start and passes all succeeded, whose last pass
      found nothing more to send and, in a live session, began after a pause was posted, and
      which then wrote exactly one close. */
  lemma SuccessIsComplete(sem: nat, sts: seq<Step>)
    requires RunOk(Initial(sem), sts)
    ensures forall r | r in Run(Initial(sem), sts).reports && r.success :: GoodSession(r.calls, r.live)
  {
    RunKeepsInv(Initial(sem), sts);
  }

  // ------------------------------------------------------------------
  // Ending after an abort

  /** Calls an aborted worker can still make. */
  function Remaining(w: Worker): nat {
    match w.pc
    case AtStart => 4
    case AtTop => 5
    case AtPass => 4
    case AtWait => 5
    case AtLastPass => 4
    case AtFinish => 4
    case AtCleanup => 3
    case AtReport => 2
    case AtLeave => 1
  }

  lemma AbortedStep(s: Sys, i: nat, out: int)
    requires Inv(s) && i in s.workers && s.workers[i].aborted && (s.workers[i].live ==> s.workers[i].unpausedStart)
    ensures Enabled(s, s.workers[i], out)
    ensures var t := StepWorker(s, i, out);
        i in t.workers ==> t.workers[i].aborted && Remaining(t.workers[i]) < Remaining(s.workers[i])
  {
  }

  /** In a session begun unpaused, an aborted worker is never blocked, and each of its own calls
      brings it closer to its end, whatever the calls return. */
  lemma AbortedEnds(sem: nat, sts: seq<Step>, i: nat, out: int)
    requires RunOk(Initial(sem), sts)
    requires var s := Run(Initial(sem), sts);
      i in s.workers && s.workers[i].aborted && (s.workers[i].live ==> s.workers[i].unpausedStart)
    ensures var s := Run(Initial(sem), sts);
      && Enabled(s, s.workers[i], out)
      && var t := StepWorker(s, i, out);
         i in t.workers ==> t.workers[i].aborted && Remaining(t.workers[i]) < Remaining(s.workers[i])
  {
    RunKeepsInv(Initial(sem), sts);
    AbortedStep(Run(Initial(sem), sts), i, out);
  }

  /** Other steps do not set it back. */
  lemma OthersKeepRemaining(s: Sys, st: Step, i: nat)
    requires Inv(s) && StepOk(s, st) && i in s.workers && s.workers[i].aborted && (st.Work? ==> st.i != i)
    ensures i in Next(s, st).workers && Remaining(Next(s, st).workers[i]) == Remaining(s.workers[i])
    ensures Next(s, st).workers[i].aborted && Next(s, st).workers[i].unpausedStart == s.workers[i].unpausedStart
  {
  }

  /** Calls worker i makes in a run. */
  function WorkCount(sts: seq<Step>, i: nat): nat {
    if sts == [] then 0 else (if sts[0].Work? && sts[0].i == i then 1 else 0) + WorkCount(sts[1..], i)
  }

  lemma GoneStep(s: Sys, st: Step, i: nat)
    requires Inv(s) && StepOk(s, st) && i !in s.workers && i < s.spawned
    ensures i !in Next(s, st).workers && i < Next(s, st).spawned && !(st.Work? && st.i == i)
  {
  }

  /** A worker that has left is never seen again. */
  lemma {:induction false} GoneStays(s: Sys, sts: seq<Step>, i: nat)
    requires Inv(s) && RunOk(s, sts) && i !in s.workers && i < s.spawned
    ensures i !in Run(s, sts).workers && WorkCount(sts, i) == 0
    decreases |sts|
  {
    if sts != [] {
      NextKeepsInv(s, sts[0]);
      GoneStep(s, sts[0], i);
      GoneStays(Next(s, sts[0]), sts[1..], i);
    }
  }

  lemma {:induction false} AbortedRun(s: Sys, sts: seq<Step>, i: nat)
    requires Inv(s) && RunOk(s, sts) && i in s.workers && s.workers[i].aborted
    requires s.workers[i].live ==> s.workers[i].unpausedStart
    ensures var t := Run(s, sts);
      if i in t.workers then
        WorkCount(sts, i) + Remaining(t.workers[i]) <= Remaining(s.workers[i])
        && forall out :: Enabled(t, t.workers[i], out)
      else WorkCount(sts, i) <= Remaining(s.workers[i])
    decreases |sts|
  {
    if sts != [] {
      var next := Next(s, sts[0]);
      NextKeepsInv(s, sts[0]);
      if sts[0].Work? && sts[0].i == i {
        AbortedStep(s, i, sts[0].out);
        if i in next.workers {
          AbortedRun(next, sts[1..], i);
        } else {
          GoneStays(next, sts[1..], i);
        }
      } else {
        OthersKeepRemaining(s, sts[0], i);
        AbortedRun(next, sts[1..], i);
      }
    }
  }

  /** In a session begun unpaused, or not live, an aborted worker is never blocked and is gone once it
      has made as many calls as remained to it, at most five, whatever they return and whatever commands
      come between them. */
  lemma AbortedRunEnds(sem: nat, before: seq<Step>, after: seq<Step>, i: nat)
    requires RunOk(Initial(sem), before) && RunOk(Run(Initial(sem), before), after)
    requires var s := Run(Initial(sem), before);
      i in s.workers && s.workers[i].aborted && (s.workers[i].live ==> s.workers[i].unpausedStart)
    ensures var s := Run(Initial(sem), before);
      var t := Run(s, after);
      && Remaining(s.workers[i]) <= 5
      && (i in t.workers ==>
          WorkCount(after, i) < Remaining(s.workers[i])
          && forall out :: Enabled(t, t.workers[i], out))
      && (WorkCount(after, i) == Remaining(s.workers[i]) ==> i !in t.workers)
  {
    RunKeepsInv(Initial(sem), before);
    AbortedRun(Run(Initial(sem), before), after, i);
  }

  // ------------------------------------------------------------------
  // A session begun while paused

  /** The worker waits for a pause, aborted, and no pause is posted. */
  ghost predicate Blocked(s: Sys, i: nat) {
    i in s.workers && s.workers[i].aborted && s.workers[i].pc == AtWait && s.sem == 0
  }

  /** A live session begun while already paused loses the pause's post to the re-initialised semaphore:
      from every such state an abort leaves its worker waiting. */
  lemma PausedStartCanBlock(s: Sys)
    requires Inv(s) && CanStart(s.mig) && s.paused && s.mode == Closed
    ensures var sts := [Command(CmdLive(true)), Work(s.spawned, 0), Work(s.spawned, 0), Work(s.spawned, 0),
                        Command(CmdAbort)];
            RunOk(s, sts) && Blocked(Run(s, sts), s.spawned)
  {
    var i := s.spawned;
    var s1 := Next(s, Command(CmdLive(true)));
    LivePaused(s);
    ToTop(s1, i);
    var s2 := Next(s1, Work(i, 0));
    ToPass(s2, i);
    var s3 := Next(s2, Work(i, 0));
    ToWait(s3, i);
    var s4 := Next(s3, Work(i, 0));
    AbortWhileWaiting(s4, i);
    RunOfFive(s, Command(CmdLive(true)), s1, Work(i, 0), s2, Work(i, 0), s3, Work(i, 0), s4, Command(CmdAbort));
  }

  /** Worker i of a session begun paused, on its way to the wait. */
  ghost predicate OnItsWay(s: Sys, i: nat, pc: Pc, mode: Mode) {
    && s.paused && s.sem == 0 && s.mode == mode
    && i in s.workers && s.workers[i].pc == pc && !s.workers[i].stopped
  }

  lemma LivePaused(s: Sys)
    requires Inv(s) && CanStart(s.mig) && s.paused && s.mode == Closed
    ensures OnItsWay(Next(s, Command(CmdLive(true))), s.spawned, AtStart, Closed)
  {
  }

  lemma ToTop(s: Sys, i: nat)
    requires OnItsWay(s, i, AtStart, Closed)
    ensures StepOk(s, Work(i, 0)) && OnItsWay(Next(s, Work(i, 0)), i, AtTop, WriteOpened)
  {
  }

  lemma ToPass(s: Sys, i: nat)
    requires OnItsWay(s, i, AtTop, WriteOpened)
    ensures StepOk(s, Work(i, 0)) && OnItsWay(Next(s, Work(i, 0)), i, AtPass, WriteOpened)
  {
  }

  lemma ToWait(s: Sys, i: nat)
    requires OnItsWay(s, i, AtPass, WriteOpened)
    ensures StepOk(s, Work(i, 0)) && OnItsWay(Next(s, Work(i, 0)), i, AtWait, WriteOpened)
  {
  }

  lemma AbortWhileWaiting(s: Sys, i: nat)
    requires OnItsWay(s, i, AtWait, WriteOpened)
    ensures Blocked(Next(s, Command(CmdAbort)), i)
  {
  }

  lemma RunOfFive(s: Sys, a: Step, s1: Sys, b: Step, s2: Sys, c: Step, s3: Sys, d: Step, s4: Sys, e: Step)
    requires StepOk(s, a) && s1 == Next(s, a) && StepOk(s1, b) && s2 == Next(s1, b) && StepOk(s2, c)
    requires s3 == Next(s2, c)
    requires StepOk(s3, d) && s4 == Next(s3, d) && StepOk(s4, e)
    ensures RunOk(s, [a, b, c, d, e]) && Run(s, [a, b, c, d, e]) == Next(s4, e)
  {
    var sts := [a, b, c, d, e];
    RunUnfolds(s, sts, s1);
    RunUnfolds(s1, sts[1..], s2);
    RunUnfolds(s2, sts[2..], s3);
    RunUnfolds(s3, sts[3..], s4);
    RunUnfolds(s4, sts[4..], Next(s4, e));
    assert sts[1..][1..] == sts[2..] && sts[2..][1..] == sts[3..] && sts[3..][1..] == sts[4..] && sts[4..][1..] == [];
  }

  lemma RunUnfolds(s: Sys, sts: seq<Step>, t: Sys)
    requires sts != [] && StepOk(s, sts[0]) && t == Next(s, sts[0])
    ensures RunOk(s, sts) <==> RunOk(t, sts[1..])
    ensures RunOk(s, sts) ==> Run(s, sts) == Run(t, sts[1..])
  {
  }

  /** Only such a session can: a blocked aborted worker was started paused. */
  lemma BlockedMeansPausedStart(s: Sys, i: nat, out: int)
    requires Inv(s) && i in s.workers && s.workers[i].aborted && !Enabled(s, s.workers[i], out)
    ensures Blocked(s, i) && s.workers[i].live && !s.workers[i].unpausedStart
  {
  }

  /** What ends the wait: a second abort, a pause, whether or not the I/O server stops, or the wait
      itself failing. */
  predicate Wakes(st: Step) {
    st == Command(CmdAbort) || (st.Command? && st.c.CmdPause?) || (st.Work? && st.out < 0)
  }

  /** Exactly these do, and every other step leaves the worker blocked. */
  lemma BlockedStep(s: Sys, i: nat, st: Step)
    requires Inv(s) && Blocked(s, i) && StepOk(s, st)
    ensures Blocked(Next(s, st), i) <==> !Wakes(st)
    ensures Wakes(st) ==> i in Next(s, st).workers && forall out :: Enabled(Next(s, st), Next(s, st).workers[i], out)
  {
  }

  ghost predicate NothingWakes(sts: seq<Step>) {
    forall st | st in sts :: !Wakes(st)
  }

  /** A blocked worker stays so exactly as long as no second abort and no pause arrives and its wait
      does not fail. */
  lemma {:induction false} BlockedUntilWoken(s: Sys, i: nat, sts: seq<Step>, st: Step)
    requires Inv(s) && Blocked(s, i) && RunOk(s, sts) && NothingWakes(sts) && StepOk(Run(s, sts), st)
    ensures Blocked(Run(s, sts), i) && (Blocked(Next(Run(s, sts), st), i) <==> !Wakes(st))
    decreases |sts|
  {
    if sts == [] {
      BlockedStep(s, i, st);
    } else {
      assert sts[0] in sts;
      BlockedStep(s, i, sts[0]);
      NextKeepsInv(s, sts[0]);
      BlockedUntilWoken(Next(s, sts[0]), i, sts[1..], st);
    }
  }

  // ------------------------------------------------------------------
  // A refused restore

  /** No session in progress, but the state file still held open. */
  predicate Wedged(s: Sys) {
    s.mig == NotInit && s.mode == Closed && s.workers == map[]
  }

  /** The step is a restore refused where one could have begun. */
  predicate RefusesRestore(s: Sys, st: Step) {
    st == Command(CmdRestore(false)) && CanStart(s.mig) && s.mode == Closed
  }

  ghost predicate EverRefused(s: Sys, sts: seq<Step>)
    requires RunOk(s, sts)
    decreases |sts|
  {
    sts != [] && (RefusesRestore(s, sts[0]) || EverRefused(Next(s, sts[0]), sts[1..]))
  }

  /** Idle, the state file is not in use. */
  predicate FileFree(s: Sys) {
    s.mig == NotInit ==> s.mode == NotReady
  }

  lemma NextKeepsFree(s: Sys, st: Step)
    requires Inv(s) && FileFree(s) && StepOk(s, st)
    ensures if RefusesRestore(s, st) then Wedged(Next(s, st)) else FileFree(Next(s, st))
  {
  }

  lemma {:induction false} WedgedForever(s: Sys, sts: seq<Step>)
    requires Wedged(s) && RunOk(s, sts)
    ensures Wedged(Run(s, sts))
    decreases |sts|
  {
    if sts != [] {
      assert Wedged(Next(s, sts[0])) by {
        assert MarkAborted(map[]) == map[];
      }
      WedgedForever(Next(s, sts[0]), sts[1..]);
    }
  }

  lemma {:induction false} WedgedExactly(s: Sys, sts: seq<Step>)
    requires Inv(s) && FileFree(s) && RunOk(s, sts)
    ensures Wedged(Run(s, sts)) <==> EverRefused(s, sts)
    ensures !EverRefused(s, sts) ==> FileFree(Run(s, sts))
    decreases |sts|
  {
    if sts != [] {
      NextKeepsFree(s, sts[0]);
      NextKeepsInv(s, sts[0]);
      if RefusesRestore(s, sts[0]) {
        WedgedForever(Next(s, sts[0]), sts[1..]);
      } else {
        WedgedExactly(Next(s, sts[0]), sts[1..]);
      }
    }
  }

  /** After any run from start-up the state file is held with no session in progress, so that no session
      can ever be initialised again, exactly if the run held a restore refused where one could have
      begun; in every other run an idle system has its file free. */
  lemma RefusedRestoreWedges(sem: nat, sts: seq<Step>)
    requires RunOk(Initial(sem), sts)
    ensures var s := Run(Initial(sem), sts);
      && (Wedged(s) <==> EverRefused(Initial(sem), sts))
      && (!EverRefused(Initial(sem), sts) && s.mig == NotInit ==> s.mode == NotReady)
  {
    WedgedExactly(Initial(sem), sts);
  }

  /** From there on whatever happens leaves it so. */
  lemma WedgedStays(sem: nat, before: seq<Step>, after: seq<Step>)
    requires RunOk(Initial(sem), before) && EverRefused(Initial(sem), before) && RunOk(Run(Initial(sem), before), after)
    ensures Wedged(Run(Run(Initial(sem), before), after))
  {
    RefusedRestoreWedges(sem, before);
    WedgedForever(Run(Initial(sem), before), after);
  }

  // ------------------------------------------------------------------
  // The handlers in place

  /** runstate, the state file's mode and the semaphore; the workers and their history are the
      rest of the process. */
  class Control {
    var mig: Mig
    var paused: bool
    var mode: Mode
    var sem: nat
    ghost var posted: bool
    ghost var workers: map<nat, Worker>
    ghost var spawned: nat
    ghost var reports: seq<Report>

    ghost function State(): Sys
      reads this
    {
      Sys(mig, paused, mode, sem, posted, workers, spawned, reports)
    }

    constructor ()
      ensures State() == Initial(0)
    {
      mig, paused, mode, sem := NotInit, false, NotReady, 0;
      posted, workers, spawned, reports := false, map[], 0, [];
    }

    /** do_migrate_init and demu_init_migrate */
    method MigrateInit(fd: int) returns (ok: bool)
      modifies this
      ensures State() == Handle(old(State()), CmdInit(fd >= 0)) && (ok <==> State() != old(State()))
    {
      if fd < 0 || mig != NotInit {
        return false;
      }
      mig := Init;
      if mode != NotReady {
        mig := NotInit;
        return false;
      }
      mode := Closed;
      ok := true;
    }

    method CheckMig() returns (ok: bool)
      ensures ok <==> CanStart(mig)
    {
      ok := mig != NotInit && mig != Live && mig != Paused && mig != Restoring;
    }

    ghost method StartWorker(live: bool)
      modifies this`workers, this`spawned
      ensures workers == old(workers)[old(spawned) := Worker(AtStart, live, !live, 0, [], false, !paused)]
      ensures spawned == old(spawned) + 1
    {
      workers := workers[spawned := Worker(AtStart, live, !live, 0, [], false, !paused)];
      spawned := spawned + 1;
    }

    /** do_migrate_live, up to the unlock */
    method MigrateLive(semOk: bool)
      modifies this
      ensures State() == Handle(old(State()), CmdLive(semOk))
    {
      var ok := CheckMig();
      if !ok || !semOk {
        return;
      }
      sem := 0;
      posted := false;
      mig := Live;
      StartWorker(true);
    }

    /** do_migrate_nonlive, up to the unlock */
    method MigrateNonLive()
      modifies this
      ensures State() == Handle(old(State()), CmdNonLive)
    {
      var ok := CheckMig();
      if !ok || !paused {
        return;
      }
      mig := Paused;
      StartWorker(false);
    }

    method MigratePause(stopOk: bool) returns (ok: bool)
      modifies this
      ensures State() == Handle(old(State()), CmdPause(stopOk)) && ok == (!old(paused) && stopOk)
    {
      if paused {
        return false;
      }
      paused := true;
      sem := sem + 1;
      posted := true;
      ok := stopOk;
    }

    /** do_mig_abort; handled whole, so the abort flag it raises is down again when it returns */
    method MigrateAbort() returns (ok: bool)
      modifies this
      ensures State() == Handle(old(State()), CmdAbort) && ok == (old(mig) != NotInit)
    {
      if mig == Live && !paused {
        sem := sem + 1;
      }
      if mig != NotInit && mig != Init {
        mode := NotReady;
      }
      paused := false;
      workers := MarkAborted(workers);
      ok := mig != NotInit;
    }

    method TrackDirty() returns (ok: bool)
      modifies this
      ensures State() == Handle(old(State()), CmdTrackDirty) && (ok <==> CanStart(old(mig)))
    {
      ok := CheckMig();
      if mig == Init {
        mig := Track;
      }
    }

    method Restore(triggered: bool) returns (ok: bool)
      modifies this
      ensures State() == Handle(old(State()), CmdRestore(triggered)) && (ok <==> CanStart(old(mig)) && triggered)
    {
      ok := CheckMig();
      if !ok {
        return;
      }
      mig := Restoring;
      if !triggered {
        mig := NotInit;
        ok := false;
      }
    }
  }
}
