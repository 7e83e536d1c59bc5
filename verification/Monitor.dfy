/** The re-entrant monitor of vmiop-env.c. Its two-variable test is made without the lock; every
    read and write of the shared variables is a step of its own here, interleaved at will. */
module Monitor {
  type Tid = nat

  /** Where a thread is: idle, or about to make the next access of enter or leave. */
  datatype Pc =
    | Idle
    | EnterReadHeld | EnterReadHolder | EnterLock | EnterSetHolder | EnterSetHeld
    | LeaveReadHeld | LeaveReadHolder | LeaveClearHeld | LeaveUnlock

  datatype Call = Enter | Leave

  /** What a finished call reported through in_monitor. */
  datatype Answer = Answer(t: Tid, call: Call, inMonitor: bool, owned: bool)

  /** `inside`: threads whose last call left them in the monitor. `answers` records, beside each
      report, whether the caller owned the mutex when its call began. */
  datatype Shared = Shared(held: bool, holder: Tid, owner: set<Tid>, pcs: map<Tid, Pc>, began: map<Tid, bool>,
                           inside: set<Tid>, answers: seq<Answer>)

  function PcOf(s: Shared, t: Tid): Pc {
    if t in s.pcs then s.pcs[t] else Idle
  }

  function At(s: Shared, t: Tid, pc: Pc): Shared {
    s.(pcs := s.pcs[t := pc])
  }

  function Owns(s: Shared, t: Tid): bool {
    t in s.owner
  }

  function Began(s: Shared, t: Tid): bool {
    t in s.began && s.began[t]
  }

  function Return(s: Shared, t: Tid, call: Call, inMonitor: bool): Shared {
    At(s, t, Idle).(inside := if call == Enter then s.inside + {t} else s.inside - {t},
                    answers := s.answers + [Answer(t, call, inMonitor, Began(s, t))])
  }

  /** One access by thread t; `call` matters only to an idle thread. */
  function Step(s: Shared, t: Tid, call: Call): Shared {
    match PcOf(s, t)
    case Idle => At(s, t, if call == Enter then EnterReadHeld else LeaveReadHeld).(began := s.began[t := Owns(s, t)])
    case EnterReadHeld => At(s, t, if s.held then EnterReadHolder else EnterLock)
    case EnterReadHolder => if s.holder == t then Return(s, t, Enter, true) else At(s, t, EnterLock)
    case EnterLock => At(s, t, EnterSetHolder).(owner := {t})
    case EnterSetHolder => At(s, t, EnterSetHeld).(holder := t)
    case EnterSetHeld => Return(s.(held := true), t, Enter, false)
    case LeaveReadHeld => if s.held then At(s, t, LeaveReadHolder) else Return(s, t, Leave, false)
    case LeaveReadHolder => if s.holder == t then At(s, t, LeaveClearHeld) else Return(s, t, Leave, false)
    case LeaveClearHeld => At(s.(held := false), t, LeaveUnlock)
    case LeaveUnlock => Return(s.(owner := s.owner - {t}), t, Leave, true)
  }

  /** Taking the mutex waits for it to be free. */
  predicate Enabled(s: Shared, t: Tid) {
    PcOf(s, t) == EnterLock ==> s.owner == {}
  }

  datatype Turn = Turn(t: Tid, call: Call)

  ghost predicate RunOk(s: Shared, ts: seq<Turn>)
    decreases |ts|
  {
    ts == [] || (Enabled(s, ts[0].t) && RunOk(Step(s, ts[0].t, ts[0].call), ts[1..]))
  }

  function Run(s: Shared, ts: seq<Turn>): Shared
    decreases |ts|
  {
    if ts == [] then s else Run(Step(s, ts[0].t, ts[0].call), ts[1..])
  }

  function Initial(holder: Tid): Shared {
    Shared(false, holder, {}, map[], map[], {}, [])
  }

  // ------------------------------------------------------------------
  // Invariant

  /** Between taking the mutex and saying so, or between saying it is free and freeing it. */
  predicate InTransit(pc: Pc) {
    pc == EnterSetHolder || pc == EnterSetHeld || pc == LeaveUnlock
  }

  ghost predicate ThreadOk(s: Shared, t: Tid) {
    var pc := PcOf(s, t);
    // an owner, once settled, is what the two variables say
    && (Owns(s, t) && !InTransit(pc) ==> s.held && s.holder == t)
    && (InTransit(pc) ==> Owns(s, t) && !s.held)
    && (pc == EnterSetHeld ==> s.holder == t)
    && (pc == LeaveClearHeld ==> Owns(s, t))
    && (pc == EnterLock ==> !Owns(s, t))
    // having seen the monitor held by another, a thread cannot then see itself as holder
    && ((pc == EnterReadHolder || pc == LeaveReadHolder) && !Owns(s, t) ==> s.holder != t)
    // what a call began with, and what the last one left
    && (pc in {EnterReadHeld, EnterReadHolder, LeaveReadHeld, LeaveReadHolder} ==> Began(s, t) == Owns(s, t))
    && (pc in {EnterLock, EnterSetHolder, EnterSetHeld} ==> !Began(s, t))
    && (pc == LeaveClearHeld || pc == LeaveUnlock ==> Began(s, t))
    && (pc == Idle ==> (t in s.inside <==> Owns(s, t)))
  }

  ghost predicate Inv(s: Shared) {
    && (s.held ==> s.owner == {s.holder})
    && (forall t, u | t in s.owner && u in s.owner :: t == u)
    && (forall t :: ThreadOk(s, t))
    && (forall a | a in s.answers :: a.inMonitor == a.owned)
  }

  lemma SelfKept(s: Shared, t: Tid, call: Call)
    requires Inv(s) && Enabled(s, t)
    ensures ThreadOk(Step(s, t, call), t)
  {
    assert ThreadOk(s, t);
  }

  lemma OtherKept(s: Shared, t: Tid, call: Call, u: Tid)
    requires Inv(s) && Enabled(s, t) && u != t
    ensures ThreadOk(Step(s, t, call), u)
  {
    assert ThreadOk(s, t) && ThreadOk(s, u);
  }

  lemma SharedKept(s: Shared, t: Tid, call: Call)
    requires Inv(s) && Enabled(s, t)
    ensures var r := Step(s, t, call);
      && (r.held ==> r.owner == {r.holder})
      && (forall u, v | u in r.owner && v in r.owner :: u == v)
      && (forall a | a in r.answers :: a.inMonitor == a.owned)
  {
    assert ThreadOk(s, t);
  }

  lemma StepKeepsInv(s: Shared, t: Tid, call: Call)
    requires Inv(s) && Enabled(s, t)
    ensures Inv(Step(s, t, call))
  {
    var r := Step(s, t, call);
    SharedKept(s, t, call);
    forall u
      ensures ThreadOk(r, u)
    {
      if u == t {
        SelfKept(s, t, call);
      } else {
        OtherKept(s, t, call, u);
      }
    }
  }

  lemma {:induction false} RunKeepsInv(s: Shared, ts: seq<Turn>)
    requires Inv(s) && RunOk(s, ts)
    ensures Inv(Run(s, ts))
    decreases |ts|
  {
    if ts != [] {
      StepKeepsInv(s, ts[0].t, ts[0].call);
      RunKeepsInv(Step(s, ts[0].t, ts[0].call), ts[1..]);
    }
  }

  // ------------------------------------------------------------------
  // What every interleaving keeps

  /** For a thread not in transit, the unlocked test is true exactly when it owns the mutex; and
      the two reads made separately decide the same: a thread that has seen held finds itself
      the holder exactly when it owns the mutex. */
  lemma TestIsExact(holder: Tid, ts: seq<Turn>, t: Tid)
    requires RunOk(Initial(holder), ts)
    ensures var s := Run(Initial(holder), ts);
      && (!InTransit(PcOf(s, t)) ==> (s.held && s.holder == t <==> Owns(s, t)))
      && (PcOf(s, t) == EnterReadHolder || PcOf(s, t) == LeaveReadHolder ==> (s.holder == t <==> Owns(s, t)))
  {
    RunKeepsInv(Initial(holder), ts);
    assert ThreadOk(Run(Initial(holder), ts), t);
  }

  /** A thread never waits for a mutex it owns, and never releases one it does not own. */
  lemma OwnLocksOnly(holder: Tid, ts: seq<Turn>, t: Tid)
    requires RunOk(Initial(holder), ts)
    ensures var s := Run(Initial(holder), ts);
      && (PcOf(s, t) == EnterLock ==> !Owns(s, t))
      && (PcOf(s, t) == LeaveUnlock ==> s.owner == {t})
  {
    RunKeepsInv(Initial(holder), ts);
    assert ThreadOk(Run(Initial(holder), ts), t);
  }

  /** At most one idle thread is inside, and it owns the mutex; every report says whether the
      caller was in the monitor when it called. */
  lemma MutualExclusion(holder: Tid, ts: seq<Turn>, t: Tid, u: Tid)
    requires RunOk(Initial(holder), ts)
    requires var s := Run(Initial(holder), ts);
        PcOf(s, t) == Idle && PcOf(s, u) == Idle && t in s.inside && u in s.inside
    ensures t == u && Run(Initial(holder), ts).owner == {t}
  {
    RunKeepsInv(Initial(holder), ts);
    assert ThreadOk(Run(Initial(holder), ts), t) && ThreadOk(Run(Initial(holder), ts), u);
  }

  lemma ReportsAreTrue(holder: Tid, ts: seq<Turn>)
    requires RunOk(Initial(holder), ts)
    ensures forall a | a in Run(Initial(holder), ts).answers :: a.inMonitor == a.owned
  {
    RunKeepsInv(Initial(holder), ts);
  }

  // ------------------------------------------------------------------
  // The two routines, run without interference

  class Lock {
    var held: bool
    var holder: Tid
    var owner: set<Tid>

    /** No call in progress. */
    ghost predicate Settled()
      reads this
    {
      if held then owner == {holder} else owner == {}
    }

    constructor (holder: Tid)
      ensures Settled() && owner == {}
    {
      held, this.holder, owner := false, holder, {};
    }

    /** vmiope_enter_monitor; the mutex must be free or the caller's. */
    method EnterMonitor(self: Tid) returns (inMonitor: bool)
      requires Settled() && (owner == {} || owner == {self})
      modifies this
      ensures Settled() && owner == {self} && inMonitor == (old(owner) == {self})
    {
      if held && holder == self {
        inMonitor := true;
      } else {
        owner := {self};
        holder := self;
        held := true;
        inMonitor := false;
      }
    }

    /** vmiope_leave_monitor */
    method LeaveMonitor(self: Tid) returns (inMonitor: bool)
      requires Settled()
      modifies this
      ensures Settled() && owner == old(owner) - {self} && inMonitor == (self in old(owner))
    {
      if held && holder == self {
        held := false;
        owner := owner - {self};
        inMonitor := true;
      } else {
        inMonitor := false;
      }
    }
  }
}
