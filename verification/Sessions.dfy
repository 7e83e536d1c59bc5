/** What a reported success means for the stream: the worker's calls beside the writes they make. */
module Sessions {
  import opened VgaRegs
  import opened Bytes
  import opened Ports
  import opened VgaDump
  import opened Device
  import opened DumpRuns
  import opened Stream
  import opened SavedState
  import M = Migration

  /** One call of the worker: its result, what it handed to the writer and how the kernel answered. */
  datatype Part = Part(call: M.Call, data: seq<Bytes>, answers: seq<Answer>)

  predicate Succeeded(call: M.Call) {
    match call
    case Started(ok) => ok
    case Passed(r, _) => r >= 0
    case Finished(ok) => ok
  }

  /** A call succeeds only if all its writes do, the finishing call only if its flush does too. */
  ghost predicate Honest(w: Writer, parts: seq<Part>, a: Answer)
    decreases |parts|
  {
    parts == [] ||
    var (p, rest) := (parts[0], parts[1..]);
    && |p.data| == |p.answers|
    && (Succeeded(p.call) ==> AllWritten(w, p.data, p.answers))
    && (p.call == M.Finished(true) ==> Write(AfterWrites(w, p.data, p.answers), [], a).1)
    && Honest(AfterWrites(w, p.data, p.answers), rest, a)
  }

  /** Each pass writes its records, and says whether the plugin had something to send. */
  ghost predicate PassParts(s: Saver, hs: seq<Happening>, parts: seq<Part>)
    requires SavingOk(s, hs)
    decreases |hs|
  {
    if hs == [] then parts == []
    else
      match hs[0]
      case Device(op) => PassParts(AfterOp(s, op), hs[1..], parts)
      case Pass(vm) =>
        && parts != [] && parts[0].call.Passed? && PassWrites(s, vm, parts[0])
        && PassParts(AfterPass(s), hs[1..], parts[1..])
  }

  ghost predicate PassWrites(s: Saver, vm: Bytes, p: Part)
    requires p.call.Passed?
  {
    p.call.r >= 0 ==>
      && (forall r | r in PassRecords(s, vm) :: Fits(r)) && p.data == Encoded(PassRecords(s, vm))
      && (p.call.r == 0 <==> vm == [])
  }

  /** A start writes the header, passes write their records, a finish writes the close. */
  ghost predicate Wrote(v: Vga, hs: seq<Happening>, first: Part, passes: seq<Part>, last: Part)
    requires SavingOk(Started(v), hs)
  {
    && first.data == [HEADER] && PassParts(Started(v), hs, passes) && last.data == [Encode(CLOSE)]
  }

  function Calls(parts: seq<Part>): (calls: seq<M.Call>)
    ensures |calls| == |parts|
  {
    if parts == [] then [] else [parts[0].call] + Calls(parts[1..])
  }

  function Data(parts: seq<Part>): seq<Bytes> {
    if parts == [] then [] else parts[0].data + Data(parts[1..])
  }

  function Answers(parts: seq<Part>): seq<Answer> {
    if parts == [] then [] else parts[0].answers + Answers(parts[1..])
  }

  lemma {:induction false} WrittenOn(w: Writer, c: seq<Bytes>, x: seq<Answer>, d: seq<Bytes>, y: seq<Answer>)
    requires |c| == |x| && |d| == |y| && AllWritten(w, c, x) && AllWritten(AfterWrites(w, c, x), d, y)
    ensures AllWritten(w, c + d, x + y) && AfterWrites(w, c + d, x + y) == AfterWrites(AfterWrites(w, c, x), d, y)
    decreases |c|
  {
    if c == [] {
      assert c + d == d && x + y == y;
    } else {
      assert (c + d)[0] == c[0] && (c + d)[1..] == c[1..] + d && (x + y)[0] == x[0] && (x + y)[1..] == x[1..] + y;
      WrittenOn(Write(w, c[0], x[0]).0, c[1..], x[1..], d, y);
    }
  }

  /** If all calls succeeded, all their writes did, one after the other. */
  lemma {:induction false} HonestWritten(w: Writer, parts: seq<Part>, a: Answer)
    requires Honest(w, parts, a) && forall p | p in parts :: Succeeded(p.call)
    ensures |Data(parts)| == |Answers(parts)| && AllWritten(w, Data(parts), Answers(parts))
    ensures parts != [] && parts[|parts| - 1].call == M.Finished(true) ==>
              Write(AfterWrites(w, Data(parts), Answers(parts)), [], a).1
    decreases |parts|
  {
    if parts != [] {
      var (p, rest) := (parts[0], parts[1..]);
      var v := AfterWrites(w, p.data, p.answers);
      HonestWritten(v, rest, a);
      WrittenOn(w, p.data, p.answers, Data(rest), Answers(rest));
      if rest == [] {
        assert p.data + Data(rest) == p.data && p.answers + Answers(rest) == p.answers;
      } else {
        assert rest[|rest| - 1] == parts[|parts| - 1];
      }
    }
  }

  lemma {:induction false} EncodedConcat(rs: seq<Record>, ts: seq<Record>)
    requires (forall r | r in rs :: Fits(r)) && (forall r | r in ts :: Fits(r))
    ensures (forall r | r in rs + ts :: Fits(r)) && Encoded(rs + ts) == Encoded(rs) + Encoded(ts)
    decreases |rs|
  {
    if rs == [] {
      assert rs + ts == ts && Encoded(rs) + Encoded(ts) == Encoded(ts);
    } else {
      var all := rs + ts;
      assert all[0] == rs[0] && all[1..] == rs[1..] + ts;
      EncodedConcat(rs[1..], ts);
      assert Encoded(all) == [Encode(all[0])] + Encoded(all[1..]);
      Regroup([Encode(rs[0])], Encoded(rs[1..]), Encoded(ts));
    }
  }

  lemma Regroup(x: seq<Bytes>, y: seq<Bytes>, z: seq<Bytes>)
    ensures x + (y + z) == (x + y) + z
  {
  }

  /** Passes that succeeded wrote the records of the session. */
  lemma {:induction false} PassData(s: Saver, hs: seq<Happening>, parts: seq<Part>)
    requires SavingOk(s, hs) && PassParts(s, hs, parts) && forall p | p in parts :: Succeeded(p.call)
    ensures forall r | r in Saving(s, hs).1 :: Fits(r)
    ensures Data(parts) == Encoded(Saving(s, hs).1)
    decreases |hs|
  {
    if hs != [] {
      match hs[0]
      case Device(op) => PassData(AfterOp(s, op), hs[1..], parts);
      case Pass(vm) =>
        assert parts[0] in parts;
        PassData(AfterPass(s), hs[1..], parts[1..]);
        EncodedConcat(PassRecords(s, vm), Saving(AfterPass(s), hs[1..]).1);
    }
  }

  lemma {:induction false} DataConcat(a: seq<Part>, b: seq<Part>)
    ensures Data(a + b) == Data(a) + Data(b)
    decreases |a|
  {
    if a == [] {
      assert a + b == b && Data(a) + Data(b) == Data(b);
    } else {
      var all := a + b;
      assert all[0] == a[0] && all[1..] == a[1..] + b;
      DataConcat(a[1..], b);
      Regroup(a[0].data, Data(a[1..]), Data(b));
    }
  }

  lemma {:induction false} CallsAt(parts: seq<Part>, k: nat)
    requires k < |parts|
    ensures Calls(parts)[k] == parts[k].call
    decreases k
  {
    if k > 0 {
      CallsAt(parts[1..], k - 1);
    }
  }

  /** In a good session every call succeeded. */
  lemma {:induction false} GoodCalls(parts: seq<Part>, live: bool)
    requires M.GoodSession(Calls(parts), live)
    ensures forall p | p in parts :: Succeeded(p.call)
    ensures parts[|parts| - 1].call == M.Finished(true)
  {
    var calls := Calls(parts);
    CallsAt(parts, |parts| - 1);
    forall p | p in parts
      ensures Succeeded(p.call)
    {
      var k :| 0 <= k < |parts| && parts[k] == p;
      CallsAt(parts, k);
      if k < |parts| - 1 {
        assert calls[..|calls| - 1][k] == calls[k];
      }
    }
  }

  /** The parts of a session in order. */
  function All(first: Part, passes: seq<Part>, last: Part): (parts: seq<Part>)
    ensures |parts| == |passes| + 2
  {
    [first] + passes + [last]
  }

  lemma AllData(first: Part, passes: seq<Part>, last: Part)
    ensures Data(All(first, passes, last)) == first.data + Data(passes) + last.data
  {
    DataConcat([first] + passes, [last]);
    DataConcat([first], passes);
    OnePart(first);
    OnePart(last);
  }

  lemma OnePart(p: Part)
    ensures Data([p]) == p.data
  {
    assert [p][1..] == [];
    assert p.data + [] == p.data;
  }

  /** The writes of a session all of whose calls succeeded are those of its records. */
  lemma GoodWrites(v: Vga, hs: seq<Happening>, first: Part, passes: seq<Part>, last: Part, live: bool, w: Writer,
                   a: Answer)
    requires SavingOk(Started(v), hs) && Wrote(v, hs, first, passes, last) && Honest(w, All(first, passes, last), a)
    requires M.GoodSession(Calls(All(first, passes, last)), live)
    ensures var (rs, answers) := (Saving(Started(v), hs).1, Answers(All(first, passes, last)));
      && (forall r | r in rs :: Fits(r)) && |answers| == |Chunks(rs)|
      && Data(All(first, passes, last)) == Chunks(rs)
      && AllWritten(w, Chunks(rs), answers) && Write(AfterWrites(w, Chunks(rs), answers), [], a).1
  {
    var parts := All(first, passes, last);
    GoodCalls(parts, live);
    assert forall p | p in passes :: p in parts;
    PassData(Started(v), hs, passes);
    AllData(first, passes, last);
    HonestWritten(w, parts, a);
  }

  /** What is in the sink at the end. */
  function SinkAfter(w: Writer, parts: seq<Part>, a: Answer): Bytes {
    if |Data(parts)| == |Answers(parts)|
    then Write(AfterWrites(w, Data(parts), Answers(parts)), [], a).0.sink else w.sink
  }

  lemma GoodSink(v: Vga, hs: seq<Happening>, first: Part, passes: seq<Part>, last: Part, live: bool, w: Writer,
                 prior: Bytes, a: Answer)
    requires SavingOk(Started(v), hs) && Wrote(v, hs, first, passes, last) && Honest(w, All(first, passes, last), a)
    requires M.GoodSession(Calls(All(first, passes, last)), live) && Fresh(w, prior)
    ensures var parts := All(first, passes, last);
        SavedInto(SinkAfter(w, parts, a), w, prior, Saving(Started(v), hs).1, Answers(parts), a)
  {
    GoodWrites(v, hs, first, passes, last, live, w, a);
  }

  /** A session whose calls the worker reported a success for: what it wrote, and how it was answered. */
  ghost predicate Reported(sem: nat, sts: seq<M.Step>, r: M.Report, v: Vga, hs: seq<Happening>,
                           first: Part, passes: seq<Part>, last: Part)
  {
    && M.RunOk(M.Initial(sem), sts) && r in M.Run(M.Initial(sem), sts).reports && r.success
    && SavingOk(Started(v), hs) && hs != [] && hs[|hs| - 1].Pass?
    && Wrote(v, hs, first, passes, last) && Calls(All(first, passes, last)) == r.calls
  }

  /** Every reported success, after any run of commands and calls, left the session's bytes in its sink,
      header, records of all its passes and close, and those bytes restore the state of the last pass. */
  lemma ReportedIsSaved(sem: nat, sts: seq<M.Step>, r: M.Report, v: Vga, hs: seq<Happening>, first: Part,
                        passes: seq<Part>, last: Part, w: Writer, prior: Bytes, a: Answer, copy: Dev,
                        accept: Bytes -> bool)
    requires Reported(sem, sts, r, v, hs, first, passes, last) && forall vm | vm in Sent(hs) :: accept(vm)
    requires Fresh(w, prior) && Honest(w, All(first, passes, last), a)
    ensures var (s, rs) := Saving(Started(v), hs);
      && (forall x | x in rs :: Fits(x))
      && var (sink, rest) := (SinkAfter(w, All(first, passes, last), a), Leftover(w.socket, rs, prior));
         && sink == SessionBytes(rs) + rest
         && RestoredAs(Resume(Target(copy, []), sink, Handlers(LoadRecord, accept)), s.dev.vga, Polls(v, hs), Sent(hs),
                       rest)
  {
    M.SuccessIsComplete(sem, sts);
    GoodSink(v, hs, first, passes, last, r.live, w, prior, a);
    var (rs, parts) := (Saving(Started(v), hs).1, All(first, passes, last));
    SinkSaved(v, hs, w, prior, rs, Answers(parts), a, SinkAfter(w, parts, a), copy, accept);
  }

  lemma SinkSaved(v: Vga, hs: seq<Happening>, w: Writer, prior: Bytes, rs: seq<Record>, answers: seq<Answer>, a: Answer,
                  sink: Bytes, copy: Dev, accept: Bytes -> bool)
    requires SavingOk(Started(v), hs) && hs != [] && hs[|hs| - 1].Pass? && forall vm | vm in Sent(hs) :: accept(vm)
    requires rs == Saving(Started(v), hs).1 && SavedInto(sink, w, prior, rs, answers, a)
    ensures sink == SessionBytes(rs) + Leftover(w.socket, rs, prior)
    ensures RestoredAs(Resume(Target(copy, []), sink, Handlers(LoadRecord, accept)), Saving(Started(v), hs).0.dev.vga,
                       Polls(v, hs), Sent(hs), Leftover(w.socket, rs, prior))
  {
    SinkHolds(sink, w, prior, rs, answers, a);
    SinkIsRestored(v, copy, hs, accept, sink, w, prior, answers, a);
  }

  /** And its last pass found the plugin with nothing to send, after a pause if the session was live. */
  lemma ReportedIsFinal(sem: nat, sts: seq<M.Step>, r: M.Report, v: Vga, hs: seq<Happening>, first: Part,
                        passes: seq<Part>, last: Part)
    requires Reported(sem, sts, r, v, hs, first, passes, last)
    ensures hs[|hs| - 1].vm == [] && M.LastPassFinal(r.calls[..|r.calls| - 1], r.live)
  {
    M.SuccessIsComplete(sem, sts);
    FinalPass(Started(v), hs, first, passes, last, r.live);
  }

  lemma FinalPass(s: Saver, hs: seq<Happening>, first: Part, passes: seq<Part>, last: Part, live: bool)
    requires SavingOk(s, hs) && PassParts(s, hs, passes) && hs != [] && hs[|hs| - 1].Pass?
    requires M.GoodSession(Calls(All(first, passes, last)), live)
    ensures hs[|hs| - 1].vm == []
  {
    GoodCalls(All(first, passes, last), live);
    assert forall p | p in passes :: p in All(first, passes, last);
    LastPassEmpty(s, hs, passes);
    LastCall(first, passes, last);
  }

  lemma LastCall(first: Part, passes: seq<Part>, last: Part)
    requires passes != []
    ensures var calls := Calls(All(first, passes, last));
            calls[..|calls| - 1][|calls| - 2] == passes[|passes| - 1].call
  {
    CallsAt(All(first, passes, last), |passes|);
  }

  /** The last pass of the session is the last pass called. */
  lemma {:induction false} LastPassEmpty(s: Saver, hs: seq<Happening>, parts: seq<Part>)
    requires SavingOk(s, hs) && PassParts(s, hs, parts) && hs != [] && hs[|hs| - 1].Pass?
    requires forall p | p in parts :: Succeeded(p.call)
    ensures parts != [] && parts[|parts| - 1].call.Passed?
    ensures parts[|parts| - 1].call.r == 0 <==> hs[|hs| - 1].vm == []
    decreases |hs|
  {
    if |hs| > 1 {
      assert hs[1..][|hs[1..]| - 1] == hs[|hs| - 1];
      match hs[0]
      case Device(op) => LastPassEmpty(AfterOp(s, op), hs[1..], parts);
      case Pass(vm) =>
        LastPassEmpty(AfterPass(s), hs[1..], parts[1..]);
        assert parts[1..][|parts[1..]| - 1] == parts[|parts| - 1];
    } else {
      assert parts[0] in parts && hs[1..] == [];
      assert parts[1..] == [];
    }
  }
}
